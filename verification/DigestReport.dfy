/** The report as it is mailed: categories and their domains in alphabetical order. */
module DigestReport {
  datatype Accumulator = Accumulator(groupName: string, reason: string, domains: map<string, map<string, int>>)

  datatype DomainPeriods = DomainPeriods(domain: string, counts: map<string, int>)

  datatype CategoryDigest = CategoryDigest(category: string, groupName: string, reason: string,
                                           domains: seq<DomainPeriods>)

  // ---- alphabetical order ----------------------------------------------------

  predicate Below(a: string, b: string) {
    b != "" && (a == "" || a[0] < b[0] || (a[0] == b[0] && Below(a[1..], b[1..])))
  }

  /** They agree before position `i`, and there the first ends or has the smaller character. */
  predicate PartAt(a: string, b: string, i: int) {
    0 <= i <= |a| && i < |b| && a[..i] == b[..i] && (i == |a| || a[i] < b[i])
  }

  lemma PartLater(a: string, b: string, i: int)
    requires PartAt(a, b, i) && i > 0
    ensures a != "" && b != "" && a[0] == b[0]
  {
    assert a[..i][0] == a[0] && b[..i][0] == b[0];
  }

  /** One text is below another exactly when it comes first in the dictionary. */
  lemma {:induction false} BelowIsAlphabetical(a: string, b: string)
    ensures Below(a, b) <==> exists i :: PartAt(a, b, i)
  {
    if a != "" && b != "" && a[0] == b[0] {
      BelowIsAlphabetical(a[1..], b[1..]);
      if i :| PartAt(a[1..], b[1..], i) {
        assert a[..i + 1] == [a[0]] + a[1..][..i] && b[..i + 1] == [b[0]] + b[1..][..i];
        assert PartAt(a, b, i + 1);
      }
      if i :| PartAt(a, b, i) {
        assert i > 0 && a[1..][..i - 1] == a[..i][1..] && b[1..][..i - 1] == b[..i][1..];
        assert PartAt(a[1..], b[1..], i - 1);
      }
    } else {
      if Below(a, b) {
        assert a[..0] == b[..0] && PartAt(a, b, 0);
      }
      if i :| PartAt(a, b, i) && i > 0 {
        PartLater(a, b, i);
      }
    }
  }

  lemma {:induction false} BelowIsTotal(a: string, b: string)
    ensures a == b || Below(a, b) || Below(b, a)
    ensures !(Below(a, b) && Below(b, a)) && !Below(a, a)
  {
    if a != "" && b != "" {
      BelowIsTotal(a[1..], b[1..]);
      assert a == [a[0]] + a[1..] && b == [b[0]] + b[1..];
    }
    if a != "" {
      BelowIsTotal(a[1..], a[1..]);
    }
  }

  lemma {:induction false} BelowIsTransitive(a: string, b: string, c: string)
    requires Below(a, b) && Below(b, c)
    ensures Below(a, c)
  {
    if a != "" && a[0] == b[0] == c[0] {
      BelowIsTransitive(a[1..], b[1..], c[1..]);
    }
  }

  predicate Increasing(keys: seq<string>) {
    forall i, j | 0 <= i < j < |keys| :: Below(keys[i], keys[j])
  }

  function Inserted(keys: seq<string>, key: string): seq<string> {
    if keys == [] then [key]
    else if Below(key, keys[0]) then [key] + keys
    else [keys[0]] + Inserted(keys[1..], key)
  }

  lemma {:induction false} InsertedMember(keys: seq<string>, key: string, x: string)
    ensures x in Inserted(keys, key) <==> x in keys || x == key
  {
    if keys != [] && !Below(key, keys[0]) {
      InsertedMember(keys[1..], key, x);
      assert keys == [keys[0]] + keys[1..];
    }
  }

  lemma {:induction false} InsertedIncreasing(keys: seq<string>, key: string)
    requires Increasing(keys) && key !in keys
    ensures Increasing(Inserted(keys, key))
  {
    if keys != [] {
      var more := Inserted(keys, key);
      if Below(key, keys[0]) {
        forall j | 0 < j < |keys| ensures Below(key, keys[j]) { BelowIsTransitive(key, keys[0], keys[j]); }
      } else {
        BelowIsTotal(key, keys[0]);
        InsertedIncreasing(keys[1..], key);
        forall j | 0 <= j < |more| - 1
          ensures Below(keys[0], more[1..][j])
        {
          InsertedMember(keys[1..], key, more[1..][j]);
        }
      }
    }
  }

  /** There is one increasing list of given elements. */
  lemma {:induction false} IncreasingIsUnique(a: seq<string>, b: seq<string>)
    requires Increasing(a) && Increasing(b) && forall x :: x in a <==> x in b
    ensures a == b
  {
    assert |b| > 0 ==> b[0] in b;
    if a != [] {
      assert a[0] in b && b[0] in a;
      var i :| 0 <= i < |b| && b[i] == a[0];
      var j :| 0 <= j < |a| && a[j] == b[0];
      BelowIsTotal(a[0], b[0]);
      forall x
        ensures x in a[1..] <==> x in b[1..]
      {
        BelowIsTotal(a[0], a[0]);
        assert x in a[1..] ==> x in b && x != a[0];
        assert x in b[1..] ==> x in a && x != b[0];
      }
      IncreasingIsUnique(a[1..], b[1..]);
    }
  }

  /** Lists keys in any order and sorts them. */
  method Sorted(keys: set<string>) returns (sorted: seq<string>)
    ensures Increasing(sorted) && forall x :: x in sorted <==> x in keys
  {
    sorted := [];
    var todo := keys;
    while todo != {}
      invariant todo <= keys && Increasing(sorted)
      invariant forall x :: x in sorted <==> x in keys && x !in todo
      decreases todo
    {
      var key :| key in todo;
      todo := todo - {key};
      InsertedIncreasing(sorted, key);
      forall x ensures x in Inserted(sorted, key) <==> x in sorted || x == key { InsertedMember(sorted, key, x); }
      sorted := Inserted(sorted, key);
    }
  }

  // ---- the mailed report -----------------------------------------------------

  function DomainsOf(list: seq<DomainPeriods>): (r: seq<string>)
    ensures |r| == |list| && forall i | 0 <= i < |list| :: r[i] == list[i].domain
  {
    seq(|list|, i requires 0 <= i < |list| => list[i].domain)
  }

  function CategoriesOf(list: seq<CategoryDigest>): (r: seq<string>)
    ensures |r| == |list| && forall i | 0 <= i < |list| :: r[i] == list[i].category
  {
    seq(|list|, i requires 0 <= i < |list| => list[i].category)
  }

  /** The domains of a category in alphabetical order, each with its counts. */
  ghost predicate ListsDomains(list: seq<DomainPeriods>, domains: map<string, map<string, int>>) {
    && Increasing(DomainsOf(list)) && (forall d :: d in DomainsOf(list) <==> d in domains)
    && forall i | 0 <= i < |list| :: list[i].domain in domains && list[i].counts == domains[list[i].domain]
  }

  predicate Named(item: CategoryDigest, report: map<string, Accumulator>) {
    && item.category in report && item.groupName == report[item.category].groupName
    && item.reason == report[item.category].reason
  }

  /** The categories in alphabetical order, each with its name, its reason and its domains. */
  ghost predicate Lists(list: seq<CategoryDigest>, report: map<string, Accumulator>) {
    && Increasing(CategoriesOf(list)) && (forall c :: c in CategoriesOf(list) <==> c in report)
    && forall i | 0 <= i < |list| ::
         Named(list[i], report) && ListsDomains(list[i].domains, report[list[i].category].domains)
  }

  lemma DomainListIsUnique(a: seq<DomainPeriods>, b: seq<DomainPeriods>, domains: map<string, map<string, int>>)
    requires ListsDomains(a, domains) && ListsDomains(b, domains)
    ensures a == b
  {
    IncreasingIsUnique(DomainsOf(a), DomainsOf(b));
    forall i | 0 <= i < |a|
      ensures a[i] == b[i]
    {
      assert DomainsOf(a)[i] == DomainsOf(b)[i];
    }
  }

  /** The order of the mailed report is determined: what was accumulated is listed in one way only. */
  lemma ReportListIsUnique(a: seq<CategoryDigest>, b: seq<CategoryDigest>, report: map<string, Accumulator>)
    requires Lists(a, report) && Lists(b, report)
    ensures a == b
  {
    hide Increasing, ListsDomains;
    IncreasingIsUnique(CategoriesOf(a), CategoriesOf(b));
    forall i | 0 <= i < |a|
      ensures a[i] == b[i]
    {
      assert CategoriesOf(a)[i] == CategoriesOf(b)[i];
      assert Named(a[i], report) && Named(b[i], report);
      DomainListIsUnique(a[i].domains, b[i].domains, report[a[i].category].domains);
    }
  }

  method ListDomains(domains: map<string, map<string, int>>) returns (list: seq<DomainPeriods>)
    ensures ListsDomains(list, domains)
  {
    hide Increasing;
    var keys := Sorted(domains.Keys);
    list := [];
    for i := 0 to |keys|
      invariant |list| == i
      invariant forall k | 0 <= k < i :: list[k] == DomainPeriods(keys[k], domains[keys[k]])
    {
      assert keys[i] in domains.Keys;
      list := list + [DomainPeriods(keys[i], domains[keys[i]])];
    }
    assert DomainsOf(list) == keys;
  }

  method ListCategories(report: map<string, Accumulator>) returns (list: seq<CategoryDigest>)
    ensures Lists(list, report)
  {
    hide Increasing, ListsDomains;
    var keys := Sorted(report.Keys);
    list := [];
    for i := 0 to |keys|
      invariant |list| == i
      invariant forall k | 0 <= k < i ::
                  && list[k].category == keys[k] && Named(list[k], report)
                  && ListsDomains(list[k].domains, report[keys[k]].domains)
    {
      assert keys[i] in report.Keys;
      var bucket := report[keys[i]];
      var domains := ListDomains(bucket.domains);
      list := list + [CategoryDigest(keys[i], bucket.groupName, bucket.reason, domains)];
    }
    assert CategoriesOf(list) == keys;
  }
}
