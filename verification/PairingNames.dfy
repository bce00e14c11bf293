/** The DNS names of pairing challenges: how they are built and recognised. */
module PairingNames {
  import opened Text

  /** `strings.Trim(strings.ToLower(suffix), ".")`. */
  function NormalSuffix(suffix: string): string {
    DropDots(Lower(suffix))
  }

  function DropDots(s: string): string {
    if s != "" && s[0] == '.' then DropDots(s[1..])
    else if s != "" && s[|s| - 1] == '.' then DropDots(s[..|s| - 1])
    else s
  }

  function DnsName(token: string, suffix: string): string {
    token + "." + suffix
  }

  /** The token in a query name: the one label in front of the suffix. */
  function ObservedToken(suffix: string, queryName: string): Option<string> {
    var name := TrimSuffix(Lower(TrimSpace(queryName)), ".");
    if !HasSuffix(name, "." + suffix) then None
    else
      var token := TrimSuffix(name, "." + suffix);
      if token == "" || '.' in token then None else Some(token)
  }

  /** A generated token: not empty, lower-case, without dots or white space. */
  predicate TokenText(token: string) {
    token != "" && Lower(token) == token && forall i | 0 <= i < |token| :: token[i] != '.' && !IsSpace(token[i])
  }

  lemma {:induction false} DropDotsEnds(s: string)
    ensures DropDots(s) != "" ==> DropDots(s)[0] != '.' && DropDots(s)[|DropDots(s)| - 1] != '.'
    ensures Lower(s) == s ==> Lower(DropDots(s)) == DropDots(s)
    decreases |s|
  {
    if s != "" && s[0] == '.' {
      assert Lower(s)[1..] == Lower(s[1..]);
      DropDotsEnds(s[1..]);
    } else if s != "" && s[|s| - 1] == '.' {
      assert Lower(s)[..|s| - 1] == Lower(s[..|s| - 1]);
      DropDotsEnds(s[..|s| - 1]);
    }
  }

  lemma LowerOwnName(token: string, suffix: string)
    requires TokenText(token) && Lower(suffix) == suffix
    ensures Lower(DnsName(token, suffix)) == DnsName(token, suffix)
  {
    var name := DnsName(token, suffix);
    forall i | 0 <= i < |name| ensures LowerChar(name[i]) == name[i] {
      if i < |token| {
        assert Lower(token)[i] == token[i];
      } else if i > |token| {
        assert Lower(suffix)[i - |token| - 1] == suffix[i - |token| - 1];
      }
    }
  }

  /** What a proper prefix of a handed-out name ends in is not the whole suffix. */
  lemma ShortenedNameFails(token: string, suffix: string, u: string)
    requires TokenText(token) && u <= DnsName(token, suffix) && |u| < |DnsName(token, suffix)|
    ensures !HasSuffix(u, "." + suffix)
  {
    var k := |u| - |suffix| - 1;
    if k >= 0 {
      assert u[k] == DnsName(token, suffix)[k] == token[k];
      assert u[k..][0] == token[k] && ("." + suffix)[0] == '.';
    }
  }

  lemma TrimsEnd(name: string)
    requires name != "" && !IsSpace(name[0])
    ensures TrimSpace(name) <= name
    ensures TrimSpace(name) == name <==> !IsSpace(name[|name| - 1])
  {
    TrimRightStops(name);
    TrimSpaceStops(name);
  }

  lemma TokenInFront(token: string, suffix: string)
    requires suffix != "" && suffix[|suffix| - 1] != '.'
    ensures var name := DnsName(token, suffix);
            TrimSuffix(name, ".") == name && HasSuffix(name, "." + suffix) && TrimSuffix(name, "." + suffix) == token
  {
    var name := DnsName(token, suffix);
    assert name[|name| - 1..] == [suffix[|suffix| - 1]];
    assert name[|token|..] == "." + suffix && name[..|token|] == token;
  }

  lemma TokenStarts(token: string)
    requires TokenText(token)
    ensures token != "" && !IsSpace(token[0]) && '.' !in token
  {
  }

  lemma RecognisesOwnName(token: string, suffix: string)
    requires TokenText(token) && Lower(suffix) == suffix
    requires suffix != "" && suffix[|suffix| - 1] != '.' && !IsSpace(suffix[|suffix| - 1])
    ensures ObservedToken(suffix, DnsName(token, suffix)) == Some(token)
  {
    hide Lower, TrimSpace, TrimSuffix, HasSuffix, TokenText;
    var name := DnsName(token, suffix);
    LowerOwnName(token, suffix);
    TokenStarts(token);
    TrimsEnd(name);
    assert TrimSpace(name) == name;
    TokenInFront(token, suffix);
  }

  lemma DropsDot(t: string)
    ensures TrimSuffix(t, ".") <= t
    ensures t != "" && t[|t| - 1] == '.' ==> |TrimSuffix(t, ".")| < |t|
  {
    if t != "" { assert t[|t| - 1..] == [t[|t| - 1]]; }
  }

  lemma MissesOwnName(token: string, suffix: string)
    requires TokenText(token) && Lower(suffix) == suffix
    requires suffix == "" || IsSpace(suffix[|suffix| - 1])
    ensures ObservedToken(suffix, DnsName(token, suffix)) == None
  {
    hide Lower, TrimSpace, TrimSuffix, HasSuffix;
    var name := DnsName(token, suffix);
    LowerOwnName(token, suffix);
    TrimsEnd(name);
    LowerTrimSpace(name);
    DropsDot(TrimSpace(name));
    ShortenedNameFails(token, suffix, TrimSuffix(TrimSpace(name), "."));
  }

  /** The manager recognises the names it hands out exactly when its suffix is not empty and does not
      end in white space. */
  lemma OwnNamesAreRecognised(token: string, rawSuffix: string)
    requires TokenText(token)
    ensures var suffix := NormalSuffix(rawSuffix);
            ObservedToken(suffix, DnsName(token, suffix)) == Some(token) <==>
            suffix != "" && !IsSpace(suffix[|suffix| - 1])
  {
    var suffix := NormalSuffix(rawSuffix);
    LowerIdempotent(rawSuffix);
    DropDotsEnds(Lower(rawSuffix));
    if suffix == "" || IsSpace(suffix[|suffix| - 1]) {
      MissesOwnName(token, suffix);
    } else {
      RecognisesOwnName(token, suffix);
    }
  }
}
