/** Host and domain names: the Go normaliser, its JavaScript mirror, and domain matching. */
module Names {
  import opened Text

  predicate Forbidden(c: char) {
    c == ' ' || c == '/' || c == ':' || c == '@'
  }

  /** The last two checks both normalisers make. */
  function Checked(name: string): Option<string> {
    if name == "" || exists i | 0 <= i < |name| :: Forbidden(name[i]) then None else Some(name)
  }

  /** The Go control plane's normaliser: trim, drop one final dot, lower-case. */
  function NormalizeName(value: string): Option<string> {
    Checked(Lower(TrimSuffix(TrimSpace(value), ".")))
  }

  /** The extension's normaliser: lower-case, trim, drop one final dot. */
  function NormalizeHostname(value: string): Option<string> {
    Checked(TrimSuffix(TrimSpace(Lower(value)), "."))
  }

  /** A name that normalisation leaves alone. */
  predicate Stable(name: string) {
    NormalizeName(name) == Some(name)
  }

  /** True unless the trimmed value ends in a dot that follows another dot or white space:
      exactly the values whose normal form changes again when it is normalised again. */
  predicate Settled(value: string) {
    var t := TrimSpace(value);
    !(|t| >= 2 && t[|t| - 1] == '.' && (t[|t| - 2] == '.' || IsSpace(t[|t| - 2])))
  }

  /** A domain covers itself and every name that ends in a dot and the domain. */
  predicate Covers(domain: string, name: string) {
    name == domain || HasSuffix(name, "." + domain)
  }

  /** Both normalisers agree on every ASCII value. */
  lemma NormalizersAgree(value: string)
    ensures NormalizeHostname(value) == NormalizeName(value)
  {
    hide Lower;
    LowerTrimSpace(value);
    var t := TrimSpace(value);
    if t != "" {
      assert t[|t| - 1..] == [t[|t| - 1]];
      assert Lower(t)[|t| - 1..] == [LowerChar(t[|t| - 1])];
      assert Lower(t[..|t| - 1]) == Lower(t)[..|t| - 1];
    }
  }

  lemma TrimKeeps(s: string)
    requires s != "" && !IsSpace(s[0]) && !IsSpace(s[|s| - 1])
    ensures TrimSpace(s) == s
  {
  }

  /** A name is stable exactly when it is lower-case, has no forbidden character and no white
      space at its ends, and does not end in a dot. */
  lemma StableCharacterised(name: string)
    ensures Stable(name) <==>
      name != "" && Lower(name) == name &&
      (forall i | 0 <= i < |name| :: name[i] != ' ' && name[i] != '/' && name[i] != ':' && name[i] != '@') &&
      !IsSpace(name[0]) && !IsSpace(name[|name| - 1]) && name[|name| - 1] != '.'
  {
    hide TrimLeft, TrimRight, Lower;
    TrimSpaceStops(name);
    TrimLeftStops(name);
    TrimRightStops(TrimLeft(name));
    if name != "" && !IsSpace(name[0]) && !IsSpace(name[|name| - 1]) {
      TrimKeeps(name);
      assert name[|name| - 1..] == [name[|name| - 1]];
      LowerIdempotent(name);
    }
  }

  /** Normalising twice is normalising once exactly on settled values. */
  lemma NormalFormIsStable(value: string, name: string)
    requires NormalizeName(value) == Some(name)
    ensures Stable(name) <==> Settled(value)
  {
    hide Lower, TrimSpace, Stable;
    var t := TrimSpace(value);
    var u := TrimSuffix(t, ".");
    TrimSpaceStops(value);
    LowerIdempotent(u);
    StableCharacterised(name);
    assert t[|t| - 1..] == [t[|t| - 1]];
    assert name[|name| - 1] == LowerChar(u[|u| - 1]);
    assert name[0] == LowerChar(t[0]);
  }

  /** The case of a value does not matter. */
  lemma NormalizeIgnoresCase(value: string)
    ensures NormalizeName(Lower(value)) == NormalizeName(value)
  {
    hide TrimSpace, Lower;
    LowerTrimSpace(value);
    var t := TrimSpace(value);
    LowerIdempotent(t);
    LowerIdempotent(TrimSuffix(t, "."));
    LowerSuffix(t);
  }

  lemma LowerSuffix(t: string)
    ensures TrimSuffix(Lower(t), ".") == Lower(TrimSuffix(t, "."))
  {
    hide Lower;
    if t != "" {
      assert t[|t| - 1..] == [t[|t| - 1]];
      assert Lower(t)[|t| - 1..] == [LowerChar(t[|t| - 1])];
      assert Lower(t[..|t| - 1]) == Lower(t)[..|t| - 1];
    }
  }

  /** Nor does white space around it. */
  lemma NormalizeIgnoresSpace(value: string, c: char)
    requires c == ' ' || '\t' <= c <= '\r'
    ensures NormalizeName([c] + value) == NormalizeName(value) == NormalizeName(value + [c])
  {
    TrimIgnoresSpace(value, c);
  }

  lemma TrimIgnoresSpace(value: string, c: char)
    requires IsSpace(c)
    ensures TrimSpace([c] + value) == TrimSpace(value) == TrimSpace(value + [c])
  {
    assert ([c] + value)[1..] == value;
    TrimLeftAppend(value, c);
    var t := TrimLeft(value);
    assert (t + [c])[..|t|] == t;
  }

  lemma {:induction false} TrimLeftAppend(value: string, c: char)
    requires IsSpace(c)
    ensures TrimLeft(value + [c]) == if TrimLeft(value) == "" then "" else TrimLeft(value) + [c]
  {
    if value == "" {
      assert (value + [c])[1..] == "";
    } else if IsSpace(value[0]) {
      assert (value + [c])[1..] == value[1..] + [c];
      TrimLeftAppend(value[1..], c);
    }
  }

  /** A name with a final dot has that name as its normal form. */
  lemma NormalizeDropsDot(name: string)
    requires Stable(name)
    ensures NormalizeName(name + ".") == Some(name)
  {
    StableCharacterised(name);
    hide TrimSpace, Lower;
    var dotted := name + ".";
    TrimKeeps(dotted);
    assert dotted[|dotted| - 1..] == "." && dotted[..|dotted| - 1] == name;
  }

  /** A value has a normal form exactly when what trimming and dropping one final dot leave of it is not empty and has
      none of four characters in it; the normal form is that with its capitals in lower case. */
  lemma NormalFormExists(value: string)
    ensures var trimmed := TrimSuffix(TrimSpace(value), ".");
            NormalizeName(value).Some? <==>
            trimmed != "" && forall i | 0 <= i < |trimmed| ::
              trimmed[i] != ' ' && trimmed[i] != '/' && trimmed[i] != ':' && trimmed[i] != '@'
    ensures var trimmed := TrimSuffix(TrimSpace(value), ".");
            NormalizeName(value).Some? ==>
              && |NormalizeName(value).value| == |trimmed|
              && forall i | 0 <= i < |trimmed| ::
                   NormalizeName(value).value[i] ==
                   if 'A' <= trimmed[i] <= 'Z' then (trimmed[i] as int + 32) as char else trimmed[i]
  {
    hide TrimSpace, Lower, TrimSuffix;
    var trimmed := TrimSuffix(TrimSpace(value), ".");
    assert forall i | 0 <= i < |trimmed| :: Forbidden(Lower(trimmed)[i]) <==> Forbidden(trimmed[i]);
  }

  /** Two domains of one length that cover the same name are the same string. */
  lemma EqualLengthCover(d: string, e: string, name: string)
    requires Covers(d, name) && Covers(e, name) && |d| == |e|
    ensures d == e
  {
    assert d == name[|name| - |d|..];
    assert e == name[|name| - |e|..];
  }

  /** The double dot that survives one normalisation and not the next. */
  lemma DoubleDotIsNotIdempotent()
    ensures NormalizeName("a..") == Some("a.") && NormalizeName("a.") == Some("a")
  {
    TrimKeeps("a..");
    TrimKeeps("a.");
    assert "a.."[2..] == "." && "a.."[..2] == "a.";
    assert "a."[1..] == "." && "a."[..1] == "a";
    assert Lower("a.") == "a." && Lower("a") == "a";
  }
}
