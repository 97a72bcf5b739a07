/** The string helpers the scripts lean on: whitespace, strip, and joining. */
module Text {

  /** The characters `str.isspace` accepts, which are also those `\s` matches. */
  predicate IsSpace(c: char) {
    || '\t' <= c <= '\r'
    || '\U{1C}' <= c <= ' '
    || c == '\U{85}' || c == '\U{A0}' || c == '\U{1680}'
    || '\U{2000}' <= c <= '\U{200A}'
    || c == '\U{2028}' || c == '\U{2029}' || c == '\U{202F}' || c == '\U{205F}' || c == '\U{3000}'
  }

  predicate Blank(s: string) {
    forall i :: 0 <= i < |s| ==> IsSpace(s[i])
  }

  function LStrip(s: string): (r: string)
    ensures |r| <= |s| && r == s[|s| - |r|..]
    ensures Blank(s[..|s| - |r|])
    ensures r != [] ==> !IsSpace(r[0])
  {
    if s != [] && IsSpace(s[0]) then
      var r := LStrip(s[1..]);
      assert s[..|s| - |r|] == [s[0]] + s[1..][..|s| - 1 - |r|];
      r
    else s
  }

  function RStrip(s: string): (r: string)
    ensures |r| <= |s| && r == s[..|r|]
    ensures Blank(s[|r|..])
    ensures r != [] ==> !IsSpace(r[|r| - 1])
  {
    if s != [] && IsSpace(s[|s| - 1]) then
      var r := RStrip(s[..|s| - 1]);
      assert s[|r|..] == s[..|s| - 1][|r|..] + [s[|s| - 1]];
      r
    else s
  }

  function Strip(s: string): (r: string)
    ensures r == [] <==> Blank(s)
    ensures r != [] ==> !IsSpace(r[0]) && !IsSpace(r[|r| - 1])
  {
    RStrip(LStrip(s))
  }

  /** `strip` takes the whitespace at both ends and nothing between. */
  lemma StripIsMiddle(a: string, middle: string, b: string)
    requires Blank(a) && Blank(b)
    requires middle != "" ==> !IsSpace(middle[0]) && !IsSpace(middle[|middle| - 1])
    ensures Strip(a + middle + b) == middle
  {
    hide IsSpace, LStrip, RStrip, Blank;
    Regroup(a, middle, b);
    LStripOf(a, middle + b);
    if middle == "" {
      LStripOf(b, "");
      Regroup(b, "", "");
      NothingToStrip();
    } else {
      assert (middle + b)[0] == middle[0];
      NoLead(middle + b);
      RStripOf(middle, b);
    }
  }

  lemma Regroup(a: string, middle: string, b: string)
    ensures a + middle + b == a + (middle + b) && a + "" == a && "" + b == b
  {
  }

  lemma NothingToStrip()
    ensures LStrip("") == "" && RStrip("") == ""
  {
  }

  lemma NoLead(s: string)
    requires s != "" && !IsSpace(s[0])
    ensures LStrip(s) == s
  {
  }

  lemma {:induction false} LStripOf(a: string, s: string)
    requires Blank(a)
    ensures LStrip(a + s) == LStrip(s)
  {
    hide IsSpace;
    if a == "" {
      assert a + s == s;
    } else {
      assert (a + s)[1..] == a[1..] + s;
      LStripOf(a[1..], s);
    }
  }

  lemma {:induction false} RStripOf(s: string, b: string)
    requires Blank(b) && s != "" && !IsSpace(s[|s| - 1])
    ensures RStrip(s + b) == s
    decreases |b|
  {
    hide IsSpace;
    if b == "" {
      assert s + b == s;
    } else {
      assert (s + b)[..|s + b| - 1] == s + b[..|b| - 1] && (s + b)[|s + b| - 1] == b[|b| - 1];
      RStripOf(s, b[..|b| - 1]);
    }
  }

  /** So it does nothing a second time. */
  lemma StripIdempotent(s: string)
    ensures Strip(Strip(s)) == Strip(s)
  {
    var r := Strip(s);
    if r != [] {
      assert LStrip(r) == r;
    }
  }

  /** `delimiter.join(parts)` for a one-character delimiter. */
  function Join(parts: seq<string>, delimiter: char): string {
    if parts == [] then ""
    else if |parts| == 1 then parts[0]
    else parts[0] + [delimiter] + Join(parts[1..], delimiter)
  }
}
