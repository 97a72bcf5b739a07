/**
 * The regular-expression scanners of scripts/build_repository_diagrams.py: `uncomment`
 * and `normalize`. Both are built on one pattern for a quoted literal.
 */
module SqlLiterals {
  import opened Outcomes
  import opened Text
  import Scan = SqlScanner

  // ---- The literal pattern ---------------------------------------------------------

  /**
   * What follows an opening quote: doubled quotes and other characters, greedily, then
   * a quote. When the text runs out after a doubled quote the match gives that pair
   * back and ends at its first quote.
   */
  function LitLen(s: string): (r: Option<nat>)
    ensures r.Some? ==> 1 <= r.value <= |s| && s[r.value - 1] == '\''
  {
    if s == [] then None
    else if s[0] != '\'' then
      match LitLen(s[1..]) case None => None case Some(n) => Some(n + 1)
    else if |s| > 1 && s[1] == '\'' then
      match LitLen(s[2..]) case None => Some(1) case Some(n) => Some(n + 2)
    else Some(1)
  }

  predicate NoQuote(s: string) {
    '\'' !in s
  }

  /** Text after which a literal can end: it does not prolong the literal. */
  predicate Follows(s: string) {
    s == [] || s[0] != '\'' || NoQuote(s[1..])
  }

  lemma {:induction false} UnmatchedMeansNoQuote(s: string)
    ensures LitLen(s) == None <==> NoQuote(s)
  {
    if s != [] {
      assert s == [s[0]] + s[1..];
      UnmatchedMeansNoQuote(s[1..]);
    }
  }

  lemma LitStep(s: string)
    requires s != []
    ensures LitLen(s) ==
            if s[0] != '\'' then (match LitLen(s[1..]) case None => None case Some(n) => Some(n + 1))
            else if |s| > 1 && s[1] == '\'' then (match LitLen(s[2..]) case None => Some(1) case Some(n) => Some(n + 2))
            else Some(1)
  {
  }

  lemma {:induction false} LitLenSplits(s: string)
    requires LitLen(s).Some?
    ensures var n := LitLen(s).value; LitLen(s[..n]) == Some(n) && Follows(s[n..])
    decreases |s|
  {
    hide LitLen;
    var n := LitLen(s).value;
    LitStep(s);
    LitStep(s[..n]);
    if s[0] != '\'' {
      LitLenSplits(s[1..]);
      assert s[..n][1..] == s[1..][..n - 1] && s[1..][n - 1..] == s[n..];
    } else if |s| > 1 && s[1] == '\'' {
      if LitLen(s[2..]).Some? {
        LitLenSplits(s[2..]);
        assert s[..n][2..] == s[2..][..n - 2] && s[2..][n - 2..] == s[n..];
      } else {
        UnmatchedMeansNoQuote(s[2..]);
        assert s[1..][1..] == s[2..];
      }
    }
  }

  lemma {:induction false} LitLenJoins(s: string, rest: string)
    requires LitLen(s) == Some(|s|) && Follows(rest)
    ensures LitLen(s + rest) == Some(|s|)
    decreases |s|
  {
    hide LitLen;
    var w := s + rest;
    LitStep(s);
    LitStep(w);
    if s[0] != '\'' {
      LitLenJoins(s[1..], rest);
      assert w[1..] == s[1..] + rest;
    } else if |s| > 1 {
      LitLenJoins(s[2..], rest);
      assert w[2..] == s[2..] + rest;
    } else if rest != [] && rest[0] == '\'' {
      assert w[2..] == rest[1..];
      UnmatchedMeansNoQuote(rest[1..]);
    }
  }

  /** How split_sql steps inside a single-quoted literal. */
  lemma QuotedStep(s: string, depth: int)
    requires s != []
    ensures Scan.Run(s, "'", depth) ==
            if s[0] != '\'' then Scan.Run(s[1..], "'", depth)
            else if |s| > 1 && s[1] == '\'' then Scan.Run(s[2..], "'", depth)
            else Scan.Run(s[1..], "", depth)
  {
    Scan.RunStep(s, "'", depth);
    hide Scan.Run;
    assert "'" <= s <==> s[0] == '\'';
    assert "''" <= s <==> |s| > 1 && s[0] == '\'' == s[1];
  }

  lemma SliceOfSlice(s: string, k: nat, n: nat)
    requires k <= n <= |s|
    ensures s[k..][n - k..] == s[n..]
    ensures n < |s| ==> s[k..][n - k] == s[n]
  {
  }

  /**
   * split_sql and the pattern end a literal at the same place, unless the text runs out
   * inside it; split_sql then never leaves the quote, and raises.
   */
  lemma {:induction false} LiteralEndsAgree(s: string, depth: int)
    ensures match LitLen(s)
            case Some(n) => if n < |s| && s[n] == '\'' then Scan.Run(s, "'", depth).0 == "'"
                            else Scan.Run(s, "'", depth) == Scan.Run(s[n..], "", depth)
            case None => Scan.Run(s, "'", depth).0 == "'"
    decreases |s|
  {
    hide Scan.Run, LitLen;
    if s == [] {
      Scan.ScanNothing(',', "'", depth);
      UnmatchedMeansNoQuote(s);
    } else {
      QuotedStep(s, depth);
      LitStep(s);
      var k := if s[0] == '\'' && |s| > 1 && s[1] == '\'' then 2 else 1;
      if s[0] != '\'' || k == 2 {
        LiteralEndsAgree(s[k..], depth);
        if LitLen(s[k..]).Some? {
          SliceOfSlice(s, k, k + LitLen(s[k..]).value);
        }
      }
    }
  }

  // ---- uncomment --------------------------------------------------------------------

  /** Length of the rest of the line. */
  function LineLen(s: string): (n: nat)
    ensures n <= |s| && '\n' !in s[..n] && (n < |s| ==> s[n] == '\n')
  {
    if s == [] || s[0] == '\n' then 0
    else
      var n := 1 + LineLen(s[1..]);
      assert s[..n] == [s[0]] + s[1..][..n - 1];
      n
  }

  function Spaces(n: nat): (r: string)
    ensures |r| == n && forall i :: 0 <= i < n ==> r[i] == ' '
  {
    seq(n, i => ' ')
  }

  predicate LiteralHere(s: string) {
    s != [] && s[0] == '\'' && LitLen(s[1..]).Some?
  }

  function LiteralWidth(s: string): (n: nat)
    requires LiteralHere(s)
    ensures 2 <= n <= |s| && s[n - 1] == '\''
  {
    1 + LitLen(s[1..]).value
  }

  function Uncomment(s: string): (r: string)
    ensures |r| == |s|
    decreases |s|
  {
    if s == [] then []
    else if LiteralHere(s) then s[..LiteralWidth(s)] + Uncomment(s[LiteralWidth(s)..])
    else if "--" <= s then Spaces(2 + LineLen(s[2..])) + Uncomment(s[2 + LineLen(s[2..])..])
    else [s[0]] + Uncomment(s[1..])
  }

  /** Length and newlines stay; a character either stays or becomes a space. */
  lemma {:induction false} UncommentOnlyBlanks(s: string, i: nat)
    requires i < |s|
    ensures Uncomment(s)[i] == s[i] || (Uncomment(s)[i] == ' ' && s[i] != '\n')
    decreases |s|
  {
    hide LitLen, LineLen;
    if LiteralHere(s) {
      var n := LiteralWidth(s);
      if i >= n {
        UncommentOnlyBlanks(s[n..], i - n);
      }
    } else if "--" <= s {
      var n := 2 + LineLen(s[2..]);
      if i >= n {
        UncommentOnlyBlanks(s[n..], i - n);
      } else if i >= 2 {
        assert s[i] == s[2..][..n - 2][i - 2];
      } else {
        assert s[i] == "--"[i];
      }
    } else if i > 0 {
      UncommentOnlyBlanks(s[1..], i - 1);
    }
  }

  lemma BlankingKeepsNoQuote(s: string)
    requires NoQuote(s)
    ensures NoQuote(Uncomment(s))
  {
    hide Uncomment;
    forall i | 0 <= i < |s| ensures Uncomment(s)[i] != '\'' {
      UncommentOnlyBlanks(s, i);
    }
  }

  /** What may follow a literal still may after comments are blanked. */
  lemma BlankingKeepsFollows(s: string)
    requires Follows(s)
    ensures Follows(Uncomment(s))
  {
    if s != [] {
      if s[0] == '\'' {
        UnmatchedMeansNoQuote(s[1..]);
        BlankingKeepsNoQuote(s[1..]);
        assert !("--" <= s);
        assert Uncomment(s)[1..] == Uncomment(s[1..]);
      } else {
        UncommentOnlyBlanks(s, 0);
      }
    }
  }

  lemma UncommentPlain(s: string)
    requires s != [] && !LiteralHere(s) && !("--" <= s)
    ensures Uncomment(s) == [s[0]] + Uncomment(s[1..])
  {
    hide LiteralHere;
  }

  lemma {:induction false} BlanksStay(n: nat, rest: string)
    ensures Uncomment(Spaces(n) + rest) == Spaces(n) + Uncomment(rest)
  {
    hide Uncomment, LitLen;
    var w := Spaces(n) + rest;
    if n > 0 {
      assert w[0] == ' ' && w[1..] == Spaces(n - 1) + rest;
      BlanksStay(n - 1, rest);
      assert Spaces(n) == [' '] + Spaces(n - 1);
      assert !("--" <= w);
      UncommentPlain(w);
    } else {
      assert w == rest && Spaces(0) == [];
    }
  }

  lemma {:induction false} UncommentIdempotent(s: string)
    ensures Uncomment(Uncomment(s)) == Uncomment(s)
    decreases |s|
  {
    hide LitLen, LineLen, Uncomment;
    if s == [] {
      UncommentNothing();
    } else if LiteralHere(s) {
      UncommentIdempotent(s[LiteralWidth(s)..]);
      LiteralStays(s);
    } else if "--" <= s {
      var n := 2 + LineLen(s[2..]);
      UncommentIdempotent(s[n..]);
      UncommentComment(s);
      BlanksStay(n, Uncomment(s[n..]));
    } else {
      UncommentIdempotent(s[1..]);
      PlainStays(s);
    }
  }

  lemma UncommentNothing()
    ensures Uncomment("") == ""
  {
  }

  lemma UncommentComment(s: string)
    requires !LiteralHere(s) && "--" <= s
    ensures var n := 2 + LineLen(s[2..]); Uncomment(s) == Spaces(n) + Uncomment(s[n..])
  {
    hide LitLen, LineLen;
  }

  lemma LiteralStays(s: string)
    requires LiteralHere(s)
    requires var rest := s[LiteralWidth(s)..]; Uncomment(Uncomment(rest)) == Uncomment(rest)
    ensures Uncomment(Uncomment(s)) == Uncomment(s)
  {
    hide LitLen, Uncomment;
    var n := LiteralWidth(s);
    var rest := s[n..];
    LitLenSplits(s[1..]);
    assert s[1..][n - 1..] == rest;
    BlankingKeepsFollows(rest);
    assert s[..n][1..] == s[1..][..n - 1];
    LiteralThen(s[..n], Uncomment(rest));
    UncommentLiteral(s);
    UncommentLiteral(s[..n] + Uncomment(rest));
  }

  lemma LiteralThen(lit: string, rest: string)
    requires lit != [] && lit[0] == '\'' && LitLen(lit[1..]) == Some(|lit| - 1) && Follows(rest)
    ensures LiteralHere(lit + rest) && LiteralWidth(lit + rest) == |lit|
  {
    LitLenJoins(lit[1..], rest);
    assert (lit + rest)[1..] == lit[1..] + rest;
    hide LitLen;
  }

  lemma UncommentLiteral(s: string)
    requires LiteralHere(s)
    ensures Uncomment(s) == s[..LiteralWidth(s)] + Uncomment(s[LiteralWidth(s)..])
  {
    hide LitLen;
  }

  lemma PlainStays(s: string)
    requires s != [] && !LiteralHere(s) && !("--" <= s)
    requires Uncomment(Uncomment(s[1..])) == Uncomment(s[1..])
    ensures Uncomment(Uncomment(s)) == Uncomment(s)
  {
    var u := Uncomment(s);
    assert u == [s[0]] + Uncomment(s[1..]) && u[1..] == Uncomment(s[1..]);
    if s[0] == '\'' {
      UnmatchedMeansNoQuote(s[1..]);
      BlankingKeepsNoQuote(s[1..]);
      UnmatchedMeansNoQuote(u[1..]);
    }
    if |s| > 1 {
      UncommentOnlyBlanks(s[1..], 0);
    }
    hide LitLen;
    assert !("--" <= u);
  }

  /** `source`: the one-based line of an offset. */
  function LineOf(s: string, offset: nat): nat
    requires offset <= |s|
  {
    if offset == 0 then 1 else LineOf(s, offset - 1) + if s[offset - 1] == '\n' then 1 else 0
  }

  /** So a line number found on the cleaned text holds for the raw text. */
  lemma {:induction false} SameLine(raw: string, offset: nat)
    requires offset <= |raw|
    ensures LineOf(Uncomment(raw), offset) == LineOf(raw, offset)
  {
    hide Uncomment;
    if offset > 0 {
      SameLine(raw, offset - 1);
      UncommentOnlyBlanks(raw, offset - 1);
    }
  }

  // ---- normalize ----------------------------------------------------------------------

  /** Where `re.split` finds its next literal. */
  function LitStart(s: string): (r: Option<nat>)
    ensures r.Some? ==> r.value < |s| && LiteralHere(s[r.value..])
  {
    if s == [] then None
    else if LiteralHere(s) then Some(0)
    else match LitStart(s[1..]) case None => None case Some(n) => Some(n + 1)
  }

  /** The text between literals and the literals, in order. */
  datatype Parts = Last(text: string) | Quoted(text: string, literal: string, rest: Parts)

  function SplitLiterals(s: string): Parts
    decreases |s|
  {
    match LitStart(s)
    case None => Last(s)
    case Some(j) =>
      var n := j + LiteralWidth(s[j..]);
      Quoted(s[..j], s[j..n], SplitLiterals(s[n..]))
  }

  function Cat(ps: Parts): string {
    match ps
    case Last(t) => t
    case Quoted(t, l, rest) => t + l + Cat(rest)
  }

  function Literals(ps: Parts): seq<string> {
    match ps
    case Last(_) => []
    case Quoted(_, l, rest) => [l] + Literals(rest)
  }

  /** `re.sub(r"\s+", " ", text)`. */
  function Collapse(s: string): (r: string)
    ensures r == [] <==> s == []
    decreases |s|
  {
    if s == [] then []
    else if IsSpace(s[0]) then [' '] + Collapse(LStrip(s[1..]))
    else [s[0]] + Collapse(s[1..])
  }

  function Squeeze(ps: Parts): Parts {
    match ps
    case Last(t) => Last(Collapse(t))
    case Quoted(t, l, rest) => Quoted(Collapse(t), l, Squeeze(rest))
  }

  function Normalize(s: string): string {
    Strip(Cat(Squeeze(SplitLiterals(s))))
  }

  // -- Which part lists splitting can return

  /** At most one quote: no literal begins here. */
  predicate Lone(s: string) {
    s == [] || if s[0] == '\'' then NoQuote(s[1..]) else Lone(s[1..])
  }

  predicate IsLiteral(l: string) {
    l != [] && l[0] == '\'' && LitLen(l[1..]) == Some(|l| - 1)
  }

  predicate Proper(ps: Parts) {
    match ps
    case Last(t) => Lone(t)
    case Quoted(t, l, rest) => NoQuote(t) && IsLiteral(l) && Follows(Cat(rest)) && Proper(rest)
  }

  lemma {:induction false} LoneMeansNoLiteral(s: string)
    ensures LitStart(s) == None <==> Lone(s)
  {
    if s != [] {
      if s[0] == '\'' {
        UnmatchedMeansNoQuote(s[1..]);
        if NoQuote(s[1..]) {
          NoQuoteIsLone(s[1..]);
        }
      }
      LoneMeansNoLiteral(s[1..]);
      hide LitLen;
    }
  }

  lemma {:induction false} NoQuoteIsLone(s: string)
    requires NoQuote(s)
    ensures Lone(s)
  {
    if s != [] {
      NoQuoteIsLone(s[1..]);
    }
  }

  lemma LitStartStep(s: string)
    requires s != []
    ensures LitStart(s) == if LiteralHere(s) then Some(0)
                           else match LitStart(s[1..]) case None => None case Some(n) => Some(n + 1)
  {
    hide LiteralHere;
  }

  lemma {:induction false} LitStartIsFirst(s: string)
    requires LitStart(s).Some?
    ensures NoQuote(s[..LitStart(s).value])
  {
    hide LitLen, LitStart;
    LitStartStep(s);
    var j := LitStart(s).value;
    if j > 0 {
      LitStartIsFirst(s[1..]);
      assert s[..j] == [s[0]] + s[1..][..j - 1];
      UnmatchedMeansNoQuote(s[1..]);
      assert s[1..][j - 1] in s[1..];
    }
  }

  lemma {:induction false} SplitIsProper(s: string)
    ensures Proper(SplitLiterals(s)) && Cat(SplitLiterals(s)) == s
    decreases |s|
  {
    hide LitLen, LitStart, SplitLiterals, Proper;
    if LitStart(s) == None {
      LoneMeansNoLiteral(s);
      SplitNone(s);
    } else {
      var j := LitStart(s).value;
      var n := j + LiteralWidth(s[j..]);
      LitStartIsFirst(s);
      SplitIsProper(s[n..]);
      SplitOnce(s);
      ProperOnce(s, j);
    }
  }

  lemma SplitNone(s: string)
    requires LitStart(s) == None
    ensures SplitLiterals(s) == Last(s) && Cat(Last(s)) == s
    ensures Lone(s) ==> Proper(Last(s))
  {
    hide LitStart;
  }

  lemma LiteralSlice(s: string, j: nat)
    requires j < |s| && LiteralHere(s[j..])
    ensures var n := j + LiteralWidth(s[j..]); IsLiteral(s[j..n]) && Follows(s[n..])
  {
    hide LitLen, Follows;
    var n := j + LiteralWidth(s[j..]);
    assert s[j..][1..] == s[j + 1..];
    LitLenSplits(s[j + 1..]);
    assert s[j..n][1..] == s[j + 1..][..n - j - 1];
    assert s[j + 1..][n - j - 1..] == s[n..];
  }

  lemma ProperOnce(s: string, j: nat)
    requires j < |s| && NoQuote(s[..j]) && LiteralHere(s[j..])
    requires var rest := SplitLiterals(s[j + LiteralWidth(s[j..])..]);
             Proper(rest) && Cat(rest) == s[j + LiteralWidth(s[j..])..]
    ensures var n := j + LiteralWidth(s[j..]);
            var ps := Quoted(s[..j], s[j..n], SplitLiterals(s[n..]));
            Proper(ps) && Cat(ps) == s
  {
    LiteralSlice(s, j);
    hide LitLen, SplitLiterals, IsLiteral, Follows, NoQuote, LiteralHere, Lone, LitStart;
    var n := j + LiteralWidth(s[j..]);
    hide LiteralWidth;
    assert s == s[..j] + s[j..n] + s[n..];
  }

  lemma SplitOnce(s: string)
    requires LitStart(s).Some?
    ensures var j := LitStart(s).value; var n := j + LiteralWidth(s[j..]);
            SplitLiterals(s) == Quoted(s[..j], s[j..n], SplitLiterals(s[n..]))
  {
    hide LitLen, LitStart;
  }

  lemma {:induction false} LitStartAfter(t: string, w: string)
    requires NoQuote(t) && LiteralHere(w)
    ensures LitStart(t + w) == Some(|t|)
  {
    hide LitLen;
    if t == [] {
      assert t + w == w;
    } else {
      assert (t + w)[1..] == t[1..] + w;
      LitStartAfter(t[1..], w);
    }
  }

  lemma SplitAfter(t: string, l: string, rest: string)
    requires NoQuote(t) && IsLiteral(l) && Follows(rest)
    ensures SplitLiterals(t + l + rest) == Quoted(t, l, SplitLiterals(rest))
  {
    hide SplitLiterals, LitLen, LitStart;
    LiteralThen(l, rest);
    LitStartAfter(t, l + rest);
    var s := t + l + rest;
    assert s == t + (l + rest) && s[|t|..] == l + rest && s[..|t|] == t;
    SplitOnce(s);
    assert s[|t|..|t| + |l|] == l && s[|t| + |l|..] == rest;
  }

  /** A proper list is what splitting its text returns. */
  lemma {:induction false} SplitOfCat(ps: Parts)
    requires Proper(ps)
    ensures SplitLiterals(Cat(ps)) == ps
  {
    hide SplitLiterals, IsLiteral, Lone, NoQuote, Follows, LitStart;
    match ps
    case Last(t) =>
      LoneMeansNoLiteral(t);
      SplitNone(t);
    case Quoted(t, l, rest) =>
      SplitOfCat(rest);
      SplitAfter(t, l, Cat(rest));
  }

  // -- What collapsing and stripping do to such a list

  /** Already collapsed: the only whitespace is single spaces. */
  predicate Collapsed(s: string) {
    s == [] || ((IsSpace(s[0]) ==> s[0] == ' ' && (|s| > 1 ==> !IsSpace(s[1]))) && Collapsed(s[1..]))
  }

  lemma {:induction false} CollapseCollapses(s: string)
    ensures Collapsed(Collapse(s))
    ensures s != [] && !IsSpace(s[0]) ==> Collapse(s)[0] == s[0]
    decreases |s|
  {
    hide IsSpace;
    if s != [] {
      SpaceIsSpace();
      var t := if IsSpace(s[0]) then LStrip(s[1..]) else s[1..];
      CollapseCollapses(t);
      var r := Collapse(s);
      assert r[1..] == Collapse(t);
      hide Collapse;
      assert |r| > 1 ==> r[1] == r[1..][0];
    }
  }

  lemma SpaceIsSpace()
    ensures IsSpace(' ') && !IsSpace('\'')
  {
  }

  lemma {:induction false} CollapsedIsFixed(s: string)
    requires Collapsed(s)
    ensures Collapse(s) == s
  {
    hide IsSpace;
    if s != [] {
      CollapsedIsFixed(s[1..]);
      if IsSpace(s[0]) {
        SpaceIsSpace();
        assert |s| > 1 ==> s[1] != ' ';
        assert LStrip(s[1..]) == s[1..];
      }
    }
  }

  lemma {:induction false} CollapseKeepsQuotes(s: string)
    ensures NoQuote(Collapse(s)) <==> NoQuote(s)
    ensures Lone(s) ==> Lone(Collapse(s))
    ensures Follows(s) ==> Follows(Collapse(s))
    decreases |s|
  {
    hide IsSpace;
    if s != [] {
      SpaceIsSpace();
      assert s == [s[0]] + s[1..];
      if IsSpace(s[0]) {
        var t := LStrip(s[1..]);
        StripKeepsQuotes(s[1..]);
        CollapseKeepsQuotes(t);
        assert Collapse(s)[1..] == Collapse(t);
        assert Collapse(s) == [' '] + Collapse(t);
      } else {
        CollapseKeepsQuotes(s[1..]);
        assert Collapse(s)[1..] == Collapse(s[1..]);
        assert Collapse(s) == [s[0]] + Collapse(s[1..]);
      }
    }
  }

  lemma BlankHasNoQuote(s: string)
    requires Blank(s)
    ensures NoQuote(s)
  {
    SpaceIsSpace();
    hide IsSpace;
  }

  lemma StripKeepsQuotes(s: string)
    ensures NoQuote(LStrip(s)) <==> NoQuote(s)
    ensures Lone(s) ==> Lone(LStrip(s))
  {
    var b := s[..|s| - |LStrip(s)|];
    BlankHasNoQuote(b);
    assert s == b + LStrip(s);
    hide Blank, LStrip, Lone, NoQuote;
    QuotesOfConcat(b, LStrip(s));
  }

  lemma RStripKeepsQuotes(s: string)
    ensures NoQuote(RStrip(s)) <==> NoQuote(s)
    ensures Lone(s) ==> Lone(RStrip(s))
    ensures Follows(s) ==> Follows(RStrip(s))
  {
    var r := RStrip(s);
    var b := s[|r|..];
    BlankHasNoQuote(b);
    assert s == r + b;
    if r != [] && Follows(s) && s[0] == '\'' {
      assert s[1..] == r[1..] + b;
      QuotesOfConcat(r[1..], b);
    }
    hide Blank, RStrip, Lone, NoQuote;
    QuotesOfConcat(r, b);
  }

  lemma {:induction false} QuotesOfConcat(a: string, b: string)
    ensures NoQuote(a + b) <==> NoQuote(a) && NoQuote(b)
    ensures Lone(a + b) ==> Lone(a) && Lone(b)
  {
    assert forall c :: c in a + b <==> c in a || c in b;
    if a == [] {
      assert a + b == b;
    } else {
      assert (a + b)[1..] == a[1..] + b;
      QuotesOfConcat(a[1..], b);
      if a[0] == '\'' && NoQuote(a[1..] + b) {
        NoQuoteIsLone(b);
      }
    }
  }

  function LTrim(ps: Parts): Parts {
    match ps
    case Last(t) => Last(LStrip(t))
    case Quoted(t, l, rest) => Quoted(LStrip(t), l, rest)
  }

  function RTrim(ps: Parts): Parts {
    match ps
    case Last(t) => Last(RStrip(t))
    case Quoted(t, l, rest) => Quoted(t, l, RTrim(rest))
  }

  lemma {:induction false} LStripConcat(a: string, b: string)
    requires b != [] && !IsSpace(b[0])
    ensures LStrip(a + b) == LStrip(a) + b
  {
    hide IsSpace;
    if a == [] {
      assert a + b == b;
    } else {
      assert (a + b)[1..] == a[1..] + b;
      LStripConcat(a[1..], b);
    }
  }

  lemma {:induction false} RStripConcat(a: string, b: string)
    requires a != [] && !IsSpace(a[|a| - 1])
    ensures RStrip(a + b) == a + RStrip(b)
  {
    hide IsSpace;
    if b == [] {
      assert a + b == a;
    } else {
      assert (a + b)[..|a + b| - 1] == a + b[..|b| - 1];
      RStripConcat(a, b[..|b| - 1]);
    }
  }

  lemma LiteralEnds(l: string)
    requires IsLiteral(l)
    ensures |l| >= 2 && l[0] == '\'' == l[|l| - 1]
  {
    hide LitLen;
    assert l[1..][|l| - 2] == l[|l| - 1];
  }

  lemma Associates(a: string, b: string, c: string)
    ensures a + b + c == a + (b + c)
  {
  }

  lemma LStripBeforeLiteral(t: string, l: string, rest: string)
    requires IsLiteral(l)
    ensures LStrip(t + l + rest) == LStrip(t) + l + rest
  {
    SpaceIsSpace();
    LiteralEnds(l);
    hide *;
    var w := l + rest;
    assert w[0] == l[0];
    LStripConcat(t, w);
    Associates(t, l, rest);
    Associates(LStrip(t), l, rest);
  }

  lemma RStripAfterLiteral(t: string, l: string, rest: string)
    requires IsLiteral(l)
    ensures RStrip(t + l + rest) == t + l + RStrip(rest)
  {
    SpaceIsSpace();
    LiteralEnds(l);
    hide *;
    var w := t + l;
    assert w[|w| - 1] == l[|l| - 1];
    RStripConcat(w, rest);
  }

  lemma {:induction false} StripIsTrim(ps: Parts)
    requires Proper(ps)
    ensures LStrip(Cat(ps)) == Cat(LTrim(ps)) && RStrip(Cat(ps)) == Cat(RTrim(ps))
  {
    hide LStrip, RStrip, IsLiteral, Lone, Follows, NoQuote;
    if ps.Quoted? {
      StripIsTrim(ps.rest);
      LStripBeforeLiteral(ps.text, ps.literal, Cat(ps.rest));
      RStripAfterLiteral(ps.text, ps.literal, Cat(ps.rest));
    }
  }

  lemma {:induction false} SqueezeStaysProper(ps: Parts)
    requires Proper(ps)
    ensures Proper(Squeeze(ps)) && Literals(Squeeze(ps)) == Literals(ps)
    ensures Follows(Cat(ps)) ==> Follows(Cat(Squeeze(ps)))
  {
    hide IsSpace, LitLen;
    CollapseKeepsQuotes(ps.text);
    match ps
    case Last(_) =>
    case Quoted(t, l, rest) =>
      SqueezeStaysProper(rest);
      hide Collapse;
      FirstOfCat(t, l, Cat(rest));
      FirstOfCat(Collapse(t), l, Cat(Squeeze(rest)));
  }

  /** A literal cannot come straight after another one: it would prolong it. */
  lemma FirstOfCat(t: string, l: string, rest: string)
    requires NoQuote(t) && IsLiteral(l)
    ensures Follows(t + l + rest) <==> t != []
  {
    var s := t + l + rest;
    if t == [] {
      assert s[0] == '\'';
      LiteralEnds(l);
      assert s[1..][|l| - 2] == '\'';
    } else {
      assert s[0] == t[0];
    }
    hide LitLen;
  }

  lemma {:induction false} RTrimStaysProper(ps: Parts)
    requires Proper(ps)
    ensures Proper(RTrim(ps)) && Literals(RTrim(ps)) == Literals(ps)
    ensures Follows(Cat(ps)) ==> Follows(Cat(RTrim(ps)))
  {
    hide IsSpace, LitLen, RStrip;
    RStripKeepsQuotes(ps.text);
    match ps
    case Last(_) =>
    case Quoted(t, l, rest) =>
      RTrimStaysProper(rest);
      FirstOfCat(t, l, Cat(rest));
      FirstOfCat(t, l, Cat(RTrim(rest)));
  }

  /** The parts of the normalized text. */
  function Tidy(s: string): Parts {
    RTrim(LTrim(Squeeze(SplitLiterals(s))))
  }

  lemma LTrimStaysProper(ps: Parts)
    requires Proper(ps)
    ensures Proper(LTrim(ps)) && Literals(LTrim(ps)) == Literals(ps)
  {
    StripKeepsQuotes(ps.text);
    hide LStrip, Follows, Lone, IsLiteral, NoQuote, LitLen;
  }

  lemma NormalizedParts(s: string)
    ensures Proper(Tidy(s)) && Normalize(s) == Cat(Tidy(s))
    ensures SplitLiterals(Normalize(s)) == Tidy(s)
    ensures Literals(Tidy(s)) == Literals(SplitLiterals(s))
  {
    hide SplitLiterals, Squeeze, LStrip, RStrip, LTrim, RTrim, Proper, Literals, Cat;
    SplitIsProper(s);
    SqueezeStaysProper(SplitLiterals(s));
    var qs := Squeeze(SplitLiterals(s));
    StripIsTrim(qs);
    LTrimStaysProper(qs);
    StripIsTrim(LTrim(qs));
    RTrimStaysProper(LTrim(qs));
    SplitOfCat(Tidy(s));
  }

  /** Every quoted literal survives `normalize`, in order and letter for letter. */
  lemma NormalizeKeepsLiterals(s: string)
    ensures Literals(SplitLiterals(Normalize(s))) == Literals(SplitLiterals(s))
  {
    NormalizedParts(s);
    hide Normalize, Tidy;
  }

  predicate AllCollapsed(ps: Parts) {
    Collapsed(ps.text) && (ps.Quoted? ==> AllCollapsed(ps.rest))
  }

  lemma {:induction false} SqueezeCollapses(ps: Parts)
    ensures AllCollapsed(Squeeze(ps))
    ensures AllCollapsed(ps) ==> Squeeze(ps) == ps && AllCollapsed(LTrim(ps)) && AllCollapsed(RTrim(ps))
  {
    hide IsSpace;
    CollapseCollapses(ps.text);
    if Collapsed(ps.text) {
      CollapsedIsFixed(ps.text);
      StripStaysCollapsed(ps.text);
    }
    hide Collapsed, Collapse, LStrip, RStrip;
    if ps.Quoted? {
      SqueezeCollapses(ps.rest);
    }
  }

  lemma {:induction false} StripStaysCollapsed(s: string)
    requires Collapsed(s)
    ensures Collapsed(LStrip(s)) && Collapsed(RStrip(s))
  {
    hide IsSpace;
    if s != [] {
      StripStaysCollapsed(s[1..]);
    }
    PrefixStaysCollapsed(s, |RStrip(s)|);
  }

  lemma {:induction false} PrefixStaysCollapsed(s: string, n: nat)
    requires Collapsed(s) && n <= |s|
    ensures Collapsed(s[..n])
  {
    hide IsSpace;
    if n > 0 {
      PrefixStaysCollapsed(s[1..], n - 1);
      assert s[..n][1..] == s[1..][..n - 1];
    }
  }

  lemma NormalizeIdempotent(s: string)
    ensures Normalize(Normalize(s)) == Normalize(s)
  {
    NormalizedParts(s);
    var qs := Squeeze(SplitLiterals(s));
    SqueezeCollapses(SplitLiterals(s));
    SqueezeCollapses(qs);
    SqueezeCollapses(LTrim(qs));
    SqueezeCollapses(Tidy(s));
    StripIdempotent(Cat(qs));
    hide SplitLiterals, Squeeze, Strip, LTrim, RTrim;
  }
}
