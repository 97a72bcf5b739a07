/**
 * The two hand-written scanners of scripts/build_repository_diagrams.py: `split_sql`
 * and `closing_paren`. Each is a loop over an index; each is proved against a
 * definition that does not walk the text the way the loop does.
 */
module SqlScanner {
  import opened Outcomes
  import opened Text

  datatype Fragment = Fragment(text: string, offset: nat)
  datatype ScanError = Unbalanced | MissingParen

  // ---- One token of split_sql --------------------------------------------------

  /** What the scanner consumes at once: its width, the quote it leaves open, its depth change. */
  datatype Token = Token(width: nat, quote: string, delta: int, plain: bool)

  predicate TagChar(c: char) {
    'a' <= c <= 'z' || 'A' <= c <= 'Z' || '0' <= c <= '9' || c == '_'
  }

  function TagRun(s: string): (n: nat)
    ensures n <= |s|
  {
    if s != [] && TagChar(s[0]) then 1 + TagRun(s[1..]) else 0
  }

  /** Width of a dollar tag such as `$$` or `$body$` at the head of s, or 0. */
  function TagLen(s: string): (n: nat)
    ensures n <= |s| && n != 1 && (n > 0 ==> s[0] == '$')
  {
    if s != [] && s[0] == '$' then
      var n := TagRun(s[1..]);
      if n + 1 < |s| && s[n + 1] == '$' then n + 2 else 0
    else 0
  }

  function Next(s: string, quote: string): (t: Token)
    requires s != []
    ensures 1 <= t.width <= |s|
    ensures t.plain ==> quote == "" && t == Token(1, "", 0, true)
  {
    if quote != "" then
      if quote <= s then
        if quote == "'" && "''" <= s then Token(2, quote, 0, false) else Token(|quote|, "", 0, false)
      else Token(1, quote, 0, false)
    else if s[0] == '\'' || s[0] == '"' then Token(1, [s[0]], 0, false)
    else if TagLen(s) > 0 then Token(TagLen(s), s[..TagLen(s)], 0, false)
    else if s[0] == '(' then Token(1, "", 1, false)
    else if s[0] == ')' then Token(1, "", -1, false)
    else Token(1, "", 0, true)
  }

  /** The quote and depth the scanner is left with after all of s. */
  function Run(s: string, quote: string, depth: int): (string, int)
    decreases |s|
  {
    if s == [] then (quote, depth)
    else var t := Next(s, quote); Run(s[t.width..], t.quote, depth + t.delta)
  }

  predicate Neutral(s: string) {
    Run(s, "", 0) == ("", 0)
  }

  /** Index of the first delimiter met outside quotes at depth 0. */
  function FirstCut(s: string, delimiter: char, quote: string, depth: int): (r: Option<nat>)
    ensures r.Some? ==> r.value < |s| && s[r.value] == delimiter
    decreases |s|
  {
    if s == [] then None
    else
      var t := Next(s, quote);
      if t.plain && s[0] == delimiter && depth == 0 then Some(0)
      else
        match FirstCut(s[t.width..], delimiter, t.quote, depth + t.delta)
        case None => None
        case Some(k) => Some(t.width + k)
  }

  /** A text that is one fragment: nothing left open, and no delimiter to cut at. */
  predicate Atomic(s: string, delimiter: char) {
    Neutral(s) && FirstCut(s, delimiter, "", 0) == None
  }

  // ---- What split_sql returns --------------------------------------------------

  /** Every piece is scanned afresh, from no quote and depth 0. */
  function Pieces(s: string, delimiter: char, offset: nat): (r: seq<Fragment>)
    ensures r != []
    decreases |s|
  {
    match FirstCut(s, delimiter, "", 0)
    case None => [Fragment(s, offset)]
    case Some(k) => [Fragment(s[..k], offset)] + Pieces(s[k + 1..], delimiter, offset + k + 1)
  }

  function DropBlankTail(ps: seq<Fragment>): seq<Fragment>
    requires ps != []
  {
    if Blank(ps[|ps| - 1].text) then ps[..|ps| - 1] else ps
  }

  function Split(s: string, delimiter: char): Result<seq<Fragment>, ScanError> {
    if Neutral(s) then Ok(DropBlankTail(Pieces(s, delimiter, 0))) else Err(Unbalanced)
  }

  /** Where the single pass stands: what is emitted, and what the rest will still give. */
  ghost predicate Scanning(v: string, delimiter: char, result: seq<Fragment>, start: nat, index: nat, quote: string, depth: int) {
    && start <= index <= |v|
    && Run(v, "", 0) == Run(v[index..], quote, depth)
    && Pieces(v, delimiter, 0) == result + Pieces(v[start..], delimiter, start)
    && FirstCut(v[start..], delimiter, "", 0)
       == match FirstCut(v[index..], delimiter, quote, depth)
          case None => None
          case Some(k) => Some(index - start + k)
  }

  lemma ScanNothing(delimiter: char, quote: string, depth: int)
    ensures Run("", quote, depth) == (quote, depth)
    ensures FirstCut("", delimiter, quote, depth) == None
  {
  }

  lemma RunStep(s: string, quote: string, depth: int)
    requires s != []
    ensures var t := Next(s, quote); Run(s, quote, depth) == Run(s[t.width..], t.quote, depth + t.delta)
  {
    hide Next;
  }

  lemma CutStep(s: string, delimiter: char, quote: string, depth: int)
    requires s != []
    ensures var t := Next(s, quote);
            FirstCut(s, delimiter, quote, depth)
            == if t.plain && s[0] == delimiter && depth == 0 then Some(0)
               else match FirstCut(s[t.width..], delimiter, t.quote, depth + t.delta)
                    case None => None
                    case Some(k) => Some(t.width + k)
  {
    hide Next;
  }

  lemma PiecesStep(s: string, delimiter: char, offset: nat)
    requires FirstCut(s, delimiter, "", 0).Some?
    ensures var k := FirstCut(s, delimiter, "", 0).value;
            Pieces(s, delimiter, offset) == [Fragment(s[..k], offset)] + Pieces(s[k + 1..], delimiter, offset + k + 1)
  {
    hide FirstCut;
  }

  lemma ScanningStarts(v: string, delimiter: char)
    ensures Scanning(v, delimiter, [], 0, 0, "", 0)
  {
    hide Run, FirstCut, Pieces;
    assert v[0..] == v;
  }

  lemma ScanningEnds(v: string, delimiter: char, result: seq<Fragment>, start: nat, quote: string, depth: int)
    requires Scanning(v, delimiter, result, start, |v|, quote, depth)
    ensures Run(v, "", 0) == (quote, depth)
    ensures Pieces(v, delimiter, 0) == result + [Fragment(v[start..], start)]
  {
    assert v[|v|..] == "";
    assert FirstCut(v[start..], delimiter, "", 0) == None;
  }

  lemma ScanningAdvances(v: string, delimiter: char, result: seq<Fragment>, start: nat, index: nat, quote: string, depth: int)
    requires index < |v| && Scanning(v, delimiter, result, start, index, quote, depth)
    requires var t := Next(v[index..], quote); !(t.plain && v[index] == delimiter && depth == 0)
    ensures var t := Next(v[index..], quote);
            Scanning(v, delimiter, result, start, index + t.width, t.quote, depth + t.delta)
  {
    hide Run, Pieces, Next, FirstCut;
    var t := Next(v[index..], quote);
    assert v[index..][t.width..] == v[index + t.width..];
    RunStep(v[index..], quote, depth);
    CutStep(v[index..], delimiter, quote, depth);
  }

  lemma ScanningCuts(v: string, delimiter: char, result: seq<Fragment>, start: nat, index: nat)
    requires index < |v| && Scanning(v, delimiter, result, start, index, "", 0)
    requires Next(v[index..], "").plain && v[index] == delimiter
    ensures Scanning(v, delimiter, result + [Fragment(v[start..index], start)], index + 1, index + 1, "", 0)
  {
    hide Run, Next, FirstCut, Pieces;
    RunStep(v[index..], "", 0);
    CutStep(v[index..], delimiter, "", 0);
    assert v[index..][1..] == v[index + 1..];
    PiecesStep(v[start..], delimiter, start);
    assert v[start..][..index - start] == v[start..index];
    assert v[start..][index - start + 1..] == v[index + 1..];
  }

  /** Either move of the scan, as the loop body makes it. */
  lemma Proceed(v: string, delimiter: char, result: seq<Fragment>, start: nat, index: nat, quote: string, depth: int)
    requires index < |v| && Scanning(v, delimiter, result, start, index, quote, depth)
    ensures start <= index
    ensures var t := Next(v[index..], quote);
            if t.plain && v[index] == delimiter && depth == 0
            then t.width == 1 && Scanning(v, delimiter, result + [Fragment(v[start..index], start)], index + 1, index + 1, "", 0)
            else Scanning(v, delimiter, result, start, index + t.width, t.quote, depth + t.delta)
  {
    hide Run, FirstCut, Pieces;
    var t := Next(v[index..], quote);
    if t.plain && v[index] == delimiter && depth == 0 {
      ScanningCuts(v, delimiter, result, start, index);
    } else {
      ScanningAdvances(v, delimiter, result, start, index, quote, depth);
    }
  }

  method SplitSql(value: string, delimiter: char) returns (r: Result<seq<Fragment>, ScanError>)
    ensures r == Split(value, delimiter)
  {
    hide Run, FirstCut, Pieces, TagLen, Scanning;
    var result: seq<Fragment> := [];
    var start, index: nat := 0, 0;
    var depth: int := 0;
    var quote := "";
    ScanningStarts(value, delimiter);
    while index < |value|
      invariant start <= index <= |value|
      invariant Scanning(value, delimiter, result, start, index, quote, depth)
      decreases |value| - index
    {
      var c := value[index];
      Proceed(value, delimiter, result, start, index, quote, depth);
      if quote != "" {
        if quote <= value[index..] {
          if quote == "'" && "''" <= value[index..] {
            index := index + 2;
            continue;
          }
          index := index + |quote|;
          quote := "";
          continue;
        }
      } else if c == '\'' || c == '"' {
        quote := [c];
      } else if c == '$' && TagLen(value[index..]) > 0 {
        quote := value[index..][..TagLen(value[index..])];
        index := index + |quote|;
        continue;
      } else if c == '(' {
        depth := depth + 1;
      } else if c == ')' {
        depth := depth - 1;
      } else if c == delimiter && depth == 0 {
        result := result + [Fragment(value[start..index], start)];
        start := index + 1;
      }
      index := index + 1;
    }
    ScanningEnds(value, delimiter, result, start, quote, depth);
    if quote != "" || depth != 0 {
      return Err(Unbalanced);
    }
    if !Blank(value[start..]) {
      result := result + [Fragment(value[start..], start)];
    }
    return Ok(result);
  }

  // ---- What a split means ------------------------------------------------------

  lemma TagRunPrefix(s: string, w: string)
    requires s <= w
    ensures TagRun(s) == if TagRun(w) <= |s| then TagRun(w) else |s|
  {
    if s != [] {
      assert s[0] == w[0];
      TagRunPrefix(s[1..], w[1..]);
    }
  }

  lemma {:induction false} TagRunChars(s: string, i: nat)
    requires i < TagRun(s)
    ensures TagChar(s[i])
  {
    if i > 0 {
      TagRunChars(s[1..], i - 1);
    }
  }

  lemma TagLenPrefix(s: string, w: string)
    requires s <= w && TagLen(w) <= |s|
    ensures TagLen(s) == TagLen(w)
  {
    if s != [] {
      assert s[0] == w[0];
      TagRunPrefix(s[1..], w[1..]);
      hide TagRun;
    }
  }

  lemma TagLenChars(s: string, i: nat)
    requires i < TagLen(s)
    ensures TagChar(s[i]) || s[i] == '$'
  {
    if 0 < i < TagLen(s) - 1 {
      TagRunChars(s[1..], i - 1);
    }
    hide TagRun;
  }

  /** A token that ends inside a prefix is the same token in that prefix. */
  lemma NextPrefix(s: string, w: string, quote: string)
    requires s != [] && s <= w && Next(w, quote).width <= |s|
    ensures Next(s, quote) == Next(w, quote)
  {
    hide TagRun, TagLen, TagChar;
    if quote == "" && TagLen(w) <= |s| {
      TagLenPrefix(s, w);
    }
    assert s[0] == w[0];
    assert forall q: string :: q <= w && |q| <= |s| ==> q <= s;
  }

  /** At a cut the text before it is one fragment and the scan starts afresh after it. */
  lemma {:induction false} CutSeparates(s: string, delimiter: char, quote: string, depth: int)
    requires FirstCut(s, delimiter, quote, depth).Some?
    ensures var k := FirstCut(s, delimiter, quote, depth).value;
            && Run(s[..k], quote, depth) == ("", 0)
            && FirstCut(s[..k], delimiter, quote, depth) == None
            && Run(s, quote, depth) == Run(s[k + 1..], "", 0)
    decreases |s|
  {
    hide Next, Run, FirstCut;
    var t := Next(s, quote);
    var k := FirstCut(s, delimiter, quote, depth).value;
    RunStep(s, quote, depth);
    CutStep(s, delimiter, quote, depth);
    if t.plain && s[0] == delimiter && depth == 0 {
      ScanNothing(delimiter, quote, depth);
      assert s[..0] == "";
    } else {
      CutSeparates(s[t.width..], delimiter, t.quote, depth + t.delta);
      NextPrefix(s[..k], s, quote);
      RunStep(s[..k], quote, depth);
      CutStep(s[..k], delimiter, quote, depth);
      assert s[..k][t.width..] == s[t.width..][..k - t.width];
      assert s[k + 1..] == s[t.width..][k - t.width + 1..];
    }
  }

  function Texts(fs: seq<Fragment>): (r: seq<string>)
    ensures |r| == |fs|
  {
    seq(|fs|, i requires 0 <= i < |fs| => fs[i].text)
  }

  /** The fragment is the stretch of v that starts at its offset, counted from base. */
  predicate LocatedIn(f: Fragment, v: string, base: nat) {
    base <= f.offset && f.offset - base + |f.text| <= |v| && v[f.offset - base..][..|f.text|] == f.text
  }

  lemma OnePiece(s: string, delimiter: char, base: nat)
    requires FirstCut(s, delimiter, "", 0) == None
    ensures Pieces(s, delimiter, base) == [Fragment(s, base)]
  {
    hide FirstCut;
  }

  lemma LocatedAt(s: string, k: nat, base: nat)
    requires k <= |s|
    ensures LocatedIn(Fragment(s[..k], base), s, base)
  {
  }

  lemma LocatedLater(f: Fragment, s: string, k: nat, base: nat)
    requires k < |s| && LocatedIn(f, s[k + 1..], base + k + 1)
    ensures LocatedIn(f, s, base)
  {
    assert s[k + 1..][f.offset - (base + k + 1)..] == s[f.offset - base..];
  }

  lemma {:induction false} PiecesRebuild(s: string, delimiter: char, base: nat)
    ensures Join(Texts(Pieces(s, delimiter, base)), delimiter) == s
    decreases |s|
  {
    hide Run, FirstCut, Pieces;
    var ps := Pieces(s, delimiter, base);
    if FirstCut(s, delimiter, "", 0).Some? {
      var k := FirstCut(s, delimiter, "", 0).value;
      PiecesStep(s, delimiter, base);
      PiecesRebuild(s[k + 1..], delimiter, base + k + 1);
      var rest := Texts(Pieces(s[k + 1..], delimiter, base + k + 1));
      assert Texts(ps) == [s[..k]] + rest;
      hide Texts;
      JoinHead(s[..k], rest, delimiter);
      assert s == s[..k] + [delimiter] + s[k + 1..];
    } else {
      OnePiece(s, delimiter, base);
      assert Texts(ps) == [s];
    }
  }

  lemma {:induction false} PiecesLocated(s: string, delimiter: char, base: nat, i: nat)
    requires i < |Pieces(s, delimiter, base)|
    ensures LocatedIn(Pieces(s, delimiter, base)[i], s, base)
    decreases |s|
  {
    hide Run, FirstCut, Pieces, LocatedIn;
    if FirstCut(s, delimiter, "", 0).Some? {
      var k := FirstCut(s, delimiter, "", 0).value;
      PiecesStep(s, delimiter, base);
      if i > 0 {
        var f := Pieces(s[k + 1..], delimiter, base + k + 1)[i - 1];
        assert Pieces(s, delimiter, base)[i] == f;
        PiecesLocated(s[k + 1..], delimiter, base + k + 1, i - 1);
        LocatedLater(f, s, k, base);
      } else {
        LocatedAt(s, k, base);
      }
    } else {
      OnePiece(s, delimiter, base);
      LocatedAt(s, |s|, base);
      assert s[..|s|] == s;
    }
  }

  lemma {:induction false} PiecesAtomic(s: string, delimiter: char, base: nat)
    requires Neutral(s)
    ensures forall i :: 0 <= i < |Pieces(s, delimiter, base)| ==> Atomic(Pieces(s, delimiter, base)[i].text, delimiter)
    decreases |s|
  {
    hide Run, FirstCut, Pieces;
    if FirstCut(s, delimiter, "", 0).Some? {
      var k := FirstCut(s, delimiter, "", 0).value;
      CutSeparates(s, delimiter, "", 0);
      PiecesStep(s, delimiter, base);
      PiecesAtomic(s[k + 1..], delimiter, base + k + 1);
    } else {
      OnePiece(s, delimiter, base);
    }
  }

  lemma JoinHead(t: string, ts: seq<string>, delimiter: char)
    requires ts != []
    ensures Join([t] + ts, delimiter) == t + [delimiter] + Join(ts, delimiter)
  {
    assert ([t] + ts)[1..] == ts;
  }

  lemma {:induction false} JoinSnoc(ts: seq<string>, last: string, delimiter: char)
    requires ts != []
    ensures Join(ts + [last], delimiter) == Join(ts, delimiter) + [delimiter] + last
  {
    assert (ts + [last])[1..] == ts[1..] + [last];
    if |ts| > 1 {
      JoinSnoc(ts[1..], last, delimiter);
    }
  }

  /** The fragments are all of v, or all of it but a blank tail and the delimiter before it. */
  predicate Rebuilds(fs: seq<Fragment>, v: string, delimiter: char) {
    var joined := Join(Texts(fs), delimiter);
    || (fs != [] && !Blank(fs[|fs| - 1].text) && v == joined)
    || (fs == [] && Blank(v))
    || (fs != [] && joined + [delimiter] <= v && Blank(v[|joined| + 1..]))
  }

  lemma DroppedTail(ps: seq<Fragment>, v: string, delimiter: char)
    requires ps != [] && Join(Texts(ps), delimiter) == v
    ensures Rebuilds(DropBlankTail(ps), v, delimiter)
  {
    var fs := DropBlankTail(ps);
    if fs != ps {
      assert Texts(ps) == Texts(fs) + [ps[|fs|].text];
      if fs == [] {
        assert Texts(ps) == [v];
      } else {
        JoinSnoc(Texts(fs), ps[|fs|].text, delimiter);
        var joined := Join(Texts(fs), delimiter);
        assert v[|joined| + 1..] == ps[|fs|].text;
      }
    }
  }

  /** Everything a caller can rely on when split_sql returns. */
  lemma SplitFragments(v: string, delimiter: char)
    requires Split(v, delimiter).Ok?
    ensures var fs := Split(v, delimiter).value;
            && (forall i :: 0 <= i < |fs| ==> LocatedIn(fs[i], v, 0) && Atomic(fs[i].text, delimiter))
            && Rebuilds(fs, v, delimiter)
  {
    PiecesRebuild(v, delimiter, 0);
    PiecesAtomic(v, delimiter, 0);
    var ps := Pieces(v, delimiter, 0);
    DroppedTail(ps, v, delimiter);
    forall i | 0 <= i < |ps| ensures LocatedIn(ps[i], v, 0) {
      PiecesLocated(v, delimiter, 0, i);
    }
    hide Atomic, Neutral, Pieces, LocatedIn, Rebuilds, Run, FirstCut;
  }

  /** Splitting any non-blank fragment again returns that fragment alone, at offset 0. */
  lemma ResplitIsIdentity(v: string, delimiter: char, i: nat)
    requires Split(v, delimiter).Ok? && i < |Split(v, delimiter).value|
    requires !Blank(Split(v, delimiter).value[i].text)
    ensures var text := Split(v, delimiter).value[i].text;
            Split(text, delimiter) == Ok([Fragment(text, 0)])
  {
    SplitFragments(v, delimiter);
    var text := Split(v, delimiter).value[i].text;
    assert Atomic(text, delimiter);
    hide Run, FirstCut, Pieces;
    OnePiece(text, delimiter, 0);
  }

  // ---- The converse: what split_sql was given is what it returns --------------------

  /** A delimiter that means nothing else to the scanner; "," is one. */
  predicate Inert(c: char) {
    !TagChar(c) && c != '$' && c != '\'' && c != '"' && c != '(' && c != ')'
  }

  /** With an inert delimiter next, no token of s reaches past the end of s. */
  lemma NextStays(s: string, delimiter: char, rest: string, quote: string)
    requires s != [] && Inert(delimiter) && delimiter !in quote
    ensures var w := s + [delimiter] + rest;
            Next(w, quote) == Next(s, quote) && delimiter !in Next(s, quote).quote
  {
    var w := s + [delimiter] + rest;
    assert w[|s|] == delimiter && w[0] == s[0] && s <= w;
    assert quote <= w ==> forall i :: 0 <= i < |quote| ==> w[i] in quote;
    if TagLen(w) > |s| {
      TagLenChars(w, |s|);
    }
    assert Next(w, quote).width <= |s| by {
      hide TagRun, TagLen, TagChar;
    }
    NextPrefix(s, w, quote);
    if delimiter in Next(s, quote).quote && TagLen(s) > 0 {
      var i :| 0 <= i < TagLen(s) && s[i] == delimiter;
      TagLenChars(s, i);
    }
    hide TagRun, TagLen;
  }

  lemma {:induction false} ScanOver(s: string, delimiter: char, rest: string, quote: string, depth: int)
    requires Inert(delimiter) && delimiter !in quote
    requires Run(s, quote, depth) == ("", 0) && FirstCut(s, delimiter, quote, depth) == None
    ensures FirstCut(s + [delimiter] + rest, delimiter, quote, depth) == Some(|s|)
    ensures Run(s + [delimiter] + rest, quote, depth) == Run(rest, "", 0)
    decreases |s|
  {
    hide Run, FirstCut, Next;
    var w := s + [delimiter] + rest;
    RunStep(w, quote, depth);
    CutStep(w, delimiter, quote, depth);
    if s == "" {
      ScanNothing(delimiter, quote, depth);
      assert w == [delimiter] + rest;
      PlainToken(w);
      assert w[1..] == rest;
    } else {
      NextStays(s, delimiter, rest, quote);
      RunStep(s, quote, depth);
      CutStep(s, delimiter, quote, depth);
      var t := Next(s, quote);
      ScanOver(s[t.width..], delimiter, rest, t.quote, depth + t.delta);
      assert w[t.width..] == s[t.width..] + [delimiter] + rest;
    }
  }

  lemma PlainToken(w: string)
    requires w != [] && Inert(w[0])
    ensures Next(w, "") == Token(1, "", 0, true)
  {
    hide TagRun;
  }

  function Located(ts: seq<string>, offset: nat): (fs: seq<Fragment>)
    ensures |fs| == |ts|
    ensures ts != [] ==> fs[|fs| - 1].text == ts[|ts| - 1]
  {
    if ts == [] then [] else [Fragment(ts[0], offset)] + Located(ts[1..], offset + |ts[0]| + 1)
  }

  lemma {:induction false} PiecesOfJoin(ts: seq<string>, delimiter: char, offset: nat)
    requires ts != [] && Inert(delimiter)
    requires forall i :: 0 <= i < |ts| ==> Atomic(ts[i], delimiter)
    ensures Pieces(Join(ts, delimiter), delimiter, offset) == Located(ts, offset)
    ensures Neutral(Join(ts, delimiter))
    decreases |ts|
  {
    hide Run, FirstCut, Pieces;
    var s := ts[0];
    if |ts| == 1 {
      OnePiece(s, delimiter, offset);
    } else {
      var rest := Join(ts[1..], delimiter);
      PiecesOfJoin(ts[1..], delimiter, offset + |s| + 1);
      var w := Join(ts, delimiter);
      assert w == s + [delimiter] + rest;
      assert Atomic(s, delimiter);
      ScanOver(s, delimiter, rest, "", 0);
      PiecesStep(w, delimiter, offset);
      assert w[..|s|] == s && w[|s| + 1..] == rest;
    }
  }

  /**
   * Round trip: joining fragments and splitting the text returns those fragments, at
   * their running offsets. With SplitFragments this fixes what split_sql returns.
   */
  lemma SplitOfJoin(ts: seq<string>, delimiter: char)
    requires ts != [] && Inert(delimiter) && !Blank(ts[|ts| - 1])
    requires forall i :: 0 <= i < |ts| ==> Atomic(ts[i], delimiter)
    ensures Split(Join(ts, delimiter), delimiter) == Ok(Located(ts, 0))
  {
    PiecesOfJoin(ts, delimiter, 0);
    hide Atomic, Run, FirstCut, Pieces;
  }
}
