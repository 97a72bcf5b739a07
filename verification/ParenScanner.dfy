/**
 * `closing_paren`, and why the text it delimits can always be handed to `split_sql`:
 * the two scanners keep the same quote and depth.
 */
module ParenScanner {
  import opened Outcomes
  import opened SqlScanner

  // ---- Quotes and depth, one character at a time -------------------------------------

  /** Whether a single-quoted literal is open after s: every quote toggles. */
  function Quoted(s: string, quoted: bool): bool {
    if s == [] then quoted
    else if s[0] == '\'' then Quoted(s[1..], !quoted)
    else Quoted(s[1..], quoted)
  }

  function Paren(c: char): int {
    if c == '(' then 1 else if c == ')' then -1 else 0
  }

  /** Opening less closing parentheses outside single-quoted literals. */
  function Depth(s: string, quoted: bool): int {
    if s == [] then 0
    else if s[0] == '\'' then Depth(s[1..], !quoted)
    else (if quoted then 0 else Paren(s[0])) + Depth(s[1..], quoted)
  }

  lemma {:induction false} OneMore(s: string, c: char, quoted: bool)
    ensures Quoted(s + [c], quoted) == if c == '\'' then !Quoted(s, quoted) else Quoted(s, quoted)
    ensures Depth(s + [c], quoted)
         == Depth(s, quoted) + if c == '\'' || Quoted(s, quoted) then 0 else Paren(c)
  {
    if s == [] {
      assert s + [c] == [c] && [c][1..] == [];
    } else {
      assert (s + [c])[1..] == s[1..] + [c];
      OneMore(s[1..], c, if s[0] == '\'' then !quoted else quoted);
    }
  }

  /** Position i holds an unquoted character at which the depth counted from start is back to 0. */
  predicate Closes(v: string, start: nat, i: nat) {
    start <= i < |v| && v[i] != '\'' && !Quoted(v[start..i], false) && Depth(v[start..i + 1], false) == 0
  }

  lemma OneMoreAt(v: string, start: nat, i: nat)
    requires start <= i < |v|
    ensures Quoted(v[start..i + 1], false) == if v[i] == '\'' then !Quoted(v[start..i], false) else Quoted(v[start..i], false)
    ensures Depth(v[start..i + 1], false)
         == Depth(v[start..i], false) + if v[i] == '\'' || Quoted(v[start..i], false) then 0 else Paren(v[i])
  {
    assert v[start..i + 1] == v[start..i] + [v[i]];
    OneMore(v[start..i], v[i], false);
  }

  method ClosingParen(value: string, start: nat) returns (r: Result<nat, ScanError>)
    ensures match r
            case Ok(i) => Closes(value, start, i) && forall j :: start <= j < i ==> !Closes(value, start, j)
            case Err(e) => e == MissingParen && forall j :: start <= j < |value| ==> !Closes(value, start, j)
  {
    hide Quoted, Depth;
    var depth: int := 0;
    var quoted := false;
    var index := start;
    if start <= |value| {
      Nothing(value, start);
    }
    while index < |value|
      invariant start <= index && (start <= |value| ==> index <= |value|)
      invariant start <= |value| ==> quoted == Quoted(value[start..index], false) && depth == Depth(value[start..index], false)
      invariant forall j :: start <= j < index ==> !Closes(value, start, j)
    {
      OneMoreAt(value, start, index);
      var c := value[index];
      if c == '\'' {
        if quoted && index + 1 < |value| && value[index + 1] == '\'' {
          OneMoreAt(value, start, index + 1);
          index := index + 2;
          continue;
        }
        quoted := !quoted;
      } else if !quoted {
        depth := depth + Paren(c);
        if depth == 0 {
          return Ok(index);
        }
      }
      index := index + 1;
    }
    return Err(MissingParen);
  }

  lemma Nothing(v: string, start: nat)
    requires start <= |v|
    ensures !Quoted(v[start..start], false) && Depth(v[start..start], false) == 0
  {
  }

  // ---- Agreement with split_sql ---------------------------------------------------------

  /** No double quote and no dollar tag outside single-quoted literals. */
  predicate OnlySingleQuotes(s: string, quoted: bool) {
    if s == [] then true
    else if s[0] == '\'' then OnlySingleQuotes(s[1..], !quoted)
    else (quoted || (s[0] != '"' && TagLen(s) == 0)) && OnlySingleQuotes(s[1..], quoted)
  }

  /** Text without either character certainly qualifies. */
  lemma {:induction false} NoForeignQuotes(s: string, quoted: bool)
    requires '"' !in s && '$' !in s
    ensures OnlySingleQuotes(s, quoted)
  {
    if s != [] {
      NoForeignQuotes(s[1..], if s[0] == '\'' then !quoted else quoted);
      hide TagRun;
    }
  }

  function QuoteOf(quoted: bool): string {
    if quoted then "'" else ""
  }

  /** A double quote or a dollar tag: a quote that closing_paren does not know. */
  predicate Foreign(quote: string) {
    quote != "" && quote != "'"
  }

  /** No single quote stands in split_sql's foreign literals. */
  predicate NoSingleInForeign(s: string, quote: string)
    decreases |s|
  {
    if s == [] then true
    else var t := Next(s, quote);
         !(Foreign(quote) && s[0] == '\'') && NoSingleInForeign(s[t.width..], t.quote)
  }

  /** The parentheses in foreign literals, which closing_paren counts and split_sql does not. */
  function ForeignNet(s: string, quote: string): int
    decreases |s|
  {
    if s == [] then 0
    else var t := Next(s, quote);
         (if Foreign(quote) then Paren(s[0]) else 0) + ForeignNet(s[t.width..], t.quote)
  }

  /** Foreign quotes are closed at the end, and their parentheses cancel. */
  predicate ForeignBalanced(s: string) {
    !Foreign(Run(s, "", 0).0) && ForeignNet(s, "") == 0
  }

  lemma ForeignStep(s: string, quote: string)
    requires s != []
    ensures var t := Next(s, quote);
            && NoSingleInForeign(s, quote) == (!(Foreign(quote) && s[0] == '\'') && NoSingleInForeign(s[t.width..], t.quote))
            && ForeignNet(s, quote) == (if Foreign(quote) then Paren(s[0]) else 0) + ForeignNet(s[t.width..], t.quote)
  {
    hide Next;
  }

  lemma ForeignNothing(quote: string)
    ensures NoSingleInForeign("", quote) && ForeignNet("", quote) == 0
  {
  }

  /** Nothing in s[..n] that either count looks at. */
  predicate Mild(s: string) {
    forall i :: 0 <= i < |s| ==> s[i] != '\'' && s[i] != '(' && s[i] != ')'
  }

  lemma {:induction false} SkipMild(s: string, n: nat, quoted: bool)
    requires n <= |s| && Mild(s[..n])
    ensures Quoted(s, quoted) == Quoted(s[n..], quoted) && Depth(s, quoted) == Depth(s[n..], quoted)
  {
    if n == 0 {
      assert s[0..] == s;
    } else {
      assert s[0] == s[..n][0] && s[1..][..n - 1] == s[..n][1..] && s[1..][n - 1..] == s[n..];
      SkipMild(s[1..], n - 1, quoted);
    }
  }

  lemma TagIsMild(s: string)
    ensures Mild(s[..TagLen(s)])
  {
    forall i | 0 <= i < TagLen(s) ensures s[i] != '\'' && s[i] != '(' && s[i] != ')' {
      TagLenChars(s, i);
    }
  }

  /** A quote the scanner can be in: a single quote, or one that is mild. */
  predicate QuoteState(quote: string) {
    quote == "'" || Mild(quote)
  }

  /** One token, seen by both counts. */
  lemma NetStep(s: string, quote: string)
    requires s != [] && QuoteState(quote) && NoSingleInForeign(s, quote)
    requires !(quote == "'" && "''" <= s)
    ensures var t := Next(s, quote);
            && QuoteState(t.quote)
            && Quoted(s, quote == "'") == Quoted(s[t.width..], t.quote == "'")
            && Depth(s, quote == "'") == Depth(s[t.width..], t.quote == "'") + t.delta + if Foreign(quote) then Paren(s[0]) else 0
  {
    hide Quoted, Depth, TagLen, NoSingleInForeign;
    CountOne(s, quote == "'");
    ForeignStep(s, quote);
    assert s[0] == '\'' ==> "'" <= s;
    if Foreign(quote) && quote <= s {
      assert s[..|quote|] == quote;
      assert s[0] == quote[0];
      SkipMild(s, |quote|, false);
    } else if quote == "" && s[0] != '\'' && s[0] != '"' && TagLen(s) > 0 {
      TagIsMild(s);
      SkipMild(s, TagLen(s), false);
      assert s[..TagLen(s)] != "'" by { assert s[..TagLen(s)][0] == '$'; }
    }
  }

  /** Where split_sql ends is where closing_paren's counts say, less what stands in foreign literals. */
  lemma {:induction false} NetDepth(s: string, quote: string, depth: int)
    requires QuoteState(quote) && NoSingleInForeign(s, quote)
    ensures var (q, d) := Run(s, quote, depth);
            && (if Foreign(q) then !Quoted(s, quote == "'") else q == QuoteOf(Quoted(s, quote == "'")))
            && d == depth + Depth(s, quote == "'") - ForeignNet(s, quote)
    decreases |s|
  {
    hide Run, Quoted, Depth, NoSingleInForeign, ForeignNet, TagLen, Mild;
    if s == [] {
      ScanNothing(',', quote, depth);
      CountNothing(quote == "'");
      ForeignNothing(quote);
    } else {
      var t := Next(s, quote);
      RunStep(s, quote, depth);
      ForeignStep(s, quote);
      if quote == "'" && "''" <= s {
        assert s[0] == '\'' && s[1] == '\'' && s[1..][1..] == s[2..];
        CountOne(s, true);
        CountOne(s[1..], false);
        NetDepth(s[2..], quote, depth);
      } else {
        NetStep(s, quote);
        NetDepth(s[t.width..], t.quote, depth + t.delta);
      }
    }
  }

  /** Text with only single quotes has nothing foreign to count. */
  lemma {:induction false} OnlySingleIsPlain(s: string, quoted: bool, depth: int)
    requires OnlySingleQuotes(s, quoted)
    ensures NoSingleInForeign(s, QuoteOf(quoted)) && ForeignNet(s, QuoteOf(quoted)) == 0
    ensures !Foreign(Run(s, QuoteOf(quoted), depth).0)
    decreases |s|
  {
    hide Run, TagLen, OnlySingleQuotes, NoSingleInForeign, ForeignNet, Quoted, Depth;
    var quote := QuoteOf(quoted);
    if s == [] {
      ScanNothing(',', quote, depth);
      ForeignNothing(quote);
    } else {
      RunStep(s, quote, depth);
      ForeignStep(s, quote);
      CountOne(s, quoted);
      assert s[0] == '\'' ==> "'" <= s;
      if quoted && s[0] == '\'' && |s| > 1 && s[1] == '\'' {
        assert "''" <= s;
        CountOne(s[1..], !quoted);
        assert s[1..][1..] == s[2..];
        OnlySingleIsPlain(s[2..], quoted, depth);
      } else if s[0] == '\'' {
        OnlySingleIsPlain(s[1..], !quoted, depth);
      } else {
        OnlySingleIsPlain(s[1..], quoted, depth + if quoted then 0 else Paren(s[0]));
      }
    }
  }

  /** On such text the token scanner ends where counting characters says it should. */
  lemma ScannersAgree(s: string, quoted: bool, depth: int)
    requires OnlySingleQuotes(s, quoted)
    ensures Run(s, QuoteOf(quoted), depth) == (QuoteOf(Quoted(s, quoted)), depth + Depth(s, quoted))
  {
    OnlySingleIsPlain(s, quoted, depth);
    hide Run, Quoted, Depth, NoSingleInForeign, ForeignNet, OnlySingleQuotes;
    NetDepth(s, QuoteOf(quoted), depth);
  }

  lemma CountNothing(quoted: bool)
    ensures Quoted("", quoted) == quoted && Depth("", quoted) == 0
  {
  }

  lemma CountOne(s: string, quoted: bool)
    requires s != []
    ensures s[0] == '\'' ==> && Quoted(s, quoted) == Quoted(s[1..], !quoted) && Depth(s, quoted) == Depth(s[1..], !quoted)
                             && (OnlySingleQuotes(s, quoted) ==> OnlySingleQuotes(s[1..], !quoted))
    ensures s[0] != '\'' ==> && Quoted(s, quoted) == Quoted(s[1..], quoted)
                             && Depth(s, quoted) == (if quoted then 0 else Paren(s[0])) + Depth(s[1..], quoted)
                             && (OnlySingleQuotes(s, quoted) ==>
                                   OnlySingleQuotes(s[1..], quoted) && (!quoted ==> s[0] != '"' && TagLen(s) == 0))
  {
    hide TagLen;
  }

  /** For text without single quotes in foreign literals, exactly when split_sql returns rather than raises. */
  lemma SplitsExactlyWhenBalanced(s: string, delimiter: char)
    requires NoSingleInForeign(s, "")
    ensures Split(s, delimiter).Ok? <==>
            !Quoted(s, false) && Depth(s, false) == ForeignNet(s, "") && !Foreign(Run(s, "", 0).0)
  {
    hide Run, Quoted, Depth, Pieces, NoSingleInForeign, ForeignNet;
    NetDepth(s, "", 0);
  }

  lemma {:induction false} InsideIsDeeper(v: string, b: nat, e: nat, i: nat)
    requires b < i <= e < |v| && v[b] == '('
    requires forall j :: b <= j < e ==> !Closes(v, b, j)
    ensures Depth(v[b..i], false) >= 1
  {
    hide Quoted, Depth;
    OneMoreAt(v, b, i - 1);
    if i == b + 1 {
      Nothing(v, b);
    } else {
      InsideIsDeeper(v, b, e, i - 1);
      assert !Closes(v, b, i - 1);
    }
  }

  lemma {:induction false} AfterOpening(s: string, i: nat)
    requires 1 <= i <= |s| && s[0] == '('
    ensures Quoted(s[..i], false) == Quoted(s[1..i], false)
    ensures Depth(s[..i], false) == 1 + Depth(s[1..i], false)
  {
    assert s[..i][1..] == s[1..i];
  }

  predicate NeverNegative(s: string) {
    forall i :: 0 <= i <= |s| ==> Depth(s[..i], false) >= 0
  }

  /**
   * From an opening parenthesis, in the text up to the match that closing_paren finds the
   * single quotes are closed, the depth is zero and never drops below.
   */
  lemma InsideIsBalanced(v: string, b: nat, e: nat)
    requires b < e && Closes(v, b, e) && v[b] == '(' && forall j :: b <= j < e ==> !Closes(v, b, j)
    ensures v[e] == ')' && NeverNegative(v[b + 1..e])
    ensures !Quoted(v[b + 1..e], false) && Depth(v[b + 1..e], false) == 0
  {
    hide Quoted, Depth;
    OneMoreAt(v, b, e);
    var inside := v[b + 1..e];
    forall i | 0 <= i <= |inside|
      ensures Depth(v[b..b + 1 + i], false) == 1 + Depth(inside[..i], false)
      ensures Quoted(v[b..b + 1 + i], false) == Quoted(inside[..i], false)
      ensures Depth(inside[..i], false) >= 0
    {
      assert v[b..][..i + 1] == v[b..b + 1 + i] && v[b..][1..i + 1] == inside[..i];
      AfterOpening(v[b..], i + 1);
      InsideIsDeeper(v, b, e, b + 1 + i);
    }
    assert inside[..|inside|] == inside;
  }

  /** So split_sql accepts that text exactly when its foreign literals are closed and their parentheses cancel. */
  lemma InsideSplitsExactly(v: string, b: nat, e: nat, delimiter: char)
    requires b < e && Closes(v, b, e) && v[b] == '(' && forall j :: b <= j < e ==> !Closes(v, b, j)
    requires NoSingleInForeign(v[b + 1..e], "")
    ensures Split(v[b + 1..e], delimiter).Ok? <==> ForeignBalanced(v[b + 1..e])
  {
    hide Quoted, Depth, NoSingleInForeign, Split, Run, ForeignNet;
    InsideIsBalanced(v, b, e);
    SplitsExactlyWhenBalanced(v[b + 1..e], delimiter);
  }

  /** In particular when it has only single quotes. */
  lemma InsideSplits(v: string, b: nat, e: nat, delimiter: char)
    requires b < e && Closes(v, b, e) && v[b] == '(' && forall j :: b <= j < e ==> !Closes(v, b, j)
    requires OnlySingleQuotes(v[b + 1..e], false)
    ensures v[e] == ')'
    ensures Split(v[b + 1..e], delimiter).Ok?
    ensures NeverNegative(v[b + 1..e])
  {
    hide Quoted, Depth, NoSingleInForeign, Split, Run, ForeignNet, OnlySingleQuotes, NeverNegative;
    InsideIsBalanced(v, b, e);
    OnlySingleIsPlain(v[b + 1..e], false, 0);
    InsideSplitsExactly(v, b, e, delimiter);
  }

  /** Without that condition the claim fails: closing_paren does not know double quotes ... */
  lemma DoubleQuoteCounterexample()
    ensures var v := "(\")\")";
            && Closes(v, 0, 2) && (forall j :: 0 <= j < 2 ==> !Closes(v, 0, j))
            && Split(v[1..2], ',').Err?
  {
    var v := "(\")\")";
    assert v[0..0] == "" && v[0..1] == "(" && v[0..2] == "(\"" && v[0..3] == "(\")" && v[1..2] == "\"";
    assert "(\""[1..] == "\"" && "(\")"[1..] == "\")" && "\")"[1..] == ")" && "("[1..] == "" && "\""[1..] == "";
    assert !Quoted(v[0..2], false) && Depth(v[0..3], false) == 0 && Depth(v[0..1], false) == 1 && Depth(v[0..2], false) == 1;
  }

  /** ... nor dollar tags. */
  lemma DollarTagCounterexample()
    ensures var v := "($$)$$)";
            && Closes(v, 0, 3) && (forall j :: 0 <= j < 3 ==> !Closes(v, 0, j))
            && Split(v[1..3], ',').Err?
  {
    var v := "($$)$$)";
    Nothing(v, 0);
    hide Quoted, Depth;
    OneMoreAt(v, 0, 0);
    OneMoreAt(v, 0, 1);
    OneMoreAt(v, 0, 2);
    OneMoreAt(v, 0, 3);
    TagIsAQuote();
    assert v[1..3] == "$$";
  }

  lemma TagIsAQuote()
    ensures Split("$$", ',').Err?
  {
    assert "$$"[1..] == "$" && "$$"[2..] == "";
    hide FirstCut, Pieces;
    RunStep("$$", "", 0);
  }
}
