/**
 * What the scanners do with whole pieces of text: code, comments and the three kinds of
 * literal. Each piece is passed over as one, whatever stands in it and after it.
 */
module SqlPieces {
  import opened Outcomes
  import opened Text
  import opened SqlScanner
  import opened SqlLiterals

  // ---- split_sql and literals that are not single-quoted --------------------------------

  /** A dollar tag such as `$$` or `$body$`. */
  predicate IsTag(t: string) {
    |t| >= 2 && t[0] == '$' && t[|t| - 1] == '$' && forall i :: 1 <= i < |t| - 1 ==> TagChar(t[i])
  }

  /** The quote t first comes up again right behind the body. */
  predicate FirstBehind(t: string, body: string) {
    forall i :: 0 <= i < |body| ==> !(t <= (body + t)[i..])
  }

  function Shift(n: nat, r: Option<nat>): Option<nat> {
    match r case None => None case Some(k) => Some(n + k)
  }

  lemma {:induction false} TagRunOf(name: string, rest: string)
    requires forall i :: 0 <= i < |name| ==> TagChar(name[i])
    requires rest != "" && !TagChar(rest[0])
    ensures TagRun(name + rest) == |name|
  {
    if name == "" {
      assert name + rest == rest;
    } else {
      assert (name + rest)[1..] == name[1..] + rest;
      TagRunOf(name[1..], rest);
    }
  }

  lemma TagLenOf(t: string, rest: string)
    requires IsTag(t)
    ensures TagLen(t + rest) == |t|
  {
    var name, end := t[1..|t| - 1], [t[|t| - 1]] + rest;
    assert (t + rest)[1..] == name + end;
    TagRunOf(name, end);
    assert (name + end)[|name|] == '$';
    hide TagRun;
  }

  lemma OpensQuote(t: string, rest: string)
    requires t == "\"" || IsTag(t)
    ensures Next(t + rest, "") == Token(|t|, t, 0, false)
  {
    if IsTag(t) {
      TagLenOf(t, rest);
      assert (t + rest)[..|t|] == t;
    }
    hide TagLen;
  }

  lemma StaysInQuote(t: string, s: string)
    requires t != "" && t != "'" && s != ""
    ensures Next(s, t) == if t <= s then Token(|t|, "", 0, false) else Token(1, t, 0, false)
  {
    hide TagLen;
  }

  lemma FirstBehindTail(t: string, body: string)
    requires FirstBehind(t, body) && body != ""
    ensures FirstBehind(t, body[1..])
  {
    forall i | 0 <= i < |body| - 1 ensures !(t <= (body[1..] + t)[i..]) {
      assert (body[1..] + t)[i..] == (body + t)[i + 1..];
    }
  }

  lemma NotYet(t: string, body: string, rest: string)
    requires FirstBehind(t, body) && body != ""
    ensures !(t <= body + t + rest)
  {
    assert (body + t)[0..] == body + t;
    assert (body + t + rest)[..|t|] == (body + t)[..|t|];
  }

  lemma {:induction false} ClosesBehind(t: string, body: string, rest: string, delimiter: char, depth: int)
    requires t != "" && t != "'" && FirstBehind(t, body)
    ensures Run(body + t + rest, t, depth) == Run(rest, "", depth)
    ensures FirstCut(body + t + rest, delimiter, t, depth) == Shift(|body| + |t|, FirstCut(rest, delimiter, "", depth))
  {
    hide Run, FirstCut, FirstBehind;
    var w := body + t + rest;
    RunStep(w, t, depth);
    CutStep(w, delimiter, t, depth);
    StaysInQuote(t, w);
    if body == "" {
      assert w == t + rest && w[|t|..] == rest;
    } else {
      NotYet(t, body, rest);
      FirstBehindTail(t, body);
      assert w[1..] == body[1..] + t + rest;
      ClosesBehind(t, body[1..], rest, delimiter, depth);
    }
  }

  /** A double-quoted or dollar-quoted literal is passed over as a whole: no parenthesis or delimiter in it counts. */
  lemma LiteralIsPassed(t: string, body: string, rest: string, delimiter: char, depth: int)
    requires (t == "\"" || IsTag(t)) && FirstBehind(t, body)
    ensures Run(t + body + t + rest, "", depth) == Run(rest, "", depth)
    ensures FirstCut(t + body + t + rest, delimiter, "", depth)
         == Shift(2 * |t| + |body|, FirstCut(rest, delimiter, "", depth))
  {
    hide Run, FirstCut, FirstBehind;
    var w := t + body + t + rest;
    assert w == t + (body + t + rest) && w[|t|..] == body + t + rest;
    OpensQuote(t, body + t + rest);
    RunStep(w, "", depth);
    CutStep(w, delimiter, "", depth);
    ClosesBehind(t, body, rest, delimiter, depth);
  }

  /** Alone it is one fragment. */
  lemma LiteralIsAtomic(t: string, body: string, delimiter: char)
    requires (t == "\"" || IsTag(t)) && FirstBehind(t, body)
    ensures Atomic(t + body + t, delimiter)
  {
    hide FirstBehind, Run, FirstCut;
    LiteralIsPassed(t, body, "", delimiter, 0);
    ScanNothing(delimiter, "", 0);
    assert t + body + t + "" == t + body + t;
  }

  // ---- uncomment ------------------------------------------------------------------------

  /** Text without quotes, with no comment beginning in it or at its end. */
  predicate Code(s: string) {
    && NoQuote(s) && (s != "" ==> s[|s| - 1] != '-')
    && forall i :: 0 <= i < |s| ==> !("--" <= s[i..])
  }

  lemma Dashes(s: string)
    ensures "--" <= s <==> |s| >= 2 && s[0] == '-' && s[1] == '-'
  {
    assert "--"[0] == '-' && "--"[1] == '-';
  }

  lemma {:induction false} CodeStays(code: string, rest: string)
    requires Code(code)
    ensures Uncomment(code + rest) == code + Uncomment(rest)
  {
    hide Uncomment, LitLen;
    if code == "" {
      assert code + rest == rest && code + Uncomment(rest) == Uncomment(rest);
    } else {
      var w, tail := code + rest, code[1..];
      assert Code(tail) by { forall i | 0 <= i < |tail| ensures !("--" <= tail[i..]) { assert tail[i..] == code[i + 1..]; } }
      Dashes(w);
      Dashes(code);
      assert code[0..] == code;
      assert w[1..] == tail + rest;
      UncommentPlain(w);
      CodeStays(tail, rest);
      assert [code[0]] + (tail + Uncomment(rest)) == code + Uncomment(rest);
    }
  }

  lemma {:induction false} LineLenOf(text: string, rest: string)
    requires '\n' !in text && (rest == "" || rest[0] == '\n')
    ensures LineLen(text + rest) == |text|
  {
    if text == "" {
      assert text + rest == rest;
    } else {
      assert (text + rest)[1..] == text[1..] + rest;
      LineLenOf(text[1..], rest);
    }
  }

  /** A comment becomes as many spaces, up to the end of its line. */
  lemma CommentIsBlanked(text: string, rest: string)
    requires '\n' !in text && (rest == "" || rest[0] == '\n')
    ensures Uncomment("--" + text + rest) == Spaces(2 + |text|) + Uncomment(rest)
  {
    var w := "--" + text + rest;
    assert w[2..] == text + rest && w[2 + |text|..] == rest && w[0] == '-' && w[..2] == "--";
    LineLenOf(text, rest);
    UncommentComment(w);
    hide Uncomment, LineLen, LitLen;
  }

  /** A literal stays, comment marks in it and all. */
  lemma LiteralIsKept(lit: string, rest: string)
    requires IsLiteral(lit) && Follows(rest)
    ensures Uncomment(lit + rest) == lit + Uncomment(rest)
  {
    hide LitLen, Uncomment, Follows;
    LiteralThen(lit, rest);
    UncommentLiteral(lit + rest);
    assert (lit + rest)[..|lit|] == lit && (lit + rest)[|lit|..] == rest;
  }

  /** Lines are counted by the newlines before the offset. */
  lemma {:induction false} LineCountsNewlines(s: string, offset: nat)
    requires offset <= |s|
    ensures LineOf(s, offset) == 1 + |set i | 0 <= i < offset && s[i] == '\n'|
  {
    if offset > 0 {
      LineCountsNewlines(s, offset - 1);
      var earlier := set i | 0 <= i < offset - 1 && s[i] == '\n';
      var all := set i | 0 <= i < offset && s[i] == '\n';
      assert all == if s[offset - 1] == '\n' then earlier + {offset - 1} else earlier;
    }
  }
}
