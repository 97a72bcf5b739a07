/**
 * What `normalize` does to the text between literals: the words stay, each gap between
 * them becomes one space, and the ends lose theirs. Words are defined on their own.
 */
module SqlWords {
  import opened Outcomes
  import opened Text
  import opened SqlLiterals

  function WordLen(s: string): (n: nat)
    ensures n <= |s|
    ensures s != "" && !IsSpace(s[0]) ==> n > 0
  {
    if s == "" || IsSpace(s[0]) then 0 else 1 + WordLen(s[1..])
  }

  /** The maximal runs of non-whitespace, in order. */
  function Words(s: string): seq<string>
    decreases |s|
  {
    var t := LStrip(s);
    if t == "" then [] else [t[..WordLen(t)]] + Words(t[WordLen(t)..])
  }

  function Gap(there: bool): string { if there then " " else "" }

  /** The words of a text with single spaces between them, and one at either end if asked. */
  function Line(s: string, lead: bool, trail: bool): string {
    if Words(s) == [] then Gap(s != "" && lead && trail)
    else Gap(lead && IsSpace(s[0])) + Join(Words(s), ' ') + Gap(trail && IsSpace(s[|s| - 1]))
  }

  lemma NoWords(s: string)
    ensures Words(s) == [] <==> Blank(s)
    ensures Words("") == []
  {
    WordsForm(s);
    WordsForm("");
    Leftover(s);
    hide *;
    Leftover("");
  }

  lemma WordsForm(s: string)
    ensures Words(s) == [] <==> LStrip(s) == ""
  {
    hide LStrip, WordLen;
  }

  lemma Leftover(s: string)
    ensures LStrip(s) == "" <==> Blank(s)
    ensures LStrip("") == ""
  {
    var t := LStrip(s);
    if t == "" {
      assert s[..|s|] == s;
    } else {
      assert s[|s| - |t|..][0] == s[|s| - |t|];
    }
    hide IsSpace;
  }

  lemma WordsStep(t: string)
    requires t != "" && !IsSpace(t[0])
    ensures WordLen(t) > 0 && Words(t) == [t[..WordLen(t)]] + Words(t[WordLen(t)..])
  {
    assert LStrip(t) == t;
    hide IsSpace;
  }

  lemma WordsSkip(c: char, s: string)
    requires IsSpace(c)
    ensures Words([c] + s) == Words(s)
  {
    assert ([c] + s)[1..] == s;
    assert LStrip([c] + s) == LStrip(s);
    hide IsSpace, LStrip, WordLen;
  }

  lemma WordLenCons(c: char, s: string)
    requires !IsSpace(c)
    ensures WordLen([c] + s) == 1 + WordLen(s)
  {
    assert ([c] + s)[1..] == s;
    hide IsSpace;
  }

  lemma NoWordHere(s: string)
    requires s == "" || IsSpace(s[0])
    ensures WordLen(s) == 0
  {
  }

  /** One more character in front. */
  lemma WordsCons(c: char, s: string)
    ensures IsSpace(c) ==> Words([c] + s) == Words(s)
    ensures !IsSpace(c) && (s == "" || IsSpace(s[0])) ==> Words([c] + s) == [[c]] + Words(s)
    ensures !IsSpace(c) && s != "" && !IsSpace(s[0]) ==>
              Words(s) != [] && Words([c] + s) == [[c] + Words(s)[0]] + Words(s)[1..]
  {
    hide IsSpace, Words, WordLen;
    var w := [c] + s;
    if IsSpace(c) {
      WordsSkip(c, s);
    } else {
      WordsStep(w);
      WordLenCons(c, s);
      var n := WordLen(s);
      assert w[..n + 1] == [c] + s[..n] && w[n + 1..] == s[n..];
      if s == "" || IsSpace(s[0]) {
        NoWordHere(s);
        assert s[..0] == "" && s[0..] == s;
      } else {
        WordsStep(s);
      }
    }
  }

  lemma {:induction false} WordsThenBlank(s: string, b: string)
    requires Blank(b)
    ensures Words(s + b) == Words(s)
  {
    hide IsSpace, Words;
    if s == "" {
      assert s + b == b;
      NoWords(b);
      NoWords("");
    } else {
      assert s == [s[0]] + s[1..] && s + b == [s[0]] + (s[1..] + b);
      WordsThenBlank(s[1..], b);
      WordsCons(s[0], s[1..]);
      WordsCons(s[0], s[1..] + b);
    }
  }

  lemma WordsByLStrip(s: string)
    ensures Words(LStrip(s)) == Words(s)
  {
    var t := LStrip(s);
    assert LStrip(t) == t by { LStripTwice(s); }
    hide LStrip, IsSpace, WordLen;
  }

  lemma LStripTwice(s: string)
    ensures LStrip(LStrip(s)) == LStrip(s)
  {
    hide IsSpace;
  }

  lemma StripKeepsWords(s: string)
    ensures Words(LStrip(s)) == Words(s) && Words(RStrip(s)) == Words(s)
  {
    hide LStrip, RStrip, IsSpace, Words;
    WordsByLStrip(s);
    var r := RStrip(s);
    assert s == r + s[|r|..];
    WordsThenBlank(r, s[|r|..]);
  }

  lemma JoinStep(w: string, ws: seq<string>)
    requires ws != []
    ensures Join([w] + ws, ' ') == w + " " + Join(ws, ' ')
  {
    assert ([w] + ws)[1..] == ws;
  }

  lemma Assoc(a: string, b: string, c: string)
    ensures a + b + c == a + (b + c)
    ensures "" + a == a && a + "" == a && "" + b == b
  {
  }

  /** Prefixing a character to the first of several parts prefixes it to the whole. */
  lemma JoinPrefix(c: char, ws: seq<string>)
    requires ws != []
    ensures Join([[c] + ws[0]] + ws[1..], ' ') == [c] + Join(ws, ' ')
    ensures Join([[c]] + ws, ' ') == [c] + " " + Join(ws, ' ')
  {
    hide Join;
    JoinStep([c], ws);
    if |ws| == 1 {
      JoinOne(ws[0]);
      JoinOne([c] + ws[0]);
      assert [[c] + ws[0]] + ws[1..] == [[c] + ws[0]] && ws == [ws[0]];
    } else {
      JoinStep(ws[0], ws[1..]);
      JoinStep([c] + ws[0], ws[1..]);
      assert ws == [ws[0]] + ws[1..];
      Assoc([c], ws[0], " ");
      Assoc([c], ws[0] + " ", Join(ws[1..], ' '));
    }
  }

  lemma JoinOne(w: string)
    ensures Join([w], ' ') == w && Join([], ' ') == ""
  {
  }

  /** A text without words is whitespace at both ends. */
  lemma BlankEnds(s: string)
    requires s != "" && Words(s) == []
    ensures IsSpace(s[0]) && IsSpace(s[|s| - 1])
  {
    NoWords(s);
    hide IsSpace;
  }

  lemma LineCons(c: char, s: string)
    requires !IsSpace(c)
    ensures Line([c] + s, true, true) == [c] + Line(s, true, true)
  {
    hide Words, IsSpace, Join;
    WordsCons(c, s);
    JoinOne([c]);
    NoWords(s);
    hide Blank;
    if s == "" {
      assert [[c]] + Words(s) == [[c]];
    } else if Words(s) == [] {
      BlankEnds(s);
      assert [[c]] + Words(s) == [[c]];
      assert ([c] + s)[|s|] == s[|s| - 1];
    } else {
      LineConsWords(c, s);
    }
  }

  lemma WithWords(s: string)
    requires Words(s) != []
    ensures s != "" && Line(s, true, true) == Gap(IsSpace(s[0])) + Join(Words(s), ' ') + Gap(IsSpace(s[|s| - 1]))
  {
    NoWords(s);
    hide IsSpace, Words;
  }

  lemma LineConsWords(c: char, s: string)
    requires !IsSpace(c) && Words(s) != [] && s != ""
    requires Words([c] + s) == if IsSpace(s[0]) then [[c]] + Words(s) else [[c] + Words(s)[0]] + Words(s)[1..]
    ensures Line([c] + s, true, true) == [c] + Line(s, true, true)
  {
    hide Words, IsSpace, Join, Line;
    hide Gap;
    var w, text, end := [c] + s, Join(Words(s), ' '), Gap(IsSpace(s[|s| - 1]));
    Gaps();
    JoinPrefix(c, Words(s));
    WithWords(s);
    WithWords(w);
    assert w[|w| - 1] == s[|s| - 1] && w[0] == c;
    Assoc([c], " ", text);
    Assoc([c], " " + text, end);
    Assoc([c], text, end);
    Assoc(text, [c] + text, text);
    Assoc(text, [c] + " " + text, text);
  }

  lemma Gaps()
    ensures Gap(true) == " " && Gap(false) == ""
  {
  }

  lemma SpaceFirst(s: string)
    requires s != "" && IsSpace(s[0])
    ensures Words(s) == Words(LStrip(s[1..]))
  {
    assert s == [s[0]] + s[1..];
    hide Words, IsSpace, LStrip;
    WordsCons(s[0], s[1..]);
    WordsByLStrip(s[1..]);
  }

  lemma LineSpace(s: string)
    requires s != "" && IsSpace(s[0])
    ensures Line(s, true, true) == " " + Line(LStrip(s[1..]), true, true)
    ensures Words(s) == Words(LStrip(s[1..]))
  {
    hide *;
    var t := LStrip(s[1..]);
    SpaceFirst(s);
    SameEnd(s, t);
    if t == "" {
      EmptyLine();
      BlankLine(s);
    } else {
      NotBlankHead(t);
      LineAfterSpace(s, t);
    }
  }

  lemma LineAfterSpace(s: string, t: string)
    requires s != "" && IsSpace(s[0]) && t != "" && !IsSpace(t[0])
    requires Words(s) == Words(t) != [] && s[|s| - 1] == t[|t| - 1]
    ensures Line(s, true, true) == " " + Line(t, true, true)
  {
    hide Words, Join, IsSpace, Line;
    WithWords(s);
    WithWords(t);
    var text, end := Join(Words(t), ' '), Gap(IsSpace(t[|t| - 1]));
    hide Gap;
    Gaps();
    assert Line(s, true, true) == " " + text + end;
    assert Line(t, true, true) == "" + text + end;
    Assoc(" ", text, end);
    Assoc("", text, end);
  }

  lemma BlankLine(s: string)
    requires s != "" && Words(s) == []
    ensures Line(s, true, true) == " "
  {
    hide Words;
  }

  lemma SameEnd(s: string, t: string)
    requires s != "" && t == LStrip(s[1..])
    ensures t != "" ==> t[|t| - 1] == s[|s| - 1] && !IsSpace(t[0])
  {
    assert s[1..] == s[1..][..|s| - 1 - |t|] + t;
    hide IsSpace;
  }

  lemma NotBlankHead(t: string)
    requires t != "" && !IsSpace(t[0])
    ensures Words(t) != []
  {
    NoWords(t);
    hide IsSpace;
  }

  /** Collapsing keeps every word, and leaves exactly one space for each stretch of whitespace. */
  lemma {:induction false} CollapseIsLine(s: string)
    ensures Words(Collapse(s)) == Words(s)
    ensures Collapse(s) == Line(s, true, true)
    decreases |s|
  {
    hide Words, IsSpace, Line, LStrip;
    if s == "" {
      EmptyLine();
    } else if IsSpace(s[0]) {
      var t := LStrip(s[1..]);
      CollapseIsLine(t);
      LineSpace(s);
      SpaceIsSpace();
      assert Collapse(s) == [' '] + Collapse(t);
      WordsCons(' ', Collapse(t));
    } else {
      var u := s[1..];
      assert s == [s[0]] + u;
      CollapseIsLine(u);
      LineCons(s[0], u);
      WordsCons(s[0], u);
      CollapseHead(u);
      WordsCons(s[0], Collapse(u));
    }
  }

  lemma EmptyLine()
    ensures Words("") == [] && Line("", true, true) == ""
  {
  }

  lemma CollapseHead(s: string)
    ensures s != "" ==> Collapse(s) != "" && (IsSpace(Collapse(s)[0]) <==> IsSpace(s[0]))
    ensures s == "" ==> Collapse(s) == ""
  {
    SpaceIsSpace();
    hide IsSpace, LStrip;
  }

  // ---- normalize ----------------------------------------------------------------------

  /** The words of each text between literals. */
  function PartWords(ps: Parts): seq<seq<string>> {
    match ps
    case Last(t) => [Words(t)]
    case Quoted(t, _, rest) => [Words(t)] + PartWords(rest)
  }

  /** Every text as a line, without spaces where the whole begins and ends; literals as they are. */
  function Laid(ps: Parts, lead: bool, trail: bool): Parts {
    match ps
    case Last(t) => Last(Line(t, lead, trail))
    case Quoted(t, l, rest) => Quoted(Line(t, lead, true), l, Laid(rest, true, trail))
  }

  lemma {:induction false} SqueezeIsLaid(ps: Parts)
    ensures Squeeze(ps) == Laid(ps, true, true) && PartWords(Squeeze(ps)) == PartWords(ps)
  {
    hide Words, Line, Collapse;
    CollapseIsLine(ps.text);
    if ps.Quoted? {
      SqueezeIsLaid(ps.rest);
    }
  }

  predicate Solid(w: string) {
    w != "" && !IsSpace(w[0]) && !IsSpace(w[|w| - 1])
  }

  lemma {:induction false} WordLenChars(s: string, i: nat)
    requires i < WordLen(s)
    ensures !IsSpace(s[i])
  {
    if i > 0 { WordLenChars(s[1..], i - 1); }
  }

  lemma {:induction false} WordsAreSolid(s: string)
    ensures forall w :: w in Words(s) ==> Solid(w)
    decreases |s|
  {
    hide IsSpace, WordLen, Words, LStrip, Solid;
    var t := LStrip(s);
    WordsByLStrip(s);
    if t != "" {
      Head(s);
      WordsStep(t);
      FirstIsSolid(t);
      WordsAreSolid(t[WordLen(t)..]);
    } else {
      EmptyLine();
    }
  }

  lemma Head(s: string)
    ensures LStrip(s) != "" ==> !IsSpace(LStrip(s)[0])
  {
  }

  lemma FirstIsSolid(t: string)
    requires t != "" && !IsSpace(t[0])
    ensures Solid(t[..WordLen(t)])
  {
    WordLenChars(t, WordLen(t) - 1);
    hide IsSpace, WordLen;
  }

  lemma {:induction false} JoinIsSolid(ws: seq<string>)
    requires ws != [] && forall w :: w in ws ==> Solid(w)
    ensures Solid(Join(ws, ' '))
  {
    hide IsSpace;
    assert ws[0] in ws;
    if |ws| > 1 {
      JoinIsSolid(ws[1..]);
      var j := Join(ws, ' ');
      assert j[0] == ws[0][0] && j[|j| - 1] == Join(ws[1..], ' ')[|Join(ws[1..], ' ')| - 1];
    }
  }

  lemma LStripGap(lead: bool, x: string)
    requires x != "" && !IsSpace(x[0])
    ensures LStrip(Gap(lead) + x) == x
  {
    SpaceIsSpace();
    hide IsSpace;
    assert (" " + x)[1..] == x && "" + x == x;
  }

  lemma RStripGap(x: string, trail: bool)
    requires x != "" && !IsSpace(x[|x| - 1])
    ensures RStrip(x + Gap(trail)) == x
  {
    SpaceIsSpace();
    hide IsSpace;
    assert (x + " ")[..|x|] == x && x + "" == x;
  }

  lemma StripLeft(x: string, lead: bool, h: string)
    requires x != "" && !IsSpace(x[0])
    ensures LStrip(Gap(lead) + x + h) == Gap(false) + x + h
  {
    hide LStrip, IsSpace;
    var r := x + h;
    assert r[0] == x[0];
    LStripGap(lead, r);
    Assoc(Gap(lead), x, h);
    Assoc("", x, h);
    hide Gap;
    Gaps();
  }

  lemma StripRight(g: string, x: string, trail: bool)
    requires x != "" && !IsSpace(x[|x| - 1])
    ensures RStrip(g + x + Gap(trail)) == g + x + Gap(false)
  {
    hide RStrip, IsSpace;
    var l := g + x;
    assert l[|l| - 1] == x[|x| - 1];
    RStripGap(l, trail);
    Assoc(l, l, l);
    hide Gap;
    Gaps();
  }

  lemma StripGaps(x: string, lead: bool, trail: bool)
    requires Solid(x)
    ensures LStrip(Gap(lead) + x + Gap(trail)) == Gap(false) + x + Gap(trail)
    ensures RStrip(Gap(lead) + x + Gap(trail)) == Gap(lead) + x + Gap(false)
  {
    hide LStrip, RStrip, IsSpace, Gap;
    StripLeft(x, lead, Gap(trail));
    StripRight(Gap(lead), x, trail);
  }

  lemma LineForm(s: string, lead: bool, trail: bool)
    ensures Words(s) == [] ==> Line(s, lead, trail) == Gap(s != "" && lead && trail)
    ensures Words(s) != [] ==>
              s != "" && Line(s, lead, trail) == Gap(lead && IsSpace(s[0])) + Join(Words(s), ' ') + Gap(trail && IsSpace(s[|s| - 1]))
  {
    hide Words, IsSpace, Join;
    EmptyLine();
  }

  lemma LStripLine(s: string, trail: bool)
    ensures LStrip(Line(s, true, trail)) == Line(s, false, trail)
  {
    hide *;
    LineForm(s, true, trail);
    LineForm(s, false, trail);
    if Words(s) == [] {
      StripGap();
    } else {
      WordsAreSolid(s);
      JoinIsSolid(Words(s));
      StripGaps(Join(Words(s), ' '), IsSpace(s[0]), trail && IsSpace(s[|s| - 1]));
    }
  }

  lemma RStripLine(s: string, lead: bool)
    ensures RStrip(Line(s, lead, true)) == Line(s, lead, false)
  {
    hide *;
    LineForm(s, lead, true);
    LineForm(s, lead, false);
    if Words(s) == [] {
      StripGap();
    } else {
      WordsAreSolid(s);
      JoinIsSolid(Words(s));
      StripGaps(Join(Words(s), ' '), lead && IsSpace(s[0]), IsSpace(s[|s| - 1]));
    }
  }

  lemma StripGap()
    ensures forall there :: LStrip(Gap(there)) == "" == RStrip(Gap(there))
    ensures Gap(false) == ""
  {
    SpaceIsSpace();
    hide IsSpace;
    assert LStrip(" ") == "" == RStrip(" ");
  }

  lemma {:induction false} RTrimIsLaid(ps: Parts, lead: bool)
    ensures RTrim(Laid(ps, lead, true)) == Laid(ps, lead, false)
    ensures PartWords(RTrim(ps)) == PartWords(ps)
  {
    hide Line, LStrip, RStrip, Words;
    RStripLine(ps.text, lead);
    StripKeepsWords(ps.text);
    if ps.Quoted? {
      RTrimIsLaid(ps.rest, true);
    }
  }

  lemma LTrimIsLaid(ps: Parts, trail: bool)
    ensures LTrim(Laid(ps, true, trail)) == Laid(ps, false, trail)
    ensures PartWords(LTrim(ps)) == PartWords(ps)
  {
    hide Line, LStrip, RStrip, Words;
    LStripLine(ps.text, if ps.Last? then trail else true);
    StripKeepsWords(ps.text);
  }

  /**
   * Between the same literals stand the same words, one space for each stretch of whitespace
   * and none at the two ends: this and NormalizeKeepsLiterals leave nothing else to `normalize`.
   */
  lemma NormalizeKeepsWords(s: string)
    ensures var ps := SplitLiterals(s);
            && SplitLiterals(Normalize(s)) == Laid(ps, false, false)
            && Normalize(s) == Cat(Laid(ps, false, false))
            && PartWords(SplitLiterals(Normalize(s))) == PartWords(ps)
  {
    hide Laid, PartWords, LTrim, RTrim, Squeeze, SplitLiterals, Normalize;
    NormalizedParts(s);
    var ps := SplitLiterals(s);
    SqueezeIsLaid(ps);
    LTrimIsLaid(ps, true);
    LTrimIsLaid(Squeeze(ps), true);
    RTrimIsLaid(ps, false);
    RTrimIsLaid(LTrim(Squeeze(ps)), false);
  }
}
