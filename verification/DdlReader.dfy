/**
 * How `parse_sources` puts the four scanners together for one CREATE TABLE: clean the
 * file, find the closing parenthesis, split the body, normalize each declaration and
 * record the line it came from.
 */
module DdlReader {
  import opened Outcomes
  import opened Text
  import opened SqlScanner
  import opened ParenScanner
  import opened SqlLiterals

  /** A declaration, the offset of its first character in the file, and that offset's line. */
  datatype Declaration = Declaration(sql: string, offset: nat, line: nat)

  predicate Body(sql: string, begin: nat, end: int) {
    begin < end < |sql| && Closes(sql, begin, end) && forall j :: begin <= j < end ==> !Closes(sql, begin, j)
  }

  function OffsetOf(begin: nat, f: Fragment): nat {
    begin + 1 + f.offset + |f.text| - |LStrip(f.text)|
  }

  /** The declaration is in the raw file where it says, comments notwithstanding. */
  predicate Sits(raw: string, begin: nat, f: Fragment, d: Declaration) {
    && d.sql == Normalize(f.text)
    && d.offset == OffsetOf(begin, f) <= |raw|
    && d.line == LineOf(raw, d.offset)
    && (LStrip(f.text) != "" ==> d.offset < |raw| && raw[d.offset] == LStrip(f.text)[0])
  }

  predicate Places(raw: string, begin: nat, split: Result<seq<Fragment>, ScanError>, ds: seq<Declaration>) {
    && split.Ok? && |split.value| == |ds|
    && forall i :: 0 <= i < |ds| ==> Sits(raw, begin, split.value[i], ds[i])
  }

  /** Foreign literals hold no single quote, are closed, and their parentheses cancel. */
  predicate Splittable(body: string) {
    NoSingleInForeign(body, "") && ForeignBalanced(body)
  }

  lemma SplittableSplits(sql: string, begin: nat, end: nat)
    requires Body(sql, begin, end) && sql[begin] == '(' && Splittable(sql[begin + 1..end])
    ensures Split(sql[begin + 1..end], ',').Ok?
  {
    hide Split, NoSingleInForeign, ForeignBalanced, ParenScanner.Quoted, Depth;
    InsideSplitsExactly(sql, begin, end, ',');
  }

  lemma FragmentSits(raw: string, begin: nat, end: nat, f: Fragment)
    requires begin < end <= |raw| && LocatedIn(f, Uncomment(raw)[begin + 1..end], 0)
    ensures OffsetOf(begin, f) <= |raw|
    ensures var o := OffsetOf(begin, f);
            Sits(raw, begin, f, Declaration(Normalize(f.text), o, LineOf(Uncomment(raw), o)))
  {
    hide Uncomment, Normalize, LStrip, LineOf;
    var sql := Uncomment(raw);
    var o := OffsetOf(begin, f);
    SameLine(raw, o);
    if LStrip(f.text) != "" {
      FirstCharacter(sql, begin, end, f);
      UncommentOnlyBlanks(raw, o);
      SpaceIsSpace();
    }
  }

  lemma FirstCharacter(sql: string, begin: nat, end: nat, f: Fragment)
    requires begin < end <= |sql| && LocatedIn(f, sql[begin + 1..end], 0) && LStrip(f.text) != ""
    ensures OffsetOf(begin, f) < |sql| && sql[OffsetOf(begin, f)] == LStrip(f.text)[0]
  {
    hide IsSpace;
    var lead := |f.text| - |LStrip(f.text)|;
    assert LStrip(f.text)[0] == f.text[lead..][0];
    hide LStrip;
    CharacterOf(sql, begin + 1, end, f.offset, f.text, lead);
  }

  lemma CharacterOf(s: string, from: nat, to: nat, offset: nat, text: string, k: nat)
    requires from <= to <= |s| && offset + |text| <= to - from && k < |text|
    requires s[from..to][offset..][..|text|] == text
    ensures s[from + offset + k] == text[k]
  {
    assert s[from..to][offset..][..|text|][k] == s[from..to][offset + k];
  }

  /** `source` counts on the raw text; counting on the cleaned text would give the same line. */
  method TableDeclarations(raw: string, begin: nat) returns (r: Result<seq<Declaration>, ScanError>)
    requires begin < |raw| && Uncomment(raw)[begin] == '('
    ensures var sql := Uncomment(raw);
            match r
            case Ok(ds) => exists end :: Body(sql, begin, end) && Places(raw, begin, Split(sql[begin + 1..end], ','), ds)
            case Err(_) => forall end :: Body(sql, begin, end) ==> !Splittable(sql[begin + 1..end])
  {
    hide Uncomment, Normalize, ParenScanner.Quoted, Depth, Splittable, Split, Sits, LocatedIn, Atomic, Rebuilds;
    var sql := Uncomment(raw);
    OpeningDoesNotClose(sql, begin);
    var end := ClosingParen(sql, begin);
    if end.Err? {
      return Err(end.error);
    }
    var e := end.value;
    var body := sql[begin + 1..e];
    var split := SplitSql(body, ',');
    if split.Err? {
      forall e' | Body(sql, begin, e') ensures !Splittable(sql[begin + 1..e']) {
        assert e' == e;
        if Splittable(body) {
          SplittableSplits(sql, begin, e);
        }
      }
      return Err(split.error);
    }
    var ds := [];
    SplitFragments(body, ',');
    for i := 0 to |split.value|
      invariant |ds| == i
      invariant forall k :: 0 <= k < i ==> Sits(raw, begin, split.value[k], ds[k])
    {
      var f := split.value[i];
      FragmentSits(raw, begin, e, f);
      var offset := OffsetOf(begin, f);
      SameLine(raw, offset);
      ds := ds + [Declaration(Normalize(f.text), offset, LineOf(raw, offset))];
    }
    assert Body(sql, begin, e);
    return Ok(ds);
  }

  lemma OpeningDoesNotClose(sql: string, begin: nat)
    requires begin < |sql| && sql[begin] == '('
    ensures !Closes(sql, begin, begin)
  {
    OneMoreAt(sql, begin, begin);
    Nothing(sql, begin);
    hide ParenScanner.Quoted, Depth;
  }
}
