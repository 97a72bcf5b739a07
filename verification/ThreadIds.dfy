/**
 * Checkpoint thread ids, agent/checkpointing.py: how they are built from a namespace and a
 * value, and how a replay derives its child id. `sha` is the hexadecimal digest cut to 16.
 */
module ThreadIds {
  import opened Outcomes
  import Text

  datatype Error = BlankNamespace | BlankValue | UnsafeThreadId | UnsafeCheckpoint | NoCheckpoint

  predicate AlphaNumeric(c: char) {
    'A' <= c <= 'Z' || 'a' <= c <= 'z' || '0' <= c <= '9'
  }

  predicate Mark(c: char) { c == '-' || c == '.' || c == '_' || c == ':' }

  predicate SafeChar(c: char) { AlphaNumeric(c) || Mark(c) }

  predicate AllSafe(s: string) {
    forall i :: 0 <= i < |s| ==> SafeChar(s[i])
  }

  /** The pattern SAFE_THREAD_ID. */
  predicate SafeThreadId(s: string) {
    1 <= |s| <= 160 && AlphaNumeric(s[0]) && AllSafe(s)
  }

  predicate HexDigit(c: char) { '0' <= c <= '9' || 'a' <= c <= 'f' }

  ghost predicate Digests(sha: string -> string) {
    forall s :: |sha(s)| == 16 && forall i :: 0 <= i < 16 ==> HexDigit(sha(s)[i])
  }

  /** `validate_checkpoint_thread_id` */
  function ValidateThreadId(s: string): (r: Result<string, Error>)
    ensures r.Ok? ==> SafeThreadId(r.value)
  {
    var normalized := Text.Strip(s);
    if SafeThreadId(normalized) then Ok(normalized) else Err(UnsafeThreadId)
  }

  function SkipUnsafe(s: string): (r: string)
    ensures |r| <= |s|
  {
    if s != "" && !SafeChar(s[0]) then SkipUnsafe(s[1..]) else s
  }

  /** `re.sub` of every run of unsafe characters by one hyphen. */
  function Sanitize(s: string): (r: string)
    ensures AllSafe(r)
    decreases |s|
  {
    if s == "" then ""
    else if SafeChar(s[0]) then [s[0]] + Sanitize(s[1..])
    else "-" + Sanitize(SkipUnsafe(s[1..]))
  }

  lemma {:induction false} SanitizeKeepsSafe(s: string)
    requires AllSafe(s)
    ensures Sanitize(s) == s
  {
    if s != "" {
      assert AllSafe(s[1..]);
      SanitizeKeepsSafe(s[1..]);
      assert s == [s[0]] + s[1..];
    }
  }

  predicate AllUnsafe(s: string) {
    forall i :: 0 <= i < |s| ==> !SafeChar(s[i])
  }

  lemma {:induction false} SkipsTheRun(u: string, rest: string)
    requires AllUnsafe(u) && (rest == "" || SafeChar(rest[0]))
    ensures SkipUnsafe(u + rest) == rest
  {
    if u == "" {
      assert u + rest == rest;
    } else {
      assert (u + rest)[1..] == u[1..] + rest;
      SkipsTheRun(u[1..], rest);
    }
  }

  lemma SafeInFront(c: char, s: string)
    requires SafeChar(c)
    ensures Sanitize([c] + s) == [c] + Sanitize(s)
  {
    assert ([c] + s)[1..] == s;
    hide SafeChar;
  }

  lemma UnsafeRun(u: string, rest: string)
    requires AllUnsafe(u) && u != "" && (rest == "" || SafeChar(rest[0]))
    ensures Sanitize(u + rest) == "-" + Sanitize(rest)
  {
    assert (u + rest)[1..] == u[1..] + rest;
    SkipsTheRun(u[1..], rest);
    hide SafeChar, SkipUnsafe;
  }

  lemma {:induction false} SafePrefix(safe: string, s: string)
    requires AllSafe(safe)
    ensures Sanitize(safe + s) == safe + Sanitize(s)
  {
    hide Sanitize, SafeChar;
    if safe == "" {
      assert safe + s == s && safe + Sanitize(s) == Sanitize(s);
    } else {
      assert safe + s == [safe[0]] + (safe[1..] + s);
      SafeInFront(safe[0], safe[1..] + s);
      SafePrefix(safe[1..], s);
      assert [safe[0]] + (safe[1..] + Sanitize(s)) == safe + Sanitize(s);
    }
  }

  /** Safe text is kept wherever it stands, and each whole run of unsafe characters is one hyphen. */
  lemma SanitizePiecewise(safe: string, unsafe: string, rest: string)
    requires AllSafe(safe) && AllUnsafe(unsafe) && unsafe != "" && (rest == "" || SafeChar(rest[0]))
    ensures Sanitize(safe + rest) == safe + Sanitize(rest)
    ensures Sanitize(safe + unsafe + rest) == safe + "-" + Sanitize(rest)
  {
    hide Sanitize, SafeChar, AllSafe, AllUnsafe;
    SafePrefix(safe, rest);
    SafePrefix(safe, unsafe + rest);
    UnsafeRun(unsafe, rest);
    Text.Regroup(safe, unsafe, rest);
    Text.Regroup(safe, "-", Sanitize(rest));
  }

  /** `strip("-._:")` */
  function StripMarks(s: string): (r: string)
    ensures AllSafe(s) ==> AllSafe(r)
    ensures r != "" ==> !Mark(r[0]) && !Mark(r[|r| - 1])
    ensures s != "" && !Mark(s[0]) && !Mark(s[|s| - 1]) ==> r == s
    decreases |s|
  {
    if s == "" then ""
    else if Mark(s[0]) then StripMarks(s[1..])
    else if Mark(s[|s| - 1]) then StripMarks(s[..|s| - 1])
    else s
  }

  predicate AllMarks(s: string) {
    forall i :: 0 <= i < |s| ==> Mark(s[i])
  }

  lemma MarkInFront(c: char, s: string)
    requires Mark(c)
    ensures StripMarks([c] + s) == StripMarks(s)
  {
    assert ([c] + s)[1..] == s;
  }

  lemma MarkBehind(s: string, c: char)
    requires s != "" && !Mark(s[0]) && Mark(c)
    ensures StripMarks(s + [c]) == StripMarks(s)
  {
    assert (s + [c])[..|s|] == s;
  }

  lemma {:induction false} MarksInFront(a: string, s: string)
    requires AllMarks(a)
    ensures StripMarks(a + s) == StripMarks(s)
  {
    hide StripMarks, Mark;
    if a == "" {
      assert a + s == s;
    } else {
      assert a + s == [a[0]] + (a[1..] + s);
      MarkInFront(a[0], a[1..] + s);
      MarksInFront(a[1..], s);
    }
  }

  lemma {:induction false} MarksBehind(s: string, b: string)
    requires AllMarks(b) && s != "" && !Mark(s[0])
    ensures StripMarks(s + b) == StripMarks(s)
    decreases |b|
  {
    hide StripMarks, Mark;
    if b == "" {
      assert s + b == s;
    } else {
      var b' := b[..|b| - 1];
      assert s + b == (s + b') + [b[|b| - 1]] && (s + b')[0] == s[0];
      MarkBehind(s + b', b[|b| - 1]);
      MarksBehind(s, b');
    }
  }

  /** Stripping marks takes the marks at both ends and nothing between. */
  lemma StripsOnlyMarks(a: string, middle: string, b: string)
    requires AllMarks(a) && AllMarks(b)
    requires middle != "" ==> !Mark(middle[0]) && !Mark(middle[|middle| - 1])
    ensures StripMarks(a + middle + b) == middle
  {
    hide Mark, StripMarks;
    Text.Regroup(a, middle, b);
    Text.Regroup(b, "", "");
    MarksInFront(a, middle + b);
    if middle == "" {
      MarksInFront(b, "");
      NoMarks();
    } else {
      MarksBehind(middle, b);
      NoMarks();
      Clean(middle);
    }
  }

  lemma NoMarks()
    ensures StripMarks("") == ""
  {
  }

  lemma Clean(s: string)
    requires s != "" && !Mark(s[0]) && !Mark(s[|s| - 1])
    ensures StripMarks(s) == s
  {
  }

  /** `s[:n]` */
  function Cut(s: string, n: nat): (r: string)
    ensures |r| == if |s| < n then |s| else n
    ensures r == s[..|r|]
  {
    if |s| > n then s[..n] else s
  }

  function SafeNamespace(raw: string): (r: string)
    ensures 1 <= |r| <= 120 && AlphaNumeric(r[0]) && AllSafe(r)
  {
    var safe := StripMarks(Sanitize(raw));
    var cut := Cut(safe, 120);
    if cut == "" then "triage" else cut
  }

  /** `build_checkpoint_thread_id`, with its branch for ids that are too long. */
  function BuildThreadId(namespace: string, value: string, sha: string -> string): Result<string, Error> {
    var rawNamespace := Text.Strip(namespace);
    var rawValue := Text.Strip(value);
    if rawNamespace == "" then Err(BlankNamespace)
    else if rawValue == "" then Err(BlankValue)
    else
      var safe := SafeNamespace(rawNamespace);
      var digest := sha(rawNamespace + "|" + rawValue);
      var id := safe + ":" + digest;
      var fitting := if |id| > 160 then Cut(safe, 143) + ":" + digest else id;
      ValidateThreadId(fitting)
  }

  /** The checkpoint id out of `build_checkpoint_config`: an empty one leaves no entry to read. */
  function ConfiguredCheckpoint(id: string): Result<string, Error> {
    if id == "" then Err(NoCheckpoint)
    else if SafeThreadId(Text.Strip(id)) then Ok(Text.Strip(id))
    else Err(UnsafeCheckpoint)
  }

  const Suffix: string := ":historical-replay"

  /** `build_checkpoint_replay_thread_id` */
  function BuildReplayThreadId(source: string, checkpoint: string, request: string, sha: string -> string): Result<string, Error> {
    var validSource := ValidateThreadId(source);
    var validCheckpoint := ConfiguredCheckpoint(checkpoint);
    var validRequest := ValidateThreadId(request);
    if validSource.Err? then validSource
    else if validCheckpoint.Err? then validCheckpoint
    else if validRequest.Err? then validRequest
    else BuildThreadId(validSource.value + Suffix, validCheckpoint.value + "|" + validRequest.value, sha)
  }

  // ---------------------------------------------------------------- every id is valid

  lemma SafeIsStripped(s: string)
    requires SafeThreadId(s)
    ensures Text.Strip(s) == s && ValidateThreadId(s) == Ok(s)
  {
    assert SafeChar(s[|s| - 1]);
    StripsToItself(s);
  }

  /** The id of a namespace and value, spelled out: no validation fails and nothing is cut at 160. */
  lemma ThreadIdIsValid(namespace: string, value: string, sha: string -> string)
    requires Digests(sha)
    ensures var r := BuildThreadId(namespace, value, sha);
            && (r.Ok? <==> !Text.Blank(namespace) && !Text.Blank(value))
            && (r.Ok? ==>
                  && r.value == SafeNamespace(Text.Strip(namespace)) + ":" + sha(Text.Strip(namespace) + "|" + Text.Strip(value))
                  && SafeThreadId(r.value) && |r.value| <= 137
                  && ValidateThreadId(r.value) == r)
  {
    var ns, v := Text.Strip(namespace), Text.Strip(value);
    if ns != "" && v != "" {
      var id := SafeNamespace(ns) + ":" + sha(ns + "|" + v);
      IdIsSafe(SafeNamespace(ns), ns + "|" + v, sha);
      SafeIsStripped(id);
    }
  }

  lemma IdIsSafe(safe: string, text: string, sha: string -> string)
    requires Digests(sha) && 1 <= |safe| <= 120 && AlphaNumeric(safe[0]) && AllSafe(safe)
    ensures SafeThreadId(safe + ":" + sha(text)) && |safe + ":" + sha(text)| == |safe| + 17
  {
    var id := safe + ":" + sha(text);
    forall i | 0 <= i < |id| ensures SafeChar(id[i]) {
      if i > |safe| { assert HexDigit(sha(text)[i - |safe| - 1]); }
    }
  }

  // ---------------------------------------------------------------- replay ids

  lemma SuffixIsSafe()
    ensures |Suffix| == 18 && AllSafe(Suffix) && !Mark(Suffix[17])
    ensures SafeNamespace("") == "triage"
  {
    assert Suffix[0] == ':' && Suffix[1] == 'h' && Suffix[2] == 'i' && Suffix[3] == 's' && Suffix[4] == 't'
        && Suffix[5] == 'o' && Suffix[6] == 'r' && Suffix[7] == 'i' && Suffix[8] == 'c' && Suffix[9] == 'a'
        && Suffix[10] == 'l' && Suffix[11] == '-' && Suffix[12] == 'r' && Suffix[13] == 'e' && Suffix[14] == 'p'
        && Suffix[15] == 'l' && Suffix[16] == 'a' && Suffix[17] == 'y';
  }

  lemma SafeNamespaceIsACut(s: string)
    requires s != "" && AllSafe(s) && AlphaNumeric(s[0]) && !Mark(s[|s| - 1])
    ensures SafeNamespace(s) == Cut(s, 120)
  {
    SanitizeKeepsSafe(s);
  }

  lemma ReplayNamespace(source: string)
    requires SafeThreadId(source)
    ensures Text.Strip(source + Suffix) == source + Suffix
    ensures SafeNamespace(source + Suffix) == Cut(source + Suffix, 120)
  {
    SuffixIsSafe();
    var ns := source + Suffix;
    assert AllSafe(ns) && ns[|ns| - 1] == Suffix[17];
    SafeNamespaceIsACut(ns);
    StripsToItself(ns);
  }

  lemma StripsToItself(s: string)
    requires s != "" && !Text.IsSpace(s[0]) && !Text.IsSpace(s[|s| - 1])
    ensures Text.Strip(s) == s
  {
  }

  /** What a replay hashes, for identifiers already stripped. */
  function ReplayText(source: string, checkpoint: string, request: string): string {
    source + Suffix + "|" + (checkpoint + "|" + request)
  }

  /** When a replay id exists, and what it is. */
  lemma ReplayIdIsValid(source: string, checkpoint: string, request: string, sha: string -> string)
    requires Digests(sha)
    ensures var r := BuildReplayThreadId(source, checkpoint, request, sha);
            var s, c, q := Text.Strip(source), Text.Strip(checkpoint), Text.Strip(request);
            && (r.Ok? <==> SafeThreadId(s) && SafeThreadId(c) && SafeThreadId(q))
            && (r == Err(NoCheckpoint) <==> SafeThreadId(s) && checkpoint == "")
            && (r.Ok? ==>
                  && r.value == Cut(s + Suffix, 120) + ":" + sha(ReplayText(s, c, q))
                  && SafeThreadId(r.value)
                  && |r.value| == if |s| + 35 < 137 then |s| + 35 else 137)
  {
    hide SafeThreadId, SafeNamespace, BuildThreadId, ReplayText, Suffix, Text.Strip, Digests, Cut;
    var s, c, q := Text.Strip(source), Text.Strip(checkpoint), Text.Strip(request);
    EmptyIsUnsafe();
    if SafeThreadId(s) && SafeThreadId(c) && SafeThreadId(q) {
      ReplayIdFor(s, c, q, sha);
    }
  }

  lemma EmptyIsUnsafe()
    ensures !SafeThreadId("") && Text.Strip("") == ""
  {
  }

  lemma ReplayValue(checkpoint: string, request: string)
    requires SafeThreadId(checkpoint) && SafeThreadId(request)
    ensures Text.Strip(checkpoint + "|" + request) == checkpoint + "|" + request
  {
    var v := checkpoint + "|" + request;
    assert v[0] == checkpoint[0] && v[|v| - 1] == request[|request| - 1];
    assert SafeChar(request[|request| - 1]);
    StripsToItself(v);
  }

  lemma ReplayIdFor(s: string, c: string, q: string, sha: string -> string)
    requires Digests(sha) && SafeThreadId(s) && SafeThreadId(c) && SafeThreadId(q)
    ensures var r := BuildThreadId(s + Suffix, c + "|" + q, sha);
            && r == Ok(Cut(s + Suffix, 120) + ":" + sha(ReplayText(s, c, q)))
            && SafeThreadId(r.value)
            && |r.value| == if |s| + 35 < 137 then |s| + 35 else 137
  {
    hide BuildThreadId, SafeNamespace, Suffix, Text.Strip, Text.Blank, SafeThreadId, Digests;
    ReplayNamespace(s);
    ReplayValue(c, q);
    SuffixIsSafe();
    NotBlank(s + Suffix);
    NotBlank(c + "|" + q);
    ThreadIdIsValid(s + Suffix, c + "|" + q, sha);
    DigestLength(ReplayText(s, c, q), sha);
  }

  lemma NotBlank(s: string)
    requires s != "" && Text.Strip(s) == s
    ensures !Text.Blank(s)
  {
  }

  lemma DigestLength(s: string, sha: string -> string)
    requires Digests(sha)
    ensures |sha(s)| == 16
  {
  }

  /** A replay lands on its own source only for a source that ends in the replay's digest. */
  lemma ReplayMeetsItsSource(source: string, checkpoint: string, request: string, sha: string -> string)
    requires Digests(sha) && BuildReplayThreadId(source, checkpoint, request, sha).Ok?
    ensures var s := Text.Strip(source);
            BuildReplayThreadId(source, checkpoint, request, sha).value == s <==>
            |s| == 137 && s[120] == ':' && s[121..] == sha(ReplayText(s, Text.Strip(checkpoint), Text.Strip(request)))
  {
    hide BuildReplayThreadId, SafeThreadId, ReplayText, Text.Strip, Digests, Suffix;
    ReplayIdIsValid(source, checkpoint, request, sha);
    var s := Text.Strip(source);
    var digest := sha(ReplayText(s, Text.Strip(checkpoint), Text.Strip(request)));
    SuffixIsSafe();
    DigestLength(ReplayText(s, Text.Strip(checkpoint), Text.Strip(request)), sha);
    if |s| == 137 {
      assert Cut(s + Suffix, 120) == s[..120];
      assert s == s[..120] + [s[120]] + s[121..];
      assert |s[..120] + ":" + digest| == 137;
      assert (s[..120] + ":" + digest)[121..] == digest && (s[..120] + ":" + digest)[120] == ':';
    }
  }

  // ---------------------------------------------------------------- one id, one alert

  function FirstBar(s: string): nat {
    if s == "" || s[0] == '|' then 0 else 1 + FirstBar(s[1..])
  }

  lemma {:induction false} BarFollows(a: string, b: string)
    requires '|' !in a
    ensures FirstBar(a + "|" + b) == |a|
  {
    if a != "" {
      BarFollows(a[1..], b);
      assert (a + "|" + b)[1..] == a[1..] + "|" + b;
    }
  }

  /** Text up to the first bar is recoverable. */
  lemma BarsSplitOnce(a: string, b: string, c: string, d: string)
    requires '|' !in a && '|' !in c && a + "|" + b == c + "|" + d
    ensures a == c && b == d
  {
    var l, r := a + "|" + b, c + "|" + d;
    BarFollows(a, b);
    BarFollows(c, d);
    assert a == l[..|a|] && c == r[..|c|] && b == l[|a| + 1..] && d == r[|c| + 1..];
  }

  lemma SameIdSameDigest(a: string, b: string, x: string, y: string)
    requires |x| == |y| && a + ":" + x == b + ":" + y
    ensures a == b && x == y
  {
    var l, r := a + ":" + x, b + ":" + y;
    assert |l| == |r|;
    assert a == l[..|a|] && b == r[..|b|] && x == l[|a| + 1..] && y == r[|b| + 1..];
  }

  /** Unless the hashed texts collide, two ids are equal exactly when these texts and the safe namespaces are. */
  lemma IdsMeetExactly(namespace: string, value: string, otherNamespace: string, otherValue: string, sha: string -> string)
    requires Digests(sha) && BuildThreadId(namespace, value, sha).Ok? && BuildThreadId(otherNamespace, otherValue, sha).Ok?
    requires var t, u := Text.Strip(namespace) + "|" + Text.Strip(value), Text.Strip(otherNamespace) + "|" + Text.Strip(otherValue);
             sha(t) == sha(u) ==> t == u
    ensures BuildThreadId(namespace, value, sha) == BuildThreadId(otherNamespace, otherValue, sha) <==>
            && SafeNamespace(Text.Strip(namespace)) == SafeNamespace(Text.Strip(otherNamespace))
            && Text.Strip(namespace) + "|" + Text.Strip(value) == Text.Strip(otherNamespace) + "|" + Text.Strip(otherValue)
  {
    hide BuildThreadId, SafeThreadId, SafeNamespace, Text.Strip, Text.Blank;
    ThreadIdIsValid(namespace, value, sha);
    ThreadIdIsValid(otherNamespace, otherValue, sha);
    var a, v, b, w := Text.Strip(namespace), Text.Strip(value), Text.Strip(otherNamespace), Text.Strip(otherValue);
    if BuildThreadId(namespace, value, sha) == BuildThreadId(otherNamespace, otherValue, sha) {
      SameIdSameDigest(SafeNamespace(a), SafeNamespace(b), sha(a + "|" + v), sha(b + "|" + w));
    }
  }

  /** Unless two hashed texts collide, an id names one namespace without bars and one value. */
  lemma IdNamesItsAlert(namespace: string, value: string, otherNamespace: string, otherValue: string, sha: string -> string)
    requires Digests(sha) && BuildThreadId(namespace, value, sha).Ok?
    requires BuildThreadId(namespace, value, sha) == BuildThreadId(otherNamespace, otherValue, sha)
    requires '|' !in Text.Strip(namespace) && '|' !in Text.Strip(otherNamespace)
    requires var t, u := Text.Strip(namespace) + "|" + Text.Strip(value), Text.Strip(otherNamespace) + "|" + Text.Strip(otherValue);
             sha(t) == sha(u) ==> t == u
    ensures Text.Strip(namespace) == Text.Strip(otherNamespace) && Text.Strip(value) == Text.Strip(otherValue)
  {
    hide BuildThreadId, Digests, SafeNamespace, Text.Strip;
    IdsMeetExactly(namespace, value, otherNamespace, otherValue, sha);
    var a, v, b, w := Text.Strip(namespace), Text.Strip(value), Text.Strip(otherNamespace), Text.Strip(otherValue);
    BarsSplitOnce(a, v, b, w);
  }

  /** With a bar in the namespace two different alerts share an id, whatever the digest. */
  lemma BarredNamespacesMeet(sha: string -> string)
    requires Digests(sha)
    ensures BuildThreadId("a|", "b", sha) == BuildThreadId("a", "|b", sha)
    ensures BuildThreadId("a|", "b", sha).Ok?
  {
    hide BuildThreadId, SafeThreadId, SafeNamespace, Digests, Text.Strip, Text.Blank;
    BarIsStripped();
    StripsToItself("a|");
    StripsToItself("a");
    StripsToItself("b");
    StripsToItself("|b");
    NotBlank("a|");
    NotBlank("a");
    NotBlank("b");
    NotBlank("|b");
    ThreadIdIsValid("a|", "b", sha);
    ThreadIdIsValid("a", "|b", sha);
    assert "a|" + "|" + "b" == "a" + "|" + "|b";
  }

  lemma BarIsStripped()
    ensures SafeNamespace("a|") == "a" == SafeNamespace("a")
  {
    assert "a|"[1..] == "|" && "|"[1..] == "" && "a"[1..] == "";
    assert Sanitize("|") == "-";
    assert Sanitize("a|") == "a-" && Sanitize("a") == "a";
    assert "a-"[..1] == "a";
    assert StripMarks("a-") == StripMarks("a") == "a";
  }

  /** Unless two hashed texts collide, a replay id names one source, checkpoint and request. */
  lemma ReplayIdNamesItsRequest(s: string, c: string, q: string, t: string, d: string, p: string, sha: string -> string)
    requires Digests(sha) && BuildReplayThreadId(s, c, q, sha).Ok?
    requires BuildReplayThreadId(s, c, q, sha) == BuildReplayThreadId(t, d, p, sha)
    requires var x := ReplayText(Text.Strip(s), Text.Strip(c), Text.Strip(q));
             var y := ReplayText(Text.Strip(t), Text.Strip(d), Text.Strip(p));
             sha(x) == sha(y) ==> x == y
    ensures Text.Strip(s) == Text.Strip(t) && Text.Strip(c) == Text.Strip(d) && Text.Strip(q) == Text.Strip(p)
  {
    hide BuildReplayThreadId, SafeThreadId, ReplayText, Text.Strip, Cut;
    ReplayIdIsValid(s, c, q, sha);
    ReplayIdIsValid(t, d, p, sha);
    var s', c', q', t', d', p' := Text.Strip(s), Text.Strip(c), Text.Strip(q), Text.Strip(t), Text.Strip(d), Text.Strip(p);
    SameIdSameDigest(Cut(s' + Suffix, 120), Cut(t' + Suffix, 120), sha(ReplayText(s', c', q')), sha(ReplayText(t', d', p')));
    SameReplayText(s', c', q', t', d', p');
  }

  lemma SameReplayText(s: string, c: string, q: string, t: string, d: string, p: string)
    requires SafeThreadId(s) && SafeThreadId(c) && SafeThreadId(t) && SafeThreadId(d)
    requires ReplayText(s, c, q) == ReplayText(t, d, p)
    ensures s == t && c == d && q == p
  {
    SafeHasNoBar(s);
    SafeHasNoBar(c);
    SafeHasNoBar(t);
    SafeHasNoBar(d);
    SuffixIsSafe();
    BarsSplitOnce(s + Suffix, c + "|" + q, t + Suffix, d + "|" + p);
    BarsSplitOnce(c, q, d, p);
    assert |s| == |t| && s == (s + Suffix)[..|s|] && t == (t + Suffix)[..|t|];
  }

  lemma SafeHasNoBar(s: string)
    requires SafeThreadId(s)
    ensures '|' !in s && '|' !in Suffix
  {
    SuffixIsSafe();
  }

  /** A namespace with nothing but marks left after sanitizing goes by a fixed name; any other is cut. */
  lemma SafeNamespaceShows(a: string, middle: string, b: string, raw: string)
    requires AllMarks(a) && AllMarks(b) && Sanitize(raw) == a + middle + b
    requires middle != "" ==> !Mark(middle[0]) && !Mark(middle[|middle| - 1])
    ensures SafeNamespace(raw) == if middle == "" then "triage" else Cut(middle, 120)
  {
    StripsOnlyMarks(a, middle, b);
    hide Sanitize, StripMarks;
  }
}
