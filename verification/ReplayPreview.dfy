/**
 * Operator requests, agent/checkpoint_operations.py: their validation, the Airflow
 * configuration built from them, the replay preview, and the ids that the batch runner
 * (scripts/run_triage_alerts.py) derives from that configuration.
 */
module ReplayPreview {
  import opened Outcomes
  import Text
  import T = ThreadIds

  datatype Refusal =
    | UnknownAction | NotOneAlert | BadAlertId | BadAlertKey | BadLimit | BadNode
    | ReplayIncomplete | NotAReplay | StalePreview | NodeNotPending | NoNamespace | Thread(error: T.Error)

  datatype Request = Request(
    action: string,
    alertId: string,
    alertKey: string,
    namespace: string,
    checkpoint: string,
    request: string,
    limit: int,
    node: string)

  datatype Conf = Conf(
    action: string,
    runTriage: bool,
    alertId: string,
    alertKey: string,
    mode: string,
    namespace: string,
    resume: bool,
    limit: Option<int>,
    node: Option<string>,
    replayId: Option<string>,
    replayRequest: Option<string>)

  datatype Preview = Preview(
    alert: string,
    namespace: string,
    source: string,
    checkpoint: string,
    nodes: seq<string>,
    request: string,
    replay: string,
    conf: Conf)

  function LowerChar(c: char): char { if 'A' <= c <= 'Z' then c - 'A' + 'a' else c }

  function Lower(s: string): string { seq(|s|, i requires 0 <= i < |s| => LowerChar(s[i])) }

  predicate Action(s: string) { s == "triage" || s == "inspect" || s == "replay" }

  predicate Hex(c: char) { '0' <= c <= '9' || 'a' <= c <= 'f' || 'A' <= c <= 'F' }

  /** The pattern SAFE_ALERT_ID: a UUID of version 1 to 5. */
  predicate AlertId(s: string) {
    |s| == 36
    && (forall i :: 0 <= i < 36 ==> if i in {8, 13, 18, 23} then s[i] == '-' else Hex(s[i]))
    && '1' <= s[14] <= '5' && s[19] in {'8', '9', 'a', 'b', 'A', 'B'}
  }

  predicate AlertKey(s: string) {
    1 <= |s| <= 512 && T.AlphaNumeric(s[0])
    && forall i :: 0 <= i < |s| ==> T.SafeChar(s[i]) || s[i] == '|' || s[i] == '/'
  }

  predicate NodeName(s: string) {
    1 <= |s| <= 80 && T.AlphaNumeric(s[0]) && !('0' <= s[0] <= '9')
    && forall i :: 0 <= i < |s| ==> T.AlphaNumeric(s[i]) || s[i] == '_'
  }

  /** `validate_alert_identity` */
  function ValidateAlert(alertId: string, alertKey: string): Result<(string, string), Refusal> {
    var id, key := Text.Strip(alertId), Text.Strip(alertKey);
    if (id == "") == (key == "") then Err(NotOneAlert)
    else if id != "" && !AlertId(id) then Err(BadAlertId)
    else if key != "" && !AlertKey(key) then Err(BadAlertKey)
    else Ok((id, key))
  }

  /** `validate_triage_inputs` */
  function Validate(r: Request): Result<Request, Refusal> {
    var action := Lower(Text.Strip(r.action));
    var alert := ValidateAlert(r.alertId, r.alertKey);
    var namespace := T.ValidateThreadId(r.namespace);
    var checkpoint, request, node := Text.Strip(r.checkpoint), Text.Strip(r.request), Text.Strip(r.node);
    if !Action(action) then Err(UnknownAction)
    else if alert.Err? then Err(alert.error)
    else if namespace.Err? then Err(Thread(namespace.error))
    else if !(1 <= r.limit <= 100) then Err(BadLimit)
    else if !NodeName(node) then Err(BadNode)
    else if action == "replay" && (checkpoint == "" || request == "") then Err(ReplayIncomplete)
    else if action == "replay" && T.ValidateThreadId(checkpoint).Err? then Err(Thread(T.ValidateThreadId(checkpoint).error))
    else if action == "replay" && T.ValidateThreadId(request).Err? then Err(Thread(T.ValidateThreadId(request).error))
    else if action != "replay" && (checkpoint != "" || request != "") then Err(NotAReplay)
    else
      Ok(Request(action, alert.value.0, alert.value.1, namespace.value,
                 if action == "replay" then T.ValidateThreadId(checkpoint).value else checkpoint,
                 if action == "replay" then T.ValidateThreadId(request).value else request, r.limit, node))
  }

  /** What a validated request looks like. */
  predicate Normal(r: Request) {
    && Action(r.action)
    && (r.alertId == "") != (r.alertKey == "")
    && (r.alertId == "" || AlertId(r.alertId)) && (r.alertKey == "" || AlertKey(r.alertKey))
    && T.SafeThreadId(r.namespace) && 1 <= r.limit <= 100 && NodeName(r.node)
    && (if r.action == "replay" then T.SafeThreadId(r.checkpoint) && T.SafeThreadId(r.request)
        else r.checkpoint == "" && r.request == "")
  }

  /** `build_trigger_conf` */
  function TriggerConf(r: Request): Conf {
    Conf(if r.action == "inspect" then "inspect" else "triage", r.action != "inspect", r.alertId, r.alertKey,
         "sqlite", r.namespace, false,
         if r.action == "inspect" then Some(r.limit) else None,
         if r.action == "inspect" then Some(r.node) else None,
         if r.action == "replay" then Some(r.checkpoint) else None,
         if r.action == "replay" then Some(r.request) else None)
  }

  /** The configuration inside `build_trigger_command`, which validates once more. */
  function CommandConf(r: Request): Result<Conf, Refusal> {
    match Validate(r)
    case Ok(normal) => Ok(TriggerConf(normal))
    case Err(e) => Err(e)
  }

  // ---------------------------------------------------------------- validation

  lemma NodeIsStripped(s: string)
    requires NodeName(s) || AlertKey(s) || AlertId(s) || T.SafeThreadId(s)
    ensures Text.Strip(s) == s
  {
    assert s[0] == s[0] && s[|s| - 1] == s[|s| - 1];
    T.StripsToItself(s);
  }

  /** Validation accepts exactly what normalises to a normal request. */
  lemma ValidatedIsNormal(r: Request)
    ensures Validate(r).Ok? ==> Normal(Validate(r).value)
    ensures Normal(r) ==> Validate(r) == Ok(r)
  {
    hide T.SafeThreadId, AlertId, AlertKey, NodeName, Text.Strip;
    if Normal(r) {
      NormalStrips(r);
    }
  }

  lemma NormalStrips(r: Request)
    requires Normal(r)
    ensures Lower(Text.Strip(r.action)) == r.action
    ensures Text.Strip(r.alertId) == r.alertId && Text.Strip(r.alertKey) == r.alertKey
    ensures T.ValidateThreadId(r.namespace) == Ok(r.namespace)
    ensures Text.Strip(r.checkpoint) == r.checkpoint && Text.Strip(r.request) == r.request && Text.Strip(r.node) == r.node
    ensures r.action == "replay" ==> r.checkpoint != "" && r.request != ""
    ensures r.action == "replay" ==> T.ValidateThreadId(r.checkpoint) == Ok(r.checkpoint) && T.ValidateThreadId(r.request) == Ok(r.request)
  {
    hide T.SafeThreadId, AlertId, AlertKey, NodeName, Text.Strip, T.ValidateThreadId;
    ActionStrips(r.action);
    T.EmptyIsUnsafe();
    if r.alertId != "" { NodeIsStripped(r.alertId); }
    if r.alertKey != "" { NodeIsStripped(r.alertKey); }
    NodeIsStripped(r.node);
    T.SafeIsStripped(r.namespace);
    if r.action == "replay" {
      T.SafeIsStripped(r.checkpoint);
      T.SafeIsStripped(r.request);
    }
  }

  lemma ActionStrips(s: string)
    requires Action(s)
    ensures Lower(Text.Strip(s)) == s
  {
    hide Text.Strip, Action;
    ActionIsLower(s);
    T.StripsToItself(s);
    assert Lower(s) == s;
  }

  lemma ActionIsLower(s: string)
    requires Action(s)
    ensures s != "" && forall i :: 0 <= i < |s| ==> 'a' <= s[i] <= 'z'
  {
    assert "triage" == ['t', 'r', 'i', 'a', 'g', 'e'];
    assert "inspect" == ['i', 'n', 's', 'p', 'e', 'c', 't'];
    assert "replay" == ['r', 'e', 'p', 'l', 'a', 'y'];
  }

  /** A validated request is left alone by another validation, so a command carries its own configuration. */
  lemma RevalidationChangesNothing(r: Request)
    requires Validate(r).Ok?
    ensures Validate(Validate(r).value) == Validate(r)
    ensures CommandConf(Validate(r).value) == Ok(TriggerConf(Validate(r).value))
  {
    hide Validate, Normal;
    ValidatedIsNormal(r);
    ValidatedIsNormal(Validate(r).value);
  }

  /** Equal but for the case of ASCII letters. */
  predicate SameButCase(s: string, t: string) {
    |s| == |t| && forall i :: 0 <= i < |s| ==>
                    s[i] == t[i] || ('A' <= s[i] <= 'Z' && t[i] as int == s[i] as int + 32)
                    || ('A' <= t[i] <= 'Z' && s[i] as int == t[i] as int + 32)
  }

  /** The case of an action does not matter, and the request carries it in lower case. */
  lemma ActionsIgnoreCase(r: Request, action: string)
    requires SameButCase(Text.Strip(r.action), action) && Action(action)
    ensures Validate(r) == Validate(r.(action := action))
    ensures Validate(r).Ok? ==> Validate(r).value.action == action
  {
    hide Text.Strip, Action;
    ActionIsLower(action);
    ActionStrips(action);
    assert Lower(Text.Strip(r.action)) == action;
    ValidationCleans(r);
    hide T.SafeThreadId, AlertId, AlertKey, NodeName, Normal, Lower;
  }

  // ---------------------------------------------------------------- configurations

  /** The request a configuration stands for, read back by the DAG's own rules. */
  function ReadConf(c: Conf): Request {
    var replay := c.replayId.Some? || c.replayRequest.Some?;
    Request(if !c.runTriage then "inspect" else if replay then "replay" else "triage",
            c.alertId, c.alertKey, c.namespace,
            if c.replayId.Some? then c.replayId.value else "",
            if c.replayRequest.Some? then c.replayRequest.value else "",
            if c.limit.Some? then c.limit.value else 0,
            if c.node.Some? then c.node.value else "")
  }

  /**
   * A command carries its whole request: reading its configuration gives it back, but for
   * the limit and node that only an inspection has. It runs triage unless it inspects, with
   * checkpoints kept in SQLite, and never asks to resume.
   */
  lemma CommandsCarryTheirRequest(r: Request)
    requires Normal(r)
    ensures CommandConf(r).Ok?
    ensures var c := CommandConf(r).value;
            && (r.action == "inspect" ==> ReadConf(c) == r)
            && (r.action != "inspect" ==> ReadConf(c) == r.(limit := 0, node := "") && c.limit == None && c.node == None)
            && (c.runTriage <==> r.action != "inspect") && (c.action == "inspect" <==> r.action == "inspect")
            && (c.action == "triage" <==> c.runTriage)
            && (c.replayId.Some? <==> r.action == "replay") && (c.replayRequest.Some? <==> r.action == "replay")
            && c.mode == "sqlite" && !c.resume
  {
    hide Validate, T.SafeThreadId, AlertId, AlertKey, NodeName;
    ValidatedIsNormal(r);
    assert "inspect"[0] == 'i' && "replay"[0] == 'r' && "triage"[0] == 't';
  }

  // ---------------------------------------------------------------- preview and runner

  /** `build_default_replay_request_id` */
  function DefaultRequest(alert: string, namespace: string, checkpoint: string, sha: string -> string): string {
    "replay-" + sha(alert + "|" + namespace + "|" + checkpoint)
  }

  /** The replay request a preview validates: an absent request id is filled in. */
  function Resolved(r: Request, id: string, key: string, sha: string -> string): Request {
    var reference := if key != "" then key else id;
    var given := Text.Strip(r.request);
    Request("replay", id, key, r.namespace, r.checkpoint,
            if given != "" then given else DefaultRequest(reference, r.namespace, r.checkpoint, sha), r.limit, r.node)
  }

  /** `build_checkpoint_replay_preview`; `selected` and `pending` come from the inspection. */
  function BuildPreview(r: Request, selected: string, pending: seq<string>, sha: string -> string): Result<Preview, Refusal> {
    var alert := ValidateAlert(r.alertId, r.alertKey);
    if alert.Err? then Err(alert.error)
    else
      var (id, key) := alert.value;
      var valid := Validate(Resolved(r, id, key, sha));
      var current := T.ValidateThreadId(selected);
      if valid.Err? then Err(valid.error)
      else if current.Err? then Err(Thread(current.error))
      else if valid.value.checkpoint != current.value then Err(StalePreview)
      else if valid.value.node !in pending then Err(NodeNotPending)
      else
        var request := valid.value;
        var reference := if key != "" then key else id;
        var source := T.BuildThreadId(request.namespace, reference, sha);
        if source.Err? then Err(Thread(source.error))
        else
          var replay := T.BuildReplayThreadId(source.value, request.checkpoint, request.request, sha);
          if replay.Err? then Err(Thread(replay.error))
          else Ok(Preview(reference, request.namespace, source.value, request.checkpoint, pending, request.request,
                          replay.value, TriggerConf(request)))
  }

  /** An absent option reaches the runner as the empty string. */
  function Flag(o: Option<string>): string { if o.None? then "" else o.value }

  /** The two ids `run_single_alert_triage` derives; no replay id, no child thread. */
  function RunnerIds(c: Conf, sha: string -> string): Result<(string, string), Refusal> {
    var namespace := Text.Strip(c.namespace);
    var id, key := Text.Strip(c.alertId), Text.Strip(c.alertKey);
    if namespace == "" then Err(NoNamespace)
    else
      var source := T.BuildThreadId(namespace, if key != "" then key else id, sha);
      if source.Err? then Err(Thread(source.error))
      else if Text.Strip(Flag(c.replayId)) == "" then Ok((source.value, ""))
      else
        var replay := T.BuildReplayThreadId(source.value, Flag(c.replayId), Flag(c.replayRequest), sha);
        if replay.Err? then Err(Thread(replay.error)) else Ok((source.value, replay.value))
  }

  lemma ValidSource(r: Request, sha: string -> string)
    requires Normal(r) && T.Digests(sha)
    ensures var alert := if r.alertKey != "" then r.alertKey else r.alertId;
            T.BuildThreadId(r.namespace, alert, sha).Ok? && T.SafeThreadId(T.BuildThreadId(r.namespace, alert, sha).value)
  {
    hide T.SafeThreadId, AlertId, AlertKey, NodeName, Text.Strip, T.BuildThreadId, T.Digests, Text.Blank;
    NormalStrips(r);
    var alert := if r.alertKey != "" then r.alertKey else r.alertId;
    T.NotBlank(alert);
    T.SafeIsStripped(r.namespace);
    T.EmptyIsUnsafe();
    T.NotBlank(r.namespace);
    T.ThreadIdIsValid(r.namespace, alert, sha);
  }

  /** From a validated replay request both ids exist, and the runner derives them from its configuration. */
  lemma RunnerMeetsRequest(r: Request, sha: string -> string)
    requires Normal(r) && r.action == "replay" && T.Digests(sha)
    ensures var alert := if r.alertKey != "" then r.alertKey else r.alertId;
            var source := T.BuildThreadId(r.namespace, alert, sha);
            && source.Ok? && T.BuildReplayThreadId(source.value, r.checkpoint, r.request, sha).Ok?
            && RunnerIds(TriggerConf(r), sha) ==
               Ok((source.value, T.BuildReplayThreadId(source.value, r.checkpoint, r.request, sha).value))
  {
    hide T.SafeThreadId, AlertId, AlertKey, NodeName, Text.Strip, T.BuildThreadId, T.BuildReplayThreadId, T.Digests, T.ReplayText;
    NormalStrips(r);
    ValidSource(r, sha);
    var alert := if r.alertKey != "" then r.alertKey else r.alertId;
    var source := T.BuildThreadId(r.namespace, alert, sha).value;
    T.SafeIsStripped(source);
    T.SafeIsStripped(r.namespace);
    T.EmptyIsUnsafe();
    T.ReplayIdIsValid(source, r.checkpoint, r.request, sha);
  }

  /** A request with its strings stripped and its action in lower case. */
  function Cleaned(r: Request): Request {
    Request(Lower(Text.Strip(r.action)), Text.Strip(r.alertId), Text.Strip(r.alertKey), Text.Strip(r.namespace),
            Text.Strip(r.checkpoint), Text.Strip(r.request), r.limit, Text.Strip(r.node))
  }

  /** Validation accepts exactly what is normal once cleaned, and answers with that. */
  lemma ValidationCleans(r: Request)
    ensures Validate(r).Ok? <==> Normal(Cleaned(r))
    ensures Validate(r).Ok? ==> Validate(r).value == Cleaned(r)
  {
    hide T.SafeThreadId, AlertId, AlertKey, NodeName, Text.Strip, Lower;
    Text.StripIdempotent(r.checkpoint);
    Text.StripIdempotent(r.request);
    T.EmptyIsUnsafe();
  }

  lemma ResolvedAction(r: Request, id: string, key: string, sha: string -> string)
    requires Validate(Resolved(r, id, key, sha)).Ok?
    ensures var n := Validate(Resolved(r, id, key, sha)).value;
            && Normal(n) && n.action == "replay" && n.checkpoint == Text.Strip(r.checkpoint)
            && n.alertId == Text.Strip(id) && n.alertKey == Text.Strip(key)
  {
    hide Validate, Normal, Text.Strip, Lower;
    ValidationCleans(Resolved(r, id, key, sha));
    ValidatedIsNormal(Resolved(r, id, key, sha));
    ActionStrips("replay");
  }

  /**
   * A preview is accepted exactly when its resolved request is valid, the inspected
   * checkpoint is the requested one and still waits for the node; building ids never fails.
   * Every accepted preview names the very ids its own configuration leads the runner to.
   */
  lemma PreviewMeetsRunner(r: Request, selected: string, pending: seq<string>, sha: string -> string)
    requires T.Digests(sha)
    ensures var p := BuildPreview(r, selected, pending, sha);
            var id, key := Text.Strip(r.alertId), Text.Strip(r.alertKey);
            var valid := Validate(Resolved(r, id, key, sha));
            && (p.Ok? <==> ValidateAlert(r.alertId, r.alertKey).Ok? && valid.Ok?
                           && Text.Strip(selected) == Text.Strip(r.checkpoint) && Text.Strip(r.node) in pending)
            && (p.Ok? ==>
                  && RunnerIds(p.value.conf, sha) == Ok((p.value.source, p.value.replay))
                  && CommandConf(valid.value) == Ok(p.value.conf)
                  && T.SafeThreadId(p.value.replay)
                  && p.value.checkpoint == Text.Strip(r.checkpoint))
  {
    hide Validate, Normal, Text.Strip, T.BuildThreadId, T.BuildReplayThreadId, T.Digests, RunnerIds, CommandConf, TriggerConf, T.SafeThreadId;
    var id, key := Text.Strip(r.alertId), Text.Strip(r.alertKey);
    if ValidateAlert(r.alertId, r.alertKey).Ok? && Validate(Resolved(r, id, key, sha)).Ok? {
      var request := Resolved(r, id, key, sha);
      var n := Validate(request).value;
      ResolvedAction(r, id, key, sha);
      ValidationCleans(request);
      Text.StripIdempotent(r.alertId);
      Text.StripIdempotent(r.alertKey);
      CurrentIsStripped(n, selected);
      RevalidationChangesNothing(request);
      RunnerMeetsRequest(n, sha);
      var source := T.BuildThreadId(n.namespace, if key != "" then key else id, sha).value;
      T.ReplayIdIsValid(source, n.checkpoint, n.request, sha);
    }
  }

  lemma CurrentIsStripped(n: Request, selected: string)
    requires Normal(n) && n.action == "replay"
    ensures T.ValidateThreadId(selected).Ok? ==> T.ValidateThreadId(selected).value == Text.Strip(selected)
    ensures Text.Strip(selected) == n.checkpoint ==> T.ValidateThreadId(selected) == Ok(n.checkpoint)
  {
    hide T.SafeThreadId, Text.Strip, AlertId, AlertKey, NodeName;
  }

  /** What else a preview shows, and the ids it was built from. */
  lemma PreviewShowsItsRequest(r: Request, selected: string, pending: seq<string>, sha: string -> string)
    requires T.Digests(sha) && BuildPreview(r, selected, pending, sha).Ok?
    ensures var p := BuildPreview(r, selected, pending, sha).value;
            var id, key := Text.Strip(r.alertId), Text.Strip(r.alertKey);
            && p.alert == (if key != "" then key else id) && p.alert != ""
            && p.namespace == Text.Strip(r.namespace) && p.nodes == pending
            && p.request == (if Text.Blank(r.request) then DefaultRequest(p.alert, r.namespace, r.checkpoint, sha)
                             else Text.Strip(r.request))
            && Ok(p.source) == T.BuildThreadId(p.namespace, p.alert, sha)
            && Ok(p.replay) == T.BuildReplayThreadId(p.source, p.checkpoint, p.request, sha)
            && ReadConf(p.conf) == Request("replay", id, key, p.namespace, p.checkpoint, p.request, 0, "")
  {
    hide Validate, Normal, Text.Strip, T.BuildThreadId, T.BuildReplayThreadId, T.Digests, CommandConf, TriggerConf, T.SafeThreadId, ReadConf;
    var id, key := Text.Strip(r.alertId), Text.Strip(r.alertKey);
    var request := Resolved(r, id, key, sha);
    PreviewMeetsRunner(r, selected, pending, sha);
    var n := Validate(request).value;
    ResolvedAction(r, id, key, sha);
    ValidationCleans(request);
    ResolvedRequest(r, id, key, sha);
    Text.StripIdempotent(r.alertId);
    Text.StripIdempotent(r.alertKey);
    RevalidationChangesNothing(request);
    CommandsCarryTheirRequest(n);
    CurrentIsStripped(n, selected);
  }

  lemma ResolvedRequest(r: Request, id: string, key: string, sha: string -> string)
    requires T.Digests(sha)
    ensures Text.Strip(Resolved(r, id, key, sha).request) ==
            if Text.Blank(r.request) then DefaultRequest(if key != "" then key else id, r.namespace, r.checkpoint, sha)
            else Text.Strip(r.request)
  {
    hide T.Digests;
    if Text.Blank(r.request) {
      DefaultIsStripped(if key != "" then key else id, r.namespace, r.checkpoint, sha);
    } else {
      Text.StripIdempotent(r.request);
    }
    hide Text.Strip;
  }

  lemma DefaultIsStripped(alert: string, namespace: string, checkpoint: string, sha: string -> string)
    requires T.Digests(sha)
    ensures var d := DefaultRequest(alert, namespace, checkpoint, sha); Text.Strip(d) == d && d != ""
  {
    var d := DefaultRequest(alert, namespace, checkpoint, sha);
    assert "replay-"[0] == 'r';
    var h := sha(alert + "|" + namespace + "|" + checkpoint);
    assert T.HexDigit(h[15]) && d[|d| - 1] == h[15];
    T.StripsToItself(d);
  }

  /** Unless the two hashed texts collide, an absent request id stands for one alert, namespace and checkpoint as given. */
  lemma DefaultNamesItsReplay(a: string, n: string, c: string, b: string, m: string, d: string, sha: string -> string)
    requires DefaultRequest(a, n, c, sha) == DefaultRequest(b, m, d, sha)
    requires sha(a + "|" + n + "|" + c) == sha(b + "|" + m + "|" + d) ==> a + "|" + n + "|" + c == b + "|" + m + "|" + d
    requires '|' !in n && '|' !in c && '|' !in m && '|' !in d
    ensures a == b && n == m && c == d
  {
    var x, y := sha(a + "|" + n + "|" + c), sha(b + "|" + m + "|" + d);
    assert x == ("replay-" + x)[7..] && y == ("replay-" + y)[7..];
    LastBarSplits(a + "|" + n, c, b + "|" + m, d);
    LastBarSplits(a, n, b, m);
  }

  function AfterLastBar(s: string): nat {
    if s == "" || s[|s| - 1] == '|' then 0 else 1 + AfterLastBar(s[..|s| - 1])
  }

  lemma {:induction false} BarPrecedes(a: string, c: string)
    requires '|' !in c
    ensures AfterLastBar(a + "|" + c) == |c|
    decreases |c|
  {
    var s := a + "|" + c;
    if c != "" {
      var c' := c[..|c| - 1];
      assert s[..|s| - 1] == a + "|" + c' && s[|s| - 1] == c[|c| - 1];
      BarPrecedes(a, c');
    }
  }

  /** Text behind the last bar is recoverable. */
  lemma LastBarSplits(a: string, c: string, b: string, d: string)
    requires '|' !in c && '|' !in d && a + "|" + c == b + "|" + d
    ensures a == b && c == d
  {
    var l, r := a + "|" + c, b + "|" + d;
    BarPrecedes(a, c);
    BarPrecedes(b, d);
    assert a == l[..|l| - |c| - 1] && b == r[..|r| - |d| - 1];
    assert c == l[|l| - |c|..] && d == r[|r| - |d|..];
  }
}
