/**
 * The import of legacy approvals, scripts/migrate_legacy_approvals.py: what one history of
 * snapshots must look like (this module) and the preflight over all of them (LegacyMigration).
 */
module LegacyImport {
  import opened Outcomes
  import Text

  /** A timestamp without a zone is read as UTC. */
  datatype Time = Naive(clock: int) | Aware(instant: int, offset: int)

  function Utc(t: Time): int {
    match t
    case Naive(clock) => clock
    case Aware(instant, _) => instant
  }

  /** Equality of timestamps: one with a zone never equals one without. */
  predicate SameTime(a: Time, b: Time) {
    a.Naive? == b.Naive? && Utc(a) == Utc(b)
  }

  datatype Status = Pending | Approved | Rejected | Cancelled | OtherStatus(name: string)

  datatype Execution = NotStarted | Dispatching | Dispatched | Succeeded | Failed | OtherExecution(name: string)

  /**
   * What the parameters are. One that holds a NaN does not equal any other copy of itself;
   * what the model dump leaves of a number that is not finite, JSON may be unable to hold.
   */
  datatype Value = Value(content: string, comparable: bool, storable: bool)

  /** Parsed parameters: `1`, `1.0` and `true` are one value in several spellings. */
  datatype Parameters = Parameters(value: Value, spelling: nat)

  datatype Snapshot = Snapshot(
    requestId: string,
    createdAt: Time,
    updatedAt: Time,
    action: string,
    key: string,
    reason: string,
    requestedBy: string,
    scope: string,  // alert, agent run, risk, DAGs, dates, dry_run
    parameters: Parameters,
    status: Status,
    decidedBy: string,
    decidedAt: Option<Time>,
    comment: string,
    runId: string,
    execution: Execution,
    error: string,
    version: nat,
    eligibility: string)

  datatype Conflict =
    | EmptyHistory | ScopeChanged | OtherAction | BadKey | BadRequestId | BadRequester | BadTimes
    | UnknownStatus | UnknownExecution | NoOwner | StrayOwner | NoDecider | EarlyDecision
    | TiedConflict | DecisionRegressed | ManyOwners | ExecutionRegressed | InFlight | NotFinite

  /** A snapshot as history keeps it: times in UTC, version and eligibility dropped. */
  datatype Payload = Payload(
    requestId: string,
    createdAt: int,
    updatedAt: int,
    action: string,
    key: string,
    reason: string,
    requestedBy: string,
    scope: string,
    parameters: Parameters,
    status: Status,
    decidedBy: string,
    decidedAt: Option<int>,
    comment: string,
    runId: string,
    execution: Execution,
    error: string)

  datatype Record = Record(
    requestId: string,
    key: string,
    action: string,
    scope: string,
    parameters: Parameters,
    requestedBy: string,
    reason: string,
    status: Status,
    version: nat,
    createdAt: int,
    updatedAt: int,
    decidedBy: Option<string>,
    decidedAt: Option<int>,
    comment: string,
    cancelledBy: Option<string>,
    cancelledAt: Option<int>,
    runId: Option<string>,
    execution: Execution,
    error: string)

  datatype Import = Import(record: Record, history: seq<Payload>)

  // ---------------------------------------------------------------- one snapshot

  function At(t: Option<Time>): Option<int> {
    if t.None? then None else Some(Utc(t.value))
  }

  function Keep(s: Snapshot): Payload {
    Payload(s.requestId, Utc(s.createdAt), Utc(s.updatedAt), s.action, s.key, s.reason, s.requestedBy,
            s.scope, s.parameters, s.status, s.decidedBy, At(s.decidedAt), s.comment, s.runId, s.execution, s.error)
  }

  /** Python equality of payloads, blind to the spelling of the parameters. */
  predicate SamePayload(p: Payload, q: Payload) {
    p.parameters.value == q.parameters.value && p.(parameters := q.parameters) == q
  }

  predicate HexKey(key: string) {
    |key| == 64 && forall c :: c in key ==> '0' <= c <= '9' || 'a' <= c <= 'f'
  }

  predicate RequestId(id: string) {
    1 <= |id| <= 200
    && forall c :: c in id ==> 'A' <= c <= 'Z' || 'a' <= c <= 'z' || '0' <= c <= '9' || c in "_.:+-"
  }

  predicate SameScope(a: Snapshot, b: Snapshot) {
    && a.requestId == b.requestId && SameTime(a.createdAt, b.createdAt) && a.action == b.action && a.key == b.key
    && a.reason == b.reason && a.requestedBy == b.requestedBy && a.scope == b.scope
    && a.parameters.value == b.parameters.value
  }

  predicate BothCompare(a: Snapshot, b: Snapshot) {
    a.parameters.value.comparable && b.parameters.value.comparable
  }

  predicate Sound(s: Snapshot) {
    && s.action == "backfill" && HexKey(s.key) && RequestId(s.requestId)
    && 5 <= |s.reason| <= 2000 && !Text.Blank(s.requestedBy)
    && Utc(s.createdAt) <= Utc(s.updatedAt)
    && !s.status.OtherStatus? && !s.execution.OtherExecution?
    && (s.execution == NotStarted <==> s.runId == "")
    && (s.execution != NotStarted ==> s.status == Approved)
    && (if s.status == Pending then s.decidedAt == None else s.decidedBy != "" && s.decidedAt.Some?)
  }

  /** The checks on one snapshot (lines 57-81), in their order. */
  function Defect(first: Snapshot, s: Snapshot, itself: bool): (r: Option<Conflict>)
    requires itself ==> s == first
    ensures r == None <==> SameScope(s, first) && (itself || BothCompare(s, first)) && Sound(s)
  {
    if !SameScope(s, first) || !(itself || BothCompare(s, first)) then Some(ScopeChanged)
    else if s.action != "backfill" then Some(OtherAction)
    else if !HexKey(s.key) then Some(BadKey)
    else if !RequestId(s.requestId) then Some(BadRequestId)
    else if !(5 <= |s.reason| <= 2000) || Text.Blank(s.requestedBy) then Some(BadRequester)
    else if Utc(s.updatedAt) < Utc(s.createdAt) then Some(BadTimes)
    else if s.status.OtherStatus? then Some(UnknownStatus)
    else if s.execution.OtherExecution? then Some(UnknownExecution)
    else if s.execution != NotStarted && (s.status != Approved || s.runId == "") then Some(NoOwner)
    else if s.execution == NotStarted && s.runId != "" then Some(StrayOwner)
    else if s.status in {Approved, Rejected, Cancelled} && (s.decidedBy == "" || s.decidedAt == None) then Some(NoDecider)
    else if s.status == Pending && s.decidedAt.Some? then Some(EarlyDecision)
    else None
  }

  // ---------------------------------------------------------------- two snapshots

  /** The table `allowed` (lines 90-91). */
  predicate Allowed(a: Status, b: Status) {
    match a
    case Pending => !b.OtherStatus?
    case Approved => b == Approved || b == Cancelled
    case Rejected => b == Rejected
    case Cancelled => b == Cancelled
    case OtherStatus(_) => false
  }

  function Rank(e: Execution): nat {
    match e
    case NotStarted => 0
    case Dispatching => 1
    case Dispatched => 2
    case Succeeded => 3
    case Failed => 3
    case OtherExecution(_) => 0
  }

  predicate Over(e: Execution) { e == Succeeded || e == Failed }

  predicate Running(e: Execution) { e == Dispatching || e == Dispatched }

  /** `b`, not older than `a`, may stand in the same history. */
  predicate Link(a: Snapshot, b: Snapshot) {
    && (Utc(a.updatedAt) == Utc(b.updatedAt) ==> SamePayload(Keep(a), Keep(b)))
    && Allowed(a.status, b.status)
    && (a.runId != "" ==> b.runId == a.runId)
    && Rank(a.execution) <= Rank(b.execution)
    && (Over(a.execution) ==> b.execution == a.execution)
  }

  /** The checks on adjacent snapshots (lines 87-99), in their order. */
  function Clash(previous: Snapshot, s: Snapshot): (r: Option<Conflict>)
    ensures r == None <==> Link(previous, s)
  {
    if Utc(previous.updatedAt) == Utc(s.updatedAt) && !SamePayload(Keep(previous), Keep(s)) then Some(TiedConflict)
    else if !Allowed(previous.status, s.status) then Some(DecisionRegressed)
    else if previous.runId != "" && previous.runId != s.runId then Some(ManyOwners)
    else if Rank(s.execution) < Rank(previous.execution)
            || (Over(previous.execution) && s.execution != previous.execution) then Some(ExecutionRegressed)
    else None
  }

  lemma LinkIsTransitive(a: Snapshot, b: Snapshot, c: Snapshot)
    requires Link(a, b) && Link(b, c)
    requires Utc(a.updatedAt) <= Utc(b.updatedAt) <= Utc(c.updatedAt)
    ensures Link(a, c)
  {
  }

  lemma LinkOfTies(a: Snapshot, b: Snapshot)
    requires Sound(a) && SamePayload(Keep(a), Keep(b))
    ensures Link(a, b) && Link(b, a)
  {
  }

  /** What each conflict says of the snapshot it is reported for. */
  predicate Says(c: Conflict, previous: Snapshot, s: Snapshot) {
    match c
    case OtherAction => s.action != "backfill"
    case BadKey => !HexKey(s.key)
    case BadRequestId => !RequestId(s.requestId)
    case BadRequester => |s.reason| < 5 || |s.reason| > 2000 || Text.Blank(s.requestedBy)
    case BadTimes => Utc(s.updatedAt) < Utc(s.createdAt)
    case UnknownStatus => s.status.OtherStatus?
    case UnknownExecution => s.execution.OtherExecution?
    case NoOwner => s.execution != NotStarted && (s.status != Approved || s.runId == "")
    case StrayOwner => s.execution == NotStarted && s.runId != ""
    case NoDecider => s.status != Pending && (s.decidedBy == "" || s.decidedAt == None)
    case EarlyDecision => s.status == Pending && s.decidedAt.Some?
    case TiedConflict => Utc(previous.updatedAt) == Utc(s.updatedAt) && !SamePayload(Keep(previous), Keep(s))
    case DecisionRegressed => !Allowed(previous.status, s.status)
    case ManyOwners => previous.runId != "" && s.runId != previous.runId
    case ExecutionRegressed => !(Rank(previous.execution) <= Rank(s.execution) && (Over(previous.execution) ==> s.execution == previous.execution))
    case _ => false
  }

  const CheckOrder: seq<Conflict> :=
    [OtherAction, BadKey, BadRequestId, BadRequester, BadTimes, UnknownStatus, UnknownExecution, NoOwner, StrayOwner,
     NoDecider, EarlyDecision]

  const PairOrder: seq<Conflict> := [TiedConflict, DecisionRegressed, ManyOwners, ExecutionRegressed]

  /** The conflict reported for one snapshot holds of it, and none that is checked earlier does. */
  lemma ReportsFirst(first: Snapshot, previous: Snapshot, s: Snapshot, itself: bool, k: nat)
    requires itself ==> s == first
    ensures Defect(first, s, itself) == Some(ScopeChanged) <==> !SameScope(s, first) || !(itself || BothCompare(s, first))
    ensures k < |CheckOrder| && Defect(first, s, itself) == Some(CheckOrder[k]) ==>
              Says(CheckOrder[k], previous, s) && forall j :: 0 <= j < k ==> !Says(CheckOrder[j], previous, s)
    ensures k < |PairOrder| && Clash(previous, s) == Some(PairOrder[k]) ==>
              Says(PairOrder[k], previous, s) && forall j :: 0 <= j < k ==> !Says(PairOrder[j], previous, s)
  {
    hide HexKey, RequestId, SameScope, SamePayload, Keep, Allowed, Rank;
  }

  // ---------------------------------------------------------------- the sort

  /** The sort key: update time first, then the text of the whole snapshot. */
  predicate Before(a: Snapshot, b: Snapshot, text: Snapshot -> int) {
    Utc(a.updatedAt) < Utc(b.updatedAt) || (Utc(a.updatedAt) == Utc(b.updatedAt) && text(a) <= text(b))
  }

  predicate InOrder(s: seq<Snapshot>, text: Snapshot -> int) {
    forall i, j :: 0 <= i < j < |s| ==> Before(s[i], s[j], text)
  }

  function Insert(x: Snapshot, s: seq<Snapshot>, text: Snapshot -> int): (r: seq<Snapshot>)
    ensures multiset(r) == multiset(s) + multiset{x}
  {
    if s == [] || Before(x, s[0], text) then [x] + s
    else
      assert s == [s[0]] + s[1..];
      [s[0]] + Insert(x, s[1..], text)
  }

  lemma {:induction false} InsertKeepsOrder(x: Snapshot, s: seq<Snapshot>, text: Snapshot -> int)
    requires InOrder(s, text)
    ensures InOrder(Insert(x, s, text), text)
  {
    if s != [] && Before(x, s[0], text) {
      assert forall j | 1 < j < |s| :: Before(s[0], s[j], text);
    } else if s != [] {
      InsertKeepsOrder(x, s[1..], text);
      var r := Insert(x, s[1..], text);
      forall j | 0 <= j < |r| ensures Before(s[0], r[j], text) {
        assert r[j] in multiset(r);
        assert r[j] == x || r[j] in multiset(s[1..]);
      }
    }
  }

  function Sorted(s: seq<Snapshot>, text: Snapshot -> int): (r: seq<Snapshot>)
    ensures multiset(r) == multiset(s)
  {
    if s == [] then []
    else
      assert s == [s[0]] + s[1..];
      Insert(s[0], Sorted(s[1..], text), text)
  }

  lemma {:induction false} SortedIsInOrder(s: seq<Snapshot>, text: Snapshot -> int)
    ensures InOrder(Sorted(s, text), text)
  {
    if s != [] {
      SortedIsInOrder(s[1..], text);
      InsertKeepsOrder(s[0], Sorted(s[1..], text), text);
    }
  }

  // ---------------------------------------------------------------- a whole history

  /** The first conflict of the scan from index `i`. */
  function Trouble(o: seq<Snapshot>, i: nat): Option<Conflict>
    requires i <= |o|
    decreases |o| - i
  {
    if i == |o| then None
    else if Defect(o[0], o[i], i == 0).Some? then Defect(o[0], o[i], i == 0)
    else if i > 0 && Clash(o[i - 1], o[i]).Some? then Clash(o[i - 1], o[i])
    else Trouble(o, i + 1)
  }

  function Kept(o: seq<Snapshot>): seq<Payload> {
    seq(|o|, i requires 0 <= i < |o| => Keep(o[i]))
  }

  function Elements<T>(s: seq<T>): set<T> { set x | x in s }

  function RecordOf(latest: Snapshot, version: nat): Record {
    Record(latest.requestId, latest.key, latest.action, latest.scope, latest.parameters, latest.requestedBy,
           latest.reason, latest.status, version, Utc(latest.createdAt), Utc(latest.updatedAt),
           if latest.decidedBy == "" then None else Some(latest.decidedBy), At(latest.decidedAt), latest.comment,
           if latest.status == Cancelled then Some(latest.decidedBy) else None,
           if latest.status == Cancelled then At(latest.decidedAt) else None,
           if latest.runId == "" then None else Some(latest.runId), latest.execution, latest.error)
  }

  predicate Storable(o: seq<Snapshot>) {
    forall s :: s in o ==> s.parameters.value.storable
  }

  function Outcome(o: seq<Snapshot>): Result<Import, Conflict> {
    if o == [] then Err(EmptyHistory)
    else if Trouble(o, 0).Some? then Err(Trouble(o, 0).value)
    else if Running(o[|o| - 1].execution) then Err(InFlight)
    else if !Storable(o) then Err(NotFinite)
    else Ok(Import(RecordOf(o[|o| - 1], |Elements(Kept(o))|), Kept(o)))
  }

  lemma TroubleStep(o: seq<Snapshot>, i: nat)
    requires i < |o|
    ensures Defect(o[0], o[i], i == 0).Some? ==> Trouble(o, i) == Defect(o[0], o[i], i == 0)
    ensures Defect(o[0], o[i], i == 0) == None && i > 0 && Clash(o[i - 1], o[i]).Some? ==> Trouble(o, i) == Clash(o[i - 1], o[i])
    ensures Defect(o[0], o[i], i == 0) == None && (i == 0 || Clash(o[i - 1], o[i]) == None) ==> Trouble(o, i) == Trouble(o, i + 1)
  {
    hide Defect, Clash;
  }

  /** The conflict a snapshot meets in its place, by itself or with its neighbour. */
  function Met(o: seq<Snapshot>, i: nat): Option<Conflict>
    requires i < |o|
  {
    var defect := Defect(o[0], o[i], i == 0);
    if defect.Some? || i == 0 then defect else Clash(o[i - 1], o[i])
  }

  /** The conflict reported is that of the first snapshot that meets one. */
  lemma {:induction false} TroubleIsFirst(o: seq<Snapshot>, i: nat)
    requires i <= |o| && Trouble(o, i).Some?
    ensures exists k :: i <= k < |o| && Met(o, k) == Trouble(o, i) && forall j :: i <= j < k ==> Met(o, j) == None
    decreases |o| - i
  {
    hide Defect, Clash;
    if Met(o, i) == None {
      TroubleIsFirst(o, i + 1);
      var k :| i + 1 <= k < |o| && Met(o, k) == Trouble(o, i + 1) && forall j :: i + 1 <= j < k ==> Met(o, j) == None;
      assert forall j :: i <= j < k ==> Met(o, j) == None;
    }
  }

  /** `prepare_legacy_import` */
  method Prepare(snapshots: seq<Snapshot>, text: Snapshot -> int) returns (r: Result<Import, Conflict>)
    ensures r == Outcome(Sorted(snapshots, text))
    ensures r.Ok? <==> Accepted(snapshots)
  {
    hide Defect, Clash, Keep, RecordOf, Sorted, Accepted, Storable;
    AcceptedExactly(snapshots, text);
    if snapshots == [] {
      return Err(EmptyHistory);
    }
    var ordered := Sorted(snapshots, text);
    assert |multiset(ordered)| == |multiset(snapshots)|;
    var history: seq<Payload> := [];
    var previous: Option<Snapshot> := None;
    for i := 0 to |ordered|
      invariant Trouble(ordered, 0) == Trouble(ordered, i)
      invariant |history| == i && forall k :: 0 <= k < i ==> history[k] == Keep(ordered[k])
      invariant previous == if i == 0 then None else Some(ordered[i - 1])
    {
      TroubleStep(ordered, i);
      var snapshot := ordered[i];
      var defect := Defect(ordered[0], snapshot, i == 0);
      if defect.Some? {
        return Err(defect.value);
      }
      if previous.Some? {
        var clash := Clash(previous.value, snapshot);
        if clash.Some? {
          return Err(clash.value);
        }
      }
      history := history + [Keep(snapshot)];
      previous := Some(snapshot);
    }
    var latest := ordered[|ordered| - 1];
    if Running(latest.execution) {
      return Err(InFlight);
    }
    if !Storable(ordered) {
      return Err(NotFinite);
    }
    assert history == Kept(ordered);
    r := Ok(Import(RecordOf(latest, |Elements(history)|), history));
  }

  // ---------------------------------------------------------------- what acceptance means

  /** Every pair of snapshots, however far apart, agrees. */
  ghost predicate Coherent(h: set<Snapshot>) {
    && (forall a | a in h :: Sound(a))
    && (forall a, b | a in h && b in h :: SameScope(a, b))
    && (forall a, b | a in h && b in h && Utc(a.updatedAt) <= Utc(b.updatedAt) :: Link(a, b))
  }

  ghost predicate Newest(a: Snapshot, h: set<Snapshot>) {
    a in h && forall b | b in h :: Utc(b.updatedAt) <= Utc(a.updatedAt)
  }

  ghost predicate Acceptable(h: set<Snapshot>) {
    && h != {} && Coherent(h)
    && (forall a | Newest(a, h) :: !Running(a.execution))
    && (forall a | a in h :: a.parameters.value.storable)
  }

  /** A condition on the bare set, but for parameters that do not equal their own copy. */
  ghost predicate Accepted(snapshots: seq<Snapshot>) {
    Acceptable(Elements(snapshots)) && (|snapshots| == 1 || Compare(Elements(snapshots)))
  }

  ghost predicate Compare(h: set<Snapshot>) {
    forall a | a in h :: a.parameters.value.comparable
  }

  lemma {:induction false} TroubleIsAny(o: seq<Snapshot>, i: nat)
    requires i <= |o|
    ensures Trouble(o, i) == None <==>
            forall k :: i <= k < |o| ==> Defect(o[0], o[k], k == 0) == None && (k > 0 ==> Clash(o[k - 1], o[k]) == None)
    decreases |o| - i
  {
    hide Defect, Clash;
    if i < |o| {
      TroubleIsAny(o, i + 1);
    }
  }

  lemma {:induction false} AdjacentLinksReachFar(o: seq<Snapshot>, i: nat, j: nat, text: Snapshot -> int)
    requires i < j < |o| && InOrder(o, text)
    requires forall k :: 0 < k < |o| ==> Link(o[k - 1], o[k])
    ensures Link(o[i], o[j])
    decreases j
  {
    hide Link;
    if i < j - 1 {
      AdjacentLinksReachFar(o, i, j - 1, text);
      LinkIsTransitive(o[i], o[j - 1], o[j]);
    }
  }

  lemma ScanFindsCoherence(o: seq<Snapshot>, text: Snapshot -> int)
    requires o != [] && InOrder(o, text)
    ensures Trouble(o, 0) == None <==> Coherent(Elements(o)) && (|o| == 1 || Compare(Elements(o)))
  {
    hide Link, Sound, Clash, Defect, SameScope;
    TroubleIsAny(o, 0);
    var h := Elements(o);
    if Coherent(h) && (|o| == 1 || Compare(h)) {
      forall k | 0 <= k < |o|
        ensures Defect(o[0], o[k], k == 0) == None && (k > 0 ==> Clash(o[k - 1], o[k]) == None)
      {
        assert o[k] in h && o[0] in h;
        if k > 0 { assert o[k - 1] in h && Before(o[k - 1], o[k], text); }
      }
    }
    if Trouble(o, 0) == None {
      CoherentIfScanned(o, text);
      AllCompareIfScanned(o);
    }
  }

  lemma AllCompareIfScanned(o: seq<Snapshot>)
    requires o != []
    requires forall k :: 0 <= k < |o| ==> Defect(o[0], o[k], k == 0) == None
    ensures |o| == 1 || Compare(Elements(o))
  {
    hide Sound, SameScope, Defect;
    if |o| > 1 {
      assert Defect(o[0], o[1], false) == None;
      forall k | 0 <= k < |o| ensures o[k].parameters.value.comparable {
        assert Defect(o[0], o[k], k == 0) == None;
      }
    }
  }

  lemma CoherentIfScanned(o: seq<Snapshot>, text: Snapshot -> int)
    requires o != [] && InOrder(o, text)
    requires forall k :: 0 <= k < |o| ==> Defect(o[0], o[k], k == 0) == None && (k > 0 ==> Clash(o[k - 1], o[k]) == None)
    ensures Coherent(Elements(o))
  {
    hide Link, Sound, Clash, Defect;
    var h := Elements(o);
    forall a, b | a in h && b in h && Utc(a.updatedAt) <= Utc(b.updatedAt)
      ensures Link(a, b)
    {
      var i :| 0 <= i < |o| && o[i] == a;
      var j :| 0 <= j < |o| && o[j] == b;
      PairIsLinked(o, i, j, text);
    }
  }

  lemma PairIsLinked(o: seq<Snapshot>, i: nat, j: nat, text: Snapshot -> int)
    requires i < |o| && j < |o| && InOrder(o, text) && Utc(o[i].updatedAt) <= Utc(o[j].updatedAt)
    requires forall k :: 0 <= k < |o| ==> Sound(o[k])
    requires forall k :: 0 < k < |o| ==> Link(o[k - 1], o[k])
    ensures Link(o[i], o[j])
  {
    hide Sound;
    if i < j {
      AdjacentLinksReachFar(o, i, j, text);
    } else if i > j {
      AdjacentLinksReachFar(o, j, i, text);
      assert Before(o[j], o[i], text);
      LinkOfTies(o[j], o[i]);
    } else {
      LinkOfTies(o[i], o[i]);
    }
  }

  /** The scan of neighbours accepts exactly the histories whose every pair agrees. */
  lemma AcceptedExactly(snapshots: seq<Snapshot>, text: Snapshot -> int)
    ensures Outcome(Sorted(snapshots, text)).Ok? <==> Accepted(snapshots)
  {
    hide Coherent, Trouble, Compare, Elements, Newest, Sorted, InOrder, Storable, RecordOf, Kept;
    var o := Sorted(snapshots, text);
    var h := Elements(snapshots);
    SameElements(snapshots, text);
    if o != [] {
      SortedIsInOrder(snapshots, text);
      ScanFindsCoherence(o, text);
      LastIsNewest(o, text);
      NewestRun(h, o[|o| - 1]);
    }
  }

  /** In a coherent history one newest snapshot is running if any is. */
  lemma NewestRun(h: set<Snapshot>, latest: Snapshot)
    requires Newest(latest, h)
    ensures Coherent(h) ==> (Running(latest.execution) <==> exists a :: Newest(a, h) && Running(a.execution))
  {
    hide Coherent, Newest;
    if Coherent(h) {
      forall a | Newest(a, h) ensures a.execution == latest.execution {
        NewestAgree(a, latest, h);
      }
    }
  }

  lemma SameElements(snapshots: seq<Snapshot>, text: Snapshot -> int)
    ensures Elements(Sorted(snapshots, text)) == Elements(snapshots)
    ensures Sorted(snapshots, text) == [] <==> Elements(snapshots) == {}
    ensures |Sorted(snapshots, text)| == |snapshots|
    ensures Storable(Sorted(snapshots, text)) <==> forall a | a in Elements(snapshots) :: a.parameters.value.storable
  {
    var o := Sorted(snapshots, text);
    assert |multiset(o)| == |multiset(snapshots)|;
    forall x ensures x in o <==> x in snapshots {
      assert x in multiset(o) <==> x in multiset(snapshots);
    }
    if o != [] { assert o[0] in Elements(o); }
  }

  lemma LastIsNewest(o: seq<Snapshot>, text: Snapshot -> int)
    requires o != [] && InOrder(o, text)
    ensures Newest(o[|o| - 1], Elements(o))
    ensures forall a | a in o :: Before(a, o[|o| - 1], text) || a == o[|o| - 1]
  {
    var n := |o| - 1;
    forall a | a in o ensures a == o[n] || Before(a, o[n], text) {
      var i :| 0 <= i < |o| && o[i] == a;
    }
  }

  lemma NewestAgree(a: Snapshot, b: Snapshot, h: set<Snapshot>)
    requires Coherent(h) && Newest(a, h) && Newest(b, h)
    ensures SamePayload(Keep(a), Keep(b))
    ensures a.execution == b.execution
  {
    hide Sound, SameScope;
    assert Link(a, b);
  }

  // ---------------------------------------------------------------- the promises

  /** From checks on neighbours alone: ranks and decisions only advance, ends are final, one run owns. */
  lemma HistoryOnlyAdvances(snapshots: seq<Snapshot>, text: Snapshot -> int, a: Snapshot, b: Snapshot)
    requires Outcome(Sorted(snapshots, text)).Ok? && a in snapshots && b in snapshots
    requires Utc(a.updatedAt) <= Utc(b.updatedAt)
    ensures Allowed(a.status, b.status) && Rank(a.execution) <= Rank(b.execution)
    ensures Over(a.execution) ==> b.execution == a.execution
    ensures a.runId != "" ==> b.runId == a.runId
    ensures a.execution != NotStarted ==> b.status == Approved && b.execution != NotStarted
  {
    hide Outcome, Sorted, Acceptable, Allowed, Rank;
    AcceptedExactly(snapshots, text);
    FromCoherence(Elements(snapshots), a, b);
  }

  lemma FromCoherence(h: set<Snapshot>, a: Snapshot, b: Snapshot)
    requires Acceptable(h) && a in h && b in h && Utc(a.updatedAt) <= Utc(b.updatedAt)
    ensures Sound(a) && Sound(b) && Link(a, b)
    ensures Allowed(a.status, b.status) && Rank(a.execution) <= Rank(b.execution)
    ensures Over(a.execution) ==> b.execution == a.execution
    ensures a.runId != "" ==> b.runId == a.runId
    ensures a.execution != NotStarted ==> b.status == Approved && b.execution != NotStarted
  {
    assert Link(a, b);
  }

  lemma OneRunOwnsTheHistory(snapshots: seq<Snapshot>, text: Snapshot -> int, a: Snapshot, b: Snapshot)
    requires Outcome(Sorted(snapshots, text)).Ok? && a in snapshots && b in snapshots
    requires a.runId != "" && b.runId != ""
    ensures a.runId == b.runId
  {
    if Utc(a.updatedAt) <= Utc(b.updatedAt) {
      HistoryOnlyAdvances(snapshots, text, a, b);
    } else {
      HistoryOnlyAdvances(snapshots, text, b, a);
    }
  }

  function KeptSet(h: set<Snapshot>): set<Payload> { set a | a in h :: Keep(a) }

  lemma KeptElements(o: seq<Snapshot>)
    ensures Elements(Kept(o)) == KeptSet(Elements(o))
  {
    hide Keep;
    forall a | a in Elements(o) ensures Keep(a) in Kept(o) {
      var i :| 0 <= i < |o| && o[i] == a;
      assert Kept(o)[i] == Keep(a);
    }
  }

  /** The record shows the newest snapshot and counts the distinct states. */
  lemma RecordSeen(snapshots: seq<Snapshot>, text: Snapshot -> int)
    requires Outcome(Sorted(snapshots, text)).Ok?
    ensures var o := Sorted(snapshots, text);
            && o != [] && InOrder(o, text) && Elements(o) == Elements(snapshots)
            && Newest(o[|o| - 1], Elements(snapshots))
            && Outcome(o).value.record == RecordOf(o[|o| - 1], |KeptSet(Elements(snapshots))|)
  {
    hide Trouble, Sorted, InOrder, KeptSet, Elements, RecordOf, Newest;
    var o := Sorted(snapshots, text);
    SameElements(snapshots, text);
    SortedIsInOrder(snapshots, text);
    LastIsNewest(o, text);
    KeptElements(o);
  }

  /** A record imported as not started has no execution anywhere behind it. */
  lemma ImportedUnstarted(snapshots: seq<Snapshot>, text: Snapshot -> int, a: Snapshot)
    requires Outcome(Sorted(snapshots, text)).Ok? && a in snapshots
    requires Outcome(Sorted(snapshots, text)).value.record.execution == NotStarted
    ensures a.execution == NotStarted && a.runId == ""
  {
    hide Outcome, Acceptable, Sound, Allowed, Sorted, InOrder, KeptSet, Keep;
    RecordSeen(snapshots, text);
    AcceptedExactly(snapshots, text);
    assert a in Elements(snapshots);
    FromCoherence(Elements(snapshots), a, Sorted(snapshots, text)[|Sorted(snapshots, text)| - 1]);
    RankZero(a);
  }

  lemma RankZero(a: Snapshot)
    requires Sound(a) && Rank(a.execution) == 0
    ensures a.execution == NotStarted && a.runId == ""
  {
  }

  /** What can be said of every imported record, whatever its history. */
  lemma RecordIsConsistent(snapshots: seq<Snapshot>, text: Snapshot -> int)
    requires Outcome(Sorted(snapshots, text)).Ok?
    ensures var r := Outcome(Sorted(snapshots, text)).value.record;
            && r.execution in {NotStarted, Succeeded, Failed}
            && (r.runId.Some? <==> r.execution != NotStarted)
            && (r.execution != NotStarted ==> r.status == Approved)
            && (r.status == Pending <==> r.decidedAt == None)
            && (r.status != Pending ==> r.decidedBy.Some?)
            && (r.cancelledBy.Some? <==> r.status == Cancelled)
            && (r.cancelledAt.Some? <==> r.status == Cancelled)
            && (r.status == Cancelled ==> r.cancelledBy == r.decidedBy && r.cancelledAt == r.decidedAt)
            && r.createdAt <= r.updatedAt
  {
    hide Acceptable, Sorted, Trouble, Elements, HexKey, RequestId, Link;
    var o := Sorted(snapshots, text);
    TroubleIsAny(o, 0);
    assert Defect(o[0], o[|o| - 1], |o| == 1) == None;
  }

  /** The record says of the request what any newest snapshot says, whatever else is in the history. */
  lemma RecordShowsNewest(snapshots: seq<Snapshot>, text: Snapshot -> int, a: Snapshot)
    requires Outcome(Sorted(snapshots, text)).Ok? && Newest(a, Elements(snapshots))
    ensures var r := Outcome(Sorted(snapshots, text)).value.record;
            && r.requestId == a.requestId && r.key == a.key && r.action == a.action
            && r.scope == a.scope && r.parameters.value == a.parameters.value
            && r.requestedBy == a.requestedBy && r.reason == a.reason
            && r.status == a.status && r.execution == a.execution
            && r.createdAt == Utc(a.createdAt) && r.updatedAt == Utc(a.updatedAt)
            && r.comment == a.comment && r.error == a.error
            && (if a.decidedBy == "" then r.decidedBy == None else r.decidedBy == Some(a.decidedBy))
            && (if a.decidedAt == None then r.decidedAt == None else r.decidedAt == Some(Utc(a.decidedAt.value)))
            && (if a.runId == "" then r.runId == None else r.runId == Some(a.runId))
            && (a.status == Cancelled ==> r.cancelledBy == Some(a.decidedBy) && a.decidedAt.Some?
                                          && r.cancelledAt == Some(Utc(a.decidedAt.value)))
            && (a.status != Cancelled ==> r.cancelledBy == None && r.cancelledAt == None)
  {
    hide Outcome, Sorted, Acceptable, InOrder, Elements, KeptSet, Newest;
    RecordSeen(snapshots, text);
    AcceptedExactly(snapshots, text);
    NewestOfAccepted(Elements(snapshots), a, Sorted(snapshots, text)[|Sorted(snapshots, text)| - 1]);
  }

  lemma NewestOfAccepted(h: set<Snapshot>, a: Snapshot, b: Snapshot)
    requires Acceptable(h) && Newest(a, h) && Newest(b, h)
    ensures SamePayload(Keep(a), Keep(b)) && (a.status == Cancelled ==> a.decidedAt.Some?)
  {
    hide Link, SameScope, HexKey, RequestId;
    NewestAgree(a, b, h);
    assert Sound(a);
  }

  // ---------------------------------------------------------------- the history kept

  /** A snapshot with its times in UTC and without what the history leaves out. */
  function Bare(s: Snapshot): Snapshot {
    s.(createdAt := Aware(Utc(s.createdAt), 0), updatedAt := Aware(Utc(s.updatedAt), 0),
       decidedAt := if s.decidedAt == None then None else Some(Aware(Utc(s.decidedAt.value), 0)),
       version := 0, eligibility := "")
  }

  /** History forgets the version, the eligibility and how a time was written, and nothing else. */
  lemma KeepForgetsOnly(a: Snapshot, b: Snapshot)
    ensures Keep(a) == Keep(b) <==> Bare(a) == Bare(b)
    ensures Keep(a).updatedAt == Utc(a.updatedAt)
  {
  }

  lemma KeptConcat(a: seq<Snapshot>, b: seq<Snapshot>)
    ensures Kept(a + b) == Kept(a) + Kept(b)
  {
    hide Keep;
  }

  lemma KeptOne(a: Snapshot)
    ensures Kept([a]) == [Keep(a)]
  {
    hide Keep;
  }

  /** Taking one snapshot out of a history takes its payload out of what is kept. */
  lemma KeptWithout(l: seq<Snapshot>, a: Snapshot, r: seq<Snapshot>)
    ensures multiset(l + [a] + r) == multiset(l + r) + multiset{a}
    ensures multiset(Kept(l + [a] + r)) == multiset(Kept(l + r)) + multiset{Keep(a)}
  {
    KeptConcat(l + [a], r);
    KeptConcat(l, [a]);
    KeptConcat(l, r);
    KeptOne(a);
    hide Keep, Kept;
  }

  lemma {:induction false} KeptAsBag(s: seq<Snapshot>, o: seq<Snapshot>)
    requires multiset(s) == multiset(o)
    ensures multiset(Kept(s)) == multiset(Kept(o))
    decreases |s|
  {
    hide Keep, Kept;
    SameSize(s, o);
    if s != [] {
      var i := Find(s[0], s, o);
      var t, l, r := s[1..], o[..i], o[i + 1..];
      KeptWithout([], s[0], t);
      KeptWithout(l, s[0], r);
      Pieces(s, t, o, l, r);
      SameRest(multiset(t), multiset(l + r), s[0]);
      KeptAsBag(t, l + r);
    } else {
      assert o == [];
    }
  }

  lemma Pieces(s: seq<Snapshot>, t: seq<Snapshot>, o: seq<Snapshot>, l: seq<Snapshot>, r: seq<Snapshot>)
    requires s != [] && t == s[1..] && |l| < |o| && o[|l|] == s[0] && l == o[..|l|] && r == o[|l| + 1..]
    ensures [] + [s[0]] + t == s && [] + t == t && l + [s[0]] + r == o
  {
  }

  lemma SameRest(x: multiset<Snapshot>, y: multiset<Snapshot>, a: Snapshot)
    requires x + multiset{a} == y + multiset{a}
    ensures x == y
  {
    assert x == x + multiset{a} - multiset{a};
  }

  lemma SameSize(s: seq<Snapshot>, o: seq<Snapshot>)
    requires multiset(s) == multiset(o)
    ensures |s| == |o|
  {
    assert |s| == |multiset(s)| == |multiset(o)| == |o|;
  }

  lemma Find(a: Snapshot, s: seq<Snapshot>, o: seq<Snapshot>) returns (i: nat)
    requires multiset(s) == multiset(o) && a in s
    ensures i < |o| && o[i] == a
  {
    assert a in multiset(o);
    i :| 0 <= i < |o| && o[i] == a;
  }

  /** The history holds every snapshot of the input once each, oldest first. */
  lemma HistoryKeepsAll(snapshots: seq<Snapshot>, text: Snapshot -> int)
    requires Outcome(Sorted(snapshots, text)).Ok?
    ensures var history := Outcome(Sorted(snapshots, text)).value.history;
            && multiset(history) == multiset(Kept(snapshots))
            && forall i, j :: 0 <= i < j < |history| ==> history[i].updatedAt <= history[j].updatedAt
  {
    hide Trouble, RecordOf, Sorted, Storable, Elements, InOrder, Kept;
    var o := Sorted(snapshots, text);
    SortedIsInOrder(snapshots, text);
    KeptAsBag(o, snapshots);
    KeptInOrder(o, text);
  }

  lemma KeptInOrder(o: seq<Snapshot>, text: Snapshot -> int)
    requires InOrder(o, text)
    ensures forall i, j :: 0 <= i < j < |Kept(o)| ==> Kept(o)[i].updatedAt <= Kept(o)[j].updatedAt
  {
    forall i, j | 0 <= i < j < |o| ensures Kept(o)[i].updatedAt <= Kept(o)[j].updatedAt {
      assert Before(o[i], o[j], text);
    }
  }

  /** The text sorts by the whole snapshot, so it tells any two apart. */
  ghost predicate TellsApart(text: Snapshot -> int) {
    forall a, b :: text(a) == text(b) ==> a == b
  }

  lemma SameLast(o: seq<Snapshot>, p: seq<Snapshot>, text: Snapshot -> int)
    requires o != [] && p != [] && InOrder(o, text) && InOrder(p, text) && TellsApart(text)
    requires Elements(o) == Elements(p)
    ensures o[|o| - 1] == p[|p| - 1]
  {
    LastIsNewest(o, text);
    LastIsNewest(p, text);
    assert o[|o| - 1] in Elements(o) && p[|p| - 1] in Elements(p);
  }

  lemma SameMembers(o: seq<Snapshot>, p: seq<Snapshot>)
    requires multiset(o) == multiset(p)
    ensures |o| == |p| && Elements(o) == Elements(p)
  {
    assert |o| == |multiset(o)| == |multiset(p)| == |p|;
    forall x ensures x in o <==> x in p { assert x in multiset(o) <==> x in multiset(p); }
  }

  lemma DropLast(o: seq<Snapshot>, text: Snapshot -> int)
    requires o != [] && InOrder(o, text)
    ensures var n := |o| - 1; o == o[..n] + [o[n]] && multiset(o[..n]) == multiset(o) - multiset{o[n]} && InOrder(o[..n], text)
  {
    hide Before;
    var n := |o| - 1;
    assert o == o[..n] + [o[n]];
  }

  lemma {:induction false} SameOrder(o: seq<Snapshot>, p: seq<Snapshot>, text: Snapshot -> int)
    requires InOrder(o, text) && InOrder(p, text) && TellsApart(text)
    requires multiset(o) == multiset(p)
    ensures o == p
    decreases |o|
  {
    hide InOrder, TellsApart, Elements;
    SameMembers(o, p);
    if o != [] {
      SameLast(o, p, text);
      DropLast(o, text);
      DropLast(p, text);
      SameOrder(o[..|o| - 1], p[..|p| - 1], text);
    }
  }

  /** Input order never matters: not to the record, the history kept, or the conflict reported. */
  lemma OrderNeverMatters(snapshots: seq<Snapshot>, others: seq<Snapshot>, text: Snapshot -> int)
    requires multiset(snapshots) == multiset(others) && TellsApart(text)
    ensures Outcome(Sorted(snapshots, text)) == Outcome(Sorted(others, text))
  {
    SortedIsInOrder(snapshots, text);
    SortedIsInOrder(others, text);
    SameOrder(Sorted(snapshots, text), Sorted(others, text), text);
  }

  /**
   * Nor do repeated copies matter to what is accepted and to the record, unless the
   * parameters do not equal their own copy: such a history is accepted only alone.
   */
  lemma CopiesNeverMatter(snapshots: seq<Snapshot>, others: seq<Snapshot>, text: Snapshot -> int)
    requires Elements(snapshots) == Elements(others) && TellsApart(text)
    requires Outcome(Sorted(snapshots, text)).Ok?
    ensures Outcome(Sorted(others, text)).Ok? <==> |others| == 1 || Compare(Elements(others))
    ensures Outcome(Sorted(others, text)).Ok? ==>
              Outcome(Sorted(others, text)).value.record == Outcome(Sorted(snapshots, text)).value.record
  {
    hide Outcome, Acceptable, Compare, RecordOf, TellsApart, InOrder, Sorted, KeptSet, Elements, Newest;
    AcceptedExactly(snapshots, text);
    AcceptedExactly(others, text);
    if Outcome(Sorted(others, text)).Ok? {
      RecordSeen(snapshots, text);
      RecordSeen(others, text);
      SameLast(Sorted(snapshots, text), Sorted(others, text), text);
    }
  }

  // ---------------------------------------------------------------- the version

  function TimesOf(h: set<Payload>): set<int> { set p | p in h :: p.updatedAt }

  ghost predicate OnePerTime(h: set<Payload>) {
    forall p, q | p in h && q in h && p.updatedAt == q.updatedAt :: p == q
  }

  lemma OnePerTimeWith(rest: set<Payload>, p: Payload)
    requires p !in rest
    ensures OnePerTime(rest + {p}) <==> OnePerTime(rest) && p.updatedAt !in TimesOf(rest)
    ensures TimesOf(rest + {p}) == TimesOf(rest) + {p.updatedAt}
  {
    var h := rest + {p};
    if OnePerTime(h) {
      forall q | q in rest ensures q.updatedAt != p.updatedAt { assert q in h && p in h; }
    }
    if p.updatedAt !in TimesOf(rest) {
      forall q | q in rest ensures q.updatedAt != p.updatedAt { assert q.updatedAt in TimesOf(rest); }
    }
  }

  lemma {:induction false} TimesCount(h: set<Payload>)
    ensures |TimesOf(h)| <= |h|
    ensures |TimesOf(h)| == |h| <==> OnePerTime(h)
  {
    if h != {} {
      hide TimesOf, OnePerTime;
      var p :| p in h;
      TimesCount(h - {p});
      OnePerTimeWith(h - {p}, p);
      assert h == h - {p} + {p};
    }
  }

  function UpdateTimes(h: set<Snapshot>): set<int> { set a | a in h :: Utc(a.updatedAt) }

  ghost predicate TiesSpelledAlike(h: set<Snapshot>) {
    forall a, b | a in h && b in h && Utc(a.updatedAt) == Utc(b.updatedAt) :: a.parameters.spelling == b.parameters.spelling
  }

  /**
   * The version counts the distinct update times exactly when no two snapshots of one
   * time spell equal parameters differently; otherwise it is larger.
   */
  lemma VersionCountsTimes(snapshots: seq<Snapshot>, text: Snapshot -> int)
    requires Outcome(Sorted(snapshots, text)).Ok?
    ensures var version := Outcome(Sorted(snapshots, text)).value.record.version;
            var h := Elements(snapshots);
            && version >= |UpdateTimes(h)|
            && (version == |UpdateTimes(h)| <==> TiesSpelledAlike(h))
  {
    hide Outcome, Sorted, InOrder, KeptSet, Elements, Newest, Acceptable, TiesSpelledAlike;
    RecordSeen(snapshots, text);
    AcceptedExactly(snapshots, text);
    StatesCountTimes(Elements(snapshots));
  }

  lemma StatesCountTimes(h: set<Snapshot>)
    requires Acceptable(h)
    ensures |UpdateTimes(h)| <= |KeptSet(h)|
    ensures |KeptSet(h)| == |UpdateTimes(h)| <==> TiesSpelledAlike(h)
  {
    hide Acceptable, Keep;
    forall a: Snapshot ensures Keep(a).updatedAt == Utc(a.updatedAt) { TimeKept(a); }
    TimesCount(KeptSet(h));
    assert TimesOf(KeptSet(h)) == UpdateTimes(h);
    forall a, b | a in h && b in h && Utc(a.updatedAt) == Utc(b.updatedAt)
      ensures Keep(a) == Keep(b) <==> a.parameters.spelling == b.parameters.spelling
    {
      TiesKeepAlike(h, a, b);
    }
    if OnePerTime(KeptSet(h)) {
      forall a, b | a in h && b in h && Utc(a.updatedAt) == Utc(b.updatedAt)
        ensures a.parameters.spelling == b.parameters.spelling
      {
        assert Keep(a) in KeptSet(h) && Keep(b) in KeptSet(h);
      }
    }
  }

  lemma TimeKept(a: Snapshot)
    ensures Keep(a).updatedAt == Utc(a.updatedAt)
  {
  }

  lemma TiesKeepAlike(h: set<Snapshot>, a: Snapshot, b: Snapshot)
    requires Acceptable(h) && a in h && b in h && Utc(a.updatedAt) == Utc(b.updatedAt)
    ensures Keep(a) == Keep(b) <==> a.parameters.spelling == b.parameters.spelling
  {
    hide Sound, SameScope;
    assert Link(a, b);
  }

  function Plain(value: Value, spelling: nat): Snapshot {
    Snapshot("r-1", Aware(0, 0), Aware(5, 0), "backfill", seq(64, i => 'a'), "five letters", "ops", "scope",
             Parameters(value, spelling), Pending, "", None, "", "", NotStarted, "", 1, "eligible")
  }

  /** One update time and an accepted history, yet the record carries version two. */
  lemma OvercountExample(text: Snapshot -> int)
    ensures var v := Value("limit 1", true, true);
            var snapshots := [Plain(v, 0), Plain(v, 1)];
            && |UpdateTimes(Elements(snapshots))| == 1
            && Outcome(Sorted(snapshots, text)).Ok?
            && Outcome(Sorted(snapshots, text)).value.record.version > 1
  {
    hide Outcome, Sorted, Acceptable, Plain;
    var v := Value("limit 1", true, true);
    var snapshots := [Plain(v, 0), Plain(v, 1)];
    var h := {Plain(v, 0), Plain(v, 1)};
    assert Elements(snapshots) == h;
    PlainsAreAcceptable(v);
    PlainsAgree(v, 0, 1);
    AcceptedExactly(snapshots, text);
    VersionCountsTimes(snapshots, text);
    assert !TiesSpelledAlike(h) && UpdateTimes(h) == {5};
  }

  /** Parameters with a NaN that the dump leaves storable: accepted alone, rejected with a copy. */
  lemma CopyExample(text: Snapshot -> int)
    ensures var s := Plain(Value("limit NaN", false, true), 0);
            Outcome(Sorted([s], text)).Ok? && Outcome(Sorted([s, s], text)).Err?
  {
    hide Outcome, Sorted, Acceptable, Plain;
    var v := Value("limit NaN", false, true);
    var s := Plain(v, 0);
    PlainsAreAcceptable(v);
    PlainsAgree(v, 0, 0);
    OneIsAcceptable(v);
    assert Elements([s]) == {s} == Elements([s, s]);
    AcceptedExactly([s], text);
    AcceptedExactly([s, s], text);
  }

  /** A number that cannot be stored blocks an otherwise spotless history, at the very end. */
  lemma NotFiniteExample(text: Snapshot -> int)
    ensures Outcome(Sorted([Plain(Value("limit Infinity", true, false), 0)], text)) == Err(NotFinite)
  {
    hide Plain, Sound, SameScope, Link, Clash;
    var v := Value("limit Infinity", true, false);
    var s := Plain(v, 0);
    PlainsAgree(v, 0, 0);
    PlainIsSound(v, 0);
    assert Sorted([s], text) == [s];
    assert Trouble([s], 1) == None;
    assert Trouble([s], 0) == None;
  }

  lemma PlainsAreAcceptable(v: Value)
    requires v.storable
    ensures Acceptable({Plain(v, 0), Plain(v, 1)})
  {
    hide Sound, SameScope, Link, Plain;
    PlainIsSound(v, 0);
    PlainIsSound(v, 1);
    PlainsAgree(v, 0, 0);
    PlainsAgree(v, 0, 1);
    PlainsAgree(v, 1, 0);
    PlainsAgree(v, 1, 1);
  }

  lemma OneIsAcceptable(v: Value)
    requires v.storable
    ensures Acceptable({Plain(v, 0)})
  {
    hide Sound, SameScope, Link, Plain;
    PlainIsSound(v, 0);
    PlainsAgree(v, 0, 0);
  }

  lemma PlainIsSound(v: Value, spelling: nat)
    ensures Sound(Plain(v, spelling))
  {
    assert "ops"[0] == 'o';
    assert "r-1" == ['r', '-', '1'];
  }

  lemma PlainsAgree(v: Value, i: nat, j: nat)
    ensures SameScope(Plain(v, i), Plain(v, j)) && Link(Plain(v, i), Plain(v, j))
    ensures Plain(v, i).parameters == Parameters(v, i) && Plain(v, j).parameters == Parameters(v, j)
    ensures Utc(Plain(v, i).updatedAt) == Utc(Plain(v, j).updatedAt) == 5 && !Running(Plain(v, i).execution)
  {
  }
}
