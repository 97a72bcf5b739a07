/**
 * The stages of scripts/accept_resolution_outbox.py for one run id. Stages may be called
 * in any order and any number of times, and may die at any point; every external call may
 * take effect and lose its answer. Nobody else writes to the fixture table or acts on this
 * run's incident meanwhile, but time passes and workers deliver.
 */
module OutboxAcceptance {
  import opened Outcomes
  import opened OutboxPlatform

  datatype Column = Dt | RowId | Extra(owner: string)

  const Clean: seq<Column> := [Dt, RowId]

  /** The manifest file of one run; a flag never saved is false. */
  datatype Manifest = Manifest(
    warningCreated: bool,
    detectionClaimed: bool,
    alertKnown: bool,
    captureComplete: bool,
    fixtureRestored: bool,
    requestId: Option<nat>,
    passRecorded: bool,
    faultRecorded: bool,
    replayCompleted: bool)

  const Blank: Manifest := Manifest(false, false, false, false, false, None, false, false, false)

  /** What each recorded stage rests on. */
  predicate InOrder(m: Manifest) {
    && (m.replayCompleted ==> m.faultRecorded)
    && (m.faultRecorded ==> m.passRecorded)
    && (m.passRecorded ==> m.requestId.Some?)
    && (m.requestId.Some? ==> m.captureComplete && m.fixtureRestored)
    && (m.captureComplete ==> m.alertKnown && m.detectionClaimed)
  }

  /** Nothing recorded is ever withdrawn or changed. */
  predicate Extends(m: Manifest, n: Manifest) {
    && (m.warningCreated ==> n.warningCreated)
    && (m.detectionClaimed ==> n.detectionClaimed)
    && (m.alertKnown ==> n.alertKnown)
    && (m.captureComplete ==> n.captureComplete)
    && (m.fixtureRestored ==> n.fixtureRestored)
    && (m.requestId.Some? ==> n.requestId == m.requestId)
    && (m.passRecorded ==> n.passRecorded)
    && (m.faultRecorded ==> n.faultRecorded)
    && (m.replayCompleted ==> n.replayCompleted)
  }

  datatype Stage = Prepare | Capture | Restore | Request | Wait | CloseFault | Replay

  class Acceptance {
    const run: string
    const platform: Platform
    /** The manifest on disk. */
    var disk: Option<Manifest>
    /** The fixture table, and how often this run has issued the column ADD. */
    var columns: seq<Column>
    var adds: nat
    /** What the detector wrote under this run's schema run id: whether it saw a finding. */
    var evidence: Option<bool>
    /** The ADD was sent, its answer lost, and it may still take effect. */
    var flying: bool
    /** The warehouse applies an ADD before its answer is due, or never. */
    const prompt: bool
    /**
     * The fixture's older incidents bar a start: one is active, or they are too many to
     * preserve. And one of them holds this business date.
     */
    var barred: bool
    var dateTaken: bool

    constructor (run: string, platform: Platform, columns: seq<Column>, prompt: bool, barred: bool, dateTaken: bool)
      requires platform.steady ==> prompt
      requires platform.Valid() && platform.requests == map[] && platform.decisions == map[]
      requires platform.asked == [] && platform.commands == []
      ensures Valid() && this.platform == platform && this.columns == columns && disk == None
    {
      this.run, this.platform, this.columns := run, platform, columns;
      this.prompt, this.barred, this.dateTaken, flying := prompt, barred, dateTaken, false;
      disk, evidence, adds := None, None, 0;
    }

    function RequestKey(): string { "resolution_outbox_" + run }

    function ClosureKey(): string { "outbox_closure_" + run }

    /** The table and its evidence are as the manifest says. */
    ghost predicate FixtureFits()
      reads this
    {
      && adds <= 1
      && (platform.steady ==> prompt) && (prompt ==> !flying)
      && (disk == None ==> adds == 0 && evidence == None && !flying)
      && (disk.Some? ==>
            var m := disk.value;
            && InOrder(m)
            && (columns == Clean || (columns == Clean + [Extra(run)] && adds == 1))
            && (columns != Clean && m.fixtureRestored ==> !prompt && !m.warningCreated)
            && (flying ==> columns == Clean && adds == 1 && !m.warningCreated)
            && (m.warningCreated ==> adds == 1)
            && (evidence.Some? ==> m.detectionClaimed)
            && (evidence == Some(true) ==> adds == 1)
            && (m.captureComplete ==> evidence == Some(true)))
    }

    /** What the platform holds, and every command it was sent, is as the manifest says. */
    ghost predicate PlatformFits()
      reads this, platform
    {
      && platform.Valid()
      && platform.requests.Keys <= {RequestKey()} && platform.decisions.Keys <= {ClosureKey()}
      && (disk == None ==> platform.asked == [] && platform.commands == [] && platform.requests == map[])
      && (forall k :: k in platform.asked ==> k == RequestKey())
      && (platform.decisions != map[] ==> platform.commands != [])
      && (disk.Some? ==>
            var m := disk.value;
            && (platform.asked != [] || platform.requests != map[] ==> m.captureComplete && m.fixtureRestored)
            && (m.requestId.Some? ==> RequestKey() in platform.requests && platform.requests[RequestKey()] == m.requestId.value)
            && (m.passRecorded ==> platform.CheckOf(RequestKey()) in {Some(Passed), Some(Stale)})
            && (platform.commands != [] ==> m.passRecorded)
            && (forall c :: c in platform.commands ==> Some(c.request) == m.requestId && c.key == ClosureKey())
            && (forall k :: k in platform.decisions ==> Some(platform.decisions[k].request) == m.requestId)
            && (m.faultRecorded ==> ClosureKey() in platform.decisions))
    }

    ghost predicate Valid()
      reads this, platform
    {
      FixtureFits() && PlatformFits()
    }

    twostate predicate Later()
      reads this, platform
    {
      && platform.Onward()
      && old(adds) <= adds
      && (old(disk).Some? ==> disk.Some? && Extends(old(disk).value, disk.value) && adds == old(adds))
      && (old(dateTaken) ==> dateTaken)
      && (platform.steady ==> dateTaken == old(dateTaken) && barred == old(barred))
      && (flying ==> old(flying) || old(disk) == None)
    }

    /** The manifest, the table and the evidence are untouched. */
    twostate predicate Idle()
      reads this
    {
      disk == old(disk) && columns == old(columns) && flying == old(flying) && adds == old(adds) && evidence == old(evidence)
    }

    twostate predicate SameTable()
      reads this
    {
      columns == old(columns) && flying == old(flying) && adds == old(adds)
    }

    /**
     * A run that can never record its fault: the warning was missed or cannot come any more,
     * the date is taken, the check is over or no longer good before there is a closure, or
     * the closure met another error or a worker before the fault was recorded.
     */
    ghost predicate Stuck()
      reads this, platform
    {
      disk.Some? && !disk.value.faultRecorded &&
      var m := disk.value;
      || (evidence != Some(true) && (m.detectionClaimed || (columns == Clean && !flying)))
      || (dateTaken && !m.alertKnown)
      || (platform.CheckOf(RequestKey()) in {Some(Stale), Some(Dead)} && ClosureKey() !in platform.decisions)
      || (ClosureKey() in platform.decisions && !Unspoilt(platform.decisions[ClosureKey()].delivery))
    }

    /** What happens around this run before one of its guards looks. */
    method Outside()
      modifies this`barred, this`dateTaken
      ensures old(dateTaken) ==> dateTaken
      ensures platform.steady ==> barred == old(barred) && dateTaken == old(dateTaken)
    {
      var active, taken: bool := *, *;
      if !platform.steady {
        barred, dateTaken := active, dateTaken || taken;
      }
    }

    /** Between stages an ADD still under way may land. */
    method Land()
      requires Valid()
      modifies this`columns, this`flying
      ensures Valid() && Later()
      ensures prompt ==> unchanged(this)
      ensures old(Stuck()) ==> Stuck()
    {
      hide InOrder, Extends;
      Same(disk);
      var lands: bool := *;
      if flying && lands {
        columns, flying := Clean + [Extra(run)], false;
      }
    }

    /** `save`: the replace is atomic, so dying leaves the old manifest or the new one. */
    method Save(m: Manifest) returns (alive: bool)
      modifies this`disk
      ensures alive ==> disk == Some(m)
      ensures disk == old(disk) || disk == Some(m)
      ensures platform.steady ==> alive
    {
      alive := platform.Chance();
      if alive {
        disk := Some(m);
        alive := platform.Chance();
      }
    }

    /** `prepare_fixture` */
    method PrepareFixture() returns (ok: bool)
      requires Valid()
      modifies this
      ensures Valid() && Later() && unchanged(platform)
      ensures ok ==> disk.Some? && disk.value.warningCreated
      ensures old(disk).Some? || old(columns) != Clean ==> Idle()
      ensures ok && old(disk) == None ==>
                columns == Clean + [Extra(run)] && adds == old(adds) + 1 && disk == Some(Blank.(warningCreated := true))
                && !barred && evidence == None
      ensures platform.steady ==>
                (ok <==> if old(disk) == None then old(columns) == Clean && !barred else old(disk).value.warningCreated)
      ensures old(Stuck()) ==> Stuck()
    {
      hide InOrder;
      if disk.Some? {
        return disk.value.warningCreated;
      }
      if columns != Clean {
        return false;
      }
      Outside();
      if barred {
        return false;
      }
      ok := IssueAdd();
    }

    method IssueAdd() returns (ok: bool)
      requires Valid() && disk == None && columns == Clean
      modifies this`disk, this`columns, this`adds, this`flying
      ensures Valid() && Later() && unchanged(platform)
      ensures ok ==> columns == Clean + [Extra(run)] && adds == old(adds) + 1 && disk == Some(Blank.(warningCreated := true))
      ensures platform.steady ==> ok
    {
      var alive := Save(Blank);
      if !alive {
        return false;
      }
      adds := adds + 1;
      var applied := platform.Chance();
      if applied {
        columns := columns + [Extra(run)];
      }
      var answered := platform.Chance();
      if !(applied && answered) {
        var late: bool := *;
        flying := late && !applied && !prompt;
        return false;
      }
      ok := Save(Blank.(warningCreated := true));
    }

    /** The detector observes the table once, under this run's own schema run id. */
    method Detect() returns (ok: bool)
      requires Valid() && disk.Some? && disk.value.detectionClaimed && evidence == None
      modifies this`evidence
      ensures Valid() && Later()
      ensures evidence == None || evidence == Some(columns != Clean)
      ensures ok ==> evidence == Some(true)
      ensures platform.steady ==> evidence.Some? && ok == evidence.value
    {
      var wrote := platform.Chance();
      if wrote {
        evidence := Some(columns != Clean);
      }
      var answered := platform.Chance();
      ok := wrote && answered && evidence == Some(true);
    }

    /** Claim the one detection and make it. */
    method ClaimDetection() returns (ok: bool)
      requires Valid() && disk.Some?
      modifies this`disk, this`evidence
      ensures Valid() && Later() && disk.Some?
      ensures ok ==> evidence == Some(true) && disk == Some(old(disk).value.(detectionClaimed := true))
      ensures old(disk).value.detectionClaimed ==> Idle()
      ensures disk == old(disk) || disk == Some(old(disk).value.(detectionClaimed := true))
      ensures platform.steady ==>
                (ok <==> if old(disk).value.detectionClaimed then old(evidence) == Some(true) else columns != Clean)
      ensures old(evidence) != Some(true) && (old(disk).value.detectionClaimed || columns == Clean) ==> evidence != Some(true)
    {
      hide InOrder;
      if !disk.value.detectionClaimed {
        KeepsOrder(disk.value);
        var alive := Save(disk.value.(detectionClaimed := true));
        if !alive {
          return false;
        }
        ok := Detect();
        return;
      }
      ok := evidence == Some(true);
    }

    /** `capture_alert` */
    method CaptureAlert() returns (ok: bool)
      requires Valid()
      modifies this
      ensures Valid() && Later() && SameTable() && unchanged(platform)
      ensures ok ==> disk.Some? && disk.value.captureComplete && evidence == Some(true)
      ensures old(disk) == None || old(disk).value.captureComplete ==> Idle()
      ensures ok && !old(disk).value.captureComplete ==>
                disk == Some(old(disk).value.(detectionClaimed := true, alertKnown := true, captureComplete := true))
      ensures platform.steady ==>
                (ok <==> old(disk).Some? && (old(disk).value.alertKnown || !dateTaken) &&
                         if old(disk).value.detectionClaimed then old(evidence) == Some(true) else columns != Clean)
      ensures old(Stuck()) ==> Stuck() && (ok ==> old(disk).value.captureComplete)
    {
      hide InOrder;
      if disk == None {
        return false;
      }
      KeepsOrder(disk.value);
      if disk.value.captureComplete {
        ok := platform.Chance();
        return;
      }
      var seen := ClaimDetection();
      if !seen {
        return false;
      }
      ok := DeliverAlert();
    }

    /** The rest of `capture_alert`, once the warning is in evidence. */
    method DeliverAlert() returns (ok: bool)
      requires Valid() && disk.Some? && disk.value.detectionClaimed && !disk.value.captureComplete && evidence == Some(true)
      modifies this`disk, this`barred, this`dateTaken
      ensures Valid() && Later()
      ensures ok ==> disk == Some(old(disk).value.(alertKnown := true, captureComplete := true))
      ensures disk.Some? && disk.value.faultRecorded == old(disk).value.faultRecorded
      ensures platform.steady ==> (ok <==> old(disk).value.alertKnown || !dateTaken)
      ensures old(dateTaken) && !old(disk).value.alertKnown ==> !ok && disk == old(disk)
    {
      hide InOrder;
      KeepsOrder(disk.value);
      if !disk.value.alertKnown {
        Outside();
        if dateTaken {
          return false;
        }
        var alive := Save(disk.value.(alertKnown := true));
        if !alive {
          return false;
        }
        KeepsOrder(disk.value);
      }
      var delivered := platform.Chance();
      if !delivered {
        return false;
      }
      ok := Save(disk.value.(captureComplete := true));
    }

    /** `restore_fixture` */
    method RestoreFixture() returns (ok: bool)
      requires Valid()
      modifies this
      ensures Valid() && Later() && unchanged(platform)
      ensures ok ==> old(disk).Some? && columns == Clean && disk == Some(old(disk).value.(fixtureRestored := true))
      ensures columns != old(columns) ==> columns == Clean && old(columns) == Clean + [Extra(run)]
      ensures evidence == old(evidence) && (old(disk) == None ==> Idle())
      ensures platform.steady ==> (ok <==> old(disk).Some?)
      ensures old(Stuck()) ==> Stuck()
    {
      if disk == None {
        return false;
      }
      var m := disk.value;
      if columns != Clean {
        if m.fixtureRestored || columns != Clean + [Extra(run)] {
          return false;
        }
        var applied := platform.Chance();
        if applied {
          columns := Clean;
        }
        var answered := platform.Chance();
        if !(applied && answered) {
          return false;
        }
      }
      ok := Save(m.(fixtureRestored := true));
    }

    /** `request_check` */
    method RequestCheck() returns (ok: bool)
      requires Valid()
      modifies this, platform
      ensures Valid() && Later() && SameTable() && evidence == old(evidence) && platform.commands == old(platform.commands)
      ensures ok ==> old(disk).Some? && RequestKey() in platform.requests
                     && disk == Some(old(disk).value.(requestId := Some(platform.requests[RequestKey()])))
      ensures old(disk) == None || !old(disk).value.captureComplete || !old(disk).value.fixtureRestored ==>
                !ok && Idle() && unchanged(platform)
      ensures platform.steady ==>
                (ok <==> old(disk).Some? && old(disk).value.captureComplete && old(disk).value.fixtureRestored
                         && (RequestKey() in old(platform.requests) || !old(platform.remediating)))
      ensures platform.steady && ok ==>
                && platform.decisions == old(platform.decisions) && platform.remediating == old(platform.remediating)
                && (if RequestKey() in old(platform.requests)
                    then platform.CheckOf(RequestKey()) == old(platform.CheckOf(RequestKey())) && platform.changed == old(platform.changed)
                    else platform.CheckOf(RequestKey()) == Some(Open) && !platform.changed)
      ensures old(Stuck()) ==> Stuck()
    {
      hide InOrder, Ages, Moves, Aged, Moved, Keeps;
      Still(platform.requests, platform.checks, platform.decisions);
      if disk == None || !disk.value.captureComplete || !disk.value.fixtureRestored {
        return false;
      }
      var answer := Ask();
      if answer == None {
        return false;
      }
      KeepsOrder(disk.value);
      ok := Save(disk.value.(requestId := answer));
    }

    /** The request to the platform, under this run's key. */
    method Ask() returns (answer: Option<nat>)
      requires Valid() && disk.Some? && disk.value.captureComplete && disk.value.fixtureRestored
      modifies platform
      ensures Valid() && platform.Onward() && platform.commands == old(platform.commands)
      ensures answer.Some? ==> RequestKey() in platform.requests && platform.requests[RequestKey()] == answer.value
      ensures answer.Some? && disk.value.requestId.Some? ==> disk.value.requestId == answer
      ensures platform.steady ==> (answer.Some? <==> RequestKey() in old(platform.requests) || !old(platform.remediating))
      ensures platform.steady && answer.Some? ==>
                && platform.decisions == old(platform.decisions) && platform.remediating == old(platform.remediating)
                && (if RequestKey() in old(platform.requests)
                    then platform.CheckOf(RequestKey()) == old(platform.CheckOf(RequestKey())) && platform.changed == old(platform.changed)
                    else platform.CheckOf(RequestKey()) == Some(Open) && !platform.changed)
      ensures old(Stuck()) ==> Stuck()
    {
      hide InOrder;
      answer := platform.Create(RequestKey());
    }

    /** `wait_for_pass`: an expired pass is still a pass here; a check that is over without one never is. */
    method WaitForPass() returns (ok: bool)
      requires Valid()
      modifies this`disk, platform
      ensures Valid() && Later() && platform.commands == old(platform.commands)
      ensures ok ==> old(disk).Some? && disk == Some(old(disk).value.(passRecorded := true))
      ensures old(disk) == None || old(disk).value.requestId == None ==> !ok && Idle() && unchanged(platform)
      ensures old(platform.CheckOf(RequestKey())) == Some(Dead) ==> !ok
      ensures platform.steady ==>
                && (ok <==> old(disk).Some? && old(disk).value.requestId.Some?
                            && old(platform.CheckOf(RequestKey())) != Some(Dead))
                && platform.decisions == old(platform.decisions)
                && platform.remediating == old(platform.remediating) && platform.changed == old(platform.changed)
                && (ok ==> platform.CheckOf(RequestKey()) ==
                           if old(platform.CheckOf(RequestKey())) == Some(Open) then Some(Passed) else old(platform.CheckOf(RequestKey())))
      ensures old(Stuck()) ==> Stuck()
    {
      hide InOrder, Ages, Moves, Aged, Moved, Keeps;
      Still(platform.requests, platform.checks, platform.decisions);
      if disk == None || disk.value.requestId == None {
        return false;
      }
      var check := Poll();
      if check != Passed && check != Stale {
        return false;
      }
      KeepsOrder(disk.value);
      ok := Save(disk.value.(passRecorded := true));
    }

    /** The polling of the recorded request. */
    method Poll() returns (check: Check)
      requires Valid() && disk.Some? && disk.value.requestId.Some?
      modifies platform
      ensures Valid() && platform.Onward() && platform.commands == old(platform.commands)
      ensures platform.CheckOf(RequestKey()) == Some(check)
      ensures old(platform.CheckOf(RequestKey())) == Some(Dead) ==> check == Dead
      ensures platform.steady ==>
                && platform.decisions == old(platform.decisions)
                && platform.remediating == old(platform.remediating) && platform.changed == old(platform.changed)
                && Some(check) == if old(platform.CheckOf(RequestKey())) == Some(Open) then Some(Passed) else old(platform.CheckOf(RequestKey()))
      ensures old(Stuck()) ==> Stuck()
    {
      hide InOrder;
      check := platform.Await(disk.value.requestId.value);
    }

    /** `confirm_with_fault`: one closure command, under one key and for the recorded request. */
    method ConfirmWithFault() returns (ok: bool)
      requires Valid()
      modifies this`disk, platform
      ensures Valid() && Later() && platform.asked == old(platform.asked)
      ensures ok ==> old(disk).Some? && ClosureKey() in platform.decisions
                     && disk == Some(old(disk).value.(faultRecorded := true))
      ensures old(disk) == None || !old(disk).value.passRecorded ==> !ok && Idle() && platform.commands == old(platform.commands)
      ensures platform.steady ==>
                (ok <==> old(disk).Some? && old(disk).value.passRecorded &&
                         if ClosureKey() in old(platform.decisions)
                         then Unspoilt(old(platform.decisions[ClosureKey()].delivery))
                         else old(platform.CheckOf(RequestKey())) == Some(Passed)
                              && !old(platform.remediating) && !old(platform.changed))
      ensures old(Stuck()) ==> Stuck() && !ok
    {
      hide InOrder, Ages, Moves, Aged, Moved, Keeps;
      Still(platform.requests, platform.checks, platform.decisions);
      if disk.Some? { KeepsOrder(disk.value); }
      if disk == None || disk.value.requestId == None || !disk.value.passRecorded {
        return false;
      }
      var held := CloseHeld();
      if !held {
        return false;
      }
      ok := Save(disk.value.(faultRecorded := true));
    }

    /** Close, and see the closure left pending. */
    method CloseHeld() returns (held: bool)
      requires Valid() && disk.Some? && disk.value.passRecorded && disk.value.requestId.Some?
      modifies platform
      ensures Valid() && platform.Onward() && platform.asked == old(platform.asked)
      ensures held ==> ClosureKey() in platform.decisions
      ensures platform.steady ==>
                (held <==> if ClosureKey() in old(platform.decisions)
                           then Unspoilt(old(platform.decisions[ClosureKey()].delivery))
                           else old(platform.CheckOf(RequestKey())) == Some(Passed)
                                && !old(platform.remediating) && !old(platform.changed))
      ensures old(Stuck()) ==> Stuck() && !held
    {
      hide InOrder;
      KeepsOrder(disk.value);
      held := SendClosure();
      if held {
        held := HoldDelivery();
      }
    }

    method SendClosure() returns (ok: bool)
      requires Valid() && disk.Some? && disk.value.passRecorded && disk.value.requestId.Some?
      modifies platform
      ensures Valid() && platform.Onward() && platform.asked == old(platform.asked)
      ensures platform.commands == old(platform.commands) + [Command(ClosureKey(), disk.value.requestId.value)]
      ensures ok ==> ClosureKey() in platform.decisions
      ensures platform.steady && ClosureKey() in old(platform.decisions) ==> ok && platform.decisions == old(platform.decisions)
      ensures platform.steady && ClosureKey() !in old(platform.decisions) ==>
                (ok <==> old(platform.CheckOf(RequestKey())) == Some(Passed) && !old(platform.remediating) && !old(platform.changed))
                && (ok ==> platform.decisions[ClosureKey()].delivery == Faulted)
      ensures ClosureKey() in platform.decisions && ClosureKey() !in old(platform.decisions) ==>
                old(platform.CheckOf(RequestKey())) == Some(Passed)
    {
      hide InOrder;
      ok := platform.Close(Command(ClosureKey(), disk.value.requestId.value));
    }

    /** The closure must be left pending by the fault, not delivered. */
    method HoldDelivery() returns (held: bool)
      requires Valid() && disk.Some? && ClosureKey() in platform.decisions
      modifies platform`checks, platform`decisions, platform`remediating, platform`changed
      ensures Valid() && platform.Onward() && platform.decisions.Keys == old(platform.decisions.Keys)
      ensures !Unspoilt(old(platform.decisions[ClosureKey()].delivery)) ==>
                !held && !Unspoilt(platform.decisions[ClosureKey()].delivery)
      ensures platform.steady ==> (held <==> Unspoilt(old(platform.decisions[ClosureKey()].delivery)))
    {
      hide InOrder;
      held := platform.DeliverWithFault(ClosureKey());
      var audited := platform.Chance();
      held := held && audited;
    }

    /** `replay` */
    method ReplayOutbox() returns (ok: bool)
      requires Valid()
      modifies this`disk, platform
      ensures Valid() && Later() && platform.commands == old(platform.commands)
      ensures ok ==> old(disk).Some? && disk == Some(old(disk).value.(replayCompleted := true))
      ensures ok ==> ClosureKey() in platform.decisions && platform.decisions[ClosureKey()].delivery == Delivered
      ensures old(disk) == None || !old(disk).value.faultRecorded ==> !ok && Idle() && unchanged(platform)
      ensures platform.steady ==> (ok <==> old(disk).Some? && old(disk).value.faultRecorded)
      ensures old(Stuck()) ==> Stuck()
    {
      hide InOrder;
      if disk == None || !disk.value.faultRecorded {
        return false;
      }
      var synchronized := platform.Deliver(ClosureKey());
      if !synchronized {
        return false;
      }
      KeepsOrder(disk.value);
      ok := Save(disk.value.(replayCompleted := true));
    }

    method RunStage(stage: Stage) returns (ok: bool)
      requires Valid()
      modifies this, platform
      ensures Valid() && Later()
      ensures old(Stuck()) ==> Stuck()
    {
      hide InOrder, Extends, Ages, Moves, Aged, Moved, Keeps;
      Land();
      match stage
      case Prepare => ok := PrepareFixture();
      case Capture => ok := CaptureAlert();
      case Restore => ok := RestoreFixture();
      case Request => ok := RequestCheck();
      case Wait => ok := WaitForPass();
      case CloseFault => ok := ConfirmWithFault();
      case Replay => ok := ReplayOutbox();
    }

    /**
     * Any stages, in any order: the ADD is issued at most once, a restored fixture is
     * clean unless an ADD of unknown outcome lands late, stages are recorded in order and
     * never withdrawn, and a stuck run stays so.
     * Every closure command sent carries one key and the recorded request, after a
     * recorded pass; so the platform holds at most one decision.
     */
    method RunStages(stages: seq<Stage>)
      requires Valid()
      modifies this, platform
      ensures Valid() && Later()
      ensures adds <= 1
      ensures disk.Some? ==> InOrder(disk.value)
      ensures disk.Some? && disk.value.fixtureRestored && (prompt || disk.value.warningCreated) ==> columns == Clean
      ensures forall c :: c in platform.commands ==>
                disk.Some? && disk.value.passRecorded && disk.value.requestId.Some?
                && c == Command(ClosureKey(), disk.value.requestId.value)
      ensures |platform.decisions| <= 1
      ensures old(Stuck()) ==> Stuck() && !disk.value.faultRecorded && !disk.value.replayCompleted
    {
      for i := 0 to |stages|
        invariant Valid() && Later()
        invariant old(Stuck()) ==> Stuck()
      {
        var ok := RunStage(stages[i]);
      }
      AtMostOne(platform.decisions, ClosureKey());
    }

    /** No remediation or change stands between this run and its closure. */
    ghost predicate Clear()
      reads this, platform
    {
      ClosureKey() in platform.decisions
      || (!platform.remediating && (RequestKey() in platform.requests ==> !platform.changed))
    }

    /** What a run needs so that its remaining stages, taken in order, can complete it. */
    ghost predicate Ready()
      reads this, platform
    {
      Clear() && if disk == None then columns == Clean && !barred && !dateTaken else !Stuck()
    }

    /**
     * The stages in order: preparation if there is no manifest yet, then each that is not
     * yet recorded.
     */
    method RunAll() returns (ok: bool)
      requires Valid()
      modifies this, platform
      ensures Valid()
      ensures platform.steady ==> (ok <==> old(Ready()))
      ensures ok ==> disk.Some? && disk.value.replayCompleted && adds == 1
                     && (prompt || disk.value.warningCreated ==> columns == Clean)
                     && platform.decisions.Keys == {ClosureKey()}
    {
      hide InOrder, Extends, Ages, Moves, Aged, Moved, Keeps;
      if disk.Some? { KeepsOrder(disk.value); }
      ok := FixtureStages();
      if ok {
        ok := ClosureStages();
      }
    }

    /** Prepare, capture and restore. */
    method FixtureStages() returns (ok: bool)
      requires Valid()
      modifies this
      ensures Valid() && unchanged(platform)
      ensures ok ==> disk.Some? && disk.value.captureComplete && disk.value.fixtureRestored && evidence == Some(true)
      ensures ok ==> disk == Some((if old(disk).Some? then old(disk).value else Blank.(warningCreated := true)).(
                                    detectionClaimed := true, alertKnown := true, captureComplete := true, fixtureRestored := true))
      ensures platform.steady ==>
                (ok <==> if old(disk) == None then old(columns) == Clean && !old(barred) && !old(dateTaken)
                         else old(disk).value.captureComplete ||
                              ((old(disk).value.alertKnown || !old(dateTaken)) &&
                               if old(disk).value.detectionClaimed then old(evidence) == Some(true) else old(columns) != Clean))
    {
      hide InOrder, Extends, Stuck, Ages, Moves, Aged, Moved, Keeps;
      ok := true;
      if disk.Some? { KeepsOrder(disk.value); }
      if disk == None { ok := PrepareFixture(); }
      if ok && !disk.value.captureComplete { ok := CaptureAlert(); }
      if ok { KeepsOrder(disk.value); }
      if ok && !disk.value.fixtureRestored { ok := RestoreFixture(); }
    }

    /** Request, wait, close and replay. */
    method ClosureStages() returns (ok: bool)
      requires Valid() && disk.Some? && disk.value.captureComplete && disk.value.fixtureRestored && evidence == Some(true)
      requires disk.value.alertKnown
      modifies this, platform
      ensures Valid()
      ensures platform.steady ==> (ok <==> old(Clear() && !Stuck()))
      ensures ok ==> disk.Some? && disk.value.replayCompleted && adds == 1
                     && (prompt || disk.value.warningCreated ==> columns == Clean)
                     && platform.decisions.Keys == {ClosureKey()}
    {
      hide InOrder, Extends, Ages, Moves, Aged, Moved, Keeps;
      ok := true;
      if disk.value.requestId == None { ok := RequestCheck(); }
      if ok && !disk.value.passRecorded { ok := WaitForPass(); }
      if ok && !disk.value.faultRecorded { ok := ConfirmWithFault(); }
      if ok && !disk.value.replayCompleted { ok := ReplayOutbox(); }
    }
  }

  lemma Same(m: Option<Manifest>)
    ensures m.Some? ==> Extends(m.value, m.value)
  {
  }

  lemma AtMostOne(decisions: map<string, Decision>, key: string)
    requires decisions.Keys <= {key}
    ensures |decisions| <= 1
  {
    assert decisions.Keys == {} || decisions.Keys == {key};
  }

  /** The steps a stage may record, given what is recorded. */
  lemma KeepsOrder(m: Manifest)
    requires InOrder(m)
    ensures InOrder(m.(detectionClaimed := true))
    ensures InOrder(m.(alertKnown := true))
    ensures m.alertKnown && m.detectionClaimed ==> InOrder(m.(captureComplete := true))
    ensures m.captureComplete && m.fixtureRestored ==> forall id :: InOrder(m.(requestId := Some(id)))
    ensures m.requestId.Some? ==> InOrder(m.(passRecorded := true))
    ensures m.passRecorded ==> m.requestId.Some? && InOrder(m.(faultRecorded := true))
    ensures m.faultRecorded ==> m.passRecorded && m.requestId.Some? && InOrder(m.(replayCompleted := true))
    ensures m.requestId.Some? ==> m.captureComplete && m.fixtureRestored
    ensures m.captureComplete ==> m.alertKnown && m.detectionClaimed
  {
  }
}
