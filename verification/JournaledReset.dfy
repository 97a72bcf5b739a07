/**
 * The journaled reset of scripts/reset_local_demo.py: nine phases, each saved before its
 * work starts and after it ends, resumed after a crash anywhere; and the one validation
 * run it may create, with scripts/demo_reset_runtime.py.
 */
module JournaledReset {
  import opened Outcomes

  datatype Phase =
    | Quiesced | DiscordDeleted | ContainersRemoved | VolumesRemoved | OutputsRemoved
    | Bootstrapped | Validated | OnboardingStarted | Verified

  const Order: seq<Phase> :=
    [Quiesced, DiscordDeleted, ContainersRemoved, VolumesRemoved, OutputsRemoved,
     Bootstrapped, Validated, OnboardingStarted, Verified]

  datatype RunState = Running | Success | Failed

  /** The validation DagRun as its status call shows it. */
  datatype DagRun = DagRun(state: RunState, tasksSucceeded: bool)

  datatype Journal = Journal(hash: string, phases: seq<Phase>, current: Option<Phase>, attempted: bool, validation: Option<DagRun>)

  /** What an observer of the machine sees: saves, work begun, and requests to validate. */
  datatype Event = Saved(journal: Journal) | Work(phase: Phase) | Asked(create: bool)

  // ---- The observer's rules -----------------------------------------------------------

  function LastSaved(log: seq<Event>): Option<Journal> {
    if log == [] then None
    else match log[|log| - 1] case Saved(j) => Some(j) case _ => LastSaved(log[..|log| - 1])
  }

  function Phases(log: seq<Event>): seq<Phase> {
    match LastSaved(log) case None => [] case Some(j) => j.phases
  }

  function Attempted(log: seq<Event>): bool {
    match LastSaved(log) case None => false case Some(j) => j.attempted
  }

  predicate WellFormed(j: Journal) {
    j.phases <= Order && (Validated in j.phases ==> j.validation.Some?)
  }

  /** What the next event may be, given what was saved so far. */
  predicate Allowed(log: seq<Event>, e: Event) {
    match e
    case Saved(j) =>
      && WellFormed(j)
      && Phases(log) <= j.phases && |j.phases| <= |Phases(log)| + 1
      && (Attempted(log) ==> j.attempted)
      && (LastSaved(log).Some? ==> j.hash == LastSaved(log).value.hash)
    case Work(p) =>
      && |Phases(log)| < |Order| && Order[|Phases(log)|] == p
      && LastSaved(log).Some? && LastSaved(log).value.current == Some(p)
    case Asked(create) =>
      && Attempted(log)
      && (create ==> !Attempted(log[..|log| - 1]) && log[|log| - 1].Saved?)
  }

  predicate Kept(log: seq<Event>) {
    log == [] || (Kept(log[..|log| - 1]) && Allowed(log[..|log| - 1], log[|log| - 1]))
  }

  lemma {:induction false} KeptPrefix(log: seq<Event>, i: nat)
    requires Kept(log) && i <= |log|
    ensures Kept(log[..i])
    ensures i < |log| ==> Allowed(log[..i], log[i])
  {
    hide Allowed;
    if i < |log| {
      if i < |log| - 1 {
        KeptPrefix(log[..|log| - 1], i);
      }
      assert log[..|log| - 1][..i] == log[..i];
    } else {
      assert log[..i] == log;
    }
  }

  /** Saved phases only grow, and an attempt is never forgotten. */
  lemma {:induction false} SavedOnlyGrows(log: seq<Event>, i: nat)
    requires Kept(log) && i <= |log|
    ensures Phases(log[..i]) <= Phases(log) <= Order
    ensures Attempted(log[..i]) ==> Attempted(log)
  {
    if i < |log| {
      var rest := log[..|log| - 1];
      SavedOnlyGrows(rest, i);
      assert rest[..i] == log[..i];
    } else {
      assert log[..i] == log;
      if log != [] {
        SavedOnlyGrows(log[..|log| - 1], |log| - 1);
      }
    }
  }

  function Index(p: Phase): (i: nat)
    ensures i < |Order| && Order[i] == p
  {
    match p
    case Quiesced => 0
    case DiscordDeleted => 1
    case ContainersRemoved => 2
    case VolumesRemoved => 3
    case OutputsRemoved => 4
    case Bootstrapped => 5
    case Validated => 6
    case OnboardingStarted => 7
    case Verified => 8
  }

  lemma PhaseAt(i: nat)
    requires i < |Order|
    ensures Index(Order[i]) == i
  {
  }

  /** No phase's work starts before all earlier phases, and only those, are saved, and itself named. */
  lemma WorkFollowsItsPredecessors(log: seq<Event>, i: nat)
    requires Kept(log) && i < |log| && log[i].Work?
    ensures Phases(log[..i]) == Order[..Index(log[i].phase)]
    ensures log[i].phase !in Phases(log[..i])
    ensures LastSaved(log[..i]).Some? && LastSaved(log[..i]).value.current == Some(log[i].phase)
  {
    KeptPrefix(log, i);
    SavedOnlyGrows(log[..i], i);
    var saved := Phases(log[..i]);
    PhaseAt(|saved|);
    assert saved == Order[..|saved|];
    forall k | 0 <= k < |saved| ensures saved[k] != log[i].phase {
      PhaseAt(k);
      assert saved[k] == Order[k];
    }
  }

  /** Once a phase is saved its work never runs again. */
  lemma SavedWorkNeverRuns(log: seq<Event>, i: nat, k: nat, p: Phase)
    requires Kept(log) && i < k < |log|
    requires log[i].Saved? && p in log[i].journal.phases
    ensures log[k] != Work(p)
  {
    if log[k].Work? {
      WorkFollowsItsPredecessors(log, k);
      KeptPrefix(log, k);
      SavedOnlyGrows(log[..k], i + 1);
      assert log[..k][..i + 1] == log[..i + 1];
      assert LastSaved(log[..i + 1]) == Some(log[i].journal);
      var earlier, later := Phases(log[..i + 1]), Phases(log[..k]);
      var m :| 0 <= m < |earlier| && earlier[m] == p;
      assert later[m] == p;
    }
  }

  function Asks(log: seq<Event>): nat {
    if log == [] then 0 else Asks(log[..|log| - 1]) + if log[|log| - 1] == Asked(true) then 1 else 0
  }

  /** The validation step is asked to create at most once over the whole log. */
  lemma {:induction false} AsksAtMostOne(log: seq<Event>)
    requires Kept(log)
    ensures Asks(log) <= 1 && (Asks(log) == 1 ==> Attempted(log))
  {
    if log != [] {
      var rest := log[..|log| - 1];
      AsksAtMostOne(rest);
      SavedOnlyGrows(log, |log| - 1);
      if log[|log| - 1] == Asked(true) {
        AsksAtMostOne(rest[..|rest| - 1]);
        assert rest[|rest| - 1].Saved?;
      }
    }
  }

  /** One journal carries one hash for life. */
  lemma {:induction false} HashIsKept(log: seq<Event>, i: nat)
    requires Kept(log) && i <= |log| && LastSaved(log[..i]).Some?
    ensures LastSaved(log).Some? && LastSaved(log).value.hash == LastSaved(log[..i]).value.hash
  {
    hide WellFormed;
    if i < |log| {
      assert log[..|log| - 1][..i] == log[..i];
      HashIsKept(log[..|log| - 1], i);
    } else {
      assert log[..i] == log;
    }
  }

  /** What one more event changes. */
  lemma EventStep(log: seq<Event>, e: Event)
    ensures Kept(log) && Allowed(log, e) ==> Kept(log + [e])
    ensures LastSaved(log + [e]) == match e case Saved(j) => Some(j) case _ => LastSaved(log)
    ensures Asks(log + [e]) == Asks(log) + if e == Asked(true) then 1 else 0
  {
    assert (log + [e])[..|log|] == log;
    hide Allowed;
  }

  // ---- The remote run -------------------------------------------------------------------

  predicate Succeeded(r: DagRun) {
    r.state == Success && r.tasksSucceeded
  }

  /** A run that has ended in a way no resume accepts. */
  predicate Dead(r: DagRun) {
    r.state == Failed || (r.state == Success && !r.tasksSucceeded)
  }

  /** Saving the attempt behind the work it belongs to keeps the rules. */
  lemma AttemptAllowed(log: seq<Event>, j: Journal)
    requires j.phases == Phases(log) && j.attempted == Attempted(log) && WellFormed(j)
    requires LastSaved(log).Some? ==> LastSaved(log).value.hash == j.hash
    ensures Allowed(log + [Work(Validated)], Saved(j.(attempted := true)))
  {
    EventStep(log, Work(Validated));
  }

  /** The Airflow API of the rebuilt platform. */
  class Airflow {
    var run: Option<DagRun>
    ghost var posts: nat
    /** No call fails, no process dies, and a run still going succeeds. */
    const steady: bool
    /** A POST takes effect before its answer is due, or never. */
    const prompt: bool
    /** A POST was sent, its answer lost, and it may still take effect. */
    var flying: bool
    /** The rebuilt platform already holds a DagRun that is not this one. */
    const crowded: bool

    constructor (steady: bool, prompt: bool, crowded: bool)
      requires steady ==> prompt
      ensures Valid() && run == None && posts == 0 && !flying
      ensures this.steady == steady && this.prompt == prompt && this.crowded == crowded
    {
      this.steady, this.prompt, this.crowded, flying := steady, prompt, crowded, false;
      run := None;
      posts := 0;
    }

    predicate Valid()
      reads this
    {
      (steady ==> prompt) && (prompt ==> !flying)
    }

    /** A POST in flight may land; a running run may end by itself; one that has ended stays as it is. */
    method Progress()
      requires Valid()
      modifies this`run, this`flying
      ensures Valid() && Onward() && (flying ==> old(flying))
      ensures old(run) == None && !old(flying) ==> run == None
      ensures steady && run.Some? ==> run.value.state != Running
    {
      var lands: bool := *;
      if flying && lands {
        flying := false;
        run := if run == None then Some(DagRun(Running, false)) else run;
      }
      if run.Some? && run.value.state == Running {
        var now: DagRun := *;
        run := Some(if steady then DagRun(Success, true) else now);
      }
    }

    /** Runs never disappear, and what has ended has ended for good. */
    twostate predicate Onward()
      reads this
    {
      old(run).Some? ==> run.Some? && (old(run).value.state != Running ==> run == old(run))
                         && (steady && !Dead(old(run).value) ==> !Dead(run.value))
    }

    method Chance() returns (good: bool)
      ensures steady ==> good
    {
      good := *;
      good := good || steady;
    }

    /**
     * `Airflow.validation`: read the run; create it only if it is absent and creation is
     * allowed. The POST may take effect and lose its answer, which is then read back.
     */
    method Validation(allowCreate: bool) returns (r: Result<DagRun, ()>)
      requires Valid()
      modifies this
      ensures Valid()
      ensures posts <= old(posts) + if allowCreate then 1 else 0
      ensures Onward() && (old(run).Some? ==> posts == old(posts))
      ensures run.Some? && old(run) == None ==> old(flying) || posts == old(posts) + 1
      ensures flying ==> old(flying) || (allowCreate && !crowded)
      ensures r.Ok? ==> run == Some(r.value)
      ensures steady ==> (r.Ok? <==> old(run).Some? || (allowCreate && !crowded))
      ensures old(run) == None && crowded && !old(flying) ==> run == None
      ensures r.Ok? && r.value.state == Running ==> old(run) == None || !steady
      ensures steady && old(run) == None && run.Some? ==> !Dead(run.value)
    {
      Progress();
      var answers := Chance();
      if !answers {
        return Err(());
      }
      if run == None && allowCreate {
        var unpaused := Chance();
        if crowded || !unpaused {
          return Err(());
        }
        posts := posts + 1;
        var applied := Chance();
        var answered := Chance();
        if applied {
          run := Some(DagRun(Running, false));
        }
        if !(applied && answered) {
          var late: bool := *;
          flying := flying || (late && !applied && !prompt);
          var readBack: bool := *;
          if !readBack || run == None {
            return Err(());
          }
        }
      }
      var confirmed := Chance();
      if run == None || !confirmed {
        return Err(());
      }
      return Ok(run.value);
    }
  }

  // ---- The controller ----------------------------------------------------------------------

  datatype Outcome = Died | Refused | Finished

  class Controller {
    /** The journal file, if there is one. */
    var disk: Option<Journal>
    const airflow: Airflow
    ghost var log: seq<Event>

    constructor (airflow: Airflow)
      requires airflow.Valid() && airflow.posts == 0 && airflow.run == None && !airflow.flying
      ensures Valid() && this.airflow == airflow && disk == None && log == []
    {
      disk := None;
      this.airflow := airflow;
      log := [];
    }

    /** The journal on disk is the last one saved, the log keeps the rules, and only an attempt makes a run. */
    ghost predicate Valid()
      reads this, airflow
    {
      && Kept(log) && disk == LastSaved(log) && airflow.posts <= Asks(log)
      && (Validated in Phases(log) ==> Confirmed(LastSaved(log).value.validation))
      && airflow.Valid() && (airflow.run.Some? || airflow.flying ==> Attempted(log))
    }

    /** The validation result is the run that the platform holds, which has ended and succeeded. */
    ghost predicate Confirmed(validation: Option<DagRun>)
      reads airflow
    {
      validation.Some? && validation == airflow.run && Succeeded(validation.value)
    }

    /** The journal in memory says what the one on disk says. */
    ghost predicate InStep(j: Journal)
      reads this, airflow
    {
      && j.phases == Phases(log) && j.attempted == Attempted(log) && WellFormed(j)
      && (Validated in j.phases ==> Confirmed(j.validation))
      && Named(j.hash)
    }

    ghost predicate Named(hash: string)
      reads this
    {
      LastSaved(log).Some? ==> LastSaved(log).value.hash == hash
    }

    /** The one attempt is spent and no run came or can still come of it, or one that ended badly; or it cannot but be spent so. */
    ghost predicate Stuck()
      reads this, airflow
    {
      && |Phases(log)| <= Index(Validated)
      && (if airflow.run == None then !airflow.flying && (Attempted(log) || airflow.crowded) else Dead(airflow.run.value))
    }

    ghost method Note(e: Event)
      requires Valid() && !e.Saved? && Allowed(log, e)
      modifies this`log
      ensures Valid() && log == old(log) + [e] && LastSaved(log) == LastSaved(old(log))
      ensures Asks(log) == old(Asks(log)) + if e == Asked(true) then 1 else 0
    {
      EventStep(log, e);
      hide Kept, LastSaved, Asks, Allowed;
      log := log + [e];
    }

    /** `save_journal`: the replace is atomic, so dying leaves the old journal or the new one. */
    method Save(j: Journal) returns (alive: bool)
      requires Valid() && Allowed(log, Saved(j)) && (Validated in j.phases ==> Confirmed(j.validation))
      modifies this
      ensures Valid() && old(log) <= log
      ensures alive ==> log == old(log) + [Saved(j)] && LastSaved(log) == Some(j)
      ensures LastSaved(log) == old(LastSaved(log)) || LastSaved(log) == Some(j)
      ensures airflow.steady ==> alive
    {
      EventStep(log, Saved(j));
      hide Kept, LastSaved, Asks;
      alive := airflow.Chance();
      if !alive {
        return;
      }
      disk := Some(j);
      log := log + [Saved(j)];
      alive := airflow.Chance();
    }

    /** The body of an ordinary phase, which may fail or die. */
    method Effect(p: Phase) returns (alive: bool)
      requires Valid() && Allowed(log, Work(p))
      modifies this`log
      ensures Valid() && old(log) <= log && LastSaved(log) == old(LastSaved(log))
      ensures airflow.steady ==> alive
    {
      Note(Work(p));
      alive := airflow.Chance();
    }

    /** `runner('validation', ...)` */
    method Ask(create: bool) returns (r: Result<DagRun, ()>)
      requires Valid() && Allowed(log, Asked(create))
      modifies this`log, airflow
      ensures Valid() && old(log) <= log && LastSaved(log) == old(LastSaved(log))
      ensures airflow.Onward()
      ensures (!create || airflow.crowded) && old(airflow.run) == None && !old(airflow.flying) ==> airflow.run == None
      ensures airflow.flying ==> old(airflow.flying) || (create && !airflow.crowded)
      ensures r.Ok? ==> airflow.run == Some(r.value)
      ensures airflow.steady ==> (r.Ok? <==> old(airflow.run).Some? || (create && !airflow.crowded))
      ensures airflow.steady && old(airflow.run) == None && airflow.run.Some? ==> !Dead(airflow.run.value)
      ensures airflow.steady && old(airflow.run).Some? && r.Ok? ==> r.value.state != Running
    {
      Note(Asked(create));
      r := airflow.Validation(create);
    }

    /**
     * `validate`: the attempt is saved before the only request that may create the run.
     * It completes only with a run that exists and succeeded.
     */
    method Validate(j: Journal) returns (alive: bool, j': Journal)
      requires Valid() && InStep(j) && Allowed(log, Work(Validated))
      modifies this, airflow
      ensures Valid() && old(log) <= log && Named(j.hash)
      ensures alive ==> && InStep(j') && j'.phases == j.phases && j'.hash == j.hash
                        && Confirmed(j'.validation)
      ensures alive ==> airflow.run.Some? && !Dead(airflow.run.value) && j'.attempted
      ensures old(Stuck()) ==> !alive && Stuck()
      ensures airflow.steady && !old(Stuck()) ==> alive
    {
      hide Kept, LastSaved, Asks, Allowed;
      alive, j' := Dispatch(j);
      if !alive {
        return;
      }
      var result := AwaitRun();
      if result == None {
        return false, j';
      }
      j' := j'.(validation := result);
    }

    /** Save the attempt, then ask for the run, which may create it if none was attempted before. */
    method Dispatch(j: Journal) returns (alive: bool, j': Journal)
      requires Valid() && InStep(j) && Allowed(log, Work(Validated))
      modifies this, airflow
      ensures Valid() && old(log) <= log && Named(j.hash) && Phases(log) == old(Phases(log))
      ensures alive ==> InStep(j') && j' == j.(attempted := true) && airflow.run.Some?
      ensures old(Stuck()) ==> Stuck()
      ensures airflow.steady && !old(Stuck()) ==> alive && !Dead(airflow.run.value)
    {
      hide Kept, Asks;
      AttemptAllowed(log, j);
      Note(Work(Validated));
      var allow := !j.attempted;
      j' := j.(attempted := true);
      alive := Save(j');
      if !alive {
        return;
      }
      assert log[..|log| - 1] == old(log) + [Work(Validated)];
      var first := Ask(allow);
      alive := first.Ok?;
    }

    /** Poll until the run has ended or patience has. */
    method AwaitRun() returns (result: Option<DagRun>)
      requires Valid() && airflow.run.Some? && Attempted(log)
      modifies this`log, airflow
      ensures Valid() && old(log) <= log && LastSaved(log) == old(LastSaved(log))
      ensures result.Some? ==> Confirmed(result)
      ensures airflow.run.Some?
      ensures old(Dead(airflow.run.value)) ==> result == None && Dead(airflow.run.value)
      ensures airflow.steady && !old(Dead(airflow.run.value)) ==> result.Some?
    {
      hide Kept, LastSaved, Asks;
      var polls: nat :| airflow.steady ==> polls > 0;
      for i := 0 to polls
        invariant Valid() && old(log) <= log && LastSaved(log) == old(LastSaved(log))
        invariant airflow.run.Some? && (old(Dead(airflow.run.value)) ==> Dead(airflow.run.value))
        invariant airflow.steady ==> i == 0 && (!old(Dead(airflow.run.value)) ==> !Dead(airflow.run.value))
      {
        var current := Ask(false);
        if current.Ok? {
          if current.value.state == Failed {
            return None;
          }
          if current.value.state == Success {
            return if current.value.tasksSucceeded then Some(current.value) else None;
          }
        }
      }
      return None;
    }

    /** The next phase's work, between the two saves. */
    method DoWork(p: Phase, j: Journal) returns (alive: bool, j': Journal)
      requires Valid() && InStep(j) && |j.phases| == Index(p)
      requires LastSaved(log).Some? && LastSaved(log).value.current == Some(p)
      modifies this, airflow
      ensures Valid() && old(log) <= log && Named(j.hash)
      ensures alive ==> InStep(j') && j'.phases == j.phases && j'.hash == j.hash && (p == Validated ==> Confirmed(j'.validation))
      ensures old(Stuck()) ==> Stuck() && (alive ==> p != Validated)
      ensures airflow.steady && !old(Stuck()) ==> alive && !Stuck()
    {
      if p == Validated {
        alive, j' := Validate(j);
      } else {
        j' := j;
        alive := Effect(p);
      }
    }

    /** `phase`: skip a saved phase, else note it as current, do its work and save it as done. */
    method RunPhase(p: Phase, j: Journal) returns (alive: bool, j': Journal)
      requires Valid() && InStep(j) && |Phases(log)| >= Index(p)
      modifies this, airflow
      ensures Valid() && old(log) <= log && Named(j.hash)
      ensures alive ==> InStep(j') && j'.hash == j.hash && |Phases(log)| >= Index(p) + 1
      ensures old(Stuck()) ==> Stuck() && (alive ==> p != Validated)
      ensures airflow.steady && !old(Stuck()) ==> alive && !Stuck()
    {
      hide Kept;
      alive, j' := true, j;
      if p in j.phases {
        SavedPhase(j.phases, p);
        return;
      }
      NextPhase(j.phases, p);
      alive, j' := Announce(p, j);
      if !alive {
        return;
      }
      alive, j' := DoWork(p, j');
      if !alive {
        return;
      }
      alive, j' := Complete(p, j');
    }

    method Announce(p: Phase, j: Journal) returns (alive: bool, j': Journal)
      requires Valid() && InStep(j)
      modifies this
      ensures Valid() && old(log) <= log && Named(j.hash)
      ensures Phases(log) == old(Phases(log)) && Attempted(log) == old(Attempted(log))
      ensures alive ==> InStep(j') && j'.hash == j.hash && j'.phases == j.phases
      ensures alive ==> LastSaved(log).Some? && LastSaved(log).value.current == Some(p)
      ensures airflow.steady ==> alive
      ensures old(Stuck()) == Stuck()
    {
      hide Kept;
      j' := j.(current := Some(p));
      alive := Save(j');
    }

    method Complete(p: Phase, j: Journal) returns (alive: bool, j': Journal)
      requires Valid() && InStep(j) && |j.phases| == Index(p) && (p == Validated ==> Confirmed(j.validation))
      modifies this
      ensures Valid() && old(log) <= log && Named(j.hash)
      ensures alive ==> InStep(j') && j'.hash == j.hash && |Phases(log)| == Index(p) + 1
      ensures airflow.steady ==> alive
      ensures Attempted(log) == old(Attempted(log))
      ensures |Phases(log)| == Index(p) || |Phases(log)| == Index(p) + 1
    {
      hide Kept;
      OnePhaseMore(j.phases, p);
      j' := j.(phases := j.phases + [p]);
      alive := Save(j');
    }

    /** `apply_plan` for one manifest, resumed as often as needed. */
    method ApplyPlan(confirmation: string) returns (outcome: Outcome)
      requires Valid()
      modifies this, airflow
      ensures outcome != Finished ==> Valid()
      ensures old(log) <= log && Kept(log) && airflow.posts <= Asks(log)
      ensures old(Stuck()) ==> outcome != Finished && Stuck()
      ensures airflow.steady ==>
                (outcome == Finished <==> !old(Stuck()) && (old(disk).Some? ==> old(disk).value.hash == confirmation))
      ensures outcome == Finished ==> Phases(log) == Order && Confirmed(LastSaved(log).value.validation) && disk == None
      ensures outcome == Refused <==> old(disk).Some? && old(disk).value.hash != confirmation
      ensures outcome == Refused ==> log == old(log) && disk == old(disk)
      ensures LastSaved(log).Some? && (outcome != Refused) ==> LastSaved(log).value.hash == confirmation
    {
      var j := if disk.Some? then disk.value else Journal(confirmation, [], None, false, None);
      if j.hash != confirmation {
        return Refused;
      }
      SavedOnlyGrows(log, |log|);
      LastSavedIsGood(log);
      var alive := true;
      for i := 0 to |Order|
        invariant alive && Valid() && InStep(j) && j.hash == confirmation && old(log) <= log
        invariant |Phases(log)| >= i
        invariant old(Stuck()) ==> Stuck() && i <= Index(Validated)
        invariant airflow.steady && !old(Stuck()) ==> !Stuck()
      {
        PhaseAt(i);
        alive, j := RunPhase(Order[i], j);
        if !alive {
          return Died;
        }
      }
      LastSavedIsGood(log);
      disk := None;
      return Finished;
    }
  }

  lemma {:induction false} LastSavedIsGood(log: seq<Event>)
    requires Kept(log)
    ensures LastSaved(log).Some? ==> WellFormed(LastSaved(log).value)
    ensures LastSaved(log).Some? ==> |log| > 0
  {
    if log != [] {
      LastSavedIsGood(log[..|log| - 1]);
    }
  }

  lemma SavedPhase(phases: seq<Phase>, p: Phase)
    requires phases <= Order && p in phases
    ensures |phases| >= Index(p) + 1
  {
    var i :| 0 <= i < |phases| && phases[i] == p;
    PhaseAt(i);
  }

  lemma NextPhase(phases: seq<Phase>, p: Phase)
    requires phases <= Order && |phases| >= Index(p) && p !in phases
    ensures |phases| == Index(p)
  {
    assert forall i :: 0 <= i < |phases| ==> phases[i] == Order[i] && phases[i] in phases;
  }

  lemma OnePhaseMore(phases: seq<Phase>, p: Phase)
    requires phases <= Order && |phases| == Index(p)
    ensures phases + [p] <= Order
  {
  }

  /** Any number of runs on one journal: crashes, refusals and resumptions in any order. */
  method Lifetime(c: Controller, confirmations: seq<string>)
    requires c.Valid() && c.log == []
    modifies c, c.airflow
    ensures Kept(c.log)
    ensures c.airflow.posts <= 1
  {
    for i := 0 to |confirmations|
      invariant c.Valid()
    {
      var outcome := c.ApplyPlan(confirmations[i]);
      if outcome == Finished {
        AsksAtMostOne(c.log);
        return;
      }
    }
    AsksAtMostOne(c.log);
  }
}
