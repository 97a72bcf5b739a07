/**
 * The checkpoint smoke, scripts/smoke_agent_checkpoint.py: a two-node graph whose second
 * node writes an external marker once. Phases come in any order; each may die anywhere.
 */
module SmokePhases {
  import opened Outcomes
  import C = CheckpointReplay

  datatype State = State(prepares: nat, effects: nat)

  /** The file is created first and filled after: dying in between leaves it torn. */
  datatype Marker = Absent | Torn | Written

  datatype Phase = Initialize | Resume | ResumeComplete | HistoricalReplay | ReplayRepeat | Verify

  type Snapshot = C.Checkpoint<State>

  // ---------------------------------------------------------------- the graph

  const PrepareNext: seq<C.Node> := ["prepare"]
  const EffectNext: seq<C.Node> := ["effect"]

  function Step(s: State, next: seq<C.Node>): (State, seq<C.Node>) {
    if next == PrepareNext then (s.(prepares := s.prepares + 1), EffectNext)
    else if next == EffectNext then (s.(effects := s.effects + 1), [])
    else (s, [])
  }

  function Route(s: State, writer: C.Node): seq<C.Node> {
    if writer == "prepare" then EffectNext else if writer == "__start__" then PrepareNext else []
  }

  const Smoke: C.Graph<State> :=
    C.Graph(Step, Route, s => false,
            [("__start__", "prepare"), ("prepare", "effect"), ("effect", "__end__")])

  const Started: Snapshot := C.Checkpoint(State(0, 0), PrepareNext, None)
  const Prepared: Snapshot := C.Checkpoint(State(1, 0), EffectNext, Some(PrepareNext))
  const Done: Snapshot := C.Checkpoint(State(1, 1), [], Some(EffectNext))

  /** Every history the source thread can have is a prefix of this one, and so for the child. */
  const Full: C.History<State> := [Started, Prepared, Done]
  const ChildFull: C.History<State> := [Prepared, Done]

  lemma NextIsSaved(s: Snapshot)
    ensures s == Started ==> C.After(Smoke, s) == Prepared
    ensures s == Prepared ==> C.After(Smoke, s) == Done
    ensures PrepareNext != EffectNext
  {
    assert PrepareNext[0][0] == 'p' && EffectNext[0][0] == 'e';
  }

  /** The copy that a replay makes is the checkpoint it was made from. */
  lemma CopyIsPrepared()
    ensures C.Copy(Smoke, Prepared, "prepare") == Prepared
    ensures C.IsWriter(Smoke.edges, Prepared, "prepare")
    ensures forall w :: C.IsWriter(Smoke.edges, Prepared, w) ==> w == "prepare"
  {
    var ws := C.NamedWriters(PrepareNext);
    assert ws == ["prepare"] by {
      assert PrepareNext[1..] == [];
    }
  }

  /** One more step from a known history leads to the next known one. */
  lemma StepStaysKnown(h: C.History<State>, full: C.History<State>)
    requires full == Full || full == ChildFull
    requires h != [] && h <= full
    ensures C.Tip(h) == full[|h| - 1] && C.Tip(h) in Full
    ensures C.Tip(h).next == [] <==> h == full
    ensures C.Tip(h).next != [] ==> h + [C.After(Smoke, C.Tip(h))] <= full
    ensures C.Tip(h).next == EffectNext <==> |h| == |full| - 1
    ensures C.Tip(h).next == EffectNext ==> C.Tip(h).values.effects == 0
    ensures C.Tip(h) == Done <==> h == full
    ensures |Full| == 3 && |ChildFull| == 2
    ensures full == Full && |h| == 2 ==> C.Tip(h) == Prepared
  {
    NextIsSaved(C.Tip(h));
    assert Full[0] == Started && Full[1] == Prepared && Full[2] == Done;
    assert ChildFull[0] == Prepared && ChildFull[1] == Done;
  }

  class SmokeRun {
    const saver: C.Saver<State>
    const source: C.Thread
    const child: C.Thread
    /** Nothing dies. */
    const steady: bool
    var marker: Marker
    /** How often the marker file has been created, and how often the effect node has started. */
    var creations: nat
    var effectRuns: nat

    constructor (saver: C.Saver<State>, source: C.Thread, child: C.Thread, steady: bool)
      requires source != child && saver.Thread(source) == [] && saver.Thread(child) == []
      ensures Valid() && this.saver == saver && this.source == source && this.child == child && this.steady == steady && marker == Absent && creations == 0
    {
      this.saver, this.source, this.child, this.steady := saver, source, child, steady;
      marker, creations, effectRuns := Absent, 0, 0;
    }

    ghost function Whole(t: C.Thread): C.History<State> { if t == source then Full else ChildFull }

    ghost predicate Valid()
      reads this, saver
    {
      && source != child
      && saver.Thread(source) <= Full && saver.Thread(child) <= ChildFull
      && (saver.Thread(child) != [] ==> |saver.Thread(source)| >= 2)
      && creations == (if marker == Absent then 0 else 1) && creations <= effectRuns
      && (saver.Thread(source) == Full || saver.Thread(child) == ChildFull ==> marker == Written)
    }

    /** Histories only grow, and a marker torn or written stays so. */
    twostate predicate Later()
      reads this, saver
    {
      && (forall t :: old(saver.Thread(t)) <= saver.Thread(t))
      && (forall t :: t != source && t != child ==> saver.Thread(t) == old(saver.Thread(t)))
      && (old(marker) != Absent ==> marker == old(marker))
      && old(creations) <= creations && old(effectRuns) <= effectRuns
    }

    method Alive() returns (alive: bool)
      ensures steady ==> alive
    {
      alive := *;
      alive := alive || steady;
    }

    /** `apply_marker_once` */
    method ApplyMarkerOnce() returns (ok: bool)
      requires creations == (if marker == Absent then 0 else 1) && creations <= effectRuns
      modifies this
      ensures creations == (if marker == Absent then 0 else 1) && creations <= effectRuns
      ensures old(creations) <= creations && effectRuns == old(effectRuns) + 1
      ensures old(marker) != Absent ==> marker == old(marker)
      ensures ok ==> marker == Written
      ensures steady ==> (ok <==> old(marker) != Torn)
    {
      effectRuns := effectRuns + 1;
      if marker == Absent {
        var alive := Alive();
        if !alive {
          return false;
        }
        marker, creations := Torn, creations + 1;
        alive := Alive();
        if !alive {
          return false;
        }
        marker := Written;
        return true;
      }
      ok := marker == Written;
    }

    /** One super-step: the effect node touches the marker before anything is saved. */
    method RunNode(t: C.Thread) returns (saved: bool)
      requires Valid() && (t == source || t == child) && saver.Thread(t) != [] && C.Tip(saver.Thread(t)).next != []
      modifies this, saver
      ensures Valid() && Later()
      ensures forall u :: u != t ==> saver.Thread(u) == old(saver.Thread(u))
      ensures saver.Thread(t) == old(saver.Thread(t)) + if saved then [C.After(Smoke, C.Tip(old(saver.Thread(t))))] else []
      ensures C.Tip(old(saver.Thread(t))).next != EffectNext ==> marker == old(marker)
      ensures steady && old(marker) != Torn ==> saved && marker != Torn
    {
      hide C.After, Full, ChildFull, C.Tip;
      StepStaysKnown(saver.Thread(t), Whole(t));
      var tip := C.Tip(saver.Thread(t));
      if tip.next == EffectNext {
        var applied := ApplyMarkerOnce();
        if !applied || 1 != tip.values.effects + 1 {
          return false;
        }
      }
      saved := Alive();
      if saved {
        saver.Append(t, C.After(Smoke, tip));
      }
    }

    /** `graph.invoke` on a thread that exists, paused before the effect when asked to. */
    method Invoke(t: C.Thread, pause: bool) returns (ok: bool)
      requires Valid() && (t == source || t == child) && saver.Thread(t) != []
      modifies this, saver
      ensures Valid() && Later()
      ensures forall u :: u != t ==> saver.Thread(u) == old(saver.Thread(u))
      ensures ok && !pause ==> saver.Thread(t) == Whole(t)
      ensures ok && pause ==> saver.Thread(t) == Whole(t) || |saver.Thread(t)| == |Whole(t)| - 1
      ensures pause && old(|saver.Thread(t)|) < |Whole(t)| ==> marker == old(marker) && saver.Thread(t) != Whole(t)
      ensures steady && old(marker) != Torn ==> ok && marker != Torn
    {
      hide C.After, Full, ChildFull, C.Tip;
      while true
        invariant Valid() && Later() && saver.Thread(t) != []
        invariant forall u :: u != t ==> saver.Thread(u) == old(saver.Thread(u))
        invariant pause && old(|saver.Thread(t)|) < |Whole(t)| ==> marker == old(marker) && |saver.Thread(t)| < |Whole(t)|
        invariant steady && old(marker) != Torn ==> marker != Torn
        decreases |Whole(t)| - |saver.Thread(t)|
      {
        StepStaysKnown(saver.Thread(t), Whole(t));
        var tip := C.Tip(saver.Thread(t));
        if tip.next == [] || (pause && tip.next == EffectNext) {
          return true;
        }
        var saved := RunNode(t);
        if !saved {
          return false;
        }
      }
    }

    /** The branch of `replay_historical_checkpoint_branch` on the smoke graph. */
    method Replay(id: nat) returns (ok: bool, executed: bool)
      requires Valid() && 1 <= id < |saver.Thread(source)| && saver.Thread(source)[id] == Prepared
      modifies this, saver
      ensures Valid() && Later()
      ensures forall u :: u != child ==> saver.Thread(u) == old(saver.Thread(u))
      ensures steady && old(marker) != Torn ==> ok
      ensures ok ==> saver.Thread(child) == ChildFull && executed == (old(saver.Thread(child)) != ChildFull)
    {
      hide C.After, Full, C.IsWriter, C.Copy, ChildFull, C.Tip;
      var chosen := saver.Thread(source)[id];
      CopyIsPrepared();
      var writer := C.ResolveWriter(Smoke.edges, chosen);
      if saver.Thread(child) != [] {
        StepStaysKnown(saver.Thread(child), ChildFull);
        if C.Tip(saver.Thread(child)).next == [] {
          return true, false;
        }
        ok := Invoke(child, false);
        return ok, true;
      }
      var copied := CopyToChild(C.Copy(Smoke, chosen, writer.value));
      if !copied || C.Tip(saver.Thread(child)).next != chosen.next {
        return false, false;
      }
      ok := Invoke(child, false);
      executed := true;
    }

    method CopyToChild(copy: Snapshot) returns (alive: bool)
      requires Valid() && saver.Thread(child) == [] && |saver.Thread(source)| >= 2 && copy == Prepared
      modifies this, saver
      ensures Valid() && Later()
      ensures forall u :: u != child ==> saver.Thread(u) == old(saver.Thread(u))
      ensures saver.Thread(child) == if alive then [copy] else []
      ensures alive ==> C.Tip(saver.Thread(child)) == copy
      ensures marker == old(marker) && (steady ==> alive)
    {
      hide Full;
      alive := Alive();
      if alive {
        saver.Append(child, copy);
        assert ChildFull[..1] == [Prepared];
      }
    }

    /** `read_marker_count`: a torn marker does not parse. */
    function MarkerCount(): Option<nat>
      reads this
    {
      match marker
      case Absent => Some(0)
      case Torn => None
      case Written => Some(1)
    }

    method StartThread() returns (ok: bool)
      requires Valid() && saver.Thread(source) == []
      modifies this, saver
      ensures Valid() && Later() && marker == old(marker)
      ensures saver.Thread(source) == if ok then [Started] else []
      ensures steady ==> ok
    {
      ok := Alive();
      if ok {
        assert Full[..1] == [Started];
        saver.Append(source, Started);
      }
    }

    method InitializePhase() returns (ok: bool)
      requires Valid()
      modifies this, saver
      ensures Valid() && Later()
      ensures ok ==> old(saver.Thread(source)) == [] && |saver.Thread(source)| == 2 && marker == Absent
      ensures steady ==> (ok <==> old(saver.Thread(source)) == [] && old(marker) == Absent)
    {
      hide C.After, Full, ChildFull, C.Tip;
      FullHasThree();
      if saver.Thread(source) != [] {
        return false;
      }
      var started := StartThread();
      if !started {
        return false;
      }
      var paused := Invoke(source, true);
      if !paused {
        return false;
      }
      StepStaysKnown(saver.Thread(source), Full);
      var tip := C.Tip(saver.Thread(source));
      ok := tip.next == EffectNext && tip.values.prepares == 1 && MarkerCount() == Some(0);
    }

    method ResumePhase(phase: Phase) returns (ok: bool)
      requires Valid() && saver.Thread(source) != []
      modifies this, saver
      ensures Valid() && Later()
      ensures ok && phase == Resume ==> old(saver.Thread(source)) != Full && saver.Thread(source) == Full
      ensures ok && phase != Resume ==> saver.Thread(source) == old(saver.Thread(source)) && effectRuns == old(effectRuns)
      ensures steady ==>
                (ok <==> if phase == Resume then old(saver.Thread(source)) != Full && old(marker) != Torn
                         else old(saver.Thread(source)) == Full)
    {
      hide C.After, Full, ChildFull, C.Tip;
      StepStaysKnown(saver.Thread(source), Full);
      var executed := C.Tip(saver.Thread(source)).next != [];
      if executed {
        var finished := Invoke(source, false);
        if !finished {
          return false;
        }
      }
      ok := executed == (phase == Resume);
    }

    method ReplayPhase(phase: Phase) returns (ok: bool)
      requires Valid() && saver.Thread(source) != []
      modifies this, saver
      ensures Valid() && Later()
      ensures saver.Thread(source) == old(saver.Thread(source))
      ensures steady ==>
                (ok <==> |saver.Thread(source)| >= 2 && old(marker) != Torn
                         && (phase == HistoricalReplay <==> old(saver.Thread(child)) != ChildFull))
      ensures ok ==> saver.Thread(child) == ChildFull
                     && (phase == HistoricalReplay <==> old(saver.Thread(child)) != ChildFull)
    {
      hide C.After, Full, C.Tip;
      OnlyPreparedWaits(saver.Thread(source));
      var id := FindPreEffect(saver.Thread(source));
      if id == None {
        return false;
      }
      assert saver.Thread(source)[id.value].next == EffectNext;
      var finished, executed := Replay(id.value);
      if !finished || executed != (phase == HistoricalReplay) {
        return false;
      }
      StepStaysKnown(saver.Thread(child), ChildFull);
      var replayed := C.Tip(saver.Thread(child));
      ok := replayed.next == [] && replayed.values == State(1, 1);
    }

    /** `run_smoke_phase` */
    method RunPhase(phase: Phase) returns (ok: bool)
      requires Valid()
      modifies this, saver
      ensures Valid() && Later()
      ensures ok && phase == Initialize ==>
                old(saver.Thread(source)) == [] && |saver.Thread(source)| == 2 && marker == Absent
      ensures ok && phase != Initialize ==> saver.Thread(source) == Full && marker == Written && creations == 1
      ensures ok && phase == Resume ==> old(saver.Thread(source)) != Full
      ensures ok && phase in {ResumeComplete, Verify} ==>
                saver.Thread(source) == old(saver.Thread(source)) && effectRuns == old(effectRuns)
      ensures phase in {HistoricalReplay, ReplayRepeat, Verify} ==> saver.Thread(source) == old(saver.Thread(source))
      ensures ok && phase in {HistoricalReplay, ReplayRepeat} ==>
                saver.Thread(child) == ChildFull
                && (phase == HistoricalReplay <==> old(saver.Thread(child)) != ChildFull)
      ensures old(marker) == Torn ==> !ok
      ensures steady ==>
                (ok <==> match phase
                         case Initialize => old(saver.Thread(source)) == [] && old(marker) == Absent
                         case Resume => old(saver.Thread(source)) != [] && old(saver.Thread(source)) != Full && old(marker) != Torn
                         case ResumeComplete => old(saver.Thread(source)) == Full
                         case HistoricalReplay => old(saver.Thread(source)) == Full && old(saver.Thread(child)) != ChildFull
                         case ReplayRepeat => old(saver.Thread(source)) == Full && old(saver.Thread(child)) == ChildFull
                         case Verify => old(saver.Thread(source)) == Full)
    {
      hide C.After, Full, ChildFull, C.Tip;
      FullHasThree();
      if phase == Initialize {
        ok := InitializePhase();
        return;
      }
      if saver.Thread(source) == [] {
        return false;
      }
      var passed := true;
      if phase == Resume || phase == ResumeComplete {
        passed := ResumePhase(phase);
      } else if phase == HistoricalReplay || phase == ReplayRepeat {
        passed := ReplayPhase(phase);
      }
      if !passed {
        return false;
      }
      StepStaysKnown(saver.Thread(source), Full);
      var tip := C.Tip(saver.Thread(source));
      ok := tip.next == [] && tip.values == State(1, 1) && MarkerCount() == Some(1);
    }

    /** Any phases in any order: one marker at most, and no state ever counts more effects than that. */
    method RunPhases(phases: seq<Phase>)
      requires Valid()
      modifies this, saver
      ensures Valid() && Later()
      ensures creations <= 1
      ensures forall t, c | t in {source, child} && c in saver.Thread(t) :: c.values.effects <= creations
    {
      for i := 0 to |phases|
        invariant Valid() && Later()
      {
        var ok := RunPhase(phases[i]);
      }
      EffectsNeedTheMarker(saver.Thread(source), Full);
      EffectsNeedTheMarker(saver.Thread(child), ChildFull);
    }
  }

  lemma EffectsNeedTheMarker(h: C.History<State>, full: C.History<State>)
    requires (full == Full || full == ChildFull) && h <= full
    ensures forall c | c in h :: c.values.effects <= if h == full then 1 else 0
  {
  }

  /** `find_pre_effect_checkpoint`: the one checkpoint waiting for the effect node, if it is one. */
  method FindPreEffect(h: C.History<State>) returns (r: Option<nat>)
    ensures match r
            case Some(i) => i < |h| && forall j :: 0 <= j < |h| ==> (h[j].next == EffectNext <==> j == i)
            case None => forall i :: 0 <= i < |h| && h[i].next == EffectNext ==>
                           exists j :: 0 <= j < |h| && j != i && h[j].next == EffectNext
  {
    var found: seq<nat> := [];
    for i := 0 to |h|
      invariant forall k :: 0 <= k < |found| ==> found[k] < i && h[found[k]].next == EffectNext
      invariant forall j :: 0 <= j < i && h[j].next == EffectNext ==> j in found
      invariant forall k, l :: 0 <= k < l < |found| ==> found[k] < found[l]
    {
      if h[i].next == EffectNext {
        found := found + [i];
      }
    }
    if |found| == 1 {
      return Some(found[0]);
    }
    r := None;
    forall i | 0 <= i < |h| && h[i].next == EffectNext
      ensures exists j :: 0 <= j < |h| && j != i && h[j].next == EffectNext
    {
      assert found[0] != found[1];
    }
  }

  lemma OnlyPreparedWaits(h: C.History<State>)
    requires h <= Full
    ensures forall i :: 0 <= i < |h| ==> (h[i].next == EffectNext <==> i == 1)
    ensures |h| >= 2 ==> h[1] == Prepared
  {
    NextIsSaved(Started);
  }

  lemma FullHasThree()
    ensures |Full| == 3
  {
  }
}
