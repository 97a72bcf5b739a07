/**
 * Resuming and replaying checkpointed graphs (agent/checkpointing.py). The saver is a
 * map from threads to checkpoint histories; a graph is a pair of functions of the state.
 * An invocation is given a budget of saves, so that a crash may fall after any of them.
 */
module CheckpointReplay {
  import opened Outcomes

  type Node = string
  type Thread = string

  /** Graph values, the nodes scheduled next, and the nodes whose writes made it, if recorded. */
  datatype Checkpoint<V> = Checkpoint(values: V, next: seq<Node>, writes: Option<seq<Node>>)

  type History<V> = seq<Checkpoint<V>>

  /** One super-step over the pending nodes, and what update_state schedules after a writer. */
  datatype Graph<!V> = Graph(
    step: (V, seq<Node>) -> (V, seq<Node>),
    route: (V, Node) -> seq<Node>,
    empty: V -> bool,
    edges: seq<(Node, Node)>)

  datatype Failure = Missing | NoValues | AlreadyComplete | NoUniqueWriter | ContractBroken | Interrupted

  // ---- What an uninterrupted run does ---------------------------------------------------

  function After<V>(g: Graph<V>, c: Checkpoint<V>): Checkpoint<V> {
    var (values, next) := g.step(c.values, c.next);
    Checkpoint(values, next, Some(c.next))
  }

  /** The checkpoints saved by at most n super-steps from c. */
  function Path<V>(g: Graph<V>, c: Checkpoint<V>, n: nat): History<V>
    decreases n
  {
    if n == 0 || c.next == [] then []
    else [After(g, c)] + Path(g, After(g, c), n - 1)
  }

  function Tip<V>(h: History<V>): Checkpoint<V>
    requires h != []
  {
    h[|h| - 1]
  }

  lemma {:induction false} PathContinues<V>(g: Graph<V>, c: Checkpoint<V>, m: nat, n: nat)
    ensures Path(g, c, m + n) == Path(g, c, m) + Path(g, Tip([c] + Path(g, c, m)), n)
    decreases m
  {
    if m > 0 && c.next != [] {
      PathContinues(g, After(g, c), m - 1, n);
      assert Tip([c] + Path(g, c, m)) == Tip([After(g, c)] + Path(g, After(g, c), m - 1));
    } else if m > 0 {
      assert Path(g, c, m + n) == [];
    }
  }

  /** The history after an invocation that may save n more checkpoints. */
  function Extend<V>(g: Graph<V>, h: History<V>, n: nat): (r: History<V>)
    requires h != []
    ensures r != []
  {
    h + Path(g, Tip(h), n)
  }

  lemma ExtendTwice<V>(g: Graph<V>, h: History<V>, m: nat, n: nat)
    requires h != []
    ensures Extend(g, Extend(g, h, m), n) == Extend(g, h, m + n)
  {
    var p := Path(g, Tip(h), m);
    PathContinues(g, Tip(h), m, n);
    hide Path;
    assert Tip(h + p) == Tip([Tip(h)] + p);
    assert (h + p) + Path(g, Tip(h + p), n) == h + (p + Path(g, Tip(h + p), n));
  }

  lemma ExtendOnce<V>(g: Graph<V>, h: History<V>)
    requires h != []
    ensures Extend(g, h, 0) == h
    ensures Extend(g, h, 1) == if Tip(h).next == [] then h else h + [After(g, Tip(h))]
  {
    assert Path(g, Tip(h), 0) == [];
    if Tip(h).next != [] {
      assert Path(g, Tip(h), 1) == [After(g, Tip(h))] + Path(g, After(g, Tip(h)), 0);
    }
  }

  /** A complete history stays as it is. */
  lemma ExtendComplete<V>(g: Graph<V>, h: History<V>, n: nat)
    requires h != [] && Tip(h).next == []
    ensures Extend(g, h, n) == h
  {
    assert Path(g, Tip(h), n) == [];
  }

  /** Only values and pending nodes matter to what follows. */
  lemma PathIgnoresWrites<V>(g: Graph<V>, a: Checkpoint<V>, b: Checkpoint<V>, n: nat)
    requires a.values == b.values && a.next == b.next
    ensures Path(g, a, n) == Path(g, b, n)
  {
  }

  // ---- The writer of a checkpoint -----------------------------------------------------

  const Special: set<Node> := {"", "__start__", "__end__"}

  predicate Named(n: Node) {
    n != "" && n != "__start__"
  }

  function NamedWriters(ws: seq<Node>): (r: seq<Node>)
    ensures forall w :: w in r <==> w in ws && Named(w)
  {
    if ws == [] then [] else (if Named(ws[0]) then [ws[0]] else []) + NamedWriters(ws[1..])
  }

  function Pending(next: seq<Node>): set<Node> {
    set n | n in next && n != ""
  }

  /** Some edge leads from s to every pending node. */
  ghost predicate Reaches(edges: seq<(Node, Node)>, s: Node, pending: set<Node>) {
    s !in Special && (exists t :: (s, t) in edges) && forall p :: p in pending ==> (s, p) in edges
  }

  /** The writer is the one recorded, or else the one node of the topology that fits. */
  ghost predicate IsWriter<V>(edges: seq<(Node, Node)>, c: Checkpoint<V>, w: Node) {
    var recorded := if c.writes.Some? then NamedWriters(c.writes.value) else [];
    if recorded != [] then recorded == [w]
    else
      && Pending(c.next) != {}
      && Reaches(edges, w, Pending(c.next))
      && forall s :: Reaches(edges, s, Pending(c.next)) ==> s == w
  }

  method ResolveWriter<V>(edges: seq<(Node, Node)>, snapshot: Checkpoint<V>) returns (r: Result<Node, Failure>)
    ensures match r
            case Ok(w) => IsWriter(edges, snapshot, w)
            case Err(e) => e == NoUniqueWriter && forall w :: !IsWriter(edges, snapshot, w)
  {
    if snapshot.writes.Some? {
      var writers := NamedWriters(snapshot.writes.value);
      if |writers| == 1 {
        return Ok(writers[0]);
      }
      if writers != [] {
        return Err(NoUniqueWriter);
      }
    }
    var pending := Pending(snapshot.next);
    if pending == {} {
      return Err(NoUniqueWriter);
    }
    var targets := Outgoing(edges);
    var candidates := set s | s in targets && pending <= targets[s];
    assert forall s :: s in candidates <==> Reaches(edges, s, pending);
    if |candidates| != 1 {
      assert forall w :: IsWriter(edges, snapshot, w) ==> candidates == {w};
      return Err(NoUniqueWriter);
    }
    var w :| w in candidates;
    assert candidates == {w} by {
      assert |candidates - {w}| == 0;
    }
    return Ok(w);
  }

  method Outgoing(edges: seq<(Node, Node)>) returns (targets: map<Node, set<Node>>)
    ensures forall s :: s in targets <==> s !in Special && exists t :: (s, t) in edges
    ensures forall s, t :: s in targets ==> (t in targets[s] <==> (s, t) in edges)
  {
    targets := map[];
    for i := 0 to |edges|
      invariant forall s :: s in targets <==> s !in Special && exists t :: (s, t) in edges[..i]
      invariant forall s, t :: s in targets ==> (t in targets[s] <==> (s, t) in edges[..i])
    {
      assert edges[..i + 1] == edges[..i] + [edges[i]];
      var (source, target) := edges[i];
      if source in Special {
        continue;
      }
      assert (source, target) in edges[..i + 1];
      targets := targets[source := (if source in targets then targets[source] else {}) + {target}];
    }
    assert edges[..|edges|] == edges;
  }

  lemma OneWriter<V>(edges: seq<(Node, Node)>, c: Checkpoint<V>)
    ensures forall v, w :: IsWriter(edges, c, v) && IsWriter(edges, c, w) ==> v == w
  {
    hide NamedWriters, Pending, Reaches;
  }

  /** What the replay demands of the checkpoint chosen in the source thread. */
  ghost predicate Replayable<V>(g: Graph<V>, source: History<V>, id: nat, writer: Node) {
    && id < |source|
    && !g.empty(source[id].values)
    && source[id].next != []
    && IsWriter(g.edges, source[id], writer)
  }

  // ---- One call, as a function of the child's history ----------------------------------

  function Resumed<V>(g: Graph<V>, h: History<V>, budget: nat): History<V>
    requires h != []
  {
    if g.empty(Tip(h).values) then h else Extend(g, h, budget)
  }

  function ResumeAnswer<V>(g: Graph<V>, h: History<V>, budget: nat): Result<(V, bool), Failure>
    requires h != []
  {
    var after := Resumed(g, h, budget);
    if g.empty(Tip(h).values) then Err(NoValues)
    else if Tip(after).next == [] then Ok((Tip(after).values, Tip(h).next != []))
    else Err(Interrupted)
  }

  /** What update_state saves: the chosen values as if the writer had just produced them. */
  function Copy<V>(g: Graph<V>, chosen: Checkpoint<V>, writer: Node): Checkpoint<V> {
    Checkpoint(chosen.values, g.route(chosen.values, writer), Some([writer]))
  }

  /** The child's history after a call that may save `budget` checkpoints before it dies. */
  function ChildAfter<V>(g: Graph<V>, chosen: Checkpoint<V>, writer: Node, child: History<V>, budget: nat): History<V> {
    var copy := Copy(g, chosen, writer);
    if child != [] then Resumed(g, child, budget)
    else if budget == 0 then []
    else if copy.next != chosen.next then [copy]
    else Extend(g, [copy], budget - 1)
  }

  function Answer<V>(g: Graph<V>, chosen: Checkpoint<V>, writer: Node, child: History<V>, budget: nat): Result<(V, bool), Failure> {
    var after := ChildAfter(g, chosen, writer, child, budget);
    if child != [] then ResumeAnswer(g, child, budget)
    else if budget == 0 then Err(Interrupted)
    else if after[0].next != chosen.next then Err(ContractBroken)
    else if Tip(after).next == [] then Ok((Tip(after).values, true))
    else Err(Interrupted)
  }

  /**
   * What a call that returns says of a thread: its final values, and that nodes were run if
   * and only if the call saved a checkpoint they made. A copy alone is no such checkpoint.
   */
  ghost predicate Reports<V>(g: Graph<V>, before: History<V>, after: History<V>, answer: (V, bool)) {
    && after != [] && Tip(after).next == [] && Tip(after).values == answer.0
    && (answer.1 <==> |after| > if before == [] then 1 else |before|)
  }

  lemma ResumeReports<V>(g: Graph<V>, h: History<V>, budget: nat)
    requires h != [] && ResumeAnswer(g, h, budget).Ok?
    ensures Reports(g, h, Resumed(g, h, budget), ResumeAnswer(g, h, budget).value)
  {
    if Tip(h).next == [] {
      ExtendComplete(g, h, budget);
    } else {
      assert Path(g, Tip(h), budget) != [];
    }
  }

  /** Every call that returns, whatever the child held, reports truly. */
  lemma CallReports<V>(g: Graph<V>, chosen: Checkpoint<V>, writer: Node, child: History<V>, budget: nat)
    requires chosen.next != [] && Answer(g, chosen, writer, child, budget).Ok?
    ensures Reports(g, child, ChildAfter(g, chosen, writer, child, budget), Answer(g, chosen, writer, child, budget).value)
  {
    if child != [] {
      hide Extend;
      ResumeReports(g, child, budget);
    } else {
      hide Path;
      var after := ChildAfter(g, chosen, writer, child, budget);
      assert after[0].next == chosen.next;
    }
  }

  class Saver<V(==)> {
    /** A thread without checkpoints does not exist. */
    var threads: map<Thread, History<V>>

    function Thread(t: Thread): History<V>
      reads this
    {
      if t in threads then threads[t] else []
    }

    method Append(t: Thread, c: Checkpoint<V>)
      modifies this
      ensures threads == old(threads)[t := old(Thread(t)) + [c]]
    {
      threads := threads[t := Thread(t) + [c]];
    }

    /** `graph.invoke(None)`: run pending nodes, saving after each super-step. */
    method Invoke(g: Graph<V>, t: Thread, budget: nat) returns (r: Result<V, Failure>)
      requires Thread(t) != []
      modifies this
      ensures Thread(t) == Extend(g, old(Thread(t)), budget)
      ensures forall u :: u != t ==> Thread(u) == old(Thread(u))
      ensures r == if Tip(Thread(t)).next == [] then Ok(Tip(Thread(t)).values) else Err(Interrupted)
    {
      hide Extend, Path, After;
      var saves := 0;
      ghost var h := Thread(t);
      ExtendOnce(g, h);
      while saves < budget && Tip(Thread(t)).next != []
        invariant saves <= budget
        invariant forall u :: u != t ==> Thread(u) == old(Thread(u))
        invariant Thread(t) == Extend(g, h, saves)
      {
        ExtendTwice(g, h, saves, 1);
        ExtendOnce(g, Thread(t));
        Append(t, After(g, Tip(Thread(t))));
        saves := saves + 1;
      }
      ExtendTwice(g, h, saves, budget - saves);
      if Tip(Thread(t)).next != [] {
        ExtendOnce(g, Thread(t));
        return Err(Interrupted);
      }
      ExtendComplete(g, Thread(t), budget - saves);
      return Ok(Tip(Thread(t)).values);
    }

    /** `resume_checkpointed_graph` */
    method Resume(g: Graph<V>, t: Thread, budget: nat) returns (r: Result<(V, bool), Failure>)
      modifies this
      ensures forall u :: u != t ==> Thread(u) == old(Thread(u))
      ensures old(Thread(t)) == [] ==> r == Err(Missing) && Thread(t) == []
      ensures old(Thread(t)) != [] ==>
                && Thread(t) == Resumed(g, old(Thread(t)), budget)
                && r == ResumeAnswer(g, old(Thread(t)), budget)
      ensures r.Ok? ==> old(Thread(t)) != [] && Reports(g, old(Thread(t)), Thread(t), r.value)
    {
      hide Reports;
      ghost var h := Thread(t);
      if h != [] && ResumeAnswer(g, h, budget).Ok? {
        ResumeReports(g, h, budget);
      }
      if Thread(t) == [] {
        return Err(Missing);
      }
      var snapshot := Tip(Thread(t));
      if g.empty(snapshot.values) {
        return Err(NoValues);
      }
      if snapshot.next == [] {
        return Ok((snapshot.values, false));
      }
      var result := Invoke(g, t, budget);
      match result
      case Ok(values) => return Ok((values, true));
      case Err(e) => return Err(e);
    }

    /** The child's part of a replay, once the chosen checkpoint and its writer are known. */
    method Branch(g: Graph<V>, chosen: Checkpoint<V>, writer: Node, child: Thread, budget: nat)
      returns (r: Result<(V, bool), Failure>)
      modifies this
      ensures forall t :: t != child ==> Thread(t) == old(Thread(t))
      ensures Thread(child) == ChildAfter(g, chosen, writer, old(Thread(child)), budget)
      ensures r == Answer(g, chosen, writer, old(Thread(child)), budget)
    {
      if Thread(child) != [] {
        r := Resume(g, child, budget);
        return;
      }
      if budget == 0 {
        return Err(Interrupted);
      }
      Append(child, Copy(g, chosen, writer));
      if Tip(Thread(child)).next != chosen.next {
        return Err(ContractBroken);
      }
      var result := Invoke(g, child, budget - 1);
      match result
      case Ok(values) => return Ok((values, true));
      case Err(e) => return Err(e);
    }

    /** `replay_historical_checkpoint_branch`; a checkpoint id is its position in its thread. */
    method Replay(g: Graph<V>, source: Thread, id: nat, child: Thread, budget: nat) returns (r: Result<(V, bool), Failure>)
      modifies this
      ensures forall t :: t != child ==> Thread(t) == old(Thread(t))
      ensures forall w :: Replayable(g, old(Thread(source)), id, w) ==>
                && Thread(child) == ChildAfter(g, old(Thread(source))[id], w, old(Thread(child)), budget)
                && r == Answer(g, old(Thread(source))[id], w, old(Thread(child)), budget)
      ensures (forall w :: !Replayable(g, old(Thread(source)), id, w)) ==>
                Thread(child) == old(Thread(child)) && r.Err? && r.error != Interrupted && r.error != ContractBroken
      ensures r.Ok? ==> Reports(g, old(Thread(child)), Thread(child), r.value)
    {
      hide ChildAfter, Answer, Reports;
      if id >= |Thread(source)| {
        return Err(Missing);
      }
      var chosen := Thread(source)[id];
      if g.empty(chosen.values) {
        return Err(NoValues);
      }
      if chosen.next == [] {
        return Err(AlreadyComplete);
      }
      var writer := ResolveWriter(g.edges, chosen);
      if writer.Err? {
        return Err(writer.error);
      }
      assert Replayable(g, Thread(source), id, writer.value);
      OneWriter(g.edges, chosen);
      ghost var h := Thread(child);
      r := Branch(g, chosen, writer.value, child, budget);
      if r.Ok? {
        CallReports(g, chosen, writer.value, h, budget);
      }
    }
  }

  // ---- Any number of calls, each dying after any saved step ------------------------------

  function Total(budgets: seq<nat>): nat {
    if budgets == [] then 0 else budgets[0] + Total(budgets[1..])
  }

  function Calls<V>(g: Graph<V>, chosen: Checkpoint<V>, writer: Node, child: History<V>, budgets: seq<nat>): History<V>
    decreases |budgets|
  {
    if budgets == [] then child
    else Calls(g, chosen, writer, ChildAfter(g, chosen, writer, child, budgets[0]), budgets[1..])
  }

  /** Repeated calls change the child only, and change it as Calls says. */
  method RetryReplay<V>(saver: Saver<V>, g: Graph<V>, source: Thread, id: nat, child: Thread, budgets: seq<nat>)
    requires child != source
    modifies saver
    ensures forall t :: t != child ==> saver.Thread(t) == old(saver.Thread(t))
    ensures forall w :: Replayable(g, saver.Thread(source), id, w) ==>
              saver.Thread(child) == Calls(g, saver.Thread(source)[id], w, old(saver.Thread(child)), budgets)
  {
    ghost var h := saver.Thread(child);
    for i := 0 to |budgets|
      invariant forall t :: t != child ==> saver.Thread(t) == old(saver.Thread(t))
      invariant forall w :: Replayable(g, saver.Thread(source), id, w) ==>
                  Calls(g, saver.Thread(source)[id], w, saver.Thread(child), budgets[i..])
                  == Calls(g, saver.Thread(source)[id], w, h, budgets)
    {
      hide ChildAfter, Replayable;
      assert budgets[i..][1..] == budgets[i + 1..];
      var r := saver.Replay(g, source, id, child, budgets[i]);
    }
  }

  /** A fact about the graph's nodes: they do not wipe the state. */
  ghost predicate NeverEmpties<V(!new)>(g: Graph<V>) {
    forall v: V, next: seq<Node> :: !g.empty(v) ==> !g.empty(g.step(v, next).0)
  }

  lemma {:induction false} NeverEmpty<V(!new)>(g: Graph<V>, h: History<V>, n: nat)
    requires h != [] && NeverEmpties(g) && !g.empty(Tip(h).values)
    ensures !g.empty(Tip(Extend(g, h, n)).values)
  {
    hide Extend, Path;
    ExtendOnce(g, h);
    if n > 0 {
      NeverEmpty(g, h, n - 1);
      ExtendTwice(g, h, n - 1, 1);
      ExtendOnce(g, Extend(g, h, n - 1));
    }
  }

  lemma {:induction false} CallsExtend<V(!new)>(g: Graph<V>, chosen: Checkpoint<V>, writer: Node, h: History<V>, budgets: seq<nat>)
    requires h != [] && NeverEmpties(g) && !g.empty(Tip(h).values)
    ensures Calls(g, chosen, writer, h, budgets) == Extend(g, h, Total(budgets))
    decreases |budgets|
  {
    hide Extend, NeverEmpties;
    if budgets == [] {
      ExtendOnce(g, h);
    } else {
      NeverEmpty(g, h, budgets[0]);
      CallsExtend(g, chosen, writer, Extend(g, h, budgets[0]), budgets[1..]);
      ExtendTwice(g, h, budgets[0], Total(budgets[1..]));
    }
  }

  /**
   * Crashes are invisible. However the saves are shared out among calls, the child holds
   * the copied state and then what one uninterrupted call with as many saves adds.
   */
  lemma {:induction false} CrashesAreInvisible<V(!new)>(g: Graph<V>, chosen: Checkpoint<V>, writer: Node, budgets: seq<nat>)
    requires NeverEmpties(g) && !g.empty(chosen.values)
    requires Copy(g, chosen, writer).next == chosen.next
    ensures Calls(g, chosen, writer, [], budgets)
         == if Total(budgets) == 0 then [] else Extend(g, [Copy(g, chosen, writer)], Total(budgets) - 1)
    decreases |budgets|
  {
    hide Extend, NeverEmpties;
    if budgets == [] {
    } else if budgets[0] == 0 {
      CrashesAreInvisible(g, chosen, writer, budgets[1..]);
    } else {
      var copy := Copy(g, chosen, writer);
      NeverEmpty(g, [copy], budgets[0] - 1);
      CallsExtend(g, chosen, writer, Extend(g, [copy], budgets[0] - 1), budgets[1..]);
      ExtendTwice(g, [copy], budgets[0] - 1, Total(budgets[1..]));
    }
  }

  /** The copy goes through the states that the chosen checkpoint's pending nodes lead to. */
  lemma CopyFollowsChosen<V>(g: Graph<V>, chosen: Checkpoint<V>, writer: Node, n: nat)
    requires Copy(g, chosen, writer).next == chosen.next
    ensures Extend(g, [Copy(g, chosen, writer)], n) == [Copy(g, chosen, writer)] + Extend(g, [chosen], n)[1..]
    ensures Tip(Extend(g, [Copy(g, chosen, writer)], n)).values == Tip(Extend(g, [chosen], n)).values
    ensures Tip(Extend(g, [Copy(g, chosen, writer)], n)).next == Tip(Extend(g, [chosen], n)).next
  {
    PathIgnoresWrites(g, Copy(g, chosen, writer), chosen, n);
    hide Path;
  }

  /** Running the pending nodes of c ends with these values. */
  ghost predicate EndsWith<V>(g: Graph<V>, c: Checkpoint<V>, v: V) {
    exists n: nat :: EndsAfter(g, c, n, v)
  }

  ghost predicate EndsAfter<V>(g: Graph<V>, c: Checkpoint<V>, n: nat, v: V) {
    Tip(Extend(g, [c], n)).next == [] && Tip(Extend(g, [c], n)).values == v
  }

  lemma OneEnding<V>(g: Graph<V>, c: Checkpoint<V>, v: V, w: V)
    requires EndsWith(g, c, v) && EndsWith(g, c, w)
    ensures v == w
  {
    var m: nat :| EndsAfter(g, c, m, v);
    var n: nat :| EndsAfter(g, c, n, w);
    hide Extend;
    var a, b := if m <= n then m else n, if m <= n then n else m;
    ExtendTwice(g, [c], a, b - a);
    ExtendComplete(g, Extend(g, [c], a), b - a);
  }

  /**
   * A call succeeds exactly when the saves so far have reached the end, and then with the
   * values that running the chosen checkpoint's pending nodes ends with.
   */
  lemma SuccessfulCall<V(!new)>(g: Graph<V>, chosen: Checkpoint<V>, writer: Node, earlier: seq<nat>, budget: nat)
    requires NeverEmpties(g) && !g.empty(chosen.values) && chosen.next != []
    requires Copy(g, chosen, writer).next == chosen.next
    ensures var r := Answer(g, chosen, writer, Calls(g, chosen, writer, [], earlier), budget);
            var n := Total(earlier) + budget;
            && (r.Ok? <==> n > 0 && Tip(Extend(g, [chosen], n - 1)).next == [])
            && (r.Ok? ==> EndsWith(g, chosen, r.value.0))
            && (r.Ok? ==> Reports(g, Calls(g, chosen, writer, [], earlier),
                                  ChildAfter(g, chosen, writer, Calls(g, chosen, writer, [], earlier), budget), r.value))
            && (r.Err? ==> r.error == Interrupted)
  {
    hide Extend, NeverEmpties, Total, Reports;
    var copy := Copy(g, chosen, writer);
    if Answer(g, chosen, writer, Calls(g, chosen, writer, [], earlier), budget).Ok? {
      CallReports(g, chosen, writer, Calls(g, chosen, writer, [], earlier), budget);
    }
    var h := Calls(g, chosen, writer, [], earlier);
    var n := Total(earlier) + budget;
    CrashesAreInvisible(g, chosen, writer, earlier);
    if h != [] {
      NeverEmpty(g, [copy], Total(earlier) - 1);
      ExtendTwice(g, [copy], Total(earlier) - 1, budget);
    } else if n > 0 {
      ExtendOnce(g, [copy]);
    }
    hide Calls;
    if n > 0 {
      assert ChildAfter(g, chosen, writer, h, budget) == Extend(g, [copy], n - 1);
      CopyFollowsChosen(g, chosen, writer, n - 1);
      assert Tip(Extend(g, [chosen], n - 1)).next == [] ==> EndsAfter(g, chosen, n - 1, Tip(Extend(g, [chosen], n - 1)).values);
    }
    if h == [] && n > 0 {
      ExtendHead(g, copy, n - 1);
    }
  }

  lemma ExtendHead<V>(g: Graph<V>, c: Checkpoint<V>, n: nat)
    ensures Extend(g, [c], n)[0] == c
  {
  }

  /** Once the child is complete no call runs a node or saves anything. */
  lemma CompleteStays<V>(g: Graph<V>, chosen: Checkpoint<V>, writer: Node, child: History<V>, budget: nat)
    requires child != [] && Tip(child).next == [] && !g.empty(Tip(child).values)
    ensures ChildAfter(g, chosen, writer, child, budget) == child
    ensures Answer(g, chosen, writer, child, budget) == Ok((Tip(child).values, false))
  {
    ExtendComplete(g, child, budget);
  }

  // ---- The check that a retry skips ----------------------------------------------------

  /**
   * The first call compares the scheduled nodes with the chosen ones; a retry does not.
   * So however many calls there are, once they may save two checkpoints the first nodes
   * run are the chosen ones exactly when routing from the writer schedules them.
   */
  lemma FirstNodesRun<V(!new)>(g: Graph<V>, chosen: Checkpoint<V>, writer: Node, budgets: seq<nat>)
    requires NeverEmpties(g) && !g.empty(chosen.values) && chosen.next != [] && Total(budgets) >= 2
    ensures var h := Calls(g, chosen, writer, [], budgets);
            (|h| >= 2 && h[1].writes == Some(chosen.next)) <==> Copy(g, chosen, writer).next == chosen.next
  {
    hide Extend, After, NeverEmpties, Calls, Total;
    var copy := Copy(g, chosen, writer);
    if copy.next == chosen.next {
      CrashesAreInvisible(g, chosen, writer, budgets);
      SecondSaved(g, copy, Total(budgets) - 1);
    } else {
      var n := AfterMismatch(g, chosen, writer, budgets);
      SecondSaved(g, copy, n);
    }
  }

  /** What n saves add to a lone copy: its own pending nodes, if it has any. */
  lemma SecondSaved<V>(g: Graph<V>, copy: Checkpoint<V>, n: nat)
    ensures var h := Extend(g, [copy], n);
            if n == 0 || copy.next == [] then h == [copy] else |h| >= 2 && h[1].writes == Some(copy.next)
  {
    hide Extend, After;
    ExtendOnce(g, [copy]);
    if copy.next == [] {
      ExtendComplete(g, [copy], n);
    } else if n > 0 {
      ExtendTwice(g, [copy], 1, n - 1);
      SecondOf(g, [copy, After(g, copy)], n - 1);
      assert [copy] + [After(g, copy)] == [copy, After(g, copy)];
      NodesRecorded(g, copy);
    }
  }

  lemma {:induction false} AfterMismatch<V(!new)>(g: Graph<V>, chosen: Checkpoint<V>, writer: Node, budgets: seq<nat>)
    returns (n: nat)
    requires NeverEmpties(g) && !g.empty(chosen.values) && Copy(g, chosen, writer).next != chosen.next && Total(budgets) > 0
    ensures Calls(g, chosen, writer, [], budgets) == Extend(g, [Copy(g, chosen, writer)], n)
    decreases |budgets|
  {
    hide Extend, NeverEmpties;
    if budgets[0] == 0 {
      n := AfterMismatch(g, chosen, writer, budgets[1..]);
    } else {
      n := Total(budgets[1..]);
      CallsExtend(g, chosen, writer, [Copy(g, chosen, writer)], budgets[1..]);
    }
  }

  /**
   * The worst case: if routing schedules nothing, the first call raises and every retry
   * reports a complete child, the chosen values unchanged and no pending node run.
   */
  lemma {:induction false} RetryRunsNothing<V>(g: Graph<V>, chosen: Checkpoint<V>, writer: Node, budgets: seq<nat>, budget: nat)
    requires !g.empty(chosen.values) && chosen.next != [] && Copy(g, chosen, writer).next == []
    requires budgets != [] && budgets[0] > 0
    ensures Answer(g, chosen, writer, [], budgets[0]) == Err(ContractBroken)
    ensures Calls(g, chosen, writer, [], budgets) == [Copy(g, chosen, writer)]
    ensures Answer(g, chosen, writer, Calls(g, chosen, writer, [], budgets), budget) == Ok((chosen.values, false))
  {
    var copy := Copy(g, chosen, writer);
    CompletedCalls(g, chosen, writer, [copy], budgets[1..]);
    CompleteStays(g, chosen, writer, [copy], budget);
    hide Extend;
  }

  lemma {:induction false} CompletedCalls<V>(g: Graph<V>, chosen: Checkpoint<V>, writer: Node, child: History<V>, budgets: seq<nat>)
    requires child != [] && Tip(child).next == [] && !g.empty(Tip(child).values)
    ensures Calls(g, chosen, writer, child, budgets) == child
    decreases |budgets|
  {
    if budgets != [] {
      CompleteStays(g, chosen, writer, child, budgets[0]);
      hide ChildAfter;
      CompletedCalls(g, chosen, writer, child, budgets[1..]);
    }
  }

  lemma NodesRecorded<V>(g: Graph<V>, c: Checkpoint<V>)
    ensures After(g, c).writes == Some(c.next)
  {
  }

  lemma SecondOf<V>(g: Graph<V>, h: History<V>, n: nat)
    requires |h| >= 2
    ensures |Extend(g, h, n)| >= 2 && Extend(g, h, n)[1] == h[1]
  {
  }

  /** A graph whose routing disagrees: the first call raises and the retry returns other values. */
  lemma RetryEscapesTheCheck()
    ensures exists g: Graph<int>, chosen, writer ::
              var h := Calls(g, chosen, writer, [], [1]);
              && Answer(g, chosen, writer, [], 1) == Err(ContractBroken)
              && EndsWith(g, chosen, 2)
              && Answer(g, chosen, writer, h, 1) == Ok((11, true))
  {
    var g := Graph((v: int, next: seq<Node>) => if next == ["a"] then (v + 1, []) else (v + 10, []),
                   (v: int, w: Node) => ["b"], (v: int) => false, []);
    var chosen := Checkpoint(1, ["a"], Some(["w"]));
    var copy := Copy(g, chosen, "w");
    ExtendOnce(g, [chosen]);
    ExtendOnce(g, [copy]);
    assert EndsAfter(g, chosen, 1, 2);
    assert EndsWith(g, chosen, 2);
    var h := Calls(g, chosen, "w", [], [1]);
    assert [1][1..] == [];
    assert h == [copy];
    assert Answer(g, chosen, "w", h, 1) == Ok((11, true));
  }
}
