/**
 * `migrate_legacy_approvals`: preflight every request before the first real write.
 * The control store is a sequence of attempted writes; each reply is its own choice.
 */
module LegacyMigration {
  import opened Outcomes
  import L = LegacyImport

  datatype Row = Malformed(id: string) | Good(snapshot: L.Snapshot)

  datatype Reason = MalformedSnapshot | History(conflict: L.Conflict) | SharedHash | Refusal

  datatype Blocker = Blocker(id: string, reason: Reason)

  datatype Report = Report(rows: nat, requests: nat, imported: nat, reused: nat, ready: nat, blockers: seq<Blocker>)

  datatype Failure = NotQuiesced | StoreFailed

  datatype Reply = Created | Reused | Refused | Broken

  /** `import_legacy_request`: a dry run writes nothing; a broken call may have written. */
  class Store {
    var tried: seq<L.Import>
    var written: seq<L.Import>
    /** How often the store has refused or broken off. */
    var faults: nat

    constructor ()
      ensures tried == [] && written == [] && faults == 0
    {
      tried, written, faults := [], [], 0;
    }

    method Import(item: L.Import, dryRun: bool) returns (reply: Reply)
      modifies this
      ensures dryRun ==> tried == old(tried) && written == old(written)
      ensures !dryRun ==> tried == old(tried) + [item]
      ensures reply == Created && !dryRun ==> written == old(written) + [item]
      ensures reply == Reused || reply == Refused ==> written == old(written)
      ensures faults == old(faults) + if reply == Refused || reply == Broken then 1 else 0
      ensures written == old(written) || (!dryRun && written == old(written) + [item])
    {
      if !dryRun {
        tried := tried + [item];
      }
      reply := *;
      if reply == Refused || reply == Broken {
        faults := faults + 1;
      }
      var landed: bool := *;
      if !dryRun && (reply == Created || (reply == Broken && landed)) {
        written := written + [item];
      }
    }
  }

  // ---------------------------------------------------------------- grouping

  /** The snapshots of one request, in row order. */
  function Of(rows: seq<Row>, id: string): seq<L.Snapshot> {
    if rows == [] then []
    else
      var row := rows[|rows| - 1];
      Of(rows[..|rows| - 1], id) + if row.Good? && row.snapshot.requestId == id then [row.snapshot] else []
  }

  lemma {:induction false} OfHoldsItsRows(rows: seq<Row>, id: string)
    ensures forall s :: s in Of(rows, id) <==> Good(s) in rows && s.requestId == id
  {
    if rows != [] {
      OfHoldsItsRows(rows[..|rows| - 1], id);
      assert rows == rows[..|rows| - 1] + [rows[|rows| - 1]];
    }
  }

  /** Copies of one snapshot are all kept. */
  lemma {:induction false} OfKeepsCopies(rows: seq<Row>, s: L.Snapshot)
    ensures multiset(Of(rows, s.requestId))[s] == multiset(rows)[Good(s)]
  {
    if rows != [] {
      OfKeepsCopies(rows[..|rows| - 1], s);
      assert rows == rows[..|rows| - 1] + [rows[|rows| - 1]];
    }
  }

  /** A blocker for every malformed row, in row order. */
  function MalformedOf(rows: seq<Row>): seq<Blocker> {
    if rows == [] then []
    else
      var row := rows[|rows| - 1];
      MalformedOf(rows[..|rows| - 1]) + if row.Malformed? then [Blocker(row.id, MalformedSnapshot)] else []
  }

  lemma {:induction false} MalformedAreNamed(rows: seq<Row>)
    ensures forall b :: b in MalformedOf(rows) <==> b.reason == MalformedSnapshot && Malformed(b.id) in rows
    ensures MalformedOf(rows) == [] <==> forall i :: 0 <= i < |rows| ==> rows[i].Good?
  {
    if rows != [] {
      var rest := rows[..|rows| - 1];
      MalformedAreNamed(rest);
      assert rows == rest + [rows[|rows| - 1]];
      hide MalformedOf;
      MalformedStep(rows, |rows| - 1);
      assert rows[..|rows| - 1 + 1] == rows;
    } else {
      assert MalformedOf(rows) == [];
    }
  }

  lemma MalformedStep(rows: seq<Row>, i: nat)
    requires i < |rows|
    ensures MalformedOf(rows[..i + 1]) ==
            MalformedOf(rows[..i]) + if rows[i].Malformed? then [Blocker(rows[i].id, MalformedSnapshot)] else []
    ensures MalformedOf([]) == []
  {
    assert rows[..i + 1][..i] == rows[..i];
  }

  lemma OfStep(rows: seq<Row>, i: nat)
    requires i < |rows|
    ensures forall id :: Of(rows[..i + 1], id) ==
                         Of(rows[..i], id) + if rows[i].Good? && rows[i].snapshot.requestId == id then [rows[i].snapshot] else []
  {
    assert rows[..i + 1][..i] == rows[..i];
  }

  ghost predicate Distinct(keys: seq<string>) {
    forall i, j :: 0 <= i < j < |keys| ==> keys[i] != keys[j]
  }

  /** Every request of the rows is named once, and nothing else is. */
  ghost predicate Names(keys: seq<string>, rows: seq<Row>) {
    Distinct(keys) && forall id :: id in keys <==> Of(rows, id) != []
  }

  /** The groups built so far: every request of the rows once, with its snapshots in row order. */
  ghost predicate Grouped(keys: seq<string>, grouped: map<string, seq<L.Snapshot>>, rows: seq<Row>) {
    && Names(keys, rows)
    && (forall id :: id in grouped <==> id in keys)
    && (forall id | id in keys :: grouped[id] == Of(rows, id))
  }

  /** `grouped[snapshot.request_id].append(snapshot)` on a dictionary of lists. */
  method Append(keys: seq<string>, grouped: map<string, seq<L.Snapshot>>, snapshot: L.Snapshot, ghost rows: seq<Row>, ghost i: nat)
    returns (keys': seq<string>, grouped': map<string, seq<L.Snapshot>>)
    requires i < |rows| && rows[i] == Good(snapshot) && Grouped(keys, grouped, rows[..i])
    ensures Grouped(keys', grouped', rows[..i + 1])
    ensures keys' == if snapshot.requestId in keys then keys else keys + [snapshot.requestId]
  {
    hide Of;
    OfStep(rows, i);
    keys', grouped' := keys, grouped;
    if snapshot.requestId !in grouped' {
      keys' := keys' + [snapshot.requestId];
      grouped' := grouped'[snapshot.requestId := []];
    }
    grouped' := grouped'[snapshot.requestId := grouped'[snapshot.requestId] + [snapshot]];
  }

  lemma GroupedPast(keys: seq<string>, grouped: map<string, seq<L.Snapshot>>, rows: seq<Row>, i: nat)
    requires i < |rows| && rows[i].Malformed? && Grouped(keys, grouped, rows[..i])
    ensures Grouped(keys, grouped, rows[..i + 1])
  {
    OfStep(rows, i);
    hide Of;
  }

  /** The requests in the order in which rows first name them. */
  function FirstSeen(rows: seq<Row>): seq<string> {
    if rows == [] then []
    else
      var rest, row := FirstSeen(rows[..|rows| - 1]), rows[|rows| - 1];
      if row.Good? && row.snapshot.requestId !in rest then rest + [row.snapshot.requestId] else rest
  }

  lemma FirstSeenStep(rows: seq<Row>, i: nat)
    requires i < |rows|
    ensures FirstSeen(rows[..i + 1]) ==
            if rows[i].Good? && rows[i].snapshot.requestId !in FirstSeen(rows[..i])
            then FirstSeen(rows[..i]) + [rows[i].snapshot.requestId] else FirstSeen(rows[..i])
    ensures FirstSeen([]) == []
  {
    assert rows[..i + 1][..i] == rows[..i];
  }

  /** All that the loop over the rows keeps. */
  ghost predicate Collected(keys: seq<string>, grouped: map<string, seq<L.Snapshot>>, blockers: seq<Blocker>, rows: seq<Row>) {
    Grouped(keys, grouped, rows) && keys == FirstSeen(rows) && blockers == MalformedOf(rows)
  }

  method TakeRow(rows: seq<Row>, i: nat, keys: seq<string>, grouped: map<string, seq<L.Snapshot>>, blockers: seq<Blocker>)
    returns (keys': seq<string>, grouped': map<string, seq<L.Snapshot>>, blockers': seq<Blocker>)
    requires i < |rows| && Collected(keys, grouped, blockers, rows[..i])
    ensures Collected(keys', grouped', blockers', rows[..i + 1])
  {
    hide Of, MalformedOf, FirstSeen, Grouped;
    MalformedStep(rows, i);
    FirstSeenStep(rows, i);
    keys', grouped', blockers' := keys, grouped, blockers;
    match rows[i]
    case Malformed(id) =>
      GroupedPast(keys, grouped, rows, i);
      blockers' := blockers + [Blocker(id, MalformedSnapshot)];
    case Good(snapshot) =>
      keys', grouped' := Append(keys, grouped, snapshot, rows, i);
  }

  method Collect(rows: seq<Row>) returns (keys: seq<string>, grouped: map<string, seq<L.Snapshot>>, blockers: seq<Blocker>)
    ensures Names(keys, rows) && keys == FirstSeen(rows)
    ensures forall id :: id in grouped <==> id in keys
    ensures forall id | id in keys :: grouped[id] == Of(rows, id)
    ensures blockers == MalformedOf(rows)
    ensures blockers == [] <==> forall i :: 0 <= i < |rows| ==> rows[i].Good?
  {
    hide *;
    NothingCollected();
    keys, grouped, blockers := [], map[], [];
    assert rows[..0] == [];
    for i := 0 to |rows|
      invariant Collected(keys, grouped, blockers, rows[..i])
    {
      keys, grouped, blockers := TakeRow(rows, i, keys, grouped, blockers);
    }
    assert rows[..|rows|] == rows;
    CollectedMeans(keys, grouped, blockers, rows);
  }

  lemma NothingCollected()
    ensures Collected([], map[], [], [])
  {
    NothingGrouped();
    hide Grouped;
  }

  lemma CollectedMeans(keys: seq<string>, grouped: map<string, seq<L.Snapshot>>, blockers: seq<Blocker>, rows: seq<Row>)
    requires Collected(keys, grouped, blockers, rows)
    ensures Names(keys, rows) && keys == FirstSeen(rows) && blockers == MalformedOf(rows)
    ensures forall id :: id in grouped <==> id in keys
    ensures forall id | id in keys :: grouped[id] == Of(rows, id)
    ensures blockers == [] <==> forall i :: 0 <= i < |rows| ==> rows[i].Good?
  {
    MalformedAreNamed(rows);
    GroupedMeans(keys, grouped, rows);
    hide Of, MalformedOf, FirstSeen, Names;
  }

  lemma NothingGrouped()
    ensures Grouped([], map[], []) && MalformedOf([]) == [] && FirstSeen([]) == []
  {
  }

  lemma GroupedMeans(keys: seq<string>, grouped: map<string, seq<L.Snapshot>>, rows: seq<Row>)
    requires Grouped(keys, grouped, rows)
    ensures Names(keys, rows) && (forall id :: id in grouped <==> id in keys)
    ensures forall id | id in keys :: grouped[id] == Of(rows, id)
  {
    hide Of;
  }

  // ---------------------------------------------------------------- preflight

  /** What the rows alone must satisfy before anything is written. */
  ghost predicate Importable(rows: seq<Row>) {
    && (forall i :: 0 <= i < |rows| ==> rows[i].Good?)
    && (forall s :: Good(s) in rows ==> L.Accepted(Of(rows, s.requestId)))
    && (forall s, t :: Good(s) in rows && Good(t) in rows && s.key == t.key ==> s.requestId == t.requestId)
  }

  ghost predicate HeldBy(key: string, id: string, rows: seq<Row>) {
    exists s :: Good(s) in rows && s.key == key && s.requestId == id
  }

  /** `item` is what the history of request `id` imports as. */
  ghost predicate Prepared(item: L.Import, id: string, snapshots: seq<L.Snapshot>, text: L.Snapshot -> int) {
    L.Outcome(L.Sorted(snapshots, text)) == Ok(item) && item.record.requestId == id
  }

  /** One item for each request, of its own history, no two with one idempotency hash. */
  ghost predicate FullPreflight(items: seq<L.Import>, keys: seq<string>, rows: seq<Row>, text: L.Snapshot -> int) {
    && |items| == |keys|
    && (forall k :: 0 <= k < |items| ==> Prepared(items[k], keys[k], Of(rows, keys[k]), text))
    && (forall k, l :: 0 <= k < l < |items| ==> items[k].record.key != items[l].record.key)
  }

  /** What becomes of the history of one request. */
  function At(keys: seq<string>, rows: seq<Row>, text: L.Snapshot -> int, k: nat): Result<L.Import, L.Conflict>
    requires k < |keys|
  {
    L.Outcome(L.Sorted(Of(rows, keys[k]), text))
  }

  /** An earlier request with an acceptable history has the same idempotency hash. */
  ghost predicate Shares(keys: seq<string>, rows: seq<Row>, text: L.Snapshot -> int, k: nat)
    requires k < |keys|
  {
    At(keys, rows, text, k).Ok? && exists j :: 0 <= j < k && SameHash(keys, rows, text, j, At(keys, rows, text, k).value.record.key)
  }

  ghost predicate SameHash(keys: seq<string>, rows: seq<Row>, text: L.Snapshot -> int, j: nat, key: string)
    requires j < |keys|
  {
    At(keys, rows, text, j).Ok? && At(keys, rows, text, j).value.record.key == key
  }

  /** Why the request at k is blocked. */
  ghost predicate Explained(b: Blocker, keys: seq<string>, rows: seq<Row>, text: L.Snapshot -> int, k: nat)
    requires k < |keys|
  {
    b.id == keys[k] &&
    match b.reason
    case History(c) => At(keys, rows, text, k) == Err(c)
    case SharedHash => Shares(keys, rows, text, k)
    case Refusal => At(keys, rows, text, k).Ok? && !Shares(keys, rows, text, k)
    case MalformedSnapshot => false
  }

  /** Every blocker has its cause, and every cause that the rows show its blocker. */
  ghost predicate Explains(blockers: seq<Blocker>, keys: seq<string>, rows: seq<Row>, text: L.Snapshot -> int, n: nat)
    requires n <= |keys|
  {
    && (forall b :: b in blockers ==> exists k :: 0 <= k < n && Explained(b, keys, rows, text, k))
    && (forall k :: 0 <= k < n && At(keys, rows, text, k).Err? ==>
          Blocker(keys[k], History(At(keys, rows, text, k).error)) in blockers)
    && (forall k :: 0 <= k < n && Shares(keys, rows, text, k) ==> Blocker(keys[k], SharedHash) in blockers)
  }

  lemma ExplainStep(blockers: seq<Blocker>, more: seq<Blocker>, keys: seq<string>, rows: seq<Row>, text: L.Snapshot -> int, k: nat)
    requires k < |keys| && Explains(blockers, keys, rows, text, k)
    requires more == [] || (|more| == 1 && Explained(more[0], keys, rows, text, k))
    requires At(keys, rows, text, k).Err? ==> more == [Blocker(keys[k], History(At(keys, rows, text, k).error))]
    requires Shares(keys, rows, text, k) ==> more == [Blocker(keys[k], SharedHash)]
    ensures Explains(blockers + more, keys, rows, text, k + 1)
  {
    hide At, Shares, Explained;
    forall b | b in blockers + more ensures exists j :: 0 <= j < k + 1 && Explained(b, keys, rows, text, j) {
      if b in blockers {
        var j :| 0 <= j < k && Explained(b, keys, rows, text, j);
      } else {
        assert b == more[0];
      }
    }
  }

  /** Every hash met so far is kept with the first request that had it. */
  ghost predicate FirstHolders(hashes: map<string, string>, keys: seq<string>, rows: seq<Row>, text: L.Snapshot -> int, n: nat)
    requires n <= |keys|
  {
    && (forall j, h :: 0 <= j < n && SameHash(keys, rows, text, j, h) ==> h in hashes)
    && (forall h :: h in hashes ==> exists j :: 0 <= j < n && keys[j] == hashes[h] && SameHash(keys, rows, text, j, h))
  }

  lemma HolderStep(hashes: map<string, string>, keys: seq<string>, rows: seq<Row>, text: L.Snapshot -> int, k: nat)
    requires k < |keys| && Distinct(keys) && FirstHolders(hashes, keys, rows, text, k)
    ensures At(keys, rows, text, k).Err? ==> FirstHolders(hashes, keys, rows, text, k + 1)
    ensures At(keys, rows, text, k).Ok? ==>
              var h := At(keys, rows, text, k).value.record.key;
              var after := if h in hashes then hashes else hashes[h := keys[k]];
              FirstHolders(after, keys, rows, text, k + 1) && (after[h] != keys[k] <==> Shares(keys, rows, text, k))
  {
    hide At;
    if At(keys, rows, text, k).Ok? {
      var h := At(keys, rows, text, k).value.record.key;
      assert SameHash(keys, rows, text, k, h);
    }
  }

  lemma NothingYet(keys: seq<string>, rows: seq<Row>, text: L.Snapshot -> int)
    ensures Explains([], keys, rows, text, 0) && FirstHolders(map[], keys, rows, text, 0)
  {
  }

  lemma NotShared(keys: seq<string>, rows: seq<Row>, text: L.Snapshot -> int, k: nat)
    requires k < |keys| && At(keys, rows, text, k).Err?
    ensures !Shares(keys, rows, text, k)
  {
  }

  method Preflight(keys: seq<string>, grouped: map<string, seq<L.Snapshot>>, rows: seq<Row>, store: Store,
                   text: L.Snapshot -> int)
    returns (items: seq<L.Import>, blockers: seq<Blocker>, alive: bool)
    requires Names(keys, rows)
    requires forall id | id in keys :: id in grouped && grouped[id] == Of(rows, id)
    modifies store
    ensures store.tried == old(store.tried) && store.written == old(store.written)
    ensures alive ==> |items| + |blockers| == |keys|
    ensures alive && blockers == [] ==> FullPreflight(items, keys, rows, text)
    ensures Importable(rows) ==> forall b | b in blockers :: b.reason == Refusal
    ensures alive ==> Explains(blockers, keys, rows, text, |keys|)
    ensures store.faults >= old(store.faults)
    ensures alive && blockers == [] ==> store.faults == old(store.faults)
    ensures store.faults == old(store.faults) ==> alive && (Importable(rows) ==> blockers == [])
  {
    hide L.Outcome, L.Sorted, Of, L.Accepted, HeldBy, Importable, Explains, FirstHolders, Shares;
    items, blockers, alive := [], [], true;
    var hashes: map<string, string> := map[];
    NothingYet(keys, rows, text);
    for i := 0 to |keys|
      invariant store.tried == old(store.tried) && store.written == old(store.written)
      invariant |items| + |blockers| == i
      invariant store.faults >= old(store.faults) && (blockers == [] ==> store.faults == old(store.faults))
      invariant store.faults == old(store.faults) && Importable(rows) ==> blockers == []
      invariant blockers == [] ==> FullPreflight(items, keys[..i], rows, text)
      invariant Importable(rows) ==> forall b | b in blockers :: b.reason == Refusal
      invariant forall h | h in hashes :: HeldBy(h, hashes[h], rows)
      invariant Explains(blockers, keys, rows, text, i) && FirstHolders(hashes, keys, rows, text, i)
      invariant blockers == [] ==>
                  forall k :: 0 <= k < i ==> items[k].record.key in hashes && hashes[items[k].record.key] == keys[k]
    {
      var id := keys[i];
      HistoryIsAcceptable(rows, id);
      HolderStep(hashes, keys, rows, text, i);
      ghost var earlier := blockers;
      var outcome := L.Prepare(grouped[id], text);
      match outcome
      case Err(conflict) =>
        NotShared(keys, rows, text, i);
        ExplainStep(earlier, [Blocker(id, History(conflict))], keys, rows, text, i);
        blockers := blockers + [Blocker(id, History(conflict))];
      case Ok(item) =>
        RecordIsOfItsRequest(rows, id, text);
        if item.record.key !in hashes {
          hashes := hashes[item.record.key := id];
        }
        OneHolder(item.record.key, hashes[item.record.key], id, rows);
        if hashes[item.record.key] != id {
          blockers := blockers + [Blocker(id, SharedHash)];
        } else {
          var reply := store.Import(item, true);
          if reply == Broken {
            return items, blockers, false;
          }
          if reply == Refused {
            blockers := blockers + [Blocker(id, Refusal)];
          } else {
            items := items + [item];
          }
        }
        ExplainStep(earlier, blockers[|earlier|..], keys, rows, text, i);
        assert blockers == earlier + blockers[|earlier|..];
    }
    assert keys[..|keys|] == keys;
  }

  lemma RecordIsOfItsRequest(rows: seq<Row>, id: string, text: L.Snapshot -> int)
    requires L.Outcome(L.Sorted(Of(rows, id), text)).Ok?
    ensures L.Outcome(L.Sorted(Of(rows, id), text)).value.record.requestId == id
    ensures HeldBy(L.Outcome(L.Sorted(Of(rows, id), text)).value.record.key, id, rows)
  {
    hide L.Outcome, L.Sorted, L.InOrder, L.KeptSet;
    L.RecordSeen(Of(rows, id), text);
    OfHoldsItsRows(rows, id);
  }

  lemma HistoryIsAcceptable(rows: seq<Row>, id: string)
    requires Of(rows, id) != []
    ensures Importable(rows) ==> L.Accepted(Of(rows, id))
  {
    hide L.Accepted;
    OfHoldsItsRows(rows, id);
    assert Of(rows, id)[0] in Of(rows, id);
  }

  lemma OneHolder(key: string, id: string, other: string, rows: seq<Row>)
    requires HeldBy(key, id, rows) && HeldBy(key, other, rows)
    ensures Importable(rows) ==> id == other
  {
    hide L.Accepted, Of;
  }

  /** A preflight without blockers decides all that the rows alone can decide. */
  lemma PreflightMeansImportable(items: seq<L.Import>, keys: seq<string>, rows: seq<Row>, text: L.Snapshot -> int)
    requires FullPreflight(items, keys, rows, text) && Names(keys, rows)
    requires forall i :: 0 <= i < |rows| ==> rows[i].Good?
    ensures Importable(rows)
  {
    hide L.Outcome, L.Sorted, Of, L.Accepted, FullPreflight;
    forall s | Good(s) in rows
      ensures L.Accepted(Of(rows, s.requestId))
    {
      var k := ItemOf(s, items, keys, rows, text);
    }
    forall s, t | Good(s) in rows && Good(t) in rows && s.key == t.key
      ensures s.requestId == t.requestId
    {
      var k := ItemOf(s, items, keys, rows, text);
      var l := ItemOf(t, items, keys, rows, text);
      assert k == l by { SharedHashSharesItem(k, l, items, keys, rows, text); }
    }
  }

  lemma SharedHashSharesItem(k: nat, l: nat, items: seq<L.Import>, keys: seq<string>, rows: seq<Row>, text: L.Snapshot -> int)
    requires FullPreflight(items, keys, rows, text)
    requires k < |items| && l < |items| && items[k].record.key == items[l].record.key
    ensures k == l
  {
    hide L.Outcome, L.Sorted, Of, Prepared;
  }

  lemma ItemOf(s: L.Snapshot, items: seq<L.Import>, keys: seq<string>, rows: seq<Row>, text: L.Snapshot -> int)
    returns (k: nat)
    requires FullPreflight(items, keys, rows, text) && Names(keys, rows) && Good(s) in rows
    ensures k < |items| == |keys| && keys[k] == s.requestId
    ensures items[k].record.key == s.key
    ensures L.Accepted(Of(rows, s.requestId))
  {
    hide L.Outcome, L.Sorted, Of, L.Accepted;
    OfHoldsItsRows(rows, s.requestId);
    k :| 0 <= k < |keys| && keys[k] == s.requestId;
    assert Prepared(items[k], keys[k], Of(rows, keys[k]), text);
    RecordHasTheKey(Of(rows, s.requestId), text, s);
  }

  lemma RecordHasTheKey(snapshots: seq<L.Snapshot>, text: L.Snapshot -> int, s: L.Snapshot)
    requires L.Outcome(L.Sorted(snapshots, text)).Ok? && s in snapshots
    ensures L.Outcome(L.Sorted(snapshots, text)).value.record.key == s.key
    ensures L.Accepted(snapshots)
  {
    hide L.Outcome, L.Sorted, L.InOrder, L.KeptSet, L.Acceptable;
    L.RecordSeen(snapshots, text);
    L.AcceptedExactly(snapshots, text);
    var o := L.Sorted(snapshots, text);
    OneKey(L.Elements(snapshots), o[|o| - 1], s);
  }

  lemma OneKey(h: set<L.Snapshot>, a: L.Snapshot, b: L.Snapshot)
    requires L.Acceptable(h) && a in h && b in h
    ensures a.key == b.key
  {
    hide L.Sound, L.Link;
    assert L.SameScope(a, b);
  }

  lemma ImportableIsGood(rows: seq<Row>)
    requires Importable(rows)
    ensures forall i :: 0 <= i < |rows| ==> rows[i].Good?
  {
    hide L.Accepted, Of;
  }

  // ---------------------------------------------------------------- the migration

  /** `migrate_legacy_approvals` */
  method Migrate(rows: seq<Row>, store: Store, apply: bool, quiesced: bool, text: L.Snapshot -> int)
    returns (r: Result<Report, Failure>, ghost plan: seq<L.Import>, ghost keys: seq<string>)
    modifies store
    ensures apply && !quiesced ==> r == Err(NotQuiesced)
    ensures r.Ok? && r.value.blockers == [] <==>
            (!apply || quiesced) && Importable(rows) && store.faults == old(store.faults)
    ensures store.tried != old(store.tried) ==>
              apply && quiesced && Importable(rows) && Names(keys, rows) && FullPreflight(plan, keys, rows, text)
    ensures store.tried == old(store.tried) ==> store.written == old(store.written)
    ensures old(store.tried) <= store.tried <= old(store.tried) + plan
    ensures r.Ok? ==>
              var report := r.value;
              && report.rows == |rows| && report.requests == |keys| && Names(keys, rows)
              && (report.blockers == [] && !apply ==>
                    report.imported + report.reused == 0 && report.ready == report.requests)
              && (report.blockers == [] && apply ==>
                    report.imported + report.reused == report.requests && store.tried == old(store.tried) + plan)
              && (store.tried != old(store.tried) && report.blockers != [] ==>
                    var done := report.imported + report.reused;
                    && done < report.requests
                    && store.tried == old(store.tried) + plan[..done + 1]
                    && report.blockers == [Blocker(keys[done], Refusal)])
              && |store.written| == |old(store.written)| + report.imported
              && (Importable(rows) ==> forall b | b in report.blockers :: b.reason == Refusal)
              && (store.tried == old(store.tried) ==>
                    && MalformedOf(rows) <= report.blockers
                    && Explains(report.blockers[|MalformedOf(rows)|..], keys, rows, text, |keys|))
  {
    hide FullPreflight, Of, Names, Importable, Explains, MalformedOf;
    plan, keys := [], [];
    if apply && !quiesced {
      return Err(NotQuiesced), plan, keys;
    }
    var ids, grouped, malformed := Collect(rows);
    keys := ids;
    var items, refused, alive := Preflight(ids, grouped, rows, store, text);
    if !alive {
      return Err(StoreFailed), plan, keys;
    }
    var report := Report(|rows|, |ids|, 0, 0, |items|, malformed + refused);
    if Importable(rows) { ImportableIsGood(rows); }
    assert (malformed + refused)[|malformed|..] == refused;
    MalformedAreNamed(rows);
    if report.blockers == [] { PreflightMeansImportable(items, keys, rows, text); }
    if report.blockers != [] || !apply {
      return Ok(report), plan, keys;
    }
    plan := items;
    assert |items| == |keys| && forall k :: 0 <= k < |items| ==> items[k].record.requestId == keys[k] by {
      PlanNamesItsRequests(items, keys, rows, text);
    }
    for k := 0 to |items|
      invariant report == Report(|rows|, |ids|, report.imported, report.reused, |items|, [])
      invariant report.imported + report.reused == k
      invariant store.tried == old(store.tried) + plan[..k]
      invariant |store.written| == |old(store.written)| + report.imported
      invariant k == 0 ==> store.written == old(store.written)
      invariant store.faults == old(store.faults)
    {
      assert plan[..k + 1] == plan[..k] + [plan[k]];
      var reply := store.Import(items[k], false);
      match reply
      case Created => report := report.(imported := report.imported + 1);
      case Reused => report := report.(reused := report.reused + 1);
      case Refused =>
        report := report.(blockers := [Blocker(items[k].record.requestId, Refusal)]);
        return Ok(report), plan, keys;
      case Broken =>
        return Err(StoreFailed), plan, keys;
    }
    assert plan[..|plan|] == plan;
    r := Ok(report);
  }

  lemma PlanNamesItsRequests(items: seq<L.Import>, keys: seq<string>, rows: seq<Row>, text: L.Snapshot -> int)
    requires FullPreflight(items, keys, rows, text)
    ensures |items| == |keys| && forall k :: 0 <= k < |items| ==> items[k].record.requestId == keys[k]
  {
    hide L.Outcome, L.Sorted, Of;
  }
}
