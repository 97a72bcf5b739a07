/**
 * `delete_manifest` as a whole: the manifest is validated, then each of its ids is
 * deleted or found missing, and nothing else is touched.
 */
module DiscordManifest {
  import opened Outcomes
  import opened DiscordDeletion

  const Roots: set<nat> := {1557750137672179732, 1557943799072694282, 1557943838067261560}
  const MaxThreads := 300
  const MaxMessages := 2000

  datatype Entry = Entry(channel: nat, parent: Option<nat>, ids: seq<nat>, humanCount: int, humans: seq<nat>)

  datatype Snapshot = Snapshot(channels: seq<Entry>, threads: seq<nat>)

  // ---- Validation ------------------------------------------------------------------------

  function Elements(s: seq<nat>): set<nat> {
    set x | x in s
  }

  /** None of the ids was seen before, repeats, or is forbidden. */
  predicate AllNew(ids: seq<nat>, seen: set<nat>, forbidden: set<nat>) {
    ids == [] ||
    var rest := ids[..|ids| - 1];
    AllNew(rest, seen, forbidden) && ids[|ids| - 1] !in seen + Elements(rest) + forbidden
  }

  function Channels(es: seq<Entry>): set<nat> {
    set e | e in es :: e.channel
  }

  /** Every message id of the entries, the bot's and the humans'. */
  function Seen(es: seq<Entry>): set<nat> {
    if es == [] then {}
    else var e := es[|es| - 1]; Seen(es[..|es| - 1]) + Elements(e.ids) + Elements(e.humans)
  }

  predicate InScope(e: Entry, threads: set<nat>) {
    && (match e.parent case None => e.channel in Roots case Some(p) => p in Roots && e.channel in threads)
    && e.humanCount == |e.humans|
  }

  predicate GoodEntries(es: seq<Entry>, threads: set<nat>) {
    es == [] ||
    var rest := es[..|es| - 1];
    var e := es[|es| - 1];
    && GoodEntries(rest, threads)
    && InScope(e, threads)
    && e.channel !in Channels(rest)
    && AllNew(e.ids, Seen(rest), threads)
    && AllNew(e.humans, Seen(rest) + Elements(e.ids), {})
  }

  predicate ValidSnapshot(s: Snapshot) {
    var threads := Elements(s.threads);
    && |s.threads| <= MaxThreads && |threads| == |s.threads|
    && GoodEntries(s.channels, threads)
    && Channels(s.channels) == Roots + threads
    && |Seen(s.channels)| <= MaxMessages
  }

  lemma OneMoreElement(ids: seq<nat>, k: nat)
    requires k < |ids|
    ensures Elements(ids[..k + 1]) == Elements(ids[..k]) + {ids[k]}
  {
    assert ids[..k + 1] == ids[..k] + [ids[k]];
  }

  lemma {:induction false} NewPrefix(ids: seq<nat>, k: nat, seen: set<nat>, forbidden: set<nat>)
    requires k <= |ids| && AllNew(ids, seen, forbidden)
    ensures AllNew(ids[..k], seen, forbidden)
    decreases |ids|
  {
    hide Elements;
    if k < |ids| {
      NewPrefix(ids[..|ids| - 1], k, seen, forbidden);
      assert ids[..|ids| - 1][..k] == ids[..k];
    } else {
      assert ids[..k] == ids;
    }
  }

  method AddIds(ids: seq<nat>, seen: set<nat>, forbidden: set<nat>) returns (ok: bool, seen': set<nat>)
    ensures ok <==> AllNew(ids, seen, forbidden)
    ensures ok ==> seen' == seen + Elements(ids)
  {
    ok, seen' := true, seen;
    assert ids[..0] == [] && ids[..|ids|] == ids;
    for k := 0 to |ids|
      invariant ok && AllNew(ids[..k], seen, forbidden) && seen' == seen + Elements(ids[..k])
    {
      hide Elements;
      assert ids[..k + 1][..k] == ids[..k];
      OneMoreElement(ids, k);
      if AllNew(ids, seen, forbidden) {
        NewPrefix(ids, k + 1, seen, forbidden);
      }
      if ids[k] in seen' || ids[k] in forbidden {
        return false, seen';
      }
      seen' := seen' + {ids[k]};
    }
  }

  lemma {:induction false} GoodPrefix(es: seq<Entry>, k: nat, threads: set<nat>)
    requires k <= |es| && GoodEntries(es, threads)
    ensures GoodEntries(es[..k], threads)
    decreases |es|
  {
    hide InScope, Channels, AllNew, Seen, Elements;
    if k < |es| {
      GoodPrefix(es[..|es| - 1], k, threads);
      assert es[..|es| - 1][..k] == es[..k];
    } else {
      assert es[..k] == es;
    }
  }

  lemma OneMoreEntry(es: seq<Entry>, k: nat, threads: set<nat>)
    requires k < |es| && GoodEntries(es[..k], threads)
    ensures GoodEntries(es[..k + 1], threads) <==>
              && InScope(es[k], threads) && es[k].channel !in Channels(es[..k])
              && AllNew(es[k].ids, Seen(es[..k]), threads)
              && AllNew(es[k].humans, Seen(es[..k]) + Elements(es[k].ids), {})
    ensures GoodEntries(es, threads) ==> GoodEntries(es[..k + 1], threads)
  {
    assert es[..k + 1][..k] == es[..k];
    if GoodEntries(es, threads) {
      GoodPrefix(es, k + 1, threads);
    }
    hide InScope, AllNew, Elements, Channels, Seen;
  }

  lemma SeenGrows(es: seq<Entry>, k: nat)
    requires k < |es|
    ensures Channels(es[..k + 1]) == Channels(es[..k]) + {es[k].channel}
    ensures Seen(es[..k + 1]) == Seen(es[..k]) + Elements(es[k].ids) + Elements(es[k].humans)
  {
    assert es[..k + 1][..k] == es[..k];
    assert es[..k + 1] == es[..k] + [es[k]];
    hide Elements;
  }

  /** `_validate_snapshot` */
  method ValidateSnapshot(s: Snapshot) returns (ok: bool)
    ensures ok <==> ValidSnapshot(s)
  {
    hide GoodEntries, AllNew, Seen, Channels;
    var threads := Elements(s.threads);
    if |s.threads| > MaxThreads || |threads| != |s.threads| {
      return false;
    }
    var seenChannels, seenMessages: set<nat> := {}, {};
    NoEntries(s.channels, threads);
    for k := 0 to |s.channels|
      invariant GoodEntries(s.channels[..k], threads)
      invariant seenChannels == Channels(s.channels[..k]) && seenMessages == Seen(s.channels[..k])
    {
      var e := s.channels[k];
      OneMoreEntry(s.channels, k, threads);
      SeenGrows(s.channels, k);
      if !InScope(e, threads) || e.channel in seenChannels {
        return false;
      }
      seenChannels := seenChannels + {e.channel};
      var ok1, seen1 := AddIds(e.ids, seenMessages, threads);
      if !ok1 {
        return false;
      }
      var ok2, seen2 := AddIds(e.humans, seen1, {});
      if !ok2 {
        return false;
      }
      seenMessages := seen2;
    }
    return seenChannels == Roots + threads && |seenMessages| <= MaxMessages;
  }

  lemma NoEntries(es: seq<Entry>, threads: set<nat>)
    ensures GoodEntries(es[..0], threads) && Channels(es[..0]) == {} && Seen(es[..0]) == {}
    ensures es[..|es|] == es
  {
  }

  // ---- The keys a manifest names ---------------------------------------------------------

  function KeysOf(channel: nat, ids: seq<nat>): (r: seq<Key>)
    ensures |r| == |ids|
  {
    seq(|ids|, i requires 0 <= i < |ids| => (channel, ids[i]))
  }

  function Keys(es: seq<Entry>): seq<Key> {
    if es == [] then [] else Keys(es[..|es| - 1]) + KeysOf(es[|es| - 1].channel, es[|es| - 1].ids)
  }

  predicate Distinct(ks: seq<Key>) {
    forall i, j :: 0 <= i < j < |ks| ==> ks[i] != ks[j]
  }

  lemma {:induction false} NewIdsAreDistinct(ids: seq<nat>, seen: set<nat>, forbidden: set<nat>)
    requires AllNew(ids, seen, forbidden)
    ensures forall i :: 0 <= i < |ids| ==> ids[i] !in seen
    ensures forall i, j :: 0 <= i < j < |ids| ==> ids[i] != ids[j]
    decreases |ids|
  {
    if ids != [] {
      var rest := ids[..|ids| - 1];
      NewIdsAreDistinct(rest, seen, forbidden);
      assert forall i :: 0 <= i < |rest| ==> ids[i] == rest[i] && rest[i] in Elements(rest);
      hide AllNew;
    }
  }

  /** A valid manifest names every message once. */
  lemma {:induction false} KeysAreDistinct(es: seq<Entry>, threads: set<nat>)
    requires GoodEntries(es, threads)
    ensures Distinct(Keys(es)) && forall k :: k in Keys(es) ==> k.1 in Seen(es)
    decreases |es|
  {
    hide AllNew, InScope, Distinct;
    if es == [] {
      DistinctConcat([], []);
      assert Keys(es) == [] + [];
    } else {
      var rest := es[..|es| - 1];
      var e := es[|es| - 1];
      KeysAreDistinct(rest, threads);
      NewIdsAreDistinct(e.ids, Seen(rest), threads);
      DistinctKeysOf(e.channel, e.ids);
      hide GoodEntries;
      DistinctConcat(Keys(rest), KeysOf(e.channel, e.ids));
    }
  }

  lemma DistinctKeysOf(channel: nat, ids: seq<nat>)
    requires forall i, j :: 0 <= i < j < |ids| ==> ids[i] != ids[j]
    ensures Distinct(KeysOf(channel, ids))
    ensures forall k :: k in KeysOf(channel, ids) ==> k.1 in ids && k.1 in Elements(ids)
  {
  }

  lemma DistinctConcat(a: seq<Key>, b: seq<Key>)
    requires Distinct(a) || a == []
    requires Distinct(b) || b == []
    requires forall k :: k in a ==> k !in b
    ensures Distinct(a + b)
    ensures forall k :: k in a + b <==> k in a || k in b
  {
    forall i, j | 0 <= i < j < |a + b| ensures (a + b)[i] != (a + b)[j] {
      if i < |a| <= j {
        assert a[i] in a && b[j - |a|] in b;
      }
    }
  }

  // ---- Deletion ---------------------------------------------------------------------------

  function Present(ks: seq<Key>, live: map<Key, Message>): set<Key> {
    set k | k in ks && k in live
  }

  lemma OneMorePresent(ks: seq<Key>, k: Key, live: map<Key, Message>)
    requires k !in ks
    ensures |Present(ks + [k], live)| == |Present(ks, live)| + if k in live then 1 else 0
  {
    assert Present(ks + [k], live) == if k in live then Present(ks, live) + {k} else Present(ks, live);
  }

  /** Calls for these ids when nothing needs repeating: one to read each, one more to delete each present. */
  function Cost(ks: seq<Key>, live: map<Key, Message>): nat {
    |ks| + |Present(ks, live)|
  }

  lemma CostOfOneMore(ks: seq<Key>, k: Key, live: map<Key, Message>)
    requires k !in ks
    ensures Cost(ks + [k], live) == Cost(ks, live) + if k in live then 2 else 1
  {
    OneMorePresent(ks, k, live);
  }

  lemma CostGrows(some: seq<Key>, all: seq<Key>, live: map<Key, Message>)
    requires some <= all
    ensures Cost(some, live) <= Cost(all, live)
  {
    assert Present(some, live) <= Present(all, live);
    SmallerSet(Present(some, live), Present(all, live));
  }

  lemma SmallerSet(a: set<Key>, b: set<Key>)
    requires a <= b
    ensures |a| <= |b|
  {
    assert b == a + (b - a);
  }

  /** A steady server, and nothing listed that deletion refuses. */
  ghost predicate Smooth(c: Client, ks: seq<Key>, live0: map<Key, Message>) {
    c.server.steady && forall k :: k in ks ==> Plain(k, live0)
  }

  /** What has happened, since the server held live0, once the ids `done` have been dealt with. */
  ghost predicate Ledger(c: Client, live0: map<Key, Message>, done: seq<Key>, deleted: nat, missing: nat)
    reads c, c.server
  {
    && OnlyThese(c, live0, done)
    && deleted + missing == |done|
    && (forall k :: k in done ==> k !in c.server.live)
    && deleted <= |Present(done, live0)|
    && (c.server.quiet && c.server.prompt ==> deleted == |Present(done, live0)|)
  }

  /** Nothing but the bot's own messages among `touched` was removed by this client. */
  ghost predicate OnlyThese(c: Client, live0: map<Key, Message>, touched: seq<Key>)
    reads c, c.server
  {
    && c.Counted() && Disciplined(c.server.log)
    && (forall k :: k in c.server.live ==> k in live0 && c.server.live[k] == live0[k])
    && (forall k :: k in c.server.Reach() ==> k in touched && k in live0 && live0[k].own && !live0[k].thread)
    && (c.server.quiet ==> c.server.live.Keys == live0.Keys - c.server.removed)
  }

  method DeleteEntry(c: Client, e: Entry, ghost live0: map<Key, Message>, ghost before: seq<Key>, deleted: nat, missing: nat,
                     ghost smooth: bool, ghost base: nat)
    returns (r: Result<(nat, nat), ResetError>)
    requires Ledger(c, live0, before, deleted, missing) && Distinct(before + KeysOf(e.channel, e.ids))
    requires smooth ==> Smooth(c, before + KeysOf(e.channel, e.ids), live0) && c.Spent(base, Cost(before, live0), true)
    modifies c, c.server
    ensures OnlyThese(c, live0, before + KeysOf(e.channel, e.ids))
    ensures r.Ok? ==> Ledger(c, live0, before + KeysOf(e.channel, e.ids), r.value.0, r.value.1)
    ensures smooth ==> c.Spent(base, Cost(before + KeysOf(e.channel, e.ids), live0), r.Ok?)
  {
    hide Ledger, OnlyThese, Cost;
    ghost var keys := KeysOf(e.channel, e.ids);
    ghost var all := before + keys;
    var d, m := deleted, missing;
    assert before + keys[..0] == before && all == before + keys[..|keys|];
    for i := 0 to |e.ids|
      invariant Ledger(c, live0, before + keys[..i], d, m)
      invariant smooth ==> c.Spent(base, Cost(before + keys[..i], live0), true)
    {
      var k := (e.channel, e.ids[i]);
      ghost var done := before + keys[..i];
      assert done + [k] == before + keys[..i + 1];
      assert all[|done|] == k && done == all[..|done|];
      CostOfOneMore(done, k, live0);
      CostGrows(done + [k], all, live0);
      assert smooth ==> c.server.steady && Plain(k, live0);
      LedgerTouched(c, live0, done, d, m);
      var gone := DeleteOnce(c, k, live0, done, d, m);
      if gone.Err? {
        MoreTouched(c, live0, done + [k], all);
        return Err(gone.error);
      }
      if gone.value {
        d := d + 1;
      } else {
        m := m + 1;
      }
    }
    LedgerTouched(c, live0, all, d, m);
    return Ok((d, m));
  }

  method DeleteOnce(c: Client, k: Key, ghost live0: map<Key, Message>, ghost done: seq<Key>, ghost deleted: nat, ghost missing: nat)
    returns (r: Result<bool, ResetError>)
    requires Ledger(c, live0, done, deleted, missing) && k !in done
    modifies c, c.server
    ensures OnlyThese(c, live0, done + [k])
    ensures r.Ok? ==> Ledger(c, live0, done + [k], if r.value then deleted + 1 else deleted, if r.value then missing else missing + 1)
    ensures c.server.steady && Plain(k, live0) ==> c.Spent(old(c.calls), if k in live0 then 2 else 1, r.Ok?)
  {
    ghost var live1, removed1 := c.server.live, c.server.removed;
    r := c.DeleteOne(k);
    OneMorePresent(done, k, live0);
    if c.server.quiet {
      assert k in live1 <==> k in live0 by {
        assert k !in removed1;
      }
    }
  }

  /** Any further GET between ids. */
  method CheckBetween(c: Client, ghost live0: map<Key, Message>, ghost done: seq<Key>, ghost deleted: nat, ghost missing: nat)
    returns (r: Result<(), ResetError>)
    requires Ledger(c, live0, done, deleted, missing)
    modifies c, c.server
    ensures Ledger(c, live0, done, deleted, missing)
    ensures c.server.steady ==> c.Spent(old(c.calls), 1, r.Ok?)
  {
    r := c.Check();
  }

  lemma KeysStep(es: seq<Entry>, i: nat)
    requires i < |es|
    ensures Keys(es[..i + 1]) == Keys(es[..i]) + KeysOf(es[i].channel, es[i].ids)
  {
    assert es[..i + 1][..i] == es[..i];
  }

  lemma {:induction false} KeysPrefix(es: seq<Entry>, i: nat)
    requires i <= |es|
    ensures Keys(es[..i]) <= Keys(es)
    decreases |es| - i
  {
    hide Keys;
    if i < |es| {
      KeysStep(es, i);
      KeysPrefix(es, i + 1);
    } else {
      assert es[..i] == es;
    }
  }

  lemma MoreTouched(c: Client, live0: map<Key, Message>, some: seq<Key>, all: seq<Key>)
    requires OnlyThese(c, live0, some) && some <= all
    ensures OnlyThese(c, live0, all)
  {
  }

  lemma LedgerTouched(c: Client, live0: map<Key, Message>, done: seq<Key>, deleted: nat, missing: nat)
    requires Ledger(c, live0, done, deleted, missing)
    ensures OnlyThese(c, live0, done)
  {
  }

  lemma PrefixDistinct(some: seq<Key>, all: seq<Key>)
    requires some <= all && Distinct(all)
    ensures Distinct(some)
  {
  }

  /** The loop over the manifest's channels. */
  method DeleteEntries(c: Client, es: seq<Entry>, ghost live0: map<Key, Message>, ghost base: nat)
    returns (r: Result<(nat, nat), ResetError>)
    requires Ledger(c, live0, [], 0, 0) && Distinct(Keys(es))
    requires c.server.steady ==> c.Spent(base, 0, true)
    modifies c, c.server
    ensures OnlyThese(c, live0, Keys(es))
    ensures r.Ok? ==> Ledger(c, live0, Keys(es), r.value.0, r.value.1)
    ensures Smooth(c, Keys(es), live0) ==> c.Spent(base, |es| + Cost(Keys(es), live0), r.Ok?)
  {
    hide Keys, Ledger, OnlyThese, Distinct, KeysOf, Cost, Smooth, Plain;
    var deleted, missing := 0, 0;
    ghost var smooth := Smooth(c, Keys(es), live0);
    NoKeys(es);
    NoCost(live0);
    SmoothSoFar(c, Keys(es), Keys(es), live0);
    for i := 0 to |es|
      invariant Ledger(c, live0, Keys(es[..i]), deleted, missing)
      invariant smooth ==> c.Spent(base + i, Cost(Keys(es[..i]), live0), true)
    {
      KeysStep(es, i);
      KeysPrefix(es, i);
      KeysPrefix(es, i + 1);
      PrefixDistinct(Keys(es[..i + 1]), Keys(es));
      CostGrows(Keys(es[..i]), Keys(es[..i + 1]), live0);
      CostGrows(Keys(es[..i + 1]), Keys(es), live0);
      SmoothSoFar(c, Keys(es[..i + 1]), Keys(es), live0);
      var channel := CheckBetween(c, live0, Keys(es[..i]), deleted, missing);
      LedgerTouched(c, live0, Keys(es[..i]), deleted, missing);
      var locked: bool := *;
      if channel.Err? || (es[i].ids != [] && es[i].parent.Some? && locked && !c.server.steady) {
        MoreTouched(c, live0, Keys(es[..i]), Keys(es));
        return Err(ResetError);
      }
      var counts := DeleteEntry(c, es[i], live0, Keys(es[..i]), deleted, missing, smooth, base + i + 1);
      if counts.Err? {
        MoreTouched(c, live0, Keys(es[..i + 1]), Keys(es));
        return Err(counts.error);
      }
      deleted, missing := counts.value.0, counts.value.1;
    }
    LedgerTouched(c, live0, Keys(es), deleted, missing);
    return Ok((deleted, missing));
  }

  lemma SmoothSoFar(c: Client, some: seq<Key>, all: seq<Key>, live0: map<Key, Message>)
    requires some <= all
    ensures Smooth(c, all, live0) ==> Smooth(c, some, live0) && c.server.steady
  {
  }

  lemma NoCost(live: map<Key, Message>)
    ensures Cost([], live) == 0
  {
  }

  lemma NoKeys(es: seq<Entry>)
    ensures Keys(es[..0]) == [] && es[..|es|] == es
  {
  }

  /**
   * If it returns, every id of the manifest was counted once and is gone. Whatever
   * happens, this client removed nothing but the bot's own messages named by the
   * manifest, or has it still in flight. `deleted` never exceeds the number of those that
   * were there, and is that number if nobody else deletes and no DELETE lands late. Against
   * a steady server it succeeds exactly when its bound on calls allows for the manifest.
   */
  method DeleteManifest(s: Snapshot, server: Server) returns (r: Result<(nat, nat), ResetError>)
    requires server.Valid() && server.Reach() == {} && server.log == []
    modifies server
    ensures forall k :: k in server.Reach() ==>
              k in Keys(s.channels) && k in old(server.live) && old(server.live[k]).own && !old(server.live[k]).thread
    ensures Disciplined(server.log) && |server.log| <= MaxRequests
    ensures server.quiet ==> server.live.Keys == old(server.live.Keys) - server.removed
    ensures r.Ok? ==>
              && ValidSnapshot(s)
              && r.value.0 + r.value.1 == |Keys(s.channels)|
              && (forall k :: k in Keys(s.channels) ==> k !in server.live)
              && r.value.0 <= |Present(Keys(s.channels), old(server.live))|
              && (server.quiet && server.prompt ==> r.value.0 == |Present(Keys(s.channels), old(server.live))|)
    ensures !ValidSnapshot(s) ==> r.Err? && server.log == []
    ensures server.steady && ValidSnapshot(s) && (forall k :: k in Keys(s.channels) ==> Plain(k, old(server.live))) ==>
              (r.Ok? <==> 2 + |s.channels| + Cost(Keys(s.channels), old(server.live)) <= MaxRequests)
  {
    hide Keys, GoodEntries, Distinct, Seen, Channels, Cost, Plain;
    var ok := ValidateSnapshot(s);
    if !ok {
      return Err(ResetError);
    }
    KeysAreDistinct(s.channels, Elements(s.threads));
    ghost var live0 := server.live;
    var c := new Client(server);
    assert Ledger(c, live0, [], 0, 0);
    var identity := CheckBetween(c, live0, [], 0, 0);
    if identity.Err? {
      return Err(identity.error);
    }
    var guild := CheckBetween(c, live0, [], 0, 0);
    if guild.Err? {
      return Err(guild.error);
    }
    r := DeleteEntries(c, s.channels, live0, 2);
  }

  // ---- The bound on calls ---------------------------------------------------------------

  lemma {:induction false} AllPresent(ks: seq<Key>, live: map<Key, Message>)
    requires Distinct(ks) && forall k :: k in ks ==> k in live
    ensures |Present(ks, live)| == |ks|
    decreases |ks|
  {
    if ks == [] {
      assert Present(ks, live) == {};
    } else {
      var rest, last := ks[..|ks| - 1], ks[|ks| - 1];
      assert ks == rest + [last];
      assert last !in rest;
      AllPresent(rest, live);
      OneMorePresent(rest, last, live);
    }
  }

  function Numbers(n: nat): (r: seq<nat>)
    ensures |r| == n
  {
    if n == 0 then [] else Numbers(n - 1) + [1_000_000_000_000_000 + n]
  }

  lemma OneMoreNew(ids: seq<nat>, x: nat)
    requires AllNew(ids, {}, {}) && x !in ids
    ensures AllNew(ids + [x], {}, {})
  {
    assert (ids + [x])[..|ids|] == ids;
    assert x !in Elements(ids);
  }

  lemma {:induction false} NumbersAreNew(n: nat)
    ensures AllNew(Numbers(n), {}, {}) && forall x :: x in Numbers(n) ==> x <= 1_000_000_000_000_000 + n
  {
    hide AllNew;
    if n > 0 {
      NumbersAreNew(n - 1);
      OneMoreNew(Numbers(n - 1), 1_000_000_000_000_000 + n);
    } else {
      NoIds({}, {});
    }
  }

  lemma NoIds(seen: set<nat>, forbidden: set<nat>)
    ensures AllNew([], seen, forbidden) && Elements([]) == {}
  {
  }

  /** A valid manifest that no single run can finish, however well the server behaves. */
  ghost predicate TooLong(s: Snapshot, live: map<Key, Message>) {
    && ValidSnapshot(s)
    && (forall k :: k in Keys(s.channels) ==> k in live && Plain(k, live))
    && 2 + |s.channels| + Cost(Keys(s.channels), live) > MaxRequests
  }

  /** Three channels, and these messages all in the first. */
  function RootEntries(ids: seq<nat>): seq<Entry> {
    [Entry(1557750137672179732, None, ids, 0, []), Entry(1557943799072694282, None, [], 0, []),
     Entry(1557943838067261560, None, [], 0, [])]
  }

  lemma RootEntriesAreGood(ids: seq<nat>)
    requires AllNew(ids, {}, {})
    ensures GoodEntries(RootEntries(ids), {}) && Channels(RootEntries(ids)) == Roots
    ensures Seen(RootEntries(ids)) == Elements(ids) && |Keys(RootEntries(ids))| == |ids|
  {
    hide AllNew, Elements, GoodEntries, Seen, Channels, Keys;
    var es := RootEntries(ids);
    NoEntries(es, {});
    NoKeys(es);
    NoIds({}, {});
    NoIds(Elements(ids), {});
    NoIds(Seen(es[..0]) + Elements(es[0].ids), {});
    NoIds(Seen(es[..1]), {});
    NoIds(Seen(es[..1]) + Elements(es[1].ids), {});
    NoIds(Seen(es[..2]), {});
    NoIds(Seen(es[..2]) + Elements(es[2].ids), {});
    OneMoreEntry(es, 0, {});
    SeenGrows(es, 0);
    KeysStep(es, 0);
    OneMoreEntry(es, 1, {});
    SeenGrows(es, 1);
    KeysStep(es, 1);
    OneMoreEntry(es, 2, {});
    SeenGrows(es, 2);
    KeysStep(es, 2);
    assert es[..3] == es;
  }

  lemma FewerElements(ids: seq<nat>)
    ensures |Elements(ids)| <= |ids|
  {
    if ids != [] {
      FewerElements(ids[..|ids| - 1]);
      OneMoreElement(ids, |ids| - 1);
      assert ids[..|ids| - 1 + 1] == ids;
    }
  }

  /** Such a manifest exists: 1500 messages need 3005 calls. */
  lemma ValidButTooLong()
    ensures exists s, live :: TooLong(s, live)
  {
    hide Numbers, RootEntries, Keys, GoodEntries, Channels, Seen, AllNew;
    var ids := Numbers(1500);
    var es := RootEntries(ids);
    NumbersAreNew(1500);
    RootEntriesAreGood(ids);
    FewerElements(ids);
    KeysAreDistinct(es, {});
    var live := map k | k in Keys(es) :: Message(true, false);
    AllPresent(Keys(es), live);
    NoIds({}, {});
    assert |es| == 3 by { ThreeRoots(ids); }
    assert ValidSnapshot(Snapshot(es, [])) by { assert Roots + {} == Roots; }
    assert TooLong(Snapshot(es, []), live);
  }

  lemma ThreeRoots(ids: seq<nat>)
    ensures |RootEntries(ids)| == 3
  {
  }
}
