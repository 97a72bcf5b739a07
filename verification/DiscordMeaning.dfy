/**
 * What the lists and keys of the Discord reset hold, said of the channel and the manifest
 * themselves.
 */
module DiscordMeaning {
  import opened Outcomes
  import H = DiscordHistory
  import M = DiscordManifest
  import D = DiscordDeletion

  // ---- Discovery --------------------------------------------------------------------------

  predicate Falling(s: seq<nat>) {
    forall i, j :: 0 <= i < j < |s| ==> s[i] > s[j]
  }

  lemma FallingSnoc(s: seq<nat>, x: nat)
    requires Falling(s) && forall y :: y in s ==> y > x
    ensures Falling(s + [x])
  {
    forall i, j | 0 <= i < j < |s| + 1 ensures (s + [x])[i] > (s + [x])[j] {
      assert s[i] in s;
    }
  }

  /**
   * The two lists returned hold the bot's messages and the humans', every one and no other,
   * newest first; so no message is in both.
   */
  lemma {:induction false} ListsHoldTheChannel(channel: seq<H.Post>)
    requires H.Descending(channel)
    ensures Falling(H.OwnIds(channel)) && Falling(H.HumanIds(channel))
    ensures forall x :: x in H.OwnIds(channel) <==> exists p :: p in channel && p.own && p.id == x
    ensures forall x :: x in H.HumanIds(channel) <==> exists p :: p in channel && !p.own && p.human && p.id == x
    decreases |channel|
  {
    if channel != [] {
      var rest, last := channel[..|channel| - 1], channel[|channel| - 1];
      assert channel == rest + [last];
      ListsHoldTheChannel(rest);
      LastIsLeast(channel);
      var own, human := H.OwnIds(rest), H.HumanIds(rest);
      forall x | x in own || x in human ensures x > last.id {
        var p :| p in rest && p.id == x;
      }
      hide H.Descending;
      FallingSnoc(own, last.id);
      FallingSnoc(human, last.id);
      assert own + [] == own && human + [] == human;
      hide H.OwnIds, H.HumanIds, Falling;
      Members(channel, rest, last);
      assert H.OwnIds(channel) == own + if last.own then [last.id] else [] by { OwnStep(channel); }
      assert H.HumanIds(channel) == human + if !last.own && last.human then [last.id] else [] by { OwnStep(channel); }
    } else {
      NoLists();
    }
  }

  lemma NoLists()
    ensures H.OwnIds([]) == [] && H.HumanIds([]) == []
  {
  }

  lemma OwnStep(channel: seq<H.Post>)
    requires channel != []
    ensures var rest, last := channel[..|channel| - 1], channel[|channel| - 1];
            && H.OwnIds(channel) == H.OwnIds(rest) + (if last.own then [last.id] else [])
            && H.HumanIds(channel) == H.HumanIds(rest) + if !last.own && last.human then [last.id] else []
  {
  }

  lemma Members(channel: seq<H.Post>, rest: seq<H.Post>, last: H.Post)
    requires channel == rest + [last]
    ensures forall p :: p in channel <==> p in rest || p == last
  {
  }

  lemma LastIsLeast(channel: seq<H.Post>)
    requires H.Descending(channel) && channel != []
    ensures H.Descending(channel[..|channel| - 1])
    ensures forall p :: p in channel[..|channel| - 1] ==> p.id > channel[|channel| - 1].id
  {
  }

  /** An honest page is drawn from exactly the messages below the cursor. */
  lemma {:induction false} BelowIsBelow(channel: seq<H.Post>, cursor: nat)
    requires H.Descending(channel)
    ensures forall p :: p in H.Below(channel, cursor) <==> p in channel && p.id < cursor
  {
    if channel != [] && channel[0].id >= cursor {
      var rest := channel[1..];
      assert channel == [channel[0]] + rest;
      BelowIsBelow(rest, cursor);
    }
  }

  // ---- The manifest -----------------------------------------------------------------------

  predicate Lists(e: M.Entry, x: nat) {
    x in e.ids || x in e.humans
  }

  /** The keys a manifest names are its entries' bot messages, each under its channel. */
  lemma {:induction false} KeysHoldTheEntries(es: seq<M.Entry>)
    ensures forall k :: k in M.Keys(es) <==> exists e :: e in es && e.channel == k.0 && k.1 in e.ids
    decreases |es|
  {
    if es != [] {
      var rest, last := es[..|es| - 1], es[|es| - 1];
      assert es == rest + [last];
      KeysHoldTheEntries(rest);
      KeysOfHolds(last.channel, last.ids);
      hide M.KeysOf;
    }
  }

  lemma KeysOfHolds(channel: nat, ids: seq<nat>)
    ensures forall k :: k in M.KeysOf(channel, ids) <==> k.0 == channel && k.1 in ids
  {
    forall k: D.Key ensures k in M.KeysOf(channel, ids) <==> k.0 == channel && k.1 in ids {
      if k.0 == channel && k.1 in ids {
        var i :| 0 <= i < |ids| && ids[i] == k.1;
        assert M.KeysOf(channel, ids)[i] == k;
      }
    }
  }

  lemma {:induction false} SeenHoldsTheEntries(es: seq<M.Entry>)
    ensures forall x :: x in M.Seen(es) <==> exists e :: e in es && Lists(e, x)
    decreases |es|
  {
    if es != [] {
      var rest, last := es[..|es| - 1], es[|es| - 1];
      assert es == rest + [last];
      SeenHoldsTheEntries(rest);
      forall x ensures x in M.Seen(es) <==> x in M.Seen(rest) || Lists(last, x) {
      }
      hide M.Seen, Lists;
      assert forall e :: e in es <==> e in rest || e == last;
    }
  }

  predicate NoTwice(s: seq<nat>) {
    forall i, j :: 0 <= i < j < |s| ==> s[i] != s[j]
  }

  lemma {:induction false} AllNewMeans(ids: seq<nat>, seen: set<nat>, forbidden: set<nat>)
    ensures M.AllNew(ids, seen, forbidden) <==> NoTwice(ids) && forall x :: x in ids ==> x !in seen && x !in forbidden
    decreases |ids|
  {
    if ids != [] {
      var rest, last := ids[..|ids| - 1], ids[|ids| - 1];
      assert ids == rest + [last];
      AllNewMeans(rest, seen, forbidden);
      assert NoTwice(ids) <==> NoTwice(rest) && last !in rest;
    }
  }

  /** One entry by itself: in scope, no message listed twice, no bot message that is a thread. */
  predicate GoodAlone(e: M.Entry, threads: set<nat>) {
    && M.InScope(e, threads) && NoTwice(e.ids) && NoTwice(e.humans)
    && (forall x :: x in e.ids ==> x !in e.humans && x !in threads)
  }

  ghost predicate Apart(d: M.Entry, e: M.Entry) {
    d.channel != e.channel && forall x :: Lists(d, x) ==> !Lists(e, x)
  }

  ghost predicate AllApart(es: seq<M.Entry>) {
    forall i, j :: 0 <= i < j < |es| ==> Apart(es[i], es[j])
  }

  predicate AllGoodAlone(es: seq<M.Entry>, threads: set<nat>) {
    forall i :: 0 <= i < |es| ==> GoodAlone(es[i], threads)
  }

  ghost predicate ApartFromAll(last: M.Entry, rest: seq<M.Entry>) {
    forall i :: 0 <= i < |rest| ==> Apart(rest[i], last)
  }

  lemma OneMoreApart(es: seq<M.Entry>, threads: set<nat>)
    requires es != []
    ensures var rest, last := es[..|es| - 1], es[|es| - 1];
            && (AllApart(es) <==> AllApart(rest) && ApartFromAll(last, rest))
            && (AllGoodAlone(es, threads) <==> AllGoodAlone(rest, threads) && GoodAlone(last, threads))
  {
    hide Apart, GoodAlone;
    var rest := es[..|es| - 1];
    assert forall i :: 0 <= i < |rest| ==> rest[i] == es[i];
  }

  lemma GoodStep(es: seq<M.Entry>, threads: set<nat>)
    requires es != []
    ensures var rest, last := es[..|es| - 1], es[|es| - 1];
            M.GoodEntries(es, threads) <==> M.GoodEntries(rest, threads) && Fits(last, rest, threads)
    ensures M.GoodEntries([], threads)
  {
    hide M.InScope, M.Channels, M.AllNew, M.Seen, M.Elements;
  }

  /** What the loop over the entries asks of the next one. */
  predicate Fits(last: M.Entry, rest: seq<M.Entry>, threads: set<nat>) {
    && M.InScope(last, threads) && last.channel !in M.Channels(rest)
    && M.AllNew(last.ids, M.Seen(rest), threads)
    && M.AllNew(last.humans, M.Seen(rest) + M.Elements(last.ids), {})
  }

  /** A manifest is well formed when every entry is by itself and any two have nothing in common. */
  lemma {:induction false} GoodEntriesMeans(es: seq<M.Entry>, threads: set<nat>)
    ensures M.GoodEntries(es, threads) <==> AllGoodAlone(es, threads) && AllApart(es)
    decreases |es|
  {
    if es != [] {
      var rest, last := es[..|es| - 1], es[|es| - 1];
      hide M.GoodEntries, Fits, AllApart, AllGoodAlone, ApartFromAll, GoodAlone;
      GoodEntriesMeans(rest, threads);
      GoodStep(es, threads);
      OneMoreApart(es, threads);
      LastEntry(rest, last, threads);
    }
  }

  lemma LastEntry(rest: seq<M.Entry>, last: M.Entry, threads: set<nat>)
    ensures Fits(last, rest, threads) <==> GoodAlone(last, threads) && ApartFromAll(last, rest)
  {
    SeenHoldsTheEntries(rest);
    AllNewMeans(last.ids, M.Seen(rest), threads);
    AllNewMeans(last.humans, M.Seen(rest) + M.Elements(last.ids), {});
    ApartMeans(last, rest);
    NewTogether(last, M.Seen(rest), threads);
    hide Apart, ApartFromAll, M.InScope, M.AllNew, M.Seen, NoTwice, M.Elements, M.Channels, Lists;
  }

  /** Both lists of an entry are new exactly if what it lists was not seen and the two are disjoint. */
  lemma NewTogether(last: M.Entry, seen: set<nat>, threads: set<nat>)
    ensures (&& (forall x :: x in last.ids ==> x !in seen && x !in threads)
             && (forall x :: x in last.humans ==> x !in seen + M.Elements(last.ids)))
            <==> (forall x :: x in last.ids ==> x !in last.humans && x !in threads)
                 && (forall x :: Lists(last, x) ==> x !in seen)
  {
    if (forall x :: x in last.ids ==> x !in last.humans && x !in threads) && forall x :: Lists(last, x) ==> x !in seen {
      forall x | x in last.ids ensures x !in seen { assert Lists(last, x); }
      forall x | x in last.humans ensures x !in seen && x !in last.ids { assert Lists(last, x); }
    }
  }

  lemma ApartMeans(last: M.Entry, rest: seq<M.Entry>)
    ensures ApartFromAll(last, rest) <==>
            last.channel !in M.Channels(rest) && forall x :: Lists(last, x) ==> !(exists e :: e in rest && Lists(e, x))
  {
    hide Lists;
    assert forall i :: 0 <= i < |rest| ==> rest[i] in rest;
  }
}
