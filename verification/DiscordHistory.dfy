/**
 * Message discovery in scripts/demo_reset_discord.py: cursor pagination that either
 * covers the whole channel or fails.
 */
module DiscordHistory {
  import opened Outcomes

  const PageSize := 100
  const MaxPages := 20
  const MaxMessages := 2000

  /** A listed message: its id as a number, whether its shape checks, and who wrote it. */
  datatype Post = Post(id: nat, sane: bool, own: bool, human: bool, thread: bool)

  /** The listing endpoint: messages before a cursor, or None when the client gives up. */
  type Listing = Option<nat> -> Option<seq<Post>>

  function Ids(ps: seq<Post>): set<nat> {
    set p | p in ps :: p.id
  }

  function OwnIds(ps: seq<Post>): seq<nat> {
    if ps == [] then [] else OwnIds(ps[..|ps| - 1]) + if ps[|ps| - 1].own then [ps[|ps| - 1].id] else []
  }

  function HumanIds(ps: seq<Post>): seq<nat> {
    if ps == [] then []
    else HumanIds(ps[..|ps| - 1]) + if !ps[|ps| - 1].own && ps[|ps| - 1].human then [ps[|ps| - 1].id] else []
  }

  // ---- A well-behaved channel --------------------------------------------------------

  predicate Descending(ps: seq<Post>) {
    forall i, j :: 0 <= i < j < |ps| ==> ps[i].id > ps[j].id
  }

  /** What the channel holds below a cursor. */
  function Below(channel: seq<Post>, cursor: nat): seq<Post> {
    if channel == [] || channel[0].id < cursor then channel else Below(channel[1..], cursor)
  }

  function FirstPage(ps: seq<Post>): seq<Post> {
    if |ps| <= PageSize then ps else ps[..PageSize]
  }

  /** The newest messages below the cursor, newest first; nothing to object to in them. */
  ghost predicate Serves(listing: Listing, channel: seq<Post>) {
    && Descending(channel)
    && (forall p :: p in channel ==> p.sane && !(p.own && p.thread))
    && listing(None) == Some(FirstPage(channel))
    && forall cursor :: listing(Some(cursor)) == Some(FirstPage(Below(channel, cursor)))
  }

  lemma {:induction false} BelowLast(channel: seq<Post>, k: nat)
    requires Descending(channel) && k < |channel|
    ensures Below(channel, channel[k].id) == channel[k + 1..]
  {
    if k > 0 {
      assert channel[1..][k - 1] == channel[k];
      BelowLast(channel[1..], k - 1);
      assert channel[1..][k..] == channel[k + 1..];
    } else if |channel| > 1 {
      assert channel[0].id > channel[1].id;
      assert channel[1..][0] == channel[1];
      assert Below(channel[1..], channel[0].id) == channel[1..];
    }
  }

  /** The first n full pages of the channel, and where they leave the cursor. */
  function Cursor(channel: seq<Post>, n: nat): Option<nat>
    requires n * PageSize <= |channel|
  {
    if n == 0 then None else Some(channel[n * PageSize - 1].id)
  }

  lemma NextPage(listing: Listing, channel: seq<Post>, n: nat)
    requires Serves(listing, channel) && n * PageSize <= |channel|
    ensures listing(Cursor(channel, n)) == Some(FirstPage(channel[n * PageSize..]))
  {
    if n > 0 {
      BelowLast(channel, n * PageSize - 1);
    } else {
      assert channel[0..] == channel;
    }
  }

  // ---- The loop ------------------------------------------------------------------------

  predicate NoRepeats(s: seq<nat>) {
    forall i, j :: 0 <= i < j < |s| ==> s[i] != s[j]
  }

  /** What the loop tests before it accepts one more message. */
  predicate Acceptable(p: Post, before: Option<nat>, seen: set<nat>) {
    p.sane && p.id !in seen && (before.Some? ==> p.id < before.value) && |seen| < MaxMessages && !(p.own && p.thread)
  }

  predicate GoodPage(page: seq<Post>, before: Option<nat>, seen: set<nat>)
    decreases |page|
  {
    page == [] ||
    var rest := page[..|page| - 1];
    GoodPage(rest, before, seen) && Acceptable(page[|page| - 1], before, seen + Ids(rest))
  }

  /** No id of the page was seen before, on this page or another. */
  predicate Fresh(page: seq<Post>, seen: set<nat>) {
    && (forall i :: 0 <= i < |page| ==> page[i].id !in seen)
    && (forall i, j :: 0 <= i < j < |page| ==> page[i].id != page[j].id)
  }

  lemma GoodPageGrows(page: seq<Post>, k: nat, before: Option<nat>, seen: set<nat>)
    requires k < |page| && GoodPage(page[..k], before, seen)
    ensures GoodPage(page[..k + 1], before, seen) <==> Acceptable(page[k], before, seen + Ids(page[..k]))
  {
    assert page[..k + 1][..k] == page[..k];
    hide Ids, Acceptable;
  }

  lemma {:induction false} GoodPrefix(page: seq<Post>, k: nat, before: Option<nat>, seen: set<nat>)
    requires k <= |page| && GoodPage(page, before, seen)
    ensures GoodPage(page[..k], before, seen)
    decreases |page|
  {
    hide Ids, Acceptable;
    if k < |page| {
      GoodPrefix(page[..|page| - 1], k, before, seen);
      assert page[..|page| - 1][..k] == page[..k];
    } else {
      assert page[..k] == page;
    }
  }

  lemma {:induction false} GoodPageIsFresh(page: seq<Post>, before: Option<nat>, seen: set<nat>)
    requires GoodPage(page, before, seen)
    ensures Fresh(page, seen)
    decreases |page|
  {
    hide Fresh, Acceptable, Ids;
    if page == [] {
      assert Fresh(page, seen) by { NothingFresh(seen); }
    } else {
      var rest := page[..|page| - 1];
      GoodPageIsFresh(rest, before, seen);
      NewId(page[|page| - 1], before, seen + Ids(rest));
      hide GoodPage;
      FreshSnoc(rest, page[|page| - 1], seen);
      assert page == rest + [page[|page| - 1]];
    }
  }

  lemma NothingFresh(seen: set<nat>)
    ensures Fresh([], seen)
  {
  }

  lemma NewId(p: Post, before: Option<nat>, seen: set<nat>)
    requires Acceptable(p, before, seen)
    ensures p.id !in seen
  {
  }

  lemma FreshSnoc(page: seq<Post>, p: Post, seen: set<nat>)
    requires Fresh(page, seen) && p.id !in seen && p.id !in Ids(page)
    ensures Fresh(page + [p], seen)
  {
    forall i | 0 <= i < |page| ensures page[i].id != p.id {
      Listed(page, i);
    }
    hide Ids;
  }

  lemma Listed(page: seq<Post>, i: nat)
    requires i < |page|
    ensures page[i].id in Ids(page)
  {
    assert page[i] in page;
  }

  lemma {:induction false} FreshCount(page: seq<Post>, seen: set<nat>)
    requires Fresh(page, seen)
    ensures |seen + Ids(page)| == |seen| + |page|
    decreases |page|
  {
    hide Fresh, Ids;
    if page == [] {
      NoIds();
      assert seen + {} == seen;
    } else {
      var rest, last := page[..|page| - 1], page[|page| - 1];
      FreshButLast(page, seen);
      FreshCount(rest, seen);
      IdsSnoc(page);
      assert seen + (Ids(rest) + {last.id}) == (seen + Ids(rest)) + {last.id};
    }
  }

  lemma NoIds()
    ensures Ids([]) == {}
  {
  }

  lemma IdsSnoc(page: seq<Post>)
    requires page != []
    ensures Ids(page) == Ids(page[..|page| - 1]) + {page[|page| - 1].id}
  {
    ListsGrow(page, |page| - 1);
    assert page[..|page| - 1 + 1] == page;
    hide Ids;
  }

  lemma FreshButLast(page: seq<Post>, seen: set<nat>)
    requires Fresh(page, seen) && page != []
    ensures Fresh(page[..|page| - 1], seen) && page[|page| - 1].id !in seen + Ids(page[..|page| - 1])
  {
    var rest := page[..|page| - 1];
    forall p | p in rest ensures p.id != page[|page| - 1].id {
      var i :| 0 <= i < |rest| && rest[i] == p;
    }
  }

  lemma {:induction false} FreshIsGood(page: seq<Post>, before: Option<nat>, seen: set<nat>)
    requires Fresh(page, seen) && |seen| + |page| <= MaxMessages
    requires forall p :: p in page ==> p.sane && !(p.own && p.thread) && (before.Some? ==> p.id < before.value)
    ensures GoodPage(page, before, seen)
    decreases |page|
  {
    if page != [] {
      var rest := page[..|page| - 1];
      assert Fresh(rest, seen);
      FreshIsGood(rest, before, seen);
      FreshCount(rest, seen);
      hide GoodPage;
      assert page[|page| - 1].id !in seen + Ids(rest);
    }
  }

  lemma ListsGrow(page: seq<Post>, k: nat)
    requires k < |page|
    ensures Ids(page[..k + 1]) == Ids(page[..k]) + {page[k].id}
    ensures OwnIds(page[..k + 1]) == OwnIds(page[..k]) + if page[k].own then [page[k].id] else []
    ensures HumanIds(page[..k + 1]) == HumanIds(page[..k]) + if !page[k].own && page[k].human then [page[k].id] else []
  {
    var q := page[..k + 1];
    assert q[..|q| - 1] == page[..k] && q == page[..k] + [page[k]];
  }

  lemma TakeNothing(page: seq<Post>, before: Option<nat>, seen: set<nat>)
    ensures GoodPage(page[..0], before, seen)
    ensures Ids(page[..0]) == {} && OwnIds(page[..0]) == [] && HumanIds(page[..0]) == []
    ensures page[..|page|] == page
  {
  }

  /** One page: every message is new and below the cursor, or the whole discovery fails. */
  method TakePage(page: seq<Post>, before: Option<nat>, seen: set<nat>, targets: seq<nat>, humans: seq<nat>)
    returns (ok: bool, seen': set<nat>, targets': seq<nat>, humans': seq<nat>)
    ensures ok <==> GoodPage(page, before, seen)
    ensures ok ==> seen' == seen + Ids(page)
    ensures ok ==> targets' == targets + OwnIds(page) && humans' == humans + HumanIds(page)
  {
    hide GoodPage, Ids, OwnIds, HumanIds;
    ok, seen', targets', humans' := true, seen, targets, humans;
    TakeNothing(page, before, seen);
    for k := 0 to |page|
      invariant ok
      invariant GoodPage(page[..k], before, seen)
      invariant seen' == seen + Ids(page[..k])
      invariant targets' == targets + OwnIds(page[..k]) && humans' == humans + HumanIds(page[..k])
    {
      GoodPageGrows(page, k, before, seen);
      if GoodPage(page, before, seen) {
        GoodPrefix(page, k + 1, before, seen);
      }
      ListsGrow(page, k);
      var p := page[k];
      if !p.sane || p.id in seen' || (before.Some? && p.id >= before.value) {
        return false, seen', targets', humans';
      }
      seen' := seen' + {p.id};
      if |seen'| > MaxMessages {
        return false, seen', targets', humans';
      }
      if p.own {
        if p.thread {
          return false, seen', targets', humans';
        }
        targets' := targets' + [p.id];
      } else if p.human {
        humans' := humans' + [p.id];
      }
    }
  }

  /**
   * Whatever the server lists, what is returned repeats no id. When the server serves
   * the channel, discovery succeeds exactly when it holds fewer than 2000 messages, and
   * then returns the bot's ids and the humans' ids, each once and in the channel's order.
   */
  method Messages(listing: Listing, ghost channel: seq<Post>) returns (r: Option<(seq<nat>, seq<nat>)>)
    ensures r.Some? ==> NoRepeats(r.value.0 + r.value.1)
    ensures Serves(listing, channel) ==>
              r == if |channel| < MaxMessages then Some((OwnIds(channel), HumanIds(channel))) else None
  {
    hide Serves, Progress, GoodPage, Fresh, OwnIds, HumanIds, Ids, NoRepeats, FirstPage;
    var targets, humans: seq<nat> := [], [];
    var before: Option<nat> := None;
    var seen: set<nat> := {};
    NothingSeen(channel);
    for n := 0 to MaxPages
      invariant NoRepeats(targets + humans) && (forall x :: x in targets + humans ==> x in seen)
      invariant Serves(listing, channel) ==> Progress(channel, n, before, seen, targets, humans)
    {
      var page := listing(before);
      if Serves(listing, channel) {
        HonestPage(listing, channel, n, before, seen, targets, humans);
        PageTaken(channel, n, before, seen, targets, humans);
        PageLength(channel, n, before, seen, targets, humans);
      }
      if page == None || |page.value| > PageSize {
        return None;
      }
      var ok, seen', targets', humans' := TakePage(page.value, before, seen, targets, humans);
      if !ok {
        return None;
      }
      GoodPageIsFresh(page.value, before, seen);
      FreshCount(page.value, seen);
      TakenOnce(page.value, targets, humans, seen);
      if Serves(listing, channel) && |page.value| == PageSize {
        ProgressMoves(channel, n, before, seen, targets, humans);
      }
      seen, targets, humans := seen', targets', humans';
      if |page.value| < PageSize {
        return Some((targets, humans));
      }
      before := Some(page.value[|page.value| - 1].id);
    }
    if Serves(listing, channel) {
      PageLength(channel, MaxPages, before, seen, targets, humans);
    }
    return None;
  }

  lemma NothingSeen(channel: seq<Post>)
    ensures Progress(channel, 0, None, {}, [], [])
    ensures NoRepeats([] + [])
  {
    assert channel[..0] == [];
  }

  lemma PageLength(channel: seq<Post>, n: nat, before: Option<nat>, seen: set<nat>, targets: seq<nat>, humans: seq<nat>)
    requires Progress(channel, n, before, seen, targets, humans)
    ensures n * PageSize <= |channel|
    ensures var page := FirstPage(channel[n * PageSize..]);
            |page| <= PageSize && (|page| < PageSize ==> |channel| == n * PageSize + |page|)
  {
    hide OwnIds, HumanIds, Ids;
  }

  lemma ProgressMoves(channel: seq<Post>, n: nat, before: Option<nat>, seen: set<nat>, targets: seq<nat>, humans: seq<nat>)
    requires Progress(channel, n, before, seen, targets, humans)
    requires |FirstPage(channel[n * PageSize..])| == PageSize
    requires var page := FirstPage(channel[n * PageSize..]); |seen + Ids(page)| == |seen| + PageSize
    ensures var page := FirstPage(channel[n * PageSize..]);
            Progress(channel, n + 1, Some(page[PageSize - 1].id), seen + Ids(page), targets + OwnIds(page), humans + HumanIds(page))
  {
    PageTaken(channel, n, before, seen, targets, humans);
    hide OwnIds, HumanIds, Ids, FirstPage, Cursor;
    assert n * PageSize + PageSize == (n + 1) * PageSize;
  }

  /** After n full pages of a channel that is served. */
  ghost predicate Progress(channel: seq<Post>, n: nat, before: Option<nat>, seen: set<nat>, targets: seq<nat>, humans: seq<nat>) {
    && n * PageSize <= |channel|
    && before == Cursor(channel, n)
    && seen == Ids(channel[..n * PageSize]) && |seen| == n * PageSize
    && targets == OwnIds(channel[..n * PageSize])
    && humans == HumanIds(channel[..n * PageSize])
  }

  lemma {:induction false} ListsSplit(a: seq<Post>, b: seq<Post>)
    ensures OwnIds(a + b) == OwnIds(a) + OwnIds(b)
    ensures HumanIds(a + b) == HumanIds(a) + HumanIds(b)
    ensures Ids(a + b) == Ids(a) + Ids(b)
    decreases |b|
  {
    if b == [] {
      assert a + b == a;
    } else {
      assert (a + b)[..|a + b| - 1] == a + b[..|b| - 1];
      ListsSplit(a, b[..|b| - 1]);
    }
  }

  /** The next page of a served channel is acceptable. */
  lemma HonestPage(listing: Listing, channel: seq<Post>, n: nat, before: Option<nat>, seen: set<nat>, targets: seq<nat>, humans: seq<nat>)
    requires n < MaxPages && Serves(listing, channel) && Progress(channel, n, before, seen, targets, humans)
    ensures listing(before) == Some(FirstPage(channel[n * PageSize..]))
    ensures GoodPage(FirstPage(channel[n * PageSize..]), before, seen)
  {
    NextPage(listing, channel, n);
    var start := n * PageSize;
    var page := FirstPage(channel[start..]);
    PageIsSane(listing, channel, start);
    PageIsNew(channel, start, seen);
    PageIsBelow(channel, n);
    hide Serves, Ids, OwnIds, HumanIds, FirstPage, GoodPage, Fresh, Descending, Cursor;
    assert start + |page| <= MaxMessages;
    FreshIsGood(page, before, seen);
  }

  lemma PageIsSane(listing: Listing, channel: seq<Post>, start: nat)
    requires Serves(listing, channel) && start <= |channel|
    ensures var page := FirstPage(channel[start..]);
            |page| <= PageSize && forall p :: p in page ==> p.sane && !(p.own && p.thread)
    ensures Descending(channel)
  {
    hide Descending, Below;
  }

  lemma PageIsNew(channel: seq<Post>, start: nat, seen: set<nat>)
    requires Descending(channel) && start <= |channel| && seen == Ids(channel[..start])
    ensures Fresh(FirstPage(channel[start..]), seen)
  {
    var page := FirstPage(channel[start..]);
    forall i | 0 <= i < |page| ensures page[i] == channel[start + i] && page[i].id !in seen {
      forall p | p in channel[..start] ensures p.id != page[i].id {
        var k :| 0 <= k < start && channel[k] == p;
      }
    }
  }

  lemma PageIsBelow(channel: seq<Post>, n: nat)
    requires Descending(channel) && n * PageSize <= |channel|
    ensures var cursor := Cursor(channel, n);
            cursor.Some? ==> forall p :: p in FirstPage(channel[n * PageSize..]) ==> p.id < cursor.value
  {
    var start := n * PageSize;
    var page := FirstPage(channel[start..]);
    if n > 0 {
      forall p | p in page ensures p.id < channel[start - 1].id {
        var i :| 0 <= i < |page| && page[i] == p;
        assert p == channel[start + i];
      }
    }
  }

  /** Taking it moves the progress on, or ends the channel. */
  lemma PageTaken(channel: seq<Post>, n: nat, before: Option<nat>, seen: set<nat>, targets: seq<nat>, humans: seq<nat>)
    requires Progress(channel, n, before, seen, targets, humans)
    ensures var page := FirstPage(channel[n * PageSize..]);
            var reached := channel[..n * PageSize + |page|];
            && seen + Ids(page) == Ids(reached)
            && targets + OwnIds(page) == OwnIds(reached) && humans + HumanIds(page) == HumanIds(reached)
            && (|page| < PageSize ==> reached == channel)
            && (|page| == PageSize ==> (n + 1) * PageSize <= |channel| && Some(page[PageSize - 1].id) == Cursor(channel, n + 1))
  {
    hide OwnIds, HumanIds, Ids, FirstPage;
    var page := FirstPage(channel[n * PageSize..]);
    Reached(channel, n * PageSize);
    ListsSplit(channel[..n * PageSize], page);
    assert (n + 1) * PageSize == n * PageSize + PageSize;
  }

  lemma Reached(channel: seq<Post>, start: nat)
    requires start <= |channel|
    ensures var page := FirstPage(channel[start..]);
            && start + |page| <= |channel| && channel[..start] + page == channel[..start + |page|]
            && (|page| < PageSize ==> channel[..start + |page|] == channel)
            && (|page| == PageSize ==> page[PageSize - 1] == channel[start + PageSize - 1])
  {
  }

  lemma {:induction false} TakenOnce(page: seq<Post>, targets: seq<nat>, humans: seq<nat>, seen: set<nat>)
    requires NoRepeats(targets + humans) && forall x :: x in targets + humans ==> x in seen
    requires Fresh(page, seen)
    ensures var t, h := targets + OwnIds(page), humans + HumanIds(page);
            NoRepeats(t + h) && forall x :: x in t + h ==> x in seen + Ids(page)
    decreases |page|
  {
    if page == [] {
      assert targets + [] == targets && humans + [] == humans;
    } else {
      var p := page[|page| - 1];
      var rest := page[..|page| - 1];
      assert Fresh(rest, seen);
      TakenOnce(rest, targets, humans, seen);
      assert p.id !in seen + Ids(rest);
      hide Fresh, NoRepeats, OwnIds, HumanIds;
      ListsGrow(page, |page| - 1);
      assert page[..|page| - 1 + 1] == page;
      hide Ids;
      var t, h := targets + OwnIds(rest), humans + HumanIds(rest);
      OneMoreId(t, h, p.id);
      Attached(targets, OwnIds(rest), if p.own then [p.id] else []);
      Attached(humans, HumanIds(rest), if !p.own && p.human then [p.id] else []);
    }
  }

  lemma Attached(a: seq<nat>, b: seq<nat>, c: seq<nat>)
    ensures a + (b + c) == (a + b) + c
    ensures (a + b) + [] == a + b
  {
  }

  lemma OneMoreId(t: seq<nat>, h: seq<nat>, x: nat)
    requires NoRepeats(t + h) && x !in t + h
    ensures NoRepeats((t + [x]) + h) && NoRepeats(t + (h + [x]))
    ensures forall y :: y in (t + [x]) + h || y in t + (h + [x]) ==> y == x || y in t + h
  {
    var w, a, b := t + h, (t + [x]) + h, t + (h + [x]);
    forall i, j | 0 <= i < j < |a| ensures a[i] != a[j] {
      var i' := if i < |t| then i else i - 1;
      var j' := if j < |t| then j else j - 1;
      if i != |t| && j != |t| {
        assert w[i'] == a[i] && w[j'] == a[j];
      } else if i == |t| {
        assert a[j] == w[j'] && w[j'] in w;
      } else {
        assert a[i] == w[i'] && w[i'] in w;
      }
    }
    assert b == w + [x];
    assert forall i :: 0 <= i < |w| ==> w[i] != x;
  }
}
