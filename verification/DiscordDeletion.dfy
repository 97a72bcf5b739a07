/**
 * Manifest deletion in scripts/demo_reset_discord.py: the bounded HTTP client and the
 * delete, read back and retry loop, against a server whose answers may be lost.
 */
module DiscordDeletion {
  import opened Outcomes

  const MaxRequests := 3000
  const MaxRetries := 3

  /** Channel and message id. */
  type Key = (nat, nat)

  /** Whether `_owned` accepts the message as the bot's, and whether a thread hangs off it. */
  datatype Message = Message(own: bool, thread: bool)

  datatype Op = Probe | Read(key: Key) | Delete(key: Key)

  /** What comes back (the body of a probe is not looked at): nothing, or a status with a body and a Retry-After header. */
  datatype Reply = Lost | Status(code: int, body: Option<Message>, retryAfter: Option<real>)

  datatype Event = Event(op: Op, reply: Reply)

  /** A DELETE whose effect the client cannot know. */
  predicate Unknown(r: Reply) {
    r.Lost? || 500 <= r.code <= 599
  }

  /** An answer that needs neither a retry nor a read-back. */
  predicate Prompt(op: Op, r: Reply) {
    r.Status? && match op
                 case Probe => r.code == 200 && r.body.Some?
                 case Read(_) => r.code == 404 || (r.code == 200 && r.body.Some?)
                 case Delete(_) => r.code == 204 || r.code == 404
  }

  predicate RateLimited(r: Reply) {
    r.Status? && r.code == 429
  }

  predicate OwnedRead(e: Event, k: Key) {
    e.op == Read(k) && e.reply.Status? && e.reply.code == 200 && e.reply.body.Some? && e.reply.body.value.own && !e.reply.body.value.thread
  }

  // ---- The discipline every run keeps ---------------------------------------------------

  /** Each DELETE sent comes straight after an owned read of that message, or after its own rate limit. */
  predicate Disciplined(log: seq<Event>) {
    forall i :: 0 <= i < |log| && log[i].op.Delete? ==> i > 0 && Licensed(log[i - 1], log[i].op)
  }

  predicate Licensed(before: Event, op: Op)
    requires op.Delete?
  {
    OwnedRead(before, op.key) || (before.op == op && RateLimited(before.reply))
  }

  lemma LogGrows(log: seq<Event>, e: Event)
    requires Disciplined(log)
    ensures (e.op.Delete? ==> log != [] && Licensed(log[|log| - 1], e.op)) ==> Disciplined(log + [e])
  {
    hide Licensed;
  }

  /** So no DELETE follows an unknown outcome without a read that found the message still owned. */
  lemma {:induction false} UnknownIsReadBack(log: seq<Event>, i: nat, j: nat) returns (m: nat)
    requires Disciplined(log) && i < j < |log|
    requires log[i].op.Delete? && Unknown(log[i].reply) && log[j].op.Delete?
    ensures i < m < j && OwnedRead(log[m], log[j].op.key)
    decreases j
  {
    assert Licensed(log[j - 1], log[j].op);
    if OwnedRead(log[j - 1], log[j].op.key) {
      m := j - 1;
    } else {
      m := UnknownIsReadBack(log, i, j - 1);
    }
  }

  /** The server, as far as this client's requests can tell. */
  class Server {
    var live: map<Key, Message>
    /** What this client's requests removed, and every exchange so far. */
    ghost var removed: set<Key>
    /** DELETEs without an answer that may still take effect. */
    var flying: set<Key>
    ghost var log: seq<Event>
    /** Nobody else deletes messages while this client runs. */
    const quiet: bool
    /** A DELETE takes effect before its answer is due, or never. */
    const prompt: bool
    /** It is quiet and prompt, and answers every request in full at once. */
    const steady: bool

    constructor (live: map<Key, Message>, quiet: bool, prompt: bool, steady: bool)
      requires steady ==> quiet && prompt
      ensures this.quiet == quiet && this.prompt == prompt && this.steady == steady
      ensures Valid() && this.live == live && removed == {} && flying == {} && log == []
    {
      this.live := live;
      this.quiet, this.prompt, this.steady := quiet, prompt, steady;
      removed, flying, log := {}, {}, [];
    }

    ghost predicate Valid()
      reads this
    {
      (steady ==> quiet && prompt) && (prompt ==> flying == {}) && forall k :: k in removed ==> k !in live
    }

    /** What this client's requests removed or may yet remove. */
    ghost function Reach(): set<Key>
      reads this
    {
      removed + flying
    }

    /** Messages only ever disappear, and those present are as they were. */
    twostate predicate Shrinks()
      reads this
    {
      && live.Keys <= old(live.Keys)
      && (forall k :: k in live ==> live[k] == old(live[k]))
      && old(removed) <= removed
      && (forall k :: k in removed - old(removed) ==> k in old(live) && k !in live)
      && (quiet ==> live.Keys == old(live.Keys) - (removed - old(removed)))
    }

    /** Others delete, and DELETEs sent earlier land. */
    method Meanwhile()
      requires Valid()
      modifies this`live, this`removed, this`flying
      ensures Valid() && Shrinks() && Reach() <= old(Reach()) && (prompt ==> removed == old(removed))
    {
      var others, landing: set<Key> := *, *;
      if !quiet {
        live := live - others;
      }
      landing := landing * flying;
      removed := removed + landing * live.Keys;
      live := live - landing;
      flying := flying - landing;
    }

    /** A DELETE whose answer says nothing: done, in flight, or never to be. */
    method MayRemove(k: Key)
      requires Valid()
      modifies this`live, this`removed, this`flying
      ensures Valid() && Shrinks() && Reach() <= old(Reach()) + {k}
      ensures prompt ==> removed == old(removed) || removed == old(removed) + {k}
    {
      var applied, late: bool := *, *;
      if applied && k in live {
        removed := removed + {k};
        live := live - {k};
      } else if late && !prompt {
        flying := flying + {k};
      }
    }

    /** One exchange. The effect of a DELETE and the fate of its answer are separate. */
    method Exchange(op: Op) returns (reply: Reply)
      requires Valid()
      modifies this
      ensures Valid() && Shrinks() && log == old(log) + [Event(op, reply)]
      ensures Reach() <= old(Reach()) + if op.Delete? && !RateLimited(reply) then {op.key} else {}
      ensures prompt ==> removed == old(removed) || (op.Delete? && !RateLimited(reply) && removed == old(removed) + {op.key})
      ensures op.Read? && reply.Status? && reply.code == 200 ==>
                op.key in live && (reply.body.Some? ==> reply.body.value == live[op.key])
      ensures op.Read? && reply.Status? && reply.code == 404 ==> op.key !in live
      ensures op.Delete? && reply.Status? && reply.code == 204 ==> op.key in removed && op.key !in live && op.key in old(live)
      ensures op.Delete? && reply.Status? && reply.code == 404 ==> op.key !in live && (prompt ==> removed == old(removed))
      ensures steady ==> Prompt(op, reply)
    {
      Meanwhile();
      var fate: int := *;
      var delay: Option<real> := *;
      var readable: bool := *;
      if steady {
        fate, readable := 200, true;
      }
      if fate == 0 || 500 <= fate <= 599 {
        if op.Delete? {
          MayRemove(op.key);
        }
        reply := if fate == 0 then Lost else Status(fate, None, delay);
      } else if fate == 200 || fate == 204 || fate == 404 {
        match op {
          case Probe =>
            var other: Message := *;
            reply := Status(fate, if readable then Some(other) else None, delay);
          case Read(k) =>
            reply := if k !in live then Status(404, None, delay)
                     else Status(200, if readable then Some(live[k]) else None, delay);
          case Delete(k) =>
            if k in live {
              removed := removed + {k};
              live := live - {k};
              reply := Status(204, None, delay);
            } else {
              reply := Status(404, None, delay);
            }
        }
      } else {
        reply := Status(fate, None, delay);
      }
      log := log + [Event(op, reply)];
    }
  }

  // ---- The client ------------------------------------------------------------------------

  /** The fixed, safe-to-display failure. */
  datatype ResetError = ResetError

  /** A fault that the next attempt may get over. */
  predicate Transient(op: Op, r: Reply) {
    || (!op.Delete? && Unknown(r))
    || (RateLimited(r) && r.retryAfter.Some? && 0.0 <= r.retryAfter.value <= 30.0)
  }

  /** An answer that settles the request. */
  predicate Settles(op: Op, r: Reply) {
    || (op.Delete? && Unknown(r))
    || (r.Status? && (r.code == 204 || r.code == 404 || (r.code == 200 && r.body.Some?)))
  }

  /** What a settling answer means to the caller. */
  predicate Means(op: Op, r: Reply, answer: (int, Option<Message>)) {
    if Unknown(r) then answer == (0, None)
    else r.Status? && answer.0 == r.code && answer.1 == if r.code == 200 then r.body else None
  }

  datatype Verdict = Settled(answer: (int, Option<Message>)) | Again | Fatal

  /** The tests of one attempt on what came back, in their order. */
  function Judge(op: Op, reply: Reply): (v: Verdict)
    ensures v.Again? <==> Transient(op, reply)
    ensures v.Again? && op.Delete? ==> RateLimited(reply)
    ensures v.Settled? <==> Settles(op, reply)
    ensures v.Settled? ==> Means(op, reply, v.answer)
  {
    if Unknown(reply) then if op.Delete? then Settled((0, None)) else Again
    else if reply.code == 429 then
      if reply.retryAfter == None || !(0.0 <= reply.retryAfter.value <= 30.0) then Fatal else Again
    else if reply.code != 200 && reply.code != 204 && reply.code != 404 then Fatal
    else if reply.code == 204 || reply.code == 404 then Settled((reply.code, None))
    else if reply.body == None then Fatal
    else Settled((200, reply.body))
  }

  /** What a settled answer shows of the server. */
  predicate Shows(op: Op, r: Reply, before: set<Key>, live: map<Key, Message>) {
    r.Status? ==>
      match op
      case Probe => true
      case Read(k) => (r.code == 200 ==> k in live && (r.body.Some? ==> r.body.value == live[k])) && (r.code == 404 ==> k !in live)
      case Delete(k) => (r.code == 204 ==> k in before && k !in live) && (r.code == 404 ==> k !in live)
  }

  /** Attempts at one request: transient faults, and then what ended it. */
  predicate Attempts(op: Op, es: seq<Event>) {
    && |es| <= MaxRetries
    && (forall i :: 0 <= i < |es| ==> es[i].op == op)
    && (forall i :: 0 <= i < |es| - 1 ==> Transient(op, es[i].reply))
  }

  predicate AllTransient(op: Op, es: seq<Event>) {
    forall i :: 0 <= i < |es| ==> es[i].op == op && Transient(op, es[i].reply)
  }

  lemma NoAttempts(op: Op)
    ensures AllTransient(op, []) && Attempts(op, [])
  {
  }

  lemma TransientGrows(op: Op, es: seq<Event>, e: Event)
    requires AllTransient(op, es) && e.op == op
    ensures Transient(op, e.reply) ==> AllTransient(op, es + [e])
    ensures |es| < MaxRetries ==> Attempts(op, es + [e])
  {
    hide Transient;
  }

  lemma AllAreAttempts(op: Op, es: seq<Event>)
    requires AllTransient(op, es)
    ensures |es| <= MaxRetries ==> Attempts(op, es)
    ensures es != [] ==> !Settles(op, es[|es| - 1].reply)
  {
  }

  lemma TransientSettlesNothing(op: Op, es: seq<Event>)
    requires AllTransient(op, es) && es != []
    ensures Transient(op, es[|es| - 1].reply) && !Settles(op, es[|es| - 1].reply)
    ensures |es| <= MaxRetries ==> Attempts(op, es)
  {
    AllAreAttempts(op, es);
    hide Settles;
  }

  /** Present or not, the message is none that deletion refuses. */
  predicate Plain(k: Key, live: map<Key, Message>) {
    k in live ==> live[k].own && !live[k].thread
  }

  class Client {
    const server: Server
    var calls: nat

    constructor (server: Server)
      ensures this.server == server && calls == 0
    {
      this.server := server;
      calls := 0;
    }

    /** As many exchanges as calls counted, never more than the bound. */
    ghost predicate Counted()
      reads this, server
    {
      server.Valid() && |server.log| <= MaxRequests && |server.log| <= calls
    }

    /** It succeeded exactly if the bound left room for `cost` calls, and then made that many. */
    predicate Spent(before: nat, cost: nat, ok: bool)
      reads this
    {
      (ok <==> before + cost <= MaxRequests) && (ok ==> calls == before + cost)
    }

    /** One attempt, if the bound on calls allows it. */
    method Send(op: Op) returns (verdict: Option<Verdict>)
      requires Counted() && Disciplined(server.log)
      requires op.Delete? ==> server.log != [] && Licensed(server.log[|server.log| - 1], op)
      modifies this, server
      ensures Counted() && Disciplined(server.log) && server.Shrinks() && calls == old(calls) + 1
      ensures verdict == None <==> calls > MaxRequests
      ensures verdict == None ==> unchanged(server)
      ensures verdict.Some? ==>
                && |server.log| == |old(server.log)| + 1 && old(server.log) <= server.log
                && var e := server.log[|old(server.log)|];
                && e.op == op && verdict.value == Judge(op, e.reply)
                && Shows(op, e.reply, old(server.live.Keys), server.live)
                && (server.steady ==> Prompt(op, e.reply))
                && (op.Delete? && e.reply.Status? && e.reply.code == 204 ==> op.key in server.removed)
                && (op.Delete? && e.reply.Status? && e.reply.code == 404 && server.prompt ==> server.removed == old(server.removed))
                && server.Reach() <= old(server.Reach()) + (if op.Delete? && !RateLimited(e.reply) then {op.key} else {})
                && (server.prompt && (!op.Delete? || RateLimited(e.reply)) ==> server.removed == old(server.removed))
      ensures server.prompt ==> server.removed == old(server.removed) || (op.Delete? && server.removed == old(server.removed) + {op.key})
    {
      hide Disciplined, OwnedRead, Judge;
      calls := calls + 1;
      if calls > MaxRequests {
        return None;
      }
      ghost var log := server.log;
      var reply := server.Exchange(op);
      LogGrows(log, Event(op, reply));
      return Some(Judge(op, reply));
    }

    /**
     * `_Client.request`: up to three attempts. A GET is repeated after a lost answer or a
     * server error; a DELETE is not, and reports status 0 instead. Both wait out a 429.
     */
    method Request(op: Op) returns (r: Result<(int, Option<Message>), ResetError>)
      requires Counted() && Disciplined(server.log)
      requires op.Delete? ==> server.log != [] && OwnedRead(server.log[|server.log| - 1], op.key)
      modifies this, server
      ensures Counted() && Disciplined(server.log) && server.Shrinks()
      ensures server.Reach() <= old(server.Reach()) + if op.Delete? then {op.key} else {}
      ensures server.prompt ==> server.removed == old(server.removed) || (op.Delete? && server.removed == old(server.removed) + {op.key})
      ensures r.Ok? ==> |server.log| > |old(server.log)| && server.log[|server.log| - 1].op == op
      ensures r.Ok? && op.Read? && r.value.0 == 200 ==>
                && r.value.1.Some? && op.key in server.live && r.value.1.value == server.live[op.key]
                && server.log[|server.log| - 1].reply.Status? && server.log[|server.log| - 1].reply.code == 200
                && server.log[|server.log| - 1].reply.body == r.value.1
      ensures r.Ok? && op.Read? && r.value.0 == 404 ==> op.key !in server.live
      ensures r.Ok? && op.Delete? && r.value.0 == 204 ==>
                op.key in server.removed && op.key !in server.live && op.key in old(server.live)
      ensures r.Ok? && op.Delete? && r.value.0 == 404 ==> op.key !in server.live && (server.prompt ==> server.removed == old(server.removed))
      ensures r.Ok? && op.Delete? && r.value.0 == 0 ==> Unknown(server.log[|server.log| - 1].reply)
      ensures old(server.log) <= server.log && Attempts(op, server.log[|old(server.log)|..])
      ensures r.Ok? <==> |server.log| > |old(server.log)| && Settles(op, server.log[|server.log| - 1].reply)
      ensures r.Ok? ==> Means(op, server.log[|server.log| - 1].reply, r.value)
      ensures r.Err? && |server.log| < |old(server.log)| + MaxRetries && calls <= MaxRequests ==>
                |server.log| > |old(server.log)| && !Transient(op, server.log[|server.log| - 1].reply)
      ensures server.steady ==> Spent(old(calls), 1, r.Ok?)
      ensures server.steady && r.Ok? ==>
                match op
                case Probe => r.value.0 == 200
                case Read(_) => r.value.0 == 200 || r.value.0 == 404
                case Delete(_) => r.value.0 == 204 || r.value.0 == 404
    {
      hide Disciplined, OwnedRead, Judge, Attempts, AllTransient, Transient;
      NoAttempts(op);
      assert server.log[|server.log|..] == [];
      for attempt := 0 to MaxRetries
        invariant Counted() && Disciplined(server.log) && server.Shrinks()
        invariant |server.log| >= |old(server.log)|
        invariant op.Delete? ==> server.log != [] && Licensed(server.log[|server.log| - 1], op)
        invariant server.Reach() <= old(server.Reach()) && (server.prompt ==> server.removed == old(server.removed))
        invariant server.steady ==> attempt == 0 && calls == old(calls)
        invariant old(server.log) <= server.log && |server.log| == |old(server.log)| + attempt
        invariant AllTransient(op, server.log[|old(server.log)|..])
      {
        ghost var log := server.log;
        AllAreAttempts(op, log[|old(server.log)|..]);
        var verdict := Send(op);
        if verdict == None {
          return Err(ResetError);
        }
        TransientGrows(op, log[|old(server.log)|..], server.log[|log|]);
        assert server.log[|old(server.log)|..] == log[|old(server.log)|..] + [server.log[|log|]];
        match verdict.value
        case Settled(answer) => return Ok(answer);
        case Fatal => return Err(ResetError);
        case Again =>
      }
      TransientSettlesNothing(op, server.log[|old(server.log)|..]);
      return Err(ResetError);
    }

    /** `_read_target`: whether the message is still there; anything but the bot's own plain message aborts. */
    method ReadTarget(k: Key) returns (r: Result<bool, ResetError>)
      requires Counted() && Disciplined(server.log)
      modifies this, server
      ensures Counted() && Disciplined(server.log) && server.Shrinks() && server.Reach() <= old(server.Reach())
      ensures server.prompt ==> server.removed == old(server.removed)
      ensures r == Ok(true) ==> && server.log != [] && OwnedRead(server.log[|server.log| - 1], k)
                                && k in server.live && server.live[k].own && !server.live[k].thread
      ensures r == Ok(false) ==> k !in server.live
      ensures server.steady && Plain(k, old(server.live)) ==> Spent(old(calls), 1, r.Ok?)
    {
      var answer := Request(Read(k));
      if answer.Err? {
        return Err(answer.error);
      }
      var (status, message) := answer.value;
      if status == 404 {
        return Ok(false);
      }
      if status != 200 || !message.value.own || message.value.thread {
        return Err(ResetError);
      }
      return Ok(true);
    }

    /** Any other GET: it costs calls and may abort the run. */
    method Check() returns (r: Result<(), ResetError>)
      requires Counted() && Disciplined(server.log)
      modifies this, server
      ensures Counted() && Disciplined(server.log) && server.Shrinks() && server.Reach() <= old(server.Reach())
      ensures server.prompt ==> server.removed == old(server.removed)
      ensures server.steady ==> Spent(old(calls), 1, r.Ok?)
    {
      var answer := Request(Probe);
      var acceptable: bool := *;
      return if answer.Ok? && answer.value.0 == 200 && (acceptable || server.steady) then Ok(()) else Err(ResetError);
    }

    /** What happened to one message over a stretch of exchanges. */
    twostate predicate OnlyTouched(k: Key)
      reads server
    {
      && server.Shrinks()
      && server.Reach() <= old(server.Reach()) + {k}
      && (k in server.Reach() && k !in old(server.Reach()) ==> k in old(server.live) && old(server.live[k]).own && !old(server.live[k]).thread)
    }

    /** The message is the bot's, is there, and was just read. */
    ghost predicate Licence(k: Key)
      reads this, server
    {
      && Counted() && Disciplined(server.log)
      && k in server.live && server.live[k].own && !server.live[k].thread
      && server.log != [] && OwnedRead(server.log[|server.log| - 1], k)
    }

    /** One attempt: delete, and read back when the outcome is unknown. None means still there. */
    method Attempt(k: Key) returns (r: Result<Option<bool>, ResetError>)
      requires Licence(k)
      modifies this, server
      ensures Counted() && Disciplined(server.log) && OnlyTouched(k)
      ensures r.Ok? && r.value.Some? ==> k !in server.live && (server.quiet && server.prompt ==> r.value.value)
      ensures r == Ok(None) ==> Licence(k)
      ensures server.steady ==> r != Ok(None) && Spent(old(calls), 1, r.Ok?)
    {
      var answer := Request(Delete(k));
      if answer.Err? {
        return Err(answer.error);
      }
      var status := answer.value.0;
      if status == 204 {
        return Ok(Some(true));
      }
      if status == 404 {
        return Ok(Some(false));
      }
      if status != 0 {
        return Err(ResetError);
      }
      var still := ReadTarget(k);
      if still.Err? {
        return Err(still.error);
      }
      return Ok(if still.value then None else Some(true));
    }

    /**
     * One manifest id: read it, then delete, read back and retry. True means counted as
     * deleted, false as already missing.
     */
    method DeleteOne(k: Key) returns (r: Result<bool, ResetError>)
      requires Counted() && Disciplined(server.log)
      modifies this, server
      ensures Counted() && Disciplined(server.log) && OnlyTouched(k)
      ensures r.Ok? ==> k !in server.live
      ensures r == Ok(true) ==> k in old(server.live)
      ensures r.Ok? && server.quiet && server.prompt ==> (r.value <==> k in old(server.live))
      ensures server.steady && Plain(k, old(server.live)) ==>
                Spent(old(calls), if k in old(server.live) then 2 else 1, r.Ok?)
    {
      hide Disciplined, OwnedRead;
      var present := ReadTarget(k);
      if present.Err? {
        return Err(present.error);
      }
      if !present.value {
        return Ok(false);
      }
      for attempt := 0 to MaxRetries
        invariant Licence(k) && OnlyTouched(k)
        invariant server.steady ==> attempt == 0 && calls == old(calls) + 1 && k in old(server.live)
      {
        var outcome := Attempt(k);
        if outcome.Err? {
          return Err(outcome.error);
        }
        if outcome.value.Some? {
          return Ok(outcome.value.value);
        }
      }
      return Err(ResetError);
    }
  }
}
