/**
 * What scripts/accept_resolution_outbox.py relies on behind its API: revalidation requests
 * and closure decisions under idempotency keys, after agent/tools/incident_resolution.py.
 * Any call may take effect and lose its answer, and time passes before each.
 */
module OutboxPlatform {
  import opened Outcomes

  /**
   * Still going; passed and good for a closure; passed but expired, or overtaken by a later
   * remediation or check; over without a clean pass.
   */
  datatype Check = Open | Passed | Stale | Dead

  /**
   * How far the closure event has got to the Discord card: not tried itself, stopped by the
   * fixture's fault, stopped by any other error, or there.
   */
  datatype Delivery = Pending | Faulted | Failed | Delivered

  datatype Decision = Decision(request: nat, delivery: Delivery)

  /** A closure command as it reaches the platform. */
  datatype Command = Command(key: string, request: nat)

  /** What time can make of a check. */
  predicate Ages(a: Check, b: Check) {
    match a
    case Open => true
    case Passed => b == Passed || b == Stale
    case Stale => b == Stale
    case Dead => b == Dead
  }

  /** Still free of any error but the fixture's fault. */
  predicate Unspoilt(d: Delivery) {
    d == Pending || d == Faulted
  }

  /** An error code is cleared by delivery alone, and nothing is ever taken back. */
  predicate Moves(a: Decision, b: Decision) {
    && b.request == a.request
    && match a.delivery
       case Pending => true
       case Faulted => b.delivery != Pending
       case Failed => b.delivery == Failed || b.delivery == Delivered
       case Delivered => b.delivery == Delivered
  }

  /** A worker delivers without the fault, or fails to. */
  predicate Worked(a: map<string, Decision>, b: map<string, Decision>) {
    forall k :: k in a && k in b ==> b[k] == a[k] || !Unspoilt(b[k].delivery)
  }

  predicate Aged(a: map<nat, Check>, b: map<nat, Check>) {
    forall id :: id in a ==> id in b && Ages(a[id], b[id])
  }

  predicate Moved(a: map<string, Decision>, b: map<string, Decision>) {
    forall k :: k in a ==> k in b && Moves(a[k], b[k])
  }

  predicate Keeps(a: map<string, nat>, b: map<string, nat>) {
    forall k :: k in a ==> k in b && b[k] == a[k]
  }

  lemma Still(requests: map<string, nat>, checks: map<nat, Check>, decisions: map<string, Decision>)
    ensures Keeps(requests, requests) && Aged(checks, checks) && Moved(decisions, decisions)
  {
  }

  class Platform {
    /** Nothing is lost or refused without cause, no time is lost, and open checks pass. */
    const steady: bool
    /** Request ids and decisions under the idempotency keys that asked for them. */
    var requests: map<string, nat>
    var checks: map<nat, Check>
    var created: nat
    var decisions: map<string, Decision>
    /** The keys of all requests and all closure commands sent so far. */
    var asked: seq<string>
    /** A remediation of the business date is pending or under way. */
    var remediating: bool
    /** The contract, schema or data are no longer what the requested check saw. */
    var changed: bool
    var commands: seq<Command>

    constructor (steady: bool, remediating: bool)
      ensures Valid() && this.steady == steady && this.remediating == remediating
      ensures requests == map[] && checks == map[] && decisions == map[] && asked == [] && commands == []
    {
      this.steady := steady;
      this.remediating, changed := remediating, false;
      requests, checks, created, decisions, asked, commands := map[], map[], 0, map[], [], [];
    }

    ghost predicate Valid()
      reads this
    {
      && (forall k :: k in requests ==> requests[k] in checks)
      && (forall id :: id in checks ==> id < created)
    }

    /** The state of the check under a key, if one was requested. */
    function CheckOf(key: string): Option<Check>
      reads this
    {
      if key in requests && requests[key] in checks then Some(checks[requests[key]]) else None
    }

    twostate predicate Onward()
      reads this
    {
      && Keeps(old(requests), requests) && Aged(old(checks), checks) && Moved(old(decisions), decisions)
    }

    method Chance() returns (good: bool)
      ensures steady ==> good
    {
      good := *;
      good := good || steady;
    }

    /** Time passes: checks end and expire, remediations come and go, a worker delivers. */
    method Drift()
      requires Valid()
      modifies this`checks, this`decisions, this`remediating, this`changed
      ensures Valid() && Onward()
      ensures decisions.Keys == old(decisions.Keys) && checks.Keys == old(checks.Keys)
      ensures steady ==> unchanged(this)
    {
      var c: map<nat, Check> := *;
      var d: map<string, Decision> := *;
      if !steady && c.Keys == checks.Keys && Aged(checks, c) {
        checks := c;
      }
      if !steady && d.Keys == decisions.Keys && Moved(decisions, d) && Worked(decisions, d) {
        decisions := d;
      }
      if !steady {
        var r, x: bool := *, *;
        remediating, changed := r, x;
      }
    }

    method Register(key: string, c: Check)
      requires Valid() && key !in requests
      modifies this`requests, this`checks, this`created, this`changed
      ensures Valid() && Onward() && !changed
      ensures requests == old(requests)[key := old(created)] && CheckOf(key) == Some(c)
    {
      requests := requests[key := created];
      checks := checks[created := c];
      created := created + 1;
      changed := false;
    }

    /**
     * `create_revalidation`: a key already used answers with its request, whatever became of
     * it; a new one is refused while a remediation stands in the way.
     */
    method Create(key: string) returns (r: Option<nat>)
      requires Valid()
      modifies this
      ensures Valid() && Onward()
      ensures asked == old(asked) + [key] && commands == old(commands) && decisions.Keys == old(decisions.Keys)
      ensures requests.Keys == old(requests.Keys) || requests.Keys == old(requests.Keys) + {key}
      ensures r.Some? ==> key in requests && requests[key] == r.value
      ensures steady ==> && (r.Some? <==> key in old(requests) || !remediating)
                         && decisions == old(decisions) && remediating == old(remediating)
      ensures steady && key in old(requests) ==> CheckOf(key) == old(CheckOf(key)) && changed == old(changed)
      ensures steady && r.Some? && key !in old(requests) ==> CheckOf(key) == Some(Open) && !changed
    {
      asked := asked + [key];
      Drift();
      if key !in requests {
        var landed := Chance();
        if remediating || !landed {
          return None;
        }
        var dispatched := Chance();
        Register(key, if dispatched then Open else Dead);
      }
      var answered := Chance();
      r := if answered then Some(requests[key]) else None;
    }

    /** Polling one check until it is over, or the caller gives up. */
    method Await(id: nat) returns (c: Check)
      requires Valid() && id in checks
      modifies this`checks, this`decisions, this`remediating, this`changed
      ensures Valid() && Onward() && decisions.Keys == old(decisions.Keys)
      ensures id in checks && checks[id] == c && Ages(old(checks[id]), c)
      ensures requests == old(requests)
      ensures steady ==> decisions == old(decisions) && remediating == old(remediating) && changed == old(changed)
      ensures steady ==> c == if old(checks[id]) == Open then Passed else old(checks[id])
    {
      Drift();
      if checks[id] == Open && steady {
        checks := checks[id := Passed];
      }
      c := checks[id];
    }

    /**
     * `confirm_resolution`: a key already decided answers with that decision if the request is
     * the same, and delivers nothing; a new decision needs a check that passed and nothing in
     * its way, and is delivered at once, into the fault.
     */
    method Close(c: Command) returns (ok: bool)
      requires Valid()
      modifies this
      ensures Valid() && Onward() && requests == old(requests) && asked == old(asked)
      ensures commands == old(commands) + [c]
      ensures decisions.Keys == old(decisions.Keys) || decisions.Keys == old(decisions.Keys) + {c.key}
      ensures c.key in decisions && c.key !in old(decisions) ==>
                decisions[c.key].request == c.request && c.request in checks && checks[c.request] == Passed
      ensures ok ==> c.key in decisions && decisions[c.key].request == c.request
      ensures steady ==> checks == old(checks)
      ensures steady && c.key in old(decisions) ==>
                decisions == old(decisions) && ok == (decisions[c.key].request == c.request)
      ensures steady && c.key !in old(decisions) ==>
                ok == (c.request in checks && checks[c.request] == Passed && !old(remediating) && !old(changed))
                && (ok ==> decisions[c.key] == Decision(c.request, Faulted))
    {
      commands := commands + [c];
      Drift();
      if c.key !in decisions {
        var landed := Chance();
        if c.request !in checks || checks[c.request] != Passed || remediating || changed || !landed {
          return false;
        }
        decisions := decisions[c.key := Decision(c.request, Pending)];
        TryDelivery(c.key);
      }
      var answered := Chance();
      ok := answered && decisions[c.key].request == c.request;
    }

    /** One synchronization with the fault in its way, which earlier events may stop short. */
    method TryDelivery(key: string)
      requires Valid() && key in decisions && decisions[key].delivery == Pending
      modifies this`decisions
      ensures Valid() && Onward() && decisions.Keys == old(decisions.Keys)
      ensures decisions == old(decisions)[key := decisions[key]] && decisions[key].request == old(decisions[key].request)
      ensures steady ==> decisions[key].delivery == Faulted
    {
      var end: Delivery := *;
      decisions := decisions[key := decisions[key].(delivery := if steady then Faulted else end)];
    }

    /**
     * The rest of the stage: only an event without an error code is synchronized again, and
     * the closure must then be left pending by the fault.
     */
    method DeliverWithFault(key: string) returns (held: bool)
      requires Valid() && key in decisions
      modifies this`checks, this`decisions, this`remediating, this`changed
      ensures Valid() && Onward() && decisions.Keys == old(decisions.Keys)
      ensures !Unspoilt(old(decisions[key].delivery)) ==> !held && !Unspoilt(decisions[key].delivery)
      ensures held ==> decisions[key].delivery == Faulted
      ensures steady ==> checks == old(checks) && (held <==> Unspoilt(old(decisions[key].delivery)))
    {
      Drift();
      if decisions[key].delivery == Pending {
        TryDelivery(key);
      }
      held := decisions[key].delivery == Faulted;
    }

    /** `synchronize_incident` without the fault; one that fails leaves its error code. */
    method Deliver(key: string) returns (done: bool)
      requires Valid() && key in decisions
      modifies this`checks, this`decisions, this`remediating, this`changed
      ensures Valid() && Onward() && decisions.Keys == old(decisions.Keys)
      ensures done ==> decisions[key].delivery == Delivered
      ensures steady ==> done && checks == old(checks)
    {
      Drift();
      done := Chance();
      var tried: bool := *;
      if done {
        decisions := decisions[key := decisions[key].(delivery := Delivered)];
      } else if tried && decisions[key].delivery != Delivered {
        decisions := decisions[key := decisions[key].(delivery := Failed)];
      }
    }
  }
}
