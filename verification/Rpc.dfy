/** The SDK's request/response client: ids, one timer per request, and how each promise is settled.
    Time is left to the host: a timer may fire at any moment while it is armed. */
module Rpc {
  import opened Options
  import Decimals

  const REQUEST_ID_PREFIX := "sdk-"

  function IdOf(n: nat): string {
    REQUEST_ID_PREFIX + Decimals.Spell(n)
  }

  datatype Outcome =
    | Resolved(result: string)
    | HostError(message: string)
    | TimedOut
    | Cancelled
    | PostFailed

  /** A response: `ok` with a result, or without it and perhaps with an error text. */
  datatype Reply = Accepted(result: string) | Rejected(error: Option<string>)

  const UNKNOWN_HOST_ERROR := "Unknown host error"

  function OutcomeOf(reply: Reply): Outcome {
    match reply
    case Accepted(result) => Resolved(result)
    case Rejected(error) => HostError(if error.Some? then error.value else UNKNOWN_HOST_ERROR)
  }

  /** `sent` lists the ids of everything posted; `requests` those that returned a promise; `calls`
      the resolve and reject calls made on each of those promises. */
  datatype State = State(
    nextId: nat,
    pending: map<string, string>,
    timers: set<string>,
    listening: bool,
    sent: seq<string>,
    requests: set<string>,
    calls: map<string, seq<Outcome>>)

  const INITIAL := State(0, map[], {}, true, [], {}, map[])

  function CallsOf(calls: map<string, seq<Outcome>>, id: string): seq<Outcome> {
    if id in calls then calls[id] else []
  }

  /** One more call of the given outcome on each of `ids`. */
  function Called(calls: map<string, seq<Outcome>>, ids: set<string>, outcome: Outcome): map<string, seq<Outcome>> {
    calls + map id | id in ids :: CallsOf(calls, id) + [outcome]
  }

  // ---- Steps -----------------------------------------------------------------------------------

  /** `posted` is false when `bridge.postMessage` throws, for instance on parameters that cannot be
      cloned. */
  datatype Step =
    | Request(name: string, posted: bool)
    | Notify
    | Response(id: string, reply: Reply)
    | TimerFires(id: string)
    | Destroy

  /** The host fires only armed timers. */
  predicate Enabled(s: State, step: Step) {
    step.TimerFires? ==> step.id in s.timers
  }

  function Requested(s: State, name: string, posted: bool): State {
    var id := IdOf(s.nextId + 1);
    s.(nextId := s.nextId + 1,
       pending := s.pending[id := name],
       timers := s.timers + {id},
       sent := s.sent + [id],
       requests := s.requests + {id},
       calls := if posted then s.calls else Called(s.calls, {id}, PostFailed))
  }

  function Notified(s: State): State {
    s.(nextId := s.nextId + 1, sent := s.sent + [IdOf(s.nextId + 1)])
  }

  function Settled(s: State, id: string, outcome: Outcome): State {
    s.(pending := s.pending - {id}, timers := s.timers - {id}, calls := Called(s.calls, {id}, outcome))
  }

  function Destroyed(s: State): State {
    s.(pending := map[],
       timers := s.timers - s.pending.Keys,
       listening := false,
       calls := Called(s.calls, s.pending.Keys, Cancelled))
  }

  function Apply(s: State, step: Step): State {
    match step
    case Request(name, posted) => Requested(s, name, posted)
    case Notify => Notified(s)
    case Response(id, reply) => if s.listening && id in s.pending then Settled(s, id, OutcomeOf(reply)) else s
    case TimerFires(id) => Settled(s, id, TimedOut)
    case Destroy => Destroyed(s)
  }

  function Run(s: State, steps: seq<Step>): State
    decreases |steps|
  {
    if steps == [] then s else Run(Apply(s, steps[0]), steps[1..])
  }

  predicate Legal(s: State, steps: seq<Step>)
    decreases |steps|
  {
    steps == [] || (Enabled(s, steps[0]) && Legal(Apply(s, steps[0]), steps[1..]))
  }

  // ---- The client ------------------------------------------------------------------------------

  class Client {
    var nextId: nat
    var pending: map<string, string>
    var timers: set<string>
    var listening: bool
    ghost var sent: seq<string>
    ghost var requests: set<string>
    ghost var calls: map<string, seq<Outcome>>

    ghost function View(): State
      reads this
    {
      State(nextId, pending, timers, listening, sent, requests, calls)
    }

    constructor ()
      ensures View() == INITIAL
    {
      nextId, pending, timers, listening := 0, map[], {}, true;
      sent, requests, calls := [], {}, map[];
    }

    method Request(name: string, posted: bool) returns (id: string)
      modifies this
      ensures View() == Apply(old(View()), Step.Request(name, posted))
      ensures id == IdOf(old(nextId) + 1) && id in pending && pending[id] == name
    {
      nextId := nextId + 1;
      id := REQUEST_ID_PREFIX + Decimals.Spell(nextId);
      assert id == IdOf(nextId);
      requests := requests + {id};
      timers := timers + {id};
      pending := pending[id := name];
      sent := sent + [id];
      if !posted {
        calls := Called(calls, {id}, PostFailed);
      }
    }

    method Notify()
      modifies this
      ensures View() == Apply(old(View()), Step.Notify)
    {
      nextId := nextId + 1;
      sent := sent + [REQUEST_ID_PREFIX + Decimals.Spell(nextId)];
    }

    method SettleRequest(id: string, reply: Reply)
      requires listening
      modifies this
      ensures View() == Apply(old(View()), Response(id, reply))
    {
      if id !in pending {
        return;
      }
      timers := timers - {id};
      pending := pending - {id};
      match reply {
        case Accepted(result) =>
          calls := Called(calls, {id}, Resolved(result));
        case Rejected(None) =>
          calls := Called(calls, {id}, HostError(UNKNOWN_HOST_ERROR));
        case Rejected(Some(error)) =>
          calls := Called(calls, {id}, HostError(error));
      }
    }

    method Timeout(id: string)
      requires id in timers
      modifies this
      ensures View() == Apply(old(View()), TimerFires(id))
    {
      timers := timers - {id};
      pending := pending - {id};
      calls := Called(calls, {id}, TimedOut);
    }

    method Destroy()
      modifies this
      ensures View() == Apply(old(View()), Step.Destroy)
    {
      listening := false;
      var rest := pending.Keys;
      ghost var done: set<string> := {};
      CalledNone(calls, Cancelled);
      while rest != {}
        invariant rest + done == pending.Keys && rest !! done
        invariant timers == old(timers) - done
        invariant calls == Called(old(calls), done, Cancelled)
        invariant nextId == old(nextId) && pending == old(pending) && !listening
        invariant sent == old(sent) && requests == old(requests)
        decreases rest
      {
        var id :| id in rest;
        timers := timers - {id};
        CalledTwoSets(old(calls), done, {id}, Cancelled);
        calls := Called(calls, {id}, Cancelled);
        done, rest := done + {id}, rest - {id};
      }
      assert done == pending.Keys;
      pending := map[];
    }
  }

  lemma CalledNone(calls: map<string, seq<Outcome>>, outcome: Outcome)
    ensures Called(calls, {}, outcome) == calls
  {
  }

  lemma CalledTwoSets(calls: map<string, seq<Outcome>>, a: set<string>, b: set<string>, outcome: Outcome)
    requires a !! b
    ensures Called(Called(calls, a, outcome), b, outcome) == Called(calls, a + b, outcome)
  {
    var once, both := Called(calls, a, outcome), Called(calls, a + b, outcome);
    CalledAt(calls, a, outcome);
    CalledAt(calls, a + b, outcome);
    CalledAt(once, b, outcome);
    SameCalls(Called(once, b, outcome), both);
  }

  lemma SameCalls(left: map<string, seq<Outcome>>, right: map<string, seq<Outcome>>)
    requires left.Keys == right.Keys && forall id :: CallsOf(left, id) == CallsOf(right, id)
    ensures left == right
  {
    forall id | id in left
      ensures left[id] == right[id]
    {
      assert CallsOf(left, id) == CallsOf(right, id);
    }
  }

  // ---- What every run keeps --------------------------------------------------------------------

  /** Holds whatever the host does, throwing posts included. */
  ghost predicate Consistent(s: State) {
    && |s.sent| == s.nextId
    && (forall i :: 0 <= i < |s.sent| ==> s.sent[i] == IdOf(i + 1))
    && (forall id :: id in s.requests ==> id in s.sent)
    && s.pending.Keys == s.timers <= s.requests
    && s.calls.Keys <= s.requests
    && (forall id :: id in s.requests && id !in s.pending ==> CallsOf(s.calls, id) != [])
  }

  /** The promise discipline: what is pending, what has a live timer and what is not yet settled are
      one set, and nothing has been settled twice. */
  ghost predicate ExactlyOnce(s: State) {
    && s.pending.Keys == s.timers
    && (forall id :: id in s.pending <==> id in s.requests && CallsOf(s.calls, id) == [])
    && (forall id :: |CallsOf(s.calls, id)| <= 1)
  }

  lemma IdsDistinct(s: State, i: nat, j: nat)
    requires Consistent(s) && i < j < |s.sent|
    ensures s.sent[i] != s.sent[j]
  {
    if s.sent[i] == s.sent[j] {
      Decimals.PrefixedInjective(REQUEST_ID_PREFIX, i + 1, j + 1);
    }
  }

  /** The next id has never been sent. */
  lemma NextIdFresh(s: State)
    requires Consistent(s)
    ensures IdOf(s.nextId + 1) !in s.sent
  {
    forall i | 0 <= i < |s.sent|
      ensures s.sent[i] != IdOf(s.nextId + 1)
    {
      if s.sent[i] == IdOf(s.nextId + 1) {
        Decimals.PrefixedInjective(REQUEST_ID_PREFIX, i + 1, s.nextId + 1);
      }
    }
  }

  lemma CalledAt(calls: map<string, seq<Outcome>>, ids: set<string>, outcome: Outcome)
    ensures Called(calls, ids, outcome).Keys == calls.Keys + ids
    ensures forall id :: CallsOf(Called(calls, ids, outcome), id) ==
                         if id in ids then CallsOf(calls, id) + [outcome] else CallsOf(calls, id)
  {
  }

  lemma SentConsistent(s: State, t: State)
    requires Consistent(s)
    requires t.nextId == s.nextId + 1 && t.sent == s.sent + [IdOf(s.nextId + 1)]
    ensures |t.sent| == t.nextId && forall i :: 0 <= i < |t.sent| ==> t.sent[i] == IdOf(i + 1)
    ensures forall id :: id in s.sent ==> id in t.sent
    ensures IdOf(s.nextId + 1) in t.sent
  {
  }

  lemma RequestedConsistent(s: State, name: string, posted: bool)
    requires Consistent(s)
    ensures Consistent(Requested(s, name, posted))
  {
    var id, t := IdOf(s.nextId + 1), Requested(s, name, posted);
    SentConsistent(s, t);
    CalledAt(s.calls, {id}, PostFailed);
    assert t.pending.Keys == s.pending.Keys + {id} && t.calls.Keys <= s.calls.Keys + {id};
    forall x | x in t.requests && x !in t.pending
      ensures CallsOf(t.calls, x) != []
    {
      assert x != id && x in s.requests && CallsOf(t.calls, x) == CallsOf(s.calls, x);
    }
  }

  lemma SettledConsistent(s: State, id: string, outcome: Outcome)
    requires Consistent(s) && id in s.pending
    ensures Consistent(Settled(s, id, outcome))
  {
    CalledAt(s.calls, {id}, outcome);
  }

  lemma DestroyedConsistent(s: State)
    requires Consistent(s)
    ensures Consistent(Destroyed(s))
  {
  }

  lemma StepConsistent(s: State, step: Step)
    requires Consistent(s) && Enabled(s, step)
    ensures Consistent(Apply(s, step))
  {
    match step
    case Request(name, posted) => RequestedConsistent(s, name, posted);
    case Notify =>
    case Response(id, reply) =>
      if s.listening && id in s.pending {
        SettledConsistent(s, id, OutcomeOf(reply));
      }
    case TimerFires(id) => SettledConsistent(s, id, TimedOut);
    case Destroy => DestroyedConsistent(s);
  }

  lemma {:induction false} RunConsistent(s: State, steps: seq<Step>)
    requires Consistent(s) && Legal(s, steps)
    ensures Consistent(Run(s, steps))
    decreases |steps|
  {
    if steps != [] {
      StepConsistent(s, steps[0]);
      RunConsistent(Apply(s, steps[0]), steps[1..]);
    }
  }

  /** How many messages the steps post: every request, whether or not its post throws, and every notify. */
  function Posts(steps: seq<Step>): nat
    decreases |steps|
  {
    if steps == [] then 0 else (if steps[0].Request? || steps[0].Notify? then 1 else 0) + Posts(steps[1..])
  }

  /** Every message takes one id, and every id is the next number. */
  lemma {:induction false} EveryPostNumbered(s: State, steps: seq<Step>)
    requires Consistent(s) && Legal(s, steps)
    ensures |Run(s, steps).sent| == |s.sent| + Posts(steps)
    ensures forall i :: 0 <= i < |Run(s, steps).sent| ==> Run(s, steps).sent[i] == IdOf(i + 1)
    decreases |steps|
  {
    if steps != [] {
      StepConsistent(s, steps[0]);
      EveryPostNumbered(Apply(s, steps[0]), steps[1..]);
    }
  }

  predicate Throws(step: Step) {
    step.Request? && !step.posted
  }

  lemma RequestedExactlyOnceIff(s: State, name: string, posted: bool)
    requires Consistent(s) && ExactlyOnce(s)
    ensures ExactlyOnce(Requested(s, name, posted)) <==> posted
  {
    var id := IdOf(s.nextId + 1);
    NextIdFresh(s);
    CalledAt(s.calls, {id}, PostFailed);
    assert CallsOf(s.calls, id) == [];
    assert id in Requested(s, name, posted).pending;
  }

  lemma SettledExactlyOnce(s: State, id: string, outcome: Outcome)
    requires Consistent(s) && ExactlyOnce(s) && id in s.pending
    ensures ExactlyOnce(Settled(s, id, outcome))
  {
    var t := Settled(s, id, outcome);
    CalledAt(s.calls, {id}, outcome);
    assert t.pending.Keys == t.timers;
    forall x
      ensures |CallsOf(t.calls, x)| <= 1 && (x in t.pending <==> x in t.requests && CallsOf(t.calls, x) == [])
    {
      if x == id {
        assert CallsOf(s.calls, id) == [];
      } else {
        assert x in t.pending <==> x in s.pending;
      }
    }
  }

  lemma DestroyedExactlyOnce(s: State)
    requires Consistent(s) && ExactlyOnce(s)
    ensures ExactlyOnce(Destroyed(s))
  {
    var t := Destroyed(s);
    CalledAt(s.calls, s.pending.Keys, Cancelled);
    forall id
      ensures |CallsOf(t.calls, id)| <= 1 && (id in s.requests ==> CallsOf(t.calls, id) != [])
    {
      assert id in s.pending <==> id in s.requests && CallsOf(s.calls, id) == [];
    }
  }

  /** One step keeps the discipline exactly when it is not a request whose post throws. */
  lemma StepExactlyOnceIff(s: State, step: Step)
    requires Consistent(s) && ExactlyOnce(s) && Enabled(s, step)
    ensures ExactlyOnce(Apply(s, step)) <==> !Throws(step)
  {
    match step
    case Request(name, posted) => RequestedExactlyOnceIff(s, name, posted);
    case Notify =>
    case Response(id, reply) =>
      if s.listening && id in s.pending {
        SettledExactlyOnce(s, id, OutcomeOf(reply));
      }
    case TimerFires(id) => SettledExactlyOnce(s, id, TimedOut);
    case Destroy => DestroyedExactlyOnce(s);
  }

  /** The discipline holds in every state of the run, the first and the last included. */
  ghost predicate AlwaysExactlyOnce(s: State, steps: seq<Step>)
    decreases |steps|
  {
    ExactlyOnce(s) && (steps == [] || AlwaysExactlyOnce(Apply(s, steps[0]), steps[1..]))
  }

  lemma {:induction false} RunExactlyOnceIff(s: State, steps: seq<Step>)
    requires Consistent(s) && ExactlyOnce(s) && Legal(s, steps)
    ensures AlwaysExactlyOnce(s, steps) <==> forall k :: 0 <= k < |steps| ==> !Throws(steps[k])
    decreases |steps|
  {
    if steps != [] {
      assert steps == steps[..1] + steps[1..];
      StepExactlyOnceIff(s, steps[0]);
      StepConsistent(s, steps[0]);
      if !Throws(steps[0]) {
        RunExactlyOnceIff(Apply(s, steps[0]), steps[1..]);
      }
    }
  }

  /** Over every run of a new client, each state keeps the discipline exactly when no post throws. */
  lemma EveryRunExactlyOnceIff(steps: seq<Step>)
    requires Legal(INITIAL, steps)
    ensures AlwaysExactlyOnce(INITIAL, steps) <==> forall k :: 0 <= k < |steps| ==> !Throws(steps[k])
    ensures Consistent(Run(INITIAL, steps))
  {
    RunExactlyOnceIff(INITIAL, steps);
    RunConsistent(INITIAL, steps);
  }

  /** A response to an id that was never sent as a request, or whose request is already settled,
      changes nothing. */
  lemma LateResponseIgnored(s: State, id: string, reply: Reply)
    requires ExactlyOnce(s)
    requires id !in s.requests || CallsOf(s.calls, id) != []
    ensures Apply(s, Response(id, reply)) == s
  {
  }

  lemma SettledStaysStep(s: State, step: Step, id: string)
    requires Consistent(s) && ExactlyOnce(s) && Enabled(s, step) && !Throws(step)
    requires id in s.requests && CallsOf(s.calls, id) != []
    ensures CallsOf(Apply(s, step).calls, id) == CallsOf(s.calls, id) && id in Apply(s, step).requests
  {
  }

  /** Once settled, a promise sees no further call, whatever follows. */
  lemma {:induction false} SettledStays(s: State, steps: seq<Step>, id: string)
    requires Consistent(s) && ExactlyOnce(s) && Legal(s, steps)
    requires forall k :: 0 <= k < |steps| ==> !Throws(steps[k])
    requires id in s.requests && CallsOf(s.calls, id) != []
    ensures CallsOf(Run(s, steps).calls, id) == CallsOf(s.calls, id)
    decreases |steps|
  {
    if steps != [] {
      StepConsistent(s, steps[0]);
      StepExactlyOnceIff(s, steps[0]);
      SettledStaysStep(s, steps[0], id);
      SettledStays(Apply(s, steps[0]), steps[1..], id);
    }
  }

  /** A client listens until it is destroyed, */
  lemma {:induction false} ListensUntilDestroyed(s: State, steps: seq<Step>)
    ensures Run(s, steps).listening <==> s.listening && Destroy !in steps
    decreases |steps|
  {
    if steps != [] {
      assert steps == [steps[0]] + steps[1..];
      ListensUntilDestroyed(Apply(s, steps[0]), steps[1..]);
    }
  }

  /** and from then on no response changes anything. */
  lemma DeafOnceDestroyed(s: State, steps: seq<Step>, id: string, reply: Reply)
    requires Destroy in steps
    ensures Apply(Run(s, steps), Response(id, reply)) == Run(s, steps)
  {
    ListensUntilDestroyed(s, steps);
  }

  lemma DestroyedAll(s: State, id: string)
    requires Consistent(s) && id in s.requests
    ensures CallsOf(Destroyed(s).calls, id) != [] && id in Destroyed(s).requests
    ensures ExactlyOnce(s) ==> |CallsOf(Destroyed(s).calls, id)| == 1
  {
    CalledAt(s.calls, s.pending.Keys, Cancelled);
    if ExactlyOnce(s) {
      StepExactlyOnceIff(s, Destroy);
    }
  }

  ghost predicate NoneThrows(steps: seq<Step>) {
    forall k :: 0 <= k < |steps| ==> !Throws(steps[k])
  }

  lemma SettledForGood(s: State, later: seq<Step>, id: string)
    requires Consistent(s) && ExactlyOnce(s) && id in s.requests && Legal(Destroyed(s), later) && NoneThrows(later)
    ensures |CallsOf(Run(Destroyed(s), later).calls, id)| == 1
  {
    DestroyedAll(s, id);
    StepConsistent(s, Destroy);
    StepExactlyOnceIff(s, Destroy);
    SettledStays(Destroyed(s), later, id);
  }

  /** Everything requested before `destroy` is settled by it at the latest; with posts that do not
      throw, exactly once and for good. */
  lemma DestroySettlesAll(s: State, later: seq<Step>, id: string)
    requires Consistent(s) && id in s.requests
    ensures CallsOf(Destroyed(s).calls, id) != []
    ensures Destroyed(s).pending == map[] && Destroyed(s).timers == {}
    ensures ExactlyOnce(s) && Legal(Destroyed(s), later) && NoneThrows(later) ==>
              |CallsOf(Run(Destroyed(s), later).calls, id)| == 1
  {
    DestroyedAll(s, id);
    if ExactlyOnce(s) && Legal(Destroyed(s), later) && NoneThrows(later) {
      SettledForGood(s, later, id);
    }
  }

  // ---- Which call it is ------------------------------------------------------------------------

  /** A pending promise is resolved with the result of its response, rejected with the error text of its
      response or the standard one, rejected as timed out by its own timer, and cancelled by `destroy`. */
  lemma OutcomeAt(s: State, id: string)
    requires Consistent(s) && ExactlyOnce(s) && id in s.pending
    ensures s.listening ==> forall result ::
              CallsOf(Apply(s, Response(id, Accepted(result))).calls, id) == [Resolved(result)]
    ensures s.listening ==> forall error ::
              CallsOf(Apply(s, Response(id, Rejected(Some(error)))).calls, id) == [HostError(error)]
    ensures s.listening ==>
              CallsOf(Apply(s, Response(id, Rejected(None))).calls, id) == [HostError("Unknown host error")]
    ensures CallsOf(Apply(s, TimerFires(id)).calls, id) == [TimedOut]
    ensures CallsOf(Apply(s, Destroy).calls, id) == [Cancelled]
  {
    assert CallsOf(s.calls, id) == [];
  }

  /** What a step says about a pending promise, if anything; a destroyed client hears no responses. */
  function Says(listening: bool, step: Step, id: string): seq<Outcome> {
    match step
    case Response(other, reply) => if other == id && listening then [OutcomeOf(reply)] else []
    case TimerFires(other) => if other == id then [TimedOut] else []
    case Destroy => [Cancelled]
    case Request(_, _) => []
    case Notify => []
  }

  /** What the first of its response, its timer and `destroy` says about a pending promise. */
  function FirstOutcome(listening: bool, steps: seq<Step>, id: string): seq<Outcome>
    decreases |steps|
  {
    if steps == [] then []
    else if Says(listening, steps[0], id) != [] then Says(listening, steps[0], id)
    else FirstOutcome(listening, steps[1..], id)
  }

  /** Settling one promise says so on that promise and leaves the others pending. */
  lemma SettledOne(s: State, other: string, outcome: Outcome, id: string)
    requires id in s.pending && id in s.requests && CallsOf(s.calls, id) == []
    ensures
      var t := Settled(s, other, outcome);
      && CallsOf(t.calls, id) == (if other == id then [outcome] else [])
      && id in t.requests && t.listening == s.listening && (other != id ==> id in t.pending)
  {
    CalledAt(s.calls, {other}, outcome);
  }

  lemma RequestedOther(s: State, name: string, id: string)
    requires Consistent(s) && id in s.pending && CallsOf(s.calls, id) == []
    ensures
      var t := Requested(s, name, true);
      CallsOf(t.calls, id) == [] && id in t.requests && id in t.pending && t.listening == s.listening
  {
  }

  lemma DestroyedOne(s: State, id: string)
    requires id in s.pending && id in s.requests && CallsOf(s.calls, id) == []
    ensures CallsOf(Destroyed(s).calls, id) == [Cancelled] && id in Destroyed(s).requests
  {
    CalledAt(s.calls, s.pending.Keys, Cancelled);
  }

  /** A step that says nothing about a pending promise leaves it pending. */
  lemma StillPending(s: State, step: Step, id: string)
    requires Consistent(s) && Enabled(s, step) && !Throws(step)
    requires id in s.pending && id in s.requests && CallsOf(s.calls, id) == []
    ensures
      var t, o := Apply(s, step), Says(s.listening, step, id);
      && CallsOf(t.calls, id) == o && id in t.requests
      && (o == [] ==> id in t.pending && t.listening == s.listening)
  {
    match step
    case Request(name, _) => RequestedOther(s, name, id);
    case Notify =>
    case Response(other, reply) => SettledOne(s, other, OutcomeOf(reply), id);
    case TimerFires(other) => SettledOne(s, other, TimedOut, id);
    case Destroy => DestroyedOne(s, id);
  }

  /** Over every run without a throwing post, the one call a promise sees is that of the first of its
      response, its timer and `destroy`, and it sees none before. */
  lemma {:induction false} FirstOutcomeWins(s: State, steps: seq<Step>, id: string)
    requires Consistent(s) && ExactlyOnce(s) && Legal(s, steps) && id in s.pending
    requires forall k :: 0 <= k < |steps| ==> !Throws(steps[k])
    ensures CallsOf(Run(s, steps).calls, id) == FirstOutcome(s.listening, steps, id)
    decreases |steps|
  {
    if steps != [] {
      var t := Apply(s, steps[0]);
      StepConsistent(s, steps[0]);
      StepExactlyOnceIff(s, steps[0]);
      StillPending(s, steps[0], id);
      if Says(s.listening, steps[0], id) == [] {
        FirstOutcomeWins(t, steps[1..], id);
      } else {
        SettledStays(t, steps[1..], id);
      }
    }
  }

  /** A new request whose post succeeds is pending under its method name; one whose post throws is
      rejected with that failure. */
  lemma RequestStarts(s: State, name: string, posted: bool)
    requires Consistent(s) && ExactlyOnce(s)
    ensures
      var t, id := Apply(s, Request(name, posted)), IdOf(s.nextId + 1);
      && id in t.pending && t.pending[id] == name && id in t.timers && t.sent == s.sent + [id]
      && CallsOf(t.calls, id) == (if posted then [] else [PostFailed])
      && t.listening == s.listening
  {
    NextIdFresh(s);
    CalledAt(s.calls, {IdOf(s.nextId + 1)}, PostFailed);
    assert CallsOf(s.calls, IdOf(s.nextId + 1)) == [];
  }
}
