/** The extension's event source: one socket at a time, opened with a fetched ticket, reopened after a
    growing delay, and frames handed on in batches once per animation frame. Handlers return
    normally, and `new WebSocket` does not throw. */
module WheelEvents {
  import opened Options

  const BASE_RECONNECT_DELAY_MS := 1000
  const MAX_RECONNECT_DELAY_MS := 30000

  /** A parsed frame. `JSON.parse` also accepts the text `null`, which has no `payload` to look up. */
  datatype Frame = JsonNull | Json(text: string)

  /** The connection: `ws`, `timer`, `attempt` and `disposed` are the object's fields; the host holds
      `tickets` (fetches in flight), `live` (sockets that can still send) and `hooked` (those with a
      close handler); `delays` are the ones chosen since a socket last opened. */
  datatype Connection = Connection(
    ws: Option<nat>,
    timer: Option<nat>,
    attempt: nat,
    disposed: bool,
    tickets: nat,
    nextSocket: nat,
    live: set<nat>,
    hooked: set<nat>,
    delays: seq<nat>)

  /** The frame queue: `pending` and `flushScheduled` are the object's fields, `flushes` the animation
      frames requested, and `parsed` and `dispatched` all frames that came in and went out. */
  datatype Queue = Queue(
    pending: seq<Frame>,
    flushScheduled: bool,
    flushes: nat,
    parsed: seq<Frame>,
    dispatched: seq<Frame>)

  datatype State = State(conn: Connection, queue: Queue)

  const INITIAL := State(Connection(None, None, 0, false, 0, 0, {}, {}, []), Queue([], false, 0, [], []))

  datatype Step =
    | Connect
    | TicketArrives(ok: bool)
    | SocketOpens(socket: nat)
    | SocketSends(socket: nat, frame: Option<Frame>)
    | SocketCloses(socket: nat)
    | TimerFires
    | Flush
    | Disconnect

  predicate Enabled(s: State, step: Step) {
    match step
    case Connect => true
    case TicketArrives(_) => s.conn.tickets > 0
    case SocketOpens(n) => n in s.conn.live
    case SocketSends(n, _) => n in s.conn.live
    case SocketCloses(n) => n in s.conn.live
    case TimerFires => s.conn.timer.Some?
    case Flush => s.queue.flushes > 0
    case Disconnect => true
  }

  // ---- Effects ---------------------------------------------------------------------------------

  function Pow2(n: nat): nat {
    if n == 0 then 1 else 2 * Pow2(n - 1)
  }

  function DelayFor(attempt: nat): nat {
    var d := BASE_RECONNECT_DELAY_MS * Pow2(attempt);
    if d < MAX_RECONNECT_DELAY_MS then d else MAX_RECONNECT_DELAY_MS
  }

  function Scheduled(c: Connection): Connection {
    if c.disposed || c.timer.Some? then c
    else c.(attempt := c.attempt + 1,
            timer := Some(DelayFor(c.attempt)),
            delays := c.delays + [DelayFor(c.attempt)])
  }

  function Connecting(c: Connection): Connection {
    if c.disposed then c else c.(tickets := c.tickets + 1)
  }

  function WithSocket(c: Connection): Connection {
    c.(ws := Some(c.nextSocket),
       nextSocket := c.nextSocket + 1,
       live := c.live + {c.nextSocket},
       hooked := c.hooked + {c.nextSocket})
  }

  function Ticketed(c: Connection, ok: bool): Connection
    requires c.tickets > 0
  {
    var t := c.(tickets := c.tickets - 1);
    if ok then WithSocket(t) else Scheduled(t)
  }

  function Received(q: Queue, frame: Option<Frame>): Queue {
    match frame
    case None => q
    case Some(f) =>
      q.(pending := q.pending + [f],
         parsed := q.parsed + [f],
         flushes := if q.flushScheduled then q.flushes else q.flushes + 1,
         flushScheduled := true)
  }

  function Closed(c: Connection, n: nat): Connection {
    var t := c.(live := c.live - {n}, hooked := c.hooked - {n});
    if n !in c.hooked then t else Scheduled(t.(ws := None))
  }

  /** What is dispatched of a batch: looking up the payload of `null` throws, and the frames after it
      have already left the queue. */
  function UpToNull(batch: seq<Frame>): seq<Frame> {
    if batch == [] || batch[0].JsonNull? then [] else [batch[0]] + UpToNull(batch[1..])
  }

  lemma {:induction false} UpToNullAt(batch: seq<Frame>, i: nat)
    requires i <= |batch| && JsonNull !in batch[..i]
    requires i < |batch| ==> batch[i].JsonNull?
    ensures UpToNull(batch) == batch[..i]
    decreases i
  {
    if i > 0 {
      assert batch[1..][..i - 1] == batch[1..i];
      assert batch[..i] == [batch[0]] + batch[1..i];
      UpToNullAt(batch[1..], i - 1);
    }
  }

  function Flushed(q: Queue): Queue
    requires q.flushes > 0
  {
    q.(flushScheduled := false,
       flushes := q.flushes - 1,
       pending := [],
       dispatched := q.dispatched + UpToNull(q.pending))
  }

  function Disconnected(c: Connection): Connection {
    c.(disposed := true,
       timer := None,
       ws := None,
       hooked := if c.ws.Some? then c.hooked - {c.ws.value} else c.hooked)
  }

  function Apply(s: State, step: Step): State
    requires Enabled(s, step)
  {
    match step
    case Connect => s.(conn := Connecting(s.conn))
    case TicketArrives(ok) => s.(conn := Ticketed(s.conn, ok))
    case SocketOpens(_) => s.(conn := s.conn.(attempt := 0, delays := []))
    case SocketSends(_, frame) => s.(queue := Received(s.queue, frame))
    case SocketCloses(n) => s.(conn := Closed(s.conn, n))
    case TimerFires => s.(conn := Connecting(s.conn.(timer := None)))
    case Flush => s.(queue := Flushed(s.queue))
    case Disconnect => s.(conn := Disconnected(s.conn))
  }

  predicate Legal(s: State, steps: seq<Step>)
    decreases |steps|
  {
    steps == [] || (Enabled(s, steps[0]) && Legal(Apply(s, steps[0]), steps[1..]))
  }

  function Run(s: State, steps: seq<Step>): State
    requires Legal(s, steps)
    decreases |steps|
  {
    if steps == [] then s else Run(Apply(s, steps[0]), steps[1..])
  }

  // ---- The event source ------------------------------------------------------------------------

  class WheelEventSource {
    var ws: Option<nat>
    var reconnectAttempt: nat
    var reconnectTimer: Option<nat>
    var disposed: bool
    var pendingFrames: seq<Frame>
    var flushScheduled: bool
    var nextSocket: nat
    ghost var tickets: nat
    ghost var live: set<nat>
    ghost var hooked: set<nat>
    ghost var flushes: nat
    ghost var parsed: seq<Frame>
    ghost var dispatched: seq<Frame>
    ghost var delays: seq<nat>

    ghost function View(): State
      reads this
    {
      State(Connection(ws, reconnectTimer, reconnectAttempt, disposed, tickets, nextSocket, live, hooked, delays),
            Queue(pendingFrames, flushScheduled, flushes, parsed, dispatched))
    }

    constructor ()
      ensures View() == INITIAL
    {
      ws, reconnectAttempt, reconnectTimer, disposed := None, 0, None, false;
      pendingFrames, flushScheduled, nextSocket := [], false, 0;
      tickets, live, hooked, flushes, parsed, dispatched, delays := 0, {}, {}, 0, [], [], [];
    }

    /** `connect` up to the ticket request. */
    method Connect()
      modifies this
      ensures View() == Apply(old(View()), Step.Connect)
    {
      if disposed {
        return;
      }
      tickets := tickets + 1;
    }

    /** `connect` from the answer of the ticket request on. */
    method ResumeConnect(ticket: bool)
      requires tickets > 0
      modifies this
      ensures View() == Apply(old(View()), TicketArrives(ticket))
    {
      tickets := tickets - 1;
      if !ticket {
        ScheduleReconnect();
        return;
      }
      ws := Some(nextSocket);
      live, hooked := live + {nextSocket}, hooked + {nextSocket};
      nextSocket := nextSocket + 1;
    }

    method OnOpen(socket: nat)
      requires socket in live
      modifies this
      ensures View() == Apply(old(View()), SocketOpens(socket))
    {
      reconnectAttempt := 0;
      delays := [];
    }

    method OnClose(socket: nat)
      requires socket in live && socket in hooked
      modifies this
      ensures View() == Apply(old(View()), SocketCloses(socket))
    {
      live, hooked := live - {socket}, hooked - {socket};
      ws := None;
      if !disposed {
        ScheduleReconnect();
      }
    }

    method Disconnect()
      modifies this
      ensures View() == Apply(old(View()), Step.Disconnect)
    {
      disposed := true;
      if reconnectTimer.Some? {
        reconnectTimer := None;
      }
      if ws.Some? {
        hooked := hooked - {ws.value};
        ws := None;
      }
    }

    /** `handleFrame`; `frame` is nothing when the text is not JSON. */
    method HandleFrame(socket: nat, frame: Option<Frame>)
      requires socket in live
      modifies this
      ensures View() == Apply(old(View()), SocketSends(socket, frame))
    {
      if frame.None? {
        return;
      }
      pendingFrames := pendingFrames + [frame.value];
      parsed := parsed + [frame.value];
      if !flushScheduled {
        flushScheduled := true;
        flushes := flushes + 1;
      }
    }

    method FlushFrames()
      requires flushes > 0
      modifies this
      ensures View() == Apply(old(View()), Flush)
    {
      flushScheduled, flushes := false, flushes - 1;
      var batch := pendingFrames;
      pendingFrames := [];
      DispatchFrames(batch);
    }

    /** The loop of `flushFrames`: it ends early when looking into a frame throws. */
    method DispatchFrames(batch: seq<Frame>)
      modifies this`dispatched
      ensures dispatched == old(dispatched) + UpToNull(batch)
    {
      for i := 0 to |batch|
        invariant JsonNull !in batch[..i]
        invariant dispatched == old(dispatched) + batch[..i]
      {
        if batch[i].JsonNull? {
          UpToNullAt(batch, i);
          return;
        }
        dispatched := dispatched + [batch[i]];
        assert batch[..i + 1] == batch[..i] + [batch[i]];
      }
      UpToNullAt(batch, |batch|);
    }

    method ScheduleReconnect()
      modifies this
      ensures View() == old(View()).(conn := Scheduled(old(View().conn)))
    {
      if disposed || reconnectTimer.Some? {
        return;
      }
      var delay := DelayFor(reconnectAttempt);
      reconnectAttempt := reconnectAttempt + 1;
      delays := delays + [delay];
      reconnectTimer := Some(delay);
    }

    method OnTimer()
      requires reconnectTimer.Some?
      modifies this
      ensures View() == Apply(old(View()), TimerFires)
    {
      reconnectTimer := None;
      Connect();
    }
  }

  // ---- One activity at a time ------------------------------------------------------------------

  function One(b: bool): nat {
    if b then 1 else 0
  }

  /** Awaiting a ticket, holding a socket, and waiting to reconnect: how many of the three. */
  function Activities(c: Connection): nat {
    c.tickets + One(c.ws.Some?) + One(c.timer.Some?)
  }

  /** What every state after one initial `connect` satisfies. */
  ghost predicate Orderly(c: Connection) {
    && (forall n :: n in c.live ==> n < c.nextSocket)
    && c.hooked <= c.live
    && c.hooked == (if c.ws.Some? then {c.ws.value} else {})
    && (!c.disposed ==> Activities(c) == 1 && c.live == c.hooked)
    && (c.disposed ==> c.timer.None? && c.tickets + One(c.ws.Some?) <= 1)
  }

  lemma StepOrderly(s: State, step: Step)
    requires Orderly(s.conn) && Enabled(s, step) && step != Connect
    ensures Orderly(Apply(s, step).conn)
  {
  }

  ghost predicate NoConnect(steps: seq<Step>) {
    forall i :: 0 <= i < |steps| ==> steps[i] != Connect
  }

  lemma {:induction false} RunOrderly(s: State, steps: seq<Step>)
    requires Orderly(s.conn) && Legal(s, steps) && NoConnect(steps)
    ensures Orderly(Run(s, steps).conn)
    decreases |steps|
  {
    if steps != [] {
      StepOrderly(s, steps[0]);
      RunOrderly(Apply(s, steps[0]), steps[1..]);
    }
  }

  /** From one initial `connect`: exactly one of the three activities until disposal, and no armed
      timer after it. */
  lemma OneActivity(steps: seq<Step>)
    requires Legal(Apply(INITIAL, Connect), steps) && NoConnect(steps)
    ensures
      var c := Run(Apply(INITIAL, Connect), steps).conn;
      && (!c.disposed ==> Activities(c) == 1)
      && (c.disposed ==> c.timer.None?)
  {
    RunOrderly(Apply(INITIAL, Connect), steps);
  }

  lemma {:induction false} SocketlessStays(s: State, steps: seq<Step>)
    requires s.conn.disposed && s.conn.tickets == 0 && s.conn.ws.None? && s.conn.timer.None?
    requires Legal(s, steps)
    ensures Run(s, steps).conn.ws.None?
    decreases |steps|
  {
    if steps != [] {
      SocketlessStays(Apply(s, steps[0]), steps[1..]);
    }
  }

  ghost predicate SocketlessForever(s: State) {
    forall steps :: Legal(s, steps) ==> Run(s, steps).conn.ws.None?
  }

  /** Disposal leaves the source without a socket for good exactly when no ticket was being fetched:
      a ticket that arrives afterwards still opens one. */
  lemma DisposalFinalIff(s: State)
    requires Orderly(s.conn)
    ensures SocketlessForever(Apply(s, Disconnect)) <==> s.conn.tickets == 0
  {
    var d := Apply(s, Disconnect);
    if s.conn.tickets == 0 {
      forall steps | Legal(d, steps)
        ensures Run(d, steps).conn.ws.None?
      {
        SocketlessStays(d, steps);
      }
    } else {
      var late := [TicketArrives(true)];
      var t := Apply(d, late[0]);
      assert late[1..] == [] && Legal(t, []) && Run(t, []) == t;
      assert Legal(d, late) && Run(d, late) == t;
    }
  }

  // ---- Delays ----------------------------------------------------------------------------------

  /** The k-th delay since a socket last opened is the k-th of one fixed sequence. */
  ghost predicate DelaysFollow(c: Connection) {
    c.attempt == |c.delays| && forall k :: 0 <= k < |c.delays| ==> c.delays[k] == DelayFor(k)
  }

  lemma {:induction false} RunDelays(s: State, steps: seq<Step>)
    requires DelaysFollow(s.conn) && Legal(s, steps)
    ensures DelaysFollow(Run(s, steps).conn)
    decreases |steps|
  {
    if steps != [] {
      assert DelaysFollow(Apply(s, steps[0]).conn);
      RunDelays(Apply(s, steps[0]), steps[1..]);
    }
  }

  lemma {:induction false} Pow2Grows(m: nat, n: nat)
    requires m <= n
    ensures 1 <= Pow2(m) <= Pow2(n)
    decreases n
  {
    if n > m {
      Pow2Grows(m, n - 1);
    } else if n > 0 {
      Pow2Grows(m - 1, n - 1);
    }
  }

  /** Until a socket opens, consecutive delays never shrink and stay between one and thirty seconds. */
  lemma DelaysGrow(steps: seq<Step>, i: nat, j: nat)
    requires Legal(INITIAL, steps)
    requires i <= j < |Run(INITIAL, steps).conn.delays|
    ensures
      var delays := Run(INITIAL, steps).conn.delays;
      BASE_RECONNECT_DELAY_MS <= delays[i] <= delays[j] <= MAX_RECONNECT_DELAY_MS
  {
    RunDelays(INITIAL, steps);
    Pow2Grows(i, j);
  }

  // ---- Frames ----------------------------------------------------------------------------------

  /** At most one animation frame is requested, and one is whenever a frame waits. */
  ghost predicate Batched(q: Queue) {
    && q.flushes == One(q.flushScheduled)
    && (q.pending != [] ==> q.flushScheduled)
    && |q.pending| <= |q.parsed|
    && q.parsed[|q.parsed| - |q.pending|..] == q.pending
  }

  /** The frames that have left the queue. */
  function Taken(q: Queue): seq<Frame>
    requires |q.pending| <= |q.parsed|
  {
    q.parsed[..|q.parsed| - |q.pending|]
  }

  /** Frames taken are frames dispatched, in order, until a `null` is among them; from then on
      something is missing. */
  ghost predicate Accounted(q: Queue) {
    && Batched(q)
    && (JsonNull !in Taken(q) ==> q.dispatched == Taken(q))
    && (JsonNull in Taken(q) ==> |q.dispatched| < |Taken(q)|)
  }

  lemma {:induction false} UpToNullAll(batch: seq<Frame>)
    ensures JsonNull !in batch ==> UpToNull(batch) == batch
    ensures JsonNull in batch ==> |UpToNull(batch)| < |batch|
  {
    if batch != [] {
      UpToNullAll(batch[1..]);
      assert batch == [batch[0]] + batch[1..];
    }
  }

  lemma ReceivedAccounted(q: Queue, frame: Option<Frame>)
    requires Accounted(q)
    ensures Accounted(Received(q, frame))
  {
    if frame.Some? {
      var t := Received(q, frame);
      assert Taken(t) == Taken(q);
      assert t.parsed[|t.parsed| - |t.pending|..] == q.parsed[|q.parsed| - |q.pending|..] + [frame.value];
    }
  }

  lemma FlushedAccounted(q: Queue)
    requires Accounted(q) && q.flushes > 0
    ensures Accounted(Flushed(q)) && Flushed(q).pending == []
  {
    UpToNullAll(q.pending);
    assert Taken(Flushed(q)) == q.parsed == Taken(q) + q.pending;
  }

  lemma {:induction false} RunAccounted(s: State, steps: seq<Step>)
    requires Accounted(s.queue) && Legal(s, steps)
    ensures Accounted(Run(s, steps).queue)
    decreases |steps|
  {
    if steps != [] {
      match steps[0] {
        case SocketSends(_, frame) => ReceivedAccounted(s.queue, frame);
        case Flush => FlushedAccounted(s.queue);
        case _ =>
      }
      RunAccounted(Apply(s, steps[0]), steps[1..]);
    }
  }

  lemma AccountedFifo(q: Queue)
    requires Accounted(q)
    ensures q.parsed == q.dispatched + q.pending <==> JsonNull !in Taken(q)
  {
  }

  /** In every reachable state the parsed frames are the dispatched ones followed by the waiting ones,
      in arrival order, exactly when no `null` frame has been taken from the queue; and whatever
      waits has its flush requested. */
  lemma FifoIff(steps: seq<Step>)
    requires Legal(INITIAL, steps)
    ensures
      var q := Run(INITIAL, steps).queue;
      && |q.pending| <= |q.parsed|
      && (q.parsed == q.dispatched + q.pending <==> JsonNull !in Taken(q))
      && (q.pending != [] ==> q.flushes == 1)
  {
    RunAccounted(INITIAL, steps);
    AccountedFifo(Run(INITIAL, steps).queue);
  }

  // ---- What was sent and what is handed on -----------------------------------------------------

  /** The frames the sockets sent that are JSON, in arrival order. */
  function FramesOf(steps: seq<Step>): seq<Frame>
    decreases |steps|
  {
    if steps == [] then []
    else
      FramesOf(steps[..|steps| - 1]) +
      match steps[|steps| - 1]
      case SocketSends(_, Some(frame)) => [frame]
      case _ => []
  }

  lemma {:induction false} RunSnoc(s: State, steps: seq<Step>)
    requires Legal(s, steps) && steps != []
    ensures Legal(s, steps[..|steps| - 1])
    ensures Enabled(Run(s, steps[..|steps| - 1]), steps[|steps| - 1])
    ensures Run(s, steps) == Apply(Run(s, steps[..|steps| - 1]), steps[|steps| - 1])
    decreases |steps|
  {
    var front := steps[..|steps| - 1];
    if front == [] {
      assert steps[1..] == [];
    } else {
      assert front[1..] == steps[1..][..|steps| - 2] && front[0] == steps[0];
      RunSnoc(Apply(s, steps[0]), steps[1..]);
    }
  }

  /** Every frame that parses is taken in, whatever the source is doing. */
  lemma {:induction false} AllFramesParsed(s: State, steps: seq<Step>)
    requires Legal(s, steps)
    ensures Run(s, steps).queue.parsed == s.queue.parsed + FramesOf(steps)
    decreases |steps|
  {
    if steps != [] {
      RunSnoc(s, steps);
      AllFramesParsed(s, steps[..|steps| - 1]);
    }
  }

  /** The frames sent up to and including some step that a flush has taken: those sent before the last
      flush. */
  function FramesFlushed(steps: seq<Step>): seq<Frame>
    decreases |steps|
  {
    if steps == [] then []
    else if steps[|steps| - 1].Flush? then FramesOf(steps)
    else FramesFlushed(steps[..|steps| - 1])
  }

  /** Only a flush takes anything, and it takes all that has come in. */
  lemma StepTakes(s: State, step: Step)
    requires Enabled(s, step) && Accounted(s.queue)
    ensures
      var t := Apply(s, step);
      Accounted(t.queue) && Taken(t.queue) == if step.Flush? then t.queue.parsed else Taken(s.queue)
  {
    match step
    case SocketSends(_, frame) => TakenStays(s.queue, frame);
    case Flush => FlushedAccounted(s.queue);
    case _ =>
  }

  lemma {:induction false} TakenAreFlushed(steps: seq<Step>)
    requires Legal(INITIAL, steps)
    ensures Accounted(Run(INITIAL, steps).queue) && Taken(Run(INITIAL, steps).queue) == FramesFlushed(steps)
    decreases |steps|
  {
    if steps != [] {
      var front := steps[..|steps| - 1];
      RunSnoc(INITIAL, steps);
      TakenAreFlushed(front);
      StepTakes(Run(INITIAL, front), steps[|steps| - 1]);
      AllFramesParsed(INITIAL, steps);
    }
  }

  lemma TakenStays(q: Queue, frame: Option<Frame>)
    requires Accounted(q)
    ensures Accounted(Received(q, frame)) && Taken(Received(q, frame)) == Taken(q)
  {
    ReceivedAccounted(q, frame);
  }

  /** First in, first out, over what the sockets sent: in every reachable state the frames sent are those
      dispatched followed by those waiting exactly when none sent before the last flush is `null`. In
      particular, without `null` frames, each is dispatched once, in arrival order, at the next flush. */
  lemma SentFifoIff(steps: seq<Step>)
    requires Legal(INITIAL, steps)
    ensures
      var q := Run(INITIAL, steps).queue;
      && (FramesOf(steps) == q.dispatched + q.pending <==> JsonNull !in FramesFlushed(steps))
      && (JsonNull !in FramesFlushed(steps) ==> q.dispatched == FramesFlushed(steps))
      && FramesOf(steps) == FramesFlushed(steps) + q.pending
  {
    var q := Run(INITIAL, steps).queue;
    AllFramesParsed(INITIAL, steps);
    TakenAreFlushed(steps);
    AccountedFifo(q);
    assert q.parsed == Taken(q) + q.pending;
  }

  /** What a flush dispatches: everything waiting up to the first `null`, and nothing after it. */
  lemma FlushDispatches(q: Queue, i: nat)
    requires q.flushes > 0 && i <= |q.pending| && JsonNull !in q.pending[..i]
    requires i < |q.pending| ==> q.pending[i].JsonNull?
    ensures Flushed(q).dispatched == q.dispatched + q.pending[..i] && Flushed(q).pending == []
  {
    UpToNullAt(q.pending, i);
  }

  // ---- Which delay it is -----------------------------------------------------------------------

  /** How often a ticket failed or a socket closed since one last opened. */
  function FailuresSinceOpen(steps: seq<Step>): nat
    decreases |steps|
  {
    if steps == [] then 0
    else
      match steps[|steps| - 1]
      case SocketOpens(_) => 0
      case TicketArrives(ok) => FailuresSinceOpen(steps[..|steps| - 1]) + if ok then 0 else 1
      case SocketCloses(_) => FailuresSinceOpen(steps[..|steps| - 1]) + 1
      case _ => FailuresSinceOpen(steps[..|steps| - 1])
  }

  /** One second, doubled with each further failure, up to thirty seconds. */
  function Backoff(failures: nat): nat
    requires failures > 0
  {
    if failures == 1 then 1000
    else if 2 * Backoff(failures - 1) < 30000 then 2 * Backoff(failures - 1) else 30000
  }

  lemma {:induction false} BackoffIsDelay(n: nat)
    ensures Backoff(n + 1) == DelayFor(n)
  {
    if n > 0 {
      BackoffIsDelay(n - 1);
    }
  }

  lemma {:induction false} AttemptsCounted(steps: seq<Step>)
    requires Legal(Apply(INITIAL, Connect), steps) && NoConnect(steps)
    ensures
      var c := Run(Apply(INITIAL, Connect), steps).conn;
      && Orderly(c)
      && (!c.disposed ==> c.attempt == FailuresSinceOpen(steps))
      && (c.timer.Some? ==> c.attempt > 0 && c.timer.value == DelayFor(c.attempt - 1))
    decreases |steps|
  {
    var first := Apply(INITIAL, Connect);
    RunOrderly(first, steps);
    if steps != [] {
      RunSnoc(first, steps);
      AttemptsCounted(steps[..|steps| - 1]);
      RunOrderly(first, steps[..|steps| - 1]);
    }
  }

  /** From one initial `connect`: an armed timer waits one second after the first failure since a socket
      last opened, twice as long after each further one, and never more than thirty seconds. */
  lemma TimerFollowsFailures(steps: seq<Step>)
    requires Legal(Apply(INITIAL, Connect), steps) && NoConnect(steps)
    requires Run(Apply(INITIAL, Connect), steps).conn.timer.Some?
    ensures FailuresSinceOpen(steps) > 0
    ensures Run(Apply(INITIAL, Connect), steps).conn.timer == Some(Backoff(FailuresSinceOpen(steps)))
  {
    AttemptsCounted(steps);
    BackoffIsDelay(Run(Apply(INITIAL, Connect), steps).conn.attempt - 1);
  }
}
