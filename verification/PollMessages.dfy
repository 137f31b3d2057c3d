/** The `wheel_poll_messages` cursor: a client that feeds the returned cursor back sees every message
    once and in order. */
module PollMessages {

  datatype Message = Message(seqNo: nat, body: string)

  /** `all.filter(m => m.seq > cursor)`. */
  function Fresh(all: seq<Message>, cursor: nat): seq<Message> {
    if all == [] then []
    else (if all[0].seqNo > cursor then [all[0]] else []) + Fresh(all[1..], cursor)
  }

  /** `Math.max(...news.map(m => m.seq))`. */
  function MaxSeq(ms: seq<Message>): (m: nat)
    requires ms != []
    ensures exists i :: 0 <= i < |ms| && ms[i].seqNo == m
    ensures forall i :: 0 <= i < |ms| ==> ms[i].seqNo <= m
  {
    if |ms| == 1 then ms[0].seqNo
    else
      var rest := MaxSeq(ms[1..]);
      if rest > ms[0].seqNo then rest else ms[0].seqNo
  }

  function NextCursor(news: seq<Message>, cursor: nat): nat {
    if news != [] then MaxSeq(news) else cursor
  }

  // ---- Appends and polls, in any interleaving --------------------------------------------------

  datatype Step = Append(message: Message) | Poll

  /** `seen` is the concatenation of the batches returned so far. */
  datatype State = State(log: seq<Message>, cursor: nat, seen: seq<Message>)

  const INITIAL := State([], 0, [])

  predicate Enabled(s: State, step: Step) {
    step.Append? ==> step.message.seqNo > if s.log == [] then 0 else s.log[|s.log| - 1].seqNo
  }

  function Apply(s: State, step: Step): State {
    match step
    case Append(m) => s.(log := s.log + [m])
    case Poll =>
      var news := Fresh(s.log, s.cursor);
      s.(cursor := NextCursor(news, s.cursor), seen := s.seen + news)
  }

  predicate Legal(s: State, steps: seq<Step>)
    decreases |steps|
  {
    steps == [] || (Enabled(s, steps[0]) && Legal(Apply(s, steps[0]), steps[1..]))
  }

  function Run(s: State, steps: seq<Step>): State
    decreases |steps|
  {
    if steps == [] then s else Run(Apply(s, steps[0]), steps[1..])
  }

  ghost predicate Increasing(log: seq<Message>) {
    && (forall i :: 0 <= i < |log| ==> log[i].seqNo > 0)
    && (forall i, j :: 0 <= i < j < |log| ==> log[i].seqNo < log[j].seqNo)
  }

  /** What has been seen is a prefix of the log, and the cursor stands at its end. */
  ghost predicate InStep(s: State) {
    && Increasing(s.log)
    && s.seen <= s.log
    && s.cursor == if s.seen == [] then 0 else s.seen[|s.seen| - 1].seqNo
  }

  lemma {:induction false} FreshAll(log: seq<Message>, cursor: nat)
    requires forall i :: 0 <= i < |log| ==> log[i].seqNo > cursor
    ensures Fresh(log, cursor) == log
  {
    if log != [] {
      FreshAll(log[1..], cursor);
    }
  }

  /** Filtering by the cursor cuts the log after its first `n` messages. */
  lemma {:induction false} FreshIsSuffix(log: seq<Message>, n: nat, cursor: nat)
    requires n <= |log|
    requires forall i :: 0 <= i < n ==> log[i].seqNo <= cursor
    requires forall i :: n <= i < |log| ==> log[i].seqNo > cursor
    ensures Fresh(log, cursor) == log[n..]
    decreases n
  {
    if n == 0 {
      FreshAll(log, cursor);
    } else {
      FreshIsSuffix(log[1..], n - 1, cursor);
      assert log[1..][n - 1..] == log[n..];
    }
  }

  lemma LastIsMax(log: seq<Message>, n: nat)
    requires Increasing(log) && n < |log|
    ensures MaxSeq(log[n..]) == log[|log| - 1].seqNo
  {
    var ms := log[n..];
    assert ms[|ms| - 1] == log[|log| - 1];
  }

  /** The sequence number the cursor stands at after the first `n` messages. */
  function SeqAfter(log: seq<Message>, n: nat): nat
    requires n <= |log|
  {
    if n == 0 then 0 else log[n - 1].seqNo
  }

  lemma NextCursorAtEnd(log: seq<Message>, n: nat)
    requires Increasing(log) && n <= |log|
    ensures NextCursor(log[n..], SeqAfter(log, n)) == SeqAfter(log, |log|)
  {
    if n < |log| {
      LastIsMax(log, n);
    } else {
      assert log[n..] == [];
    }
  }

  lemma CursorCutsLog(s: State)
    requires InStep(s)
    ensures Fresh(s.log, s.cursor) == s.log[|s.seen|..]
    ensures s.seen == s.log[..|s.seen|] && s.cursor == SeqAfter(s.log, |s.seen|)
  {
    FreshIsSuffix(s.log, |s.seen|, s.cursor);
  }

  /** A poll that returns what was not seen of the log. */
  lemma PollOf(s: State, news: seq<Message>, end: nat)
    requires s.seen + news == s.log && Fresh(s.log, s.cursor) == news && NextCursor(news, s.cursor) == end
    ensures Apply(s, Poll) == State(s.log, end, s.log)
  {
  }

  lemma SeenAndRest(s: State)
    requires s.seen <= s.log
    ensures s.seen + s.log[|s.seen|..] == s.log
  {
  }

  /** A poll shows the whole log, leaves it as it is and moves the cursor to its end. */
  lemma PollCatchesUp(s: State)
    requires InStep(s)
    ensures Apply(s, Poll) == State(s.log, SeqAfter(s.log, |s.log|), s.log)
  {
    CursorCutsLog(s);
    NextCursorAtEnd(s.log, |s.seen|);
    SeenAndRest(s);
    PollOf(s, s.log[|s.seen|..], SeqAfter(s.log, |s.log|));
  }

  /** One poll returns exactly what was appended since the last, and catches up with the log. */
  lemma PollInStep(s: State)
    requires InStep(s)
    ensures Fresh(s.log, s.cursor) == s.log[|s.seen|..]
    ensures InStep(Apply(s, Poll)) && Apply(s, Poll).seen == s.log
  {
    CursorCutsLog(s);
    PollCatchesUp(s);
  }

  lemma AppendInStep(s: State, message: Message)
    requires InStep(s) && Enabled(s, Append(message))
    ensures InStep(Apply(s, Append(message)))
  {
  }

  lemma {:induction false} RunInStep(s: State, steps: seq<Step>)
    requires InStep(s) && Legal(s, steps)
    ensures InStep(Run(s, steps))
    ensures steps != [] && steps[|steps| - 1].Poll? ==> Run(s, steps).seen == Run(s, steps).log
    decreases |steps|
  {
    if steps != [] {
      match steps[0] {
        case Append(message) => AppendInStep(s, message);
        case Poll => PollInStep(s);
      }
      RunInStep(Apply(s, steps[0]), steps[1..]);
    }
  }

  /** After any interleaving, the batches concatenated are a prefix of the log, and after a poll they
      are the whole log: nothing lost, repeated or reordered. */
  lemma NothingLost(steps: seq<Step>)
    requires Legal(INITIAL, steps)
    ensures Run(INITIAL, steps).seen <= Run(INITIAL, steps).log
    ensures Run(INITIAL, steps + [Poll]).seen == Run(INITIAL, steps).log
  {
    RunInStep(INITIAL, steps);
    RunAppend(INITIAL, steps);
    PollInStep(Run(INITIAL, steps));
  }

  lemma {:induction false} RunAppend(s: State, steps: seq<Step>)
    ensures Run(s, steps + [Poll]) == Apply(Run(s, steps), Poll)
    decreases |steps|
  {
    if steps == [] {
      assert steps + [Poll] == [Poll] && [Poll][1..] == [];
    } else {
      assert (steps + [Poll])[1..] == steps[1..] + [Poll];
      RunAppend(Apply(s, steps[0]), steps[1..]);
    }
  }
}
