/** The event decoder on top of the line splitter: `applyField`, `toSSEEvent` and the async iterator
    of the SDK's `SSEStream`, against sections 9.2.5 and 9.2.6 of the WHATWG HTML Standard. Event
    data is the text handed to `parseJsonOrText`, which stays outside the model. */
module SseEvents {
  import opened Options
  import opened SseLines
  import Decimals

  // ---- Fields ----------------------------------------------------------------------------------

  datatype Pending = Pending(event: Option<string>, id: Option<string>, retry: Option<nat>, dataLines: seq<string>)

  const EMPTY_PENDING := Pending(None, None, None, [])

  datatype SseEvent = SseEvent(event: Option<string>, data: string, id: Option<string>, retry: Option<nat>)

  /** `line.indexOf(":")`, with the length standing for "not found". */
  function ColonIndex(line: string): (k: nat)
    ensures k <= |line|
    ensures k < |line| ==> line[k] == ':'
    ensures ':' !in line[..k]
  {
    if line == "" || line[0] == ':' then 0
    else
      var k := 1 + ColonIndex(line[1..]);
      assert line[..k] == [line[0]] + line[1..][..k - 1];
      k
  }

  function FieldName(line: string): string {
    line[..ColonIndex(line)]
  }

  function FieldValue(line: string): string {
    var k := ColonIndex(line);
    var raw := if k == |line| then "" else line[k + 1..];
    if raw != "" && raw[0] == ' ' then raw[1..] else raw
  }

  function FieldApplied(p: Pending, line: string): Pending {
    var value := FieldValue(line);
    if line != "" && line[0] == ':' then p
    else
      match FieldName(line)
      case "event" => p.(event := Some(value))
      case "data" => p.(dataLines := p.dataLines + [value])
      case "id" => if '\0' in value then p else p.(id := Some(value))
      case "retry" => if value != "" && Decimals.AllDigits(value) then p.(retry := Some(Decimals.Read(value))) else p
      case _ => p
  }

  /** `lines.join("\n")`. */
  function JoinLf(lines: seq<string>): string {
    if lines == [] then ""
    else if |lines| == 1 then lines[0]
    else lines[0] + "\n" + JoinLf(lines[1..])
  }

  function ToSseEvent(p: Pending): Option<SseEvent> {
    if p.dataLines == [] then None
    else Some(SseEvent(p.event, JoinLf(p.dataLines), p.id, p.retry))
  }

  function Emitted(p: Pending): seq<SseEvent> {
    match ToSseEvent(p)
    case None => []
    case Some(e) => [e]
  }

  /** The events of a list of lines, starting from a half-filled event. */
  function Fold(p: Pending, lines: seq<string>): seq<SseEvent>
    decreases |lines|
  {
    if lines == [] then []
    else if lines[0] != "" then Fold(FieldApplied(p, lines[0]), lines[1..])
    else Emitted(p) + Fold(EMPTY_PENDING, lines[1..])
  }

  /** The events of a whole text. */
  function Decode(text: string): seq<SseEvent> {
    Fold(EMPTY_PENDING, Lines(text))
  }

  // ---- The decoder itself ----------------------------------------------------------------------

  class PendingEvent {
    var event: Option<string>
    var id: Option<string>
    var retry: Option<nat>
    var dataLines: seq<string>

    function View(): Pending
      reads this
    {
      Pending(event, id, retry, dataLines)
    }

    constructor ()
      ensures View() == EMPTY_PENDING
    {
      event, id, retry, dataLines := None, None, None, [];
    }

    method ApplyField(line: string)
      modifies this
      ensures View() == FieldApplied(old(View()), line)
    {
      var isComment := line != "" && line[0] == ':';
      if isComment {
        return;
      }
      var colonIndex := ColonIndex(line);
      var field := line[..colonIndex];
      var rawValue := if colonIndex == |line| then "" else line[colonIndex + 1..];
      var value := if rawValue != "" && rawValue[0] == ' ' then rawValue[1..] else rawValue;
      match field {
        case "event" =>
          event := Some(value);
        case "data" =>
          dataLines := dataLines + [value];
        case "id" =>
          if '\0' !in value {
            id := Some(value);
          }
        case "retry" =>
          if value != "" && Decimals.AllDigits(value) {
            retry := Some(Decimals.Read(value));
          }
        case _ =>
      }
    }
  }

  /** The async iterator: whatever the chunks, the events are those of the whole text. */
  method ReadEvents(stream: SseStream, chunks: seq<string>, flush: string) returns (events: seq<SseEvent>)
    requires stream.buffer == ""
    modifies stream
    ensures events == Decode(Concat(chunks) + flush)
  {
    var lines := stream.ReadLines(chunks, flush);
    var pending := new PendingEvent();
    events := [];
    for i := 0 to |lines|
      invariant fresh(pending)
      invariant events + Fold(pending.View(), lines[i..]) == Fold(EMPTY_PENDING, lines)
    {
      var line := lines[i];
      assert lines[i..][1..] == lines[i + 1..];
      if line != "" {
        pending.ApplyField(line);
        continue;
      }
      var event := ToSseEvent(pending.View());
      ghost var before := events;
      assert Fold(pending.View(), lines[i..]) == Emitted(pending.View()) + Fold(EMPTY_PENDING, lines[i + 1..]);
      if event.Some? {
        events := events + [event.value];
      }
      assert events == before + Emitted(pending.View());
      pending := new PendingEvent();
    }
  }

  // ---- Agreement with the Standard's buffers ---------------------------------------------------

  /** The Standard keeps the data as one growing text and the event type as a text that is empty
      when unset; what it dispatches is a type name and a text. */
  datatype Buffers = Buffers(data: string, eventType: string)
  datatype Dispatch = Dispatch(name: string, data: string)

  function StandardField(b: Buffers, line: string): Buffers {
    if line != "" && line[0] == ':' then b
    else
      match FieldName(line)
      case "event" => b.(eventType := FieldValue(line))
      case "data" => b.(data := b.data + FieldValue(line) + "\n")
      case _ => b
  }

  function StandardDispatch(b: Buffers): seq<Dispatch> {
    if b.data == "" then []
    else
      var data := if b.data[|b.data| - 1] == '\n' then b.data[..|b.data| - 1] else b.data;
      [Dispatch(if b.eventType == "" then "message" else b.eventType, data)]
  }

  function StandardFold(b: Buffers, lines: seq<string>): seq<Dispatch>
    decreases |lines|
  {
    if lines == [] then []
    else if lines[0] != "" then StandardFold(StandardField(b, lines[0]), lines[1..])
    else StandardDispatch(b) + StandardFold(Buffers("", ""), lines[1..])
  }

  /** How a listener of the decoder names an event: no `event` field, or an empty one, is "message". */
  function AsDispatch(e: SseEvent): Dispatch {
    Dispatch(if e.event.None? || e.event.value == "" then "message" else e.event.value, e.data)
  }

  function AsDispatches(events: seq<SseEvent>): seq<Dispatch> {
    seq(|events|, i requires 0 <= i < |events| => AsDispatch(events[i]))
  }

  /** The data buffer the Standard has when the decoder has these data lines. */
  function DataBuffer(lines: seq<string>): string {
    if lines == [] then "" else DataBuffer(lines[..|lines| - 1]) + lines[|lines| - 1] + "\n"
  }

  function BuffersOf(p: Pending): Buffers {
    Buffers(DataBuffer(p.dataLines), if p.event.Some? then p.event.value else "")
  }

  lemma {:induction false} JoinLfSnoc(lines: seq<string>, last: string)
    ensures JoinLf(lines + [last]) == if lines == [] then last else JoinLf(lines) + "\n" + last
  {
    if |lines| == 1 {
      assert (lines + [last])[1..] == [last];
    } else if |lines| > 1 {
      JoinLfSnoc(lines[1..], last);
      assert (lines + [last])[1..] == lines[1..] + [last];
      assert lines[0] + "\n" + (JoinLf(lines[1..]) + "\n" + last) == lines[0] + "\n" + JoinLf(lines[1..]) + "\n" + last;
    } else {
      assert lines + [last] == [last];
    }
  }

  /** The Standard's buffer is the joined lines with one LF more. */
  lemma {:induction false} DataBufferIsJoin(lines: seq<string>)
    ensures lines != [] ==> DataBuffer(lines) == JoinLf(lines) + "\n"
  {
    if lines != [] {
      var front, last := lines[..|lines| - 1], lines[|lines| - 1];
      assert lines == front + [last];
      DataBufferIsJoin(front);
      JoinLfSnoc(front, last);
      assert "" + last == last;
    }
  }

  lemma DispatchAgrees(p: Pending)
    ensures AsDispatches(Emitted(p)) == StandardDispatch(BuffersOf(p))
  {
    DataBufferIsJoin(p.dataLines);
    if p.dataLines != [] {
      var b := BuffersOf(p).data;
      assert b[..|b| - 1] == JoinLf(p.dataLines);
    }
  }

  lemma FieldAgrees(p: Pending, line: string)
    ensures BuffersOf(FieldApplied(p, line)) == StandardField(BuffersOf(p), line)
  {
    var lines := p.dataLines + [FieldValue(line)];
    assert lines[..|lines| - 1] == p.dataLines;
  }

  /** For every list of lines the decoder's event names and data are the Standard's. */
  lemma {:induction false} DecodesLikeTheStandard(p: Pending, lines: seq<string>)
    ensures AsDispatches(Fold(p, lines)) == StandardFold(BuffersOf(p), lines)
    decreases |lines|
  {
    if lines != [] {
      if lines[0] != "" {
        FieldAgrees(p, lines[0]);
        DecodesLikeTheStandard(FieldApplied(p, lines[0]), lines[1..]);
      } else {
        DispatchAgrees(p);
        DecodesLikeTheStandard(EMPTY_PENDING, lines[1..]);
        var e, f := Emitted(p), Fold(EMPTY_PENDING, lines[1..]);
        assert AsDispatches(e + f) == AsDispatches(e) + AsDispatches(f);
      }
    }
  }

  // ---- Writing events and reading them back ----------------------------------------------------

  datatype Message = Message(event: Option<string>, id: Option<string>, retry: Option<nat>, data: seq<string>)

  /** The choices section 9.2.5 leaves to the writer of a field: the optional space after the colon, and
      a bare field name for an empty value. */
  datatype Style = Style(space: bool, bare: bool)

  /** A line of an event: a comment or a field, in any order. */
  datatype Item = Comment(text: string) | Field(name: string, value: string, style: Style)

  ghost predicate AllBreakFree(lines: seq<string>) {
    forall i :: 0 <= i < |lines| ==> BreakFree(lines[i])
  }

  function FieldLine(name: string, value: string, st: Style): string {
    if value == "" && st.bare then name
    else if st.space || (value != "" && value[0] == ' ') then name + ": " + value
    else name + ":" + value
  }

  function ItemLine(item: Item): string {
    match item
    case Comment(text) => ":" + text
    case Field(name, value, style) => FieldLine(name, value, style)
  }

  function ItemLines(items: seq<Item>): (lines: seq<string>)
    ensures |lines| == |items|
  {
    seq(|items|, i requires 0 <= i < |items| => ItemLine(items[i]))
  }

  /** The values of the data fields, in order. */
  function Datas(items: seq<Item>): seq<string> {
    if items == [] then []
    else
      var last := items[|items| - 1];
      Datas(items[..|items| - 1]) + if last.Field? && last.name == "data" then [last.value] else []
  }

  /** The value a field is given last. */
  function LastOf(items: seq<Item>, name: string): Option<string> {
    if items == [] then None
    else
      var last := items[|items| - 1];
      if last.Field? && last.name == name then Some(last.value) else LastOf(items[..|items| - 1], name)
  }

  ghost predicate Fits(item: Item) {
    match item
    case Comment(text) => BreakFree(text)
    case Field(name, value, _) => name != "" && ':' !in name && BreakFree(name) && BreakFree(value)
  }

  ghost predicate AllFit(items: seq<Item>) {
    forall i :: 0 <= i < |items| ==> Fits(items[i])
  }

  /** The items are one way to write the message: its data in order, and its event name, id and retry
      time last where those fields are repeated. Comments and fields of other names may stand anywhere. */
  ghost predicate Spells(items: seq<Item>, m: Message) {
    && AllFit(items)
    && m.data != [] && Datas(items) == m.data
    && LastOf(items, "event") == m.event
    && LastOf(items, "id") == m.id
    && match LastOf(items, "retry")
       case None => m.retry == None
       case Some(digits) => digits != "" && Decimals.AllDigits(digits) && m.retry == Some(Decimals.Read(digits))
  }

  function MessageLines(layouts: seq<seq<Item>>): seq<string> {
    if layouts == [] then [] else ItemLines(layouts[0]) + [""] + MessageLines(layouts[1..])
  }

  function HasNulId(m: Message): bool {
    m.id.Some? && '\0' in m.id.value
  }

  function Intended(m: Message): SseEvent {
    SseEvent(m.event, JoinLf(m.data), m.id, m.retry)
  }

  function AllIntended(ms: seq<Message>): (r: seq<SseEvent>)
    ensures |r| == |ms|
  {
    seq(|ms|, i requires 0 <= i < |ms| => Intended(ms[i]))
  }

  lemma {:induction false} ColonAfter(name: string, rest: string)
    requires ':' !in name
    ensures ColonIndex(name + ":" + rest) == |name| && ColonIndex(name) == |name|
  {
    if name != "" {
      ColonAfter(name[1..], rest);
      assert (name + ":" + rest)[1..] == name[1..] + ":" + rest;
    }
  }

  /** However a field is spelled, its name and value are read back. */
  lemma FieldReadBack(name: string, value: string, st: Style)
    requires name != "" && ':' !in name
    ensures
      var line := FieldLine(name, value, st);
      line != "" && line[0] != ':' && FieldName(line) == name && FieldValue(line) == value
  {
    ColonAfter(name, value);
    ColonAfter(name, " " + value);
    assert name + ": " + value == name + ":" + (" " + value);
    assert (name + ":" + value)[|name| + 1..] == value;
    assert (name + ":" + (" " + value))[|name| + 1..] == " " + value;
    assert (name + ":" + value)[..|name|] == name;
    assert (name + ":" + (" " + value))[..|name|] == name;
  }

  function AllApplied(p: Pending, block: seq<string>): Pending
    decreases |block|
  {
    if block == [] then p else AllApplied(FieldApplied(p, block[0]), block[1..])
  }

  ghost predicate NoBlank(lines: seq<string>) {
    "" !in lines
  }

  lemma {:induction false} FoldBlock(p: Pending, block: seq<string>, rest: seq<string>)
    requires NoBlank(block)
    ensures Fold(p, block + rest) == Fold(AllApplied(p, block), rest)
    decreases |block|
  {
    if block == [] {
      assert block + rest == rest;
    } else {
      assert (block + rest)[1..] == block[1..] + rest;
      FoldBlock(FieldApplied(p, block[0]), block[1..], rest);
    }
  }

  lemma {:induction false} AllAppliedConcat(p: Pending, a: seq<string>, b: seq<string>)
    ensures AllApplied(p, a + b) == AllApplied(AllApplied(p, a), b)
    decreases |a|
  {
    if a == [] {
      assert a + b == b;
    } else {
      assert (a + b)[1..] == a[1..] + b;
      AllAppliedConcat(FieldApplied(p, a[0]), a[1..], b);
    }
  }

  /** What one written line does to the pending event. */
  lemma ItemApplied(p: Pending, item: Item)
    requires Fits(item)
    ensures ItemLine(item) != ""
    ensures
      var q := FieldApplied(p, ItemLine(item));
      match item
      case Comment(_) => q == p
      case Field(name, value, _) =>
        && q.dataLines == p.dataLines + (if name == "data" then [value] else [])
        && q.event == (if name == "event" then Some(value) else p.event)
        && q.id == (if name == "id" && '\0' !in value then Some(value) else p.id)
        && q.retry == (if name == "retry" && value != "" && Decimals.AllDigits(value)
                       then Some(Decimals.Read(value)) else p.retry)
  {
    if item.Field? {
      FieldReadBack(item.name, item.value, item.style);
    }
  }

  /** A pending event holds what the items say, in whatever order they stand. */
  ghost predicate Amounts(p: Pending, items: seq<Item>) {
    && p.dataLines == Datas(items)
    && p.event == LastOf(items, "event")
    && IdAmounts(p.id, LastOf(items, "id"))
    && RetryAmounts(p.retry, LastOf(items, "retry"))
  }

  predicate IdAmounts(id: Option<string>, last: Option<string>) {
    && (id.Some? ==> '\0' !in id.value)
    && (last.None? ==> id.None?)
    && (last.Some? && '\0' !in last.value ==> id == last)
  }

  predicate RetryAmounts(retry: Option<nat>, last: Option<string>) {
    match last
    case None => retry.None?
    case Some(v) => v != "" && Decimals.AllDigits(v) ==> retry == Some(Decimals.Read(v))
  }

  lemma LastOfSnoc(items: seq<Item>, item: Item, name: string)
    ensures LastOf(items + [item], name)
         == if item.Field? && item.name == name then Some(item.value) else LastOf(items, name)
    ensures Datas(items + [item]) == Datas(items) + if item.Field? && item.name == "data" then [item.value] else []
  {
    assert (items + [item])[..|items|] == items;
  }

  lemma AmountsStep(p: Pending, items: seq<Item>, item: Item)
    requires Amounts(p, items) && Fits(item)
    ensures Amounts(FieldApplied(p, ItemLine(item)), items + [item])
  {
    ItemApplied(p, item);
    LastOfSnoc(items, item, "event");
    LastOfSnoc(items, item, "id");
    LastOfSnoc(items, item, "retry");
  }

  lemma {:induction false} ItemsApplied(items: seq<Item>)
    requires AllFit(items)
    ensures NoBlank(ItemLines(items)) && Amounts(AllApplied(EMPTY_PENDING, ItemLines(items)), items)
    decreases |items|
  {
    if items != [] {
      var front, last := items[..|items| - 1], items[|items| - 1];
      ItemsApplied(front);
      AmountsStep(AllApplied(EMPTY_PENDING, ItemLines(front)), front, last);
      ItemApplied(EMPTY_PENDING, last);
      assert items == front + [last] && ItemLines(items) == ItemLines(front) + [ItemLine(last)];
      AllAppliedConcat(EMPTY_PENDING, ItemLines(front), [ItemLine(last)]);
      assert [ItemLine(last)][1..] == [];
    }
  }

  /** The decoder's event for one written message: an id with a NUL is ignored. */
  function Received(items: seq<Item>): SseEvent {
    var p := AllApplied(EMPTY_PENDING, ItemLines(items));
    SseEvent(p.event, JoinLf(p.dataLines), p.id, p.retry)
  }

  function AllReceived(layouts: seq<seq<Item>>): (r: seq<SseEvent>)
    ensures |r| == |layouts|
  {
    seq(|layouts|, i requires 0 <= i < |layouts| => Received(layouts[i]))
  }

  lemma ReceivedIff(items: seq<Item>, m: Message)
    requires Spells(items, m)
    ensures !HasNulId(m) <==> Received(items) == Intended(m)
    ensures Received(items).event == m.event && Received(items).data == JoinLf(m.data)
    ensures Received(items).retry == m.retry
  {
    ItemsApplied(items);
  }

  /** Each of the layouts writes its message. */
  ghost predicate AllSpell(layouts: seq<seq<Item>>, ms: seq<Message>) {
    |layouts| == |ms| && forall i :: 0 <= i < |ms| ==> Spells(layouts[i], ms[i])
  }

  lemma FoldMessage(items: seq<Item>, m: Message, more: seq<string>)
    requires Spells(items, m)
    ensures Fold(EMPTY_PENDING, ItemLines(items) + [""] + more) == [Received(items)] + Fold(EMPTY_PENDING, more)
  {
    var block := ItemLines(items);
    ItemsApplied(items);
    FoldBlock(EMPTY_PENDING, block, [""] + more);
    assert block + [""] + more == block + ([""] + more);
    assert ([""] + more)[1..] == more;
  }

  lemma {:induction false} FoldMessages(layouts: seq<seq<Item>>, ms: seq<Message>)
    requires AllSpell(layouts, ms)
    ensures Fold(EMPTY_PENDING, MessageLines(layouts)) == AllReceived(layouts)
    decreases |ms|
  {
    if ms != [] {
      FoldMessage(layouts[0], ms[0], MessageLines(layouts[1..]));
      FoldMessages(layouts[1..], ms[1..]);
      assert AllReceived(layouts) == [Received(layouts[0])] + AllReceived(layouts[1..]);
    }
  }

  lemma FieldLineBreakFree(name: string, value: string, st: Style)
    requires BreakFree(name) && BreakFree(value)
    ensures BreakFree(FieldLine(name, value, st))
  {
  }

  lemma ItemLinesBreakFree(items: seq<Item>)
    requires AllFit(items)
    ensures AllBreakFree(ItemLines(items))
  {
    forall i | 0 <= i < |items|
      ensures BreakFree(ItemLine(items[i]))
    {
      if items[i].Field? {
        FieldLineBreakFree(items[i].name, items[i].value, items[i].style);
      }
    }
  }

  lemma {:induction false} NoBlanks(lines: seq<string>)
    requires NoBlank(lines)
    ensures Blanks(lines) == 0
  {
    if lines != [] {
      NoBlanks(lines[1..]);
    }
  }

  /** A written text has one blank line per event, and no line with a break in it. */
  lemma {:induction false} MessageLinesShape(layouts: seq<seq<Item>>, ms: seq<Message>)
    requires AllSpell(layouts, ms)
    ensures AllBreakFree(MessageLines(layouts)) && Blanks(MessageLines(layouts)) == |ms|
    decreases |ms|
  {
    if ms != [] {
      var block, more := ItemLines(layouts[0]), MessageLines(layouts[1..]);
      ItemLinesBreakFree(layouts[0]);
      ItemsApplied(layouts[0]);
      NoBlanks(block);
      MessageLinesShape(layouts[1..], ms[1..]);
      BlanksConcat(block + [""], more);
      BlanksConcat(block, [""]);
    }
  }

  /** There are at most as many events as blank lines. */
  lemma {:induction false} EventsNeedBlanks(p: Pending, lines: seq<string>)
    ensures |Fold(p, lines)| <= Blanks(lines)
    decreases |lines|
  {
    if lines != [] {
      if lines[0] != "" {
        EventsNeedBlanks(FieldApplied(p, lines[0]), lines[1..]);
      } else {
        EventsNeedBlanks(EMPTY_PENDING, lines[1..]);
      }
    }
  }

  /** The decoder reads a text written with unambiguous breaks as the written events, except that an id
      with a NUL is not taken. */
  lemma DecodeWritten(layouts: seq<seq<Item>>, ms: seq<Message>, eols: seq<Eol>)
    requires AllSpell(layouts, ms)
    requires |eols| == |MessageLines(layouts)| && Unambiguous(MessageLines(layouts), eols)
    ensures
      var events := Decode(Render(MessageLines(layouts), eols));
      && |events| == |ms|
      && forall i :: 0 <= i < |ms| ==>
           && events[i].event == ms[i].event && events[i].data == JoinLf(ms[i].data) && events[i].retry == ms[i].retry
           && (events[i] == Intended(ms[i]) <==> !HasNulId(ms[i]))
  {
    MessageLinesShape(layouts, ms);
    LinesRenderIff(MessageLines(layouts), eols);
    FoldMessages(layouts, ms);
    forall i | 0 <= i < |ms|
      ensures Received(layouts[i]) == Intended(ms[i]) <==> !HasNulId(ms[i])
      ensures Received(layouts[i]).event == ms[i].event && Received(layouts[i]).data == JoinLf(ms[i].data)
      ensures Received(layouts[i]).retry == ms[i].retry
    {
      ReceivedIff(layouts[i], ms[i]);
    }
  }

  /** The round trip: however the events are laid out and whatever line breaks are used, the events read
      are the events written exactly when no id holds a NUL and no break merges with the next. */
  lemma RoundTripIff(layouts: seq<seq<Item>>, ms: seq<Message>, eols: seq<Eol>)
    requires AllSpell(layouts, ms) && |eols| == |MessageLines(layouts)|
    ensures Decode(Render(MessageLines(layouts), eols)) == AllIntended(ms) <==>
            (forall i :: 0 <= i < |ms| ==> !HasNulId(ms[i])) && Unambiguous(MessageLines(layouts), eols)
  {
    var lines := MessageLines(layouts);
    if Unambiguous(lines, eols) {
      DecodeWritten(layouts, ms, eols);
      var events := Decode(Render(lines, eols));
      if events == AllIntended(ms) {
        assert forall i :: 0 <= i < |ms| ==> events[i] == AllIntended(ms)[i];
      }
    } else {
      MessageLinesShape(layouts, ms);
      MergingLosesBlank(lines, eols);
      EventsNeedBlanks(EMPTY_PENDING, Lines(Render(lines, eols)));
    }
  }

  // ---- Every event can be written --------------------------------------------------------------

  ghost predicate Writable(m: Message) {
    && m.data != [] && AllBreakFree(m.data)
    && (m.event.Some? ==> BreakFree(m.event.value))
    && (m.id.Some? ==> BreakFree(m.id.value))
  }

  const PLAIN := Style(true, false)

  function Optional(name: string, value: Option<string>): seq<Item> {
    match value
    case None => []
    case Some(v) => [Field(name, v, PLAIN)]
  }

  function DataItems(data: seq<string>): (items: seq<Item>)
    ensures |items| == |data|
  {
    seq(|data|, i requires 0 <= i < |data| => Field("data", data[i], PLAIN))
  }

  function RetryText(retry: Option<nat>): Option<string> {
    match retry
    case None => None
    case Some(n) => Some(Decimals.Spell(n))
  }

  lemma {:induction false} ItemsConcat(a: seq<Item>, b: seq<Item>, name: string)
    ensures Datas(a + b) == Datas(a) + Datas(b)
    ensures LastOf(a + b, name) == if LastOf(b, name).Some? then LastOf(b, name) else LastOf(a, name)
    decreases |b|
  {
    if b == [] {
      assert a + b == a;
    } else {
      assert (a + b)[..|a + b| - 1] == a + b[..|b| - 1];
      ItemsConcat(a, b[..|b| - 1], name);
    }
  }

  lemma {:induction false} DataItemsRead(data: seq<string>, name: string)
    ensures Datas(DataItems(data)) == data
    ensures name != "data" ==> LastOf(DataItems(data), name).None?
    decreases |data|
  {
    if data != [] {
      var front := data[..|data| - 1];
      assert DataItems(data)[..|data| - 1] == DataItems(front);
      DataItemsRead(front, name);
    }
  }

  lemma DigitsBreakFree(s: string)
    requires Decimals.AllDigits(s)
    ensures BreakFree(s)
  {
  }

  lemma OptionalRead(name: string, value: Option<string>, other: string)
    requires name != "data"
    ensures Datas(Optional(name, value)) == []
    ensures LastOf(Optional(name, value), other) == if other == name then value else None
  {
  }

  /** The fields in front of the data, one after the other. */
  function Head(m: Message): seq<Item> {
    Optional("event", m.event) + (Optional("id", m.id) + Optional("retry", RetryText(m.retry)))
  }

  lemma HeadRead(m: Message, name: string)
    ensures Datas(Head(m)) == []
    ensures LastOf(Head(m), name) == if name == "retry" && m.retry.Some? then RetryText(m.retry)
                                     else if name == "id" && m.id.Some? then m.id
                                     else if name == "event" then m.event else None
  {
    var e, i, r := Optional("event", m.event), Optional("id", m.id), Optional("retry", RetryText(m.retry));
    OptionalRead("event", m.event, name);
    OptionalRead("id", m.id, name);
    OptionalRead("retry", RetryText(m.retry), name);
    ItemsConcat(i, r, name);
    ItemsConcat(e, i + r, name);
  }

  lemma PlainRead(m: Message, name: string)
    requires name != "data"
    ensures Datas(Head(m) + DataItems(m.data)) == m.data
    ensures LastOf(Head(m) + DataItems(m.data), name) == LastOf(Head(m), name)
  {
    HeadRead(m, name);
    ItemsConcat(Head(m), DataItems(m.data), name);
    DataItemsRead(m.data, name);
  }

  lemma OptionalFits(name: string, value: Option<string>)
    requires name != "" && ':' !in name && BreakFree(name) && (value.Some? ==> BreakFree(value.value))
    ensures AllFit(Optional(name, value))
  {
  }

  lemma PlainFits(m: Message)
    requires Writable(m)
    ensures AllFit(Head(m) + DataItems(m.data))
  {
    if m.retry.Some? {
      DigitsBreakFree(Decimals.Spell(m.retry.value));
    }
    OptionalFits("event", m.event);
    OptionalFits("id", m.id);
    OptionalFits("retry", RetryText(m.retry));
    assert AllFit(DataItems(m.data));
  }

  lemma PlainValues(m: Message)
    ensures
      var items := Head(m) + DataItems(m.data);
      && Datas(items) == m.data
      && LastOf(items, "event") == m.event && LastOf(items, "id") == m.id
      && LastOf(items, "retry") == RetryText(m.retry)
  {
    PlainRead(m, "event");
    HeadRead(m, "event");
    PlainRead(m, "id");
    HeadRead(m, "id");
    PlainRead(m, "retry");
    HeadRead(m, "retry");
  }

  lemma ValuesSpell(items: seq<Item>, m: Message)
    requires AllFit(items) && m.data != [] && Datas(items) == m.data
    requires LastOf(items, "event") == m.event && LastOf(items, "id") == m.id
    requires LastOf(items, "retry") == RetryText(m.retry)
    ensures Spells(items, m)
  {
    if m.retry.Some? {
      Decimals.ReadSpell(m.retry.value);
    }
  }

  /** Every event whose fields are free of line breaks, with at least one data line, can be written. */
  lemma EveryEventSpelled(m: Message) returns (items: seq<Item>)
    requires Writable(m)
    ensures Spells(items, m)
  {
    items := Head(m) + DataItems(m.data);
    PlainFits(m);
    PlainValues(m);
    ValuesSpell(items, m);
  }

  // ---- Events that are never closed ------------------------------------------------------------

  lemma {:induction false} FoldOpenEnded(p: Pending, lines: seq<string>, block: seq<string>)
    requires NoBlank(block)
    ensures Fold(p, lines + block) == Fold(p, lines)
    decreases |lines|
  {
    if lines == [] {
      assert lines + block == block + [];
      FoldBlock(p, block, []);
    } else {
      assert (lines + block)[1..] == lines[1..] + block;
      if lines[0] != "" {
        FoldOpenEnded(FieldApplied(p, lines[0]), lines[1..], block);
      } else {
        FoldOpenEnded(EMPTY_PENDING, lines[1..], block);
      }
    }
  }

  /** Text that adds no blank line adds no event, whatever fields it writes. */
  lemma UnclosedNeverEmitted(text: string, more: string)
    requires CleanCut(text, more)
    requires NoBlank(Lines(Tail(text) + more))
    ensures Decode(text + more) == Decode(text)
  {
    LinesConcat(text, more);
    FoldOpenEnded(EMPTY_PENDING, Lines(text), Lines(Tail(text) + more));
  }

  lemma {:induction false} FoldPrefix(p: Pending, lines: seq<string>, more: seq<string>)
    ensures Fold(p, lines) <= Fold(p, lines + more)
    decreases |lines|
  {
    if lines == [] {
    } else {
      assert (lines + more)[1..] == lines[1..] + more;
      if lines[0] != "" {
        FoldPrefix(FieldApplied(p, lines[0]), lines[1..], more);
      } else {
        FoldPrefix(EMPTY_PENDING, lines[1..], more);
      }
    }
  }

  /** Events yielded after some chunks are never taken back by later ones: those of the lines drained
      so far are a prefix of the events of any longer text. */
  lemma NeverTakenBack(text: string, more: string)
    ensures Fold(EMPTY_PENDING, Lines(Held(text))) <= Decode(text + more)
  {
    HeldBackAtMostOne(text, more);
    var early, all := Lines(Held(text)), Lines(text + more);
    assert all == early + all[|early|..];
    FoldPrefix(EMPTY_PENDING, early, all[|early|..]);
  }
}
