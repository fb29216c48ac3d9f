/**
 The event processor's cursor over the Redis stream (internal/worker/eventprocessor.go).
 The stream is the log of everything ever appended, in ID order; one XREAD sees the part of it
 that exists while the call lasts.
 */
module EventStream {
  import opened Prelude
  import opened Clock

  // A missing or empty data field, or text with the event it decodes to, if it decodes.
  datatype Data = Empty | Text(decoded: Option<string>)

  datatype Message = Message(id: int, source: string, data: Data)

  datatype HandlerCall = ZammadCall(event: string) | NightOwlCall(event: string)

  // `$` until a first message has been read, then the ID of the last one.
  datatype Cursor = Newest | After(id: int)

  // One XREAD: the stream's length when it is issued and when it returns, how many messages the
  // server hands over at most, and whether it fails.
  datatype Call = Call(atCall: nat, atReturn: nat, take: nat, fails: bool)

  predicate Ascending(stream: seq<Message>) {
    forall i, j :: 0 <= i < j < |stream| ==> stream[i].id < stream[j].id
  }

  // Calls happen one after the other on a stream that only grows.
  predicate Calls(stream: seq<Message>, calls: seq<Call>) {
    && (forall i :: 0 <= i < |calls| ==> calls[i].atCall <= calls[i].atReturn <= |stream| && 1 <= calls[i].take <= 100)
    && (forall i, j :: 0 <= i < j < |calls| ==> calls[i].atReturn <= calls[j].atCall)
  }

  // The first position whose message is newer than id.
  function PositionAfter(stream: seq<Message>, id: int): (k: nat)
    ensures k <= |stream|
    ensures Ascending(stream) ==> forall i :: 0 <= i < |stream| ==> (stream[i].id <= id <==> i < k)
  {
    if stream == [] then 0
    else if stream[|stream| - 1].id <= id then |stream|
    else PositionAfter(stream[..|stream| - 1], id)
  }

  // What the server answers: messages after the cursor, oldest first, or none before the block time ends.
  function XRead(stream: seq<Message>, cursor: Cursor, c: Call): seq<Message>
    requires c.atCall <= c.atReturn <= |stream|
  {
    Batch(stream, if cursor.Newest? then c.atCall else PositionAfter(stream, cursor.id), c)
  }

  function Batch(stream: seq<Message>, start: nat, c: Call): seq<Message>
    requires c.atReturn <= |stream|
  {
    if c.atReturn <= start then [] else stream[start..Min(c.atReturn, start + c.take)]
  }

  /******* Specification *******/

  // Nothing read yet, or everything from position `from` up to position `upTo`.
  datatype Progress = Waiting | Reading(from: nat, upTo: nat)

  function Advance(p: Progress, c: Call): Progress {
    if c.fails then p
    else match p
      case Waiting => if c.atReturn <= c.atCall then Waiting else Reading(c.atCall, Min(c.atReturn, c.atCall + c.take))
      case Reading(from, upTo) => if c.atReturn <= upTo then p else Reading(from, Min(c.atReturn, upTo + c.take))
  }

  function ProgressOf(calls: seq<Call>): Progress {
    if calls == [] then Waiting else Advance(ProgressOf(calls[..|calls| - 1]), calls[|calls| - 1])
  }

  function Slice(stream: seq<Message>, p: Progress): seq<Message>
    requires p.Reading? ==> p.from <= p.upTo <= |stream|
  {
    if p.Waiting? then [] else stream[p.from..p.upTo]
  }

  // The handler a message reaches, if any.
  function Dispatch(m: Message): seq<HandlerCall> {
    if m.data.Empty? || m.data.decoded.None? then []
    else if m.source == "zammad" then [ZammadCall(m.data.decoded.value)]
    else if m.source == "nightowl" then [NightOwlCall(m.data.decoded.value)]
    else []
  }

  function DispatchAll(ms: seq<Message>): seq<HandlerCall> {
    if ms == [] then [] else DispatchAll(ms[..|ms| - 1]) + Dispatch(ms[|ms| - 1])
  }

  lemma {:induction false} ProgressBounds(stream: seq<Message>, calls: seq<Call>)
    requires Calls(stream, calls)
    ensures var p := ProgressOf(calls);
            && InBounds(stream, p)
            && (p.Reading? ==> exists i :: 0 <= i < |calls| && p.from == calls[i].atCall && !calls[i].fails)
            && (p.Reading? && calls != [] ==> p.upTo <= calls[|calls| - 1].atReturn)
  {
    if calls != [] {
      var front := calls[..|calls| - 1];
      ProgressBounds(stream, front);
      if ProgressOf(front).Reading? {
        var i :| 0 <= i < |front| && ProgressOf(front).from == front[i].atCall && !front[i].fails;
        assert calls[i] == front[i];
      } else {
        assert calls[|calls| - 1].atCall == calls[|calls| - 1].atCall;
      }
    }
  }

  predicate InBounds(stream: seq<Message>, p: Progress) {
    p.Reading? ==> p.from < p.upTo <= |stream|
  }

  function CursorAt(stream: seq<Message>, p: Progress): Cursor
    requires InBounds(stream, p)
  {
    if p.Waiting? then Newest else After(stream[p.upTo - 1].id)
  }

  // The ID of the last message read leads back to the position after it.
  lemma PositionAfterRead(stream: seq<Message>, k: nat)
    requires Ascending(stream) && 0 < k <= |stream|
    ensures PositionAfter(stream, stream[k - 1].id) == k
  {
    if k < |stream| { assert stream[k - 1].id < stream[k].id; }
  }

  // One successful XREAD hands over exactly the next stretch of the stream.
  lemma ReadAdvances(stream: seq<Message>, p: Progress, c: Call)
    requires Ascending(stream) && InBounds(stream, p) && !c.fails
    requires c.atCall <= c.atReturn <= |stream| && 1 <= c.take
    ensures Extended(stream, p, Advance(p, c), XRead(stream, CursorAt(stream, p), c))
  {
    BatchExtends(stream, p, c);
    if p.Reading? { PositionAfterRead(stream, p.upTo); }
  }

  predicate Extended(stream: seq<Message>, p: Progress, q: Progress, batch: seq<Message>)
    requires InBounds(stream, p)
  {
    && InBounds(stream, q)
    && Slice(stream, q) == Slice(stream, p) + batch
    && CursorAt(stream, q) == if batch == [] then CursorAt(stream, p) else After(batch[|batch| - 1].id)
  }

  lemma BatchExtends(stream: seq<Message>, p: Progress, c: Call)
    requires InBounds(stream, p) && !c.fails && c.atCall <= c.atReturn <= |stream| && 1 <= c.take
    ensures Extended(stream, p, Advance(p, c), Batch(stream, if p.Waiting? then c.atCall else p.upTo, c))
  {
    var start := if p.Waiting? then c.atCall else p.upTo;
    AdvanceIs(p, c, start);
    if c.atReturn <= start {
      NothingRead(stream, p);
    } else {
      SomethingRead(stream, p, start, Min(c.atReturn, start + c.take));
    }
  }

  lemma AdvanceIs(p: Progress, c: Call, start: nat)
    requires !c.fails && start == if p.Waiting? then c.atCall else p.upTo
    ensures Advance(p, c) == if c.atReturn <= start then p
                             else Reading(if p.Waiting? then start else p.from, Min(c.atReturn, start + c.take))
  {
  }

  lemma NothingRead(stream: seq<Message>, p: Progress)
    requires InBounds(stream, p)
    ensures Extended(stream, p, p, [])
  {
    assert Slice(stream, p) + [] == Slice(stream, p);
  }

  lemma SomethingRead(stream: seq<Message>, p: Progress, start: nat, end: nat)
    requires InBounds(stream, p) && start < end <= |stream| && (p.Reading? ==> start == p.upTo)
    ensures Extended(stream, p, Reading(if p.Waiting? then start else p.from, end), stream[start..end])
  {
    if p.Reading? { assert stream[p.from..end] == stream[p.from..start] + stream[start..end]; }
  }

  lemma LastApart(a: seq<Message>, b: seq<Message>)
    requires b != []
    ensures a + b == (a + b[..|b| - 1]) + [b[|b| - 1]] && b == b[..|b| - 1] + [b[|b| - 1]]
  {
  }

  lemma Regroup(a: seq<HandlerCall>, b: seq<HandlerCall>, c: seq<HandlerCall>)
    ensures (a + b) + c == a + (b + c)
  {
  }

  lemma DispatchOneMore(ms: seq<Message>, m: Message)
    ensures DispatchAll(ms + [m]) == DispatchAll(ms) + Dispatch(m)
  {
    assert (ms + [m])[..|ms|] == ms;
  }

  lemma {:induction false} DispatchAppend(a: seq<Message>, b: seq<Message>)
    ensures DispatchAll(a + b) == DispatchAll(a) + DispatchAll(b)
  {
    if b == [] {
      assert a + b == a;
    } else {
      var front, last := b[..|b| - 1], b[|b| - 1];
      LastApart(a, b);
      DispatchAppend(a, front);
      DispatchOneMore(a + front, last);
      DispatchOneMore(front, last);
      Regroup(DispatchAll(a), DispatchAll(front), Dispatch(last));
    }
  }

  // The events handed to each of the two handlers, in order.
  function ZammadEvents(calls: seq<HandlerCall>): seq<string> {
    if calls == [] then []
    else
      var last := calls[|calls| - 1];
      ZammadEvents(calls[..|calls| - 1]) + (if last.ZammadCall? then [last.event] else [])
  }

  function NightOwlEvents(calls: seq<HandlerCall>): seq<string> {
    if calls == [] then []
    else
      var last := calls[|calls| - 1];
      NightOwlEvents(calls[..|calls| - 1]) + (if last.NightOwlCall? then [last.event] else [])
  }

  // The events of the messages of one source that decode, in order.
  function Decoded(ms: seq<Message>, source: string): seq<string> {
    if ms == [] then []
    else
      var last := ms[|ms| - 1];
      Decoded(ms[..|ms| - 1], source)
      + (if last.source == source && last.data.Text? && last.data.decoded.Some? then [last.data.decoded.value] else [])
  }

  lemma Handed(calls: seq<HandlerCall>, more: seq<HandlerCall>)
    requires |more| <= 1
    ensures ZammadEvents(calls + more) == ZammadEvents(calls) + ZammadEvents(more)
    ensures NightOwlEvents(calls + more) == NightOwlEvents(calls) + NightOwlEvents(more)
  {
    if more == [] {
      assert calls + more == calls;
    } else {
      assert (calls + more)[..|calls|] == calls && more[..0] == [];
    }
  }

  lemma DecodedOneMore(ms: seq<Message>, m: Message, source: string)
    ensures Decoded(ms + [m], source) == Decoded(ms, source) + Decoded([m], source)
  {
    assert (ms + [m])[..|ms|] == ms && [m][..0] == [];
  }

  lemma OneMessage(m: Message)
    ensures ZammadEvents(Dispatch(m)) == Decoded([m], "zammad")
    ensures NightOwlEvents(Dispatch(m)) == Decoded([m], "nightowl")
    ensures |Dispatch(m)| == |Decoded([m], "zammad")| + |Decoded([m], "nightowl")|
  {
    assert [m][..0] == [];
    if |Dispatch(m)| == 1 { assert Dispatch(m)[..0] == []; }
  }

  // Each handler gets the events of its own source, every one that decodes, once and in order.
  lemma {:induction false} HandlersGetTheirEvents(ms: seq<Message>)
    ensures ZammadEvents(DispatchAll(ms)) == Decoded(ms, "zammad")
    ensures NightOwlEvents(DispatchAll(ms)) == Decoded(ms, "nightowl")
    ensures |DispatchAll(ms)| == |Decoded(ms, "zammad")| + |Decoded(ms, "nightowl")|
  {
    if ms != [] {
      var front, last := ms[..|ms| - 1], ms[|ms| - 1];
      assert ms == front + [last];
      HandlersGetTheirEvents(front);
      DispatchOneMore(front, last);
      DecodedOneMore(front, last, "zammad");
      DecodedOneMore(front, last, "nightowl");
      OneMessage(last);
      Handed(DispatchAll(front), Dispatch(last));
    }
  }

  /******* The loop *******/

  class EventProcessor {
    var lastId: Cursor
    var handled: seq<HandlerCall>

    constructor ()
      ensures lastId == Newest && handled == []
    {
      lastId, handled := Newest, [];
    }

    // The handler may report an error; nobody looks beyond logging it.
    method Handle(call: HandlerCall) returns (failed: bool)
      modifies this`handled
      ensures handled == old(handled) + [call]
    {
      handled := handled + [call];
      failed := *;
    }

    method ProcessMessage(m: Message)
      modifies this`handled
      ensures handled == old(handled) + Dispatch(m)
      ensures m.data.Text? && m.data.decoded.Some? && m.source == "zammad" ==>
                handled == old(handled) + [ZammadCall(m.data.decoded.value)]
      ensures m.data.Text? && m.data.decoded.Some? && m.source == "nightowl" ==>
                handled == old(handled) + [NightOwlCall(m.data.decoded.value)]
      ensures m.data.Empty? || m.data.decoded.None? || (m.source != "zammad" && m.source != "nightowl") ==>
                handled == old(handled)
    {
      if m.data.Empty? { return; }
      if m.source == "zammad" {
        if m.data.decoded.None? { return; }
        var _ := Handle(ZammadCall(m.data.decoded.value));
      } else if m.source == "nightowl" {
        if m.data.decoded.None? { return; }
        var _ := Handle(NightOwlCall(m.data.decoded.value));
      }
    }

    method ProcessBatch(batch: seq<Message>)
      modifies this
      ensures handled == old(handled) + DispatchAll(batch)
      ensures lastId == if batch == [] then old(lastId) else After(batch[|batch| - 1].id)
    {
      for j := 0 to |batch|
        invariant handled == old(handled) + DispatchAll(batch[..j])
        invariant lastId == if j == 0 then old(lastId) else After(batch[j - 1].id)
      {
        assert batch[..j + 1][..j] == batch[..j];
        lastId := After(batch[j].id);
        ProcessMessage(batch[j]);
      }
      assert batch[..|batch|] == batch;
    }

    // One XREAD and the messages it hands over, in order; a failing one is tried again later.
    method ReadOnce(stream: seq<Message>, ghost p: Progress, c: Call) returns (batch: seq<Message>)
      requires Ascending(stream) && InBounds(stream, p) && lastId == CursorAt(stream, p)
      requires c.atCall <= c.atReturn <= |stream| && 1 <= c.take
      modifies this
      ensures Extended(stream, p, Advance(p, c), batch)
      ensures lastId == CursorAt(stream, Advance(p, c))
      ensures handled == old(handled) + DispatchAll(batch)
    {
      batch := [];
      if c.fails {
        NothingRead(stream, p);
        return;
      }
      batch := XRead(stream, lastId, c);
      ReadAdvances(stream, p, c);
      ProcessBatch(batch);
    }

    // The loop, over the XREADs it gets to make before its context is cancelled. What it has
    // processed is one unbroken slice of the stream, whatever the messages hold and whichever
    // calls or handlers fail.
    method Run(stream: seq<Message>, calls: seq<Call>) returns (processed: seq<Message>)
      requires Ascending(stream) && Calls(stream, calls)
      requires lastId == Newest && handled == []
      modifies this
      ensures InBounds(stream, ProgressOf(calls))
      ensures processed == Slice(stream, ProgressOf(calls))
      ensures handled == DispatchAll(processed)
      ensures ZammadEvents(handled) == Decoded(processed, "zammad")
      ensures NightOwlEvents(handled) == Decoded(processed, "nightowl")
      ensures lastId == CursorAt(stream, ProgressOf(calls))
    {
      processed := [];
      for i := 0 to |calls|
        invariant InBounds(stream, ProgressOf(calls[..i]))
        invariant processed == Slice(stream, ProgressOf(calls[..i]))
        invariant handled == DispatchAll(processed)
        invariant lastId == CursorAt(stream, ProgressOf(calls[..i]))
      {
        ProgressStep(calls, i);
        var batch := ReadOnce(stream, ProgressOf(calls[..i]), calls[i]);
        DispatchAppend(processed, batch);
        processed := processed + batch;
      }
      assert calls[..|calls|] == calls;
      HandlersGetTheirEvents(processed);
    }
  }

  lemma ProgressStep(calls: seq<Call>, i: nat)
    requires i < |calls|
    ensures ProgressOf(calls[..i + 1]) == Advance(ProgressOf(calls[..i]), calls[i])
  {
    assert calls[..i + 1][..i] == calls[..i];
  }

  /******* What the slice guarantees *******/

  // Later calls never take anything back and never skip: the slice only grows at its end.
  lemma {:induction false} SliceOnlyGrows(stream: seq<Message>, calls: seq<Call>, more: seq<Call>)
    requires Calls(stream, calls + more) && ProgressOf(calls).Reading?
    ensures var p, q := ProgressOf(calls), ProgressOf(calls + more);
            q.Reading? && q.from == p.from && p.upTo <= q.upTo
  {
    if more == [] {
      assert calls + more == calls;
    } else {
      assert (calls + more)[..|calls + more| - 1] == calls + more[..|more| - 1];
      SliceOnlyGrows(stream, calls, more[..|more| - 1]);
    }
  }

  // Once reading, n calls that succeed with `length` messages in the stream process n more or all of them.
  lemma {:induction false} EveryMessageIsReached(stream: seq<Message>, calls: seq<Call>, more: seq<Call>, length: nat)
    requires Calls(stream, calls + more) && ProgressOf(calls).Reading?
    requires forall i :: 0 <= i < |more| ==> !more[i].fails && length <= more[i].atCall
    ensures var p, q := ProgressOf(calls), ProgressOf(calls + more);
            q.Reading? && q.upTo >= Min(length, p.upTo + |more|)
  {
    if more == [] {
      assert calls + more == calls;
    } else {
      var front, last := more[..|more| - 1], more[|more| - 1];
      var all := calls + more;
      assert all[..|all| - 1] == calls + front && all[|all| - 1] == last;
      EveryMessageIsReached(stream, calls, front, length);
      OneMoreRead(ProgressOf(calls + front), last, length, ProgressOf(calls).upTo + |front|);
    }
  }

  lemma OneMoreRead(p: Progress, c: Call, length: nat, n: nat)
    requires p.Reading? && p.upTo >= Min(length, n)
    requires !c.fails && length <= c.atCall <= c.atReturn && 1 <= c.take
    ensures Advance(p, c).Reading? && Advance(p, c).upTo >= Min(length, n + 1)
  {
  }

  // A read that hands over messages to a reader that is still waiting.
  predicate Delivers(c: Call) { !c.fails && c.atCall < c.atReturn }

  predicate IsFirstDelivery(calls: seq<Call>, i: nat) {
    i < |calls| && Delivers(calls[i]) && forall j :: 0 <= j < i ==> !Delivers(calls[j])
  }

  // Until a read delivers, nothing is read at all.
  lemma {:induction false} WaitsForADelivery(calls: seq<Call>)
    ensures ProgressOf(calls).Waiting? <==> forall i :: 0 <= i < |calls| ==> !Delivers(calls[i])
  {
    if calls != [] {
      var front := calls[..|calls| - 1];
      WaitsForADelivery(front);
      if ProgressOf(front).Reading? {
        var i :| 0 <= i < |front| && Delivers(front[i]);
        assert Delivers(calls[i]);
      }
    }
  }

  // The first read that delivers fixes where reading starts: at the stream's end when it was issued.
  lemma {:induction false} FirstDeliveryFixesTheStart(stream: seq<Message>, calls: seq<Call>, i: nat)
    requires Calls(stream, calls) && IsFirstDelivery(calls, i)
    ensures ProgressOf(calls).Reading? && ProgressOf(calls).from == calls[i].atCall
  {
    var front := calls[..|calls| - 1];
    if i == |calls| - 1 {
      WaitsForADelivery(front);
    } else {
      FirstDeliveryFixesTheStart(stream, front, i);
    }
  }

  lemma InSlice(stream: seq<Message>, calls: seq<Call>, m: nat)
    requires Ascending(stream) && Calls(stream, calls) && m < |stream|
    ensures var p := ProgressOf(calls);
            InBounds(stream, p) && (stream[m] in Slice(stream, p) <==> p.Reading? && p.from <= m < p.upTo)
  {
    ProgressBounds(stream, calls);
    var p := ProgressOf(calls);
    if p.Reading? && p.from <= m < p.upTo {
      assert Slice(stream, p)[m - p.from] == stream[m];
    }
  }

  // Delivery, told by the reads alone. Let the i-th be the first that delivers. A message that was
  // in the stream before that read was issued is processed neither then nor ever after ...
  lemma NeverProcessed(stream: seq<Message>, calls: seq<Call>, i: nat, more: seq<Call>, m: nat)
    requires Ascending(stream) && Calls(stream, calls + more) && IsFirstDelivery(calls, i) && m < |stream|
    requires m < calls[i].atCall
    ensures InBounds(stream, ProgressOf(calls + more))
    ensures stream[m] !in Slice(stream, ProgressOf(calls + more))
  {
    Prefix(stream, calls, more);
    FirstDeliveryFixesTheStart(stream, calls, i);
    SliceOnlyGrows(stream, calls, more);
    InSlice(stream, calls + more, m);
  }

  // More than m reads that succeed with the message at m in the stream.
  predicate EnoughReads(more: seq<Call>, m: nat) {
    m < |more| && forall k :: 0 <= k < |more| ==> !more[k].fails && m < more[k].atCall
  }

  // ... and any other is processed once enough reads succeed.
  lemma ProcessedIff(stream: seq<Message>, calls: seq<Call>, i: nat, more: seq<Call>, m: nat)
    requires Ascending(stream) && Calls(stream, calls + more) && IsFirstDelivery(calls, i) && m < |stream|
    requires EnoughReads(more, m)
    ensures InBounds(stream, ProgressOf(calls + more))
    ensures stream[m] in Slice(stream, ProgressOf(calls + more)) <==> calls[i].atCall <= m
  {
    Prefix(stream, calls, more);
    FirstDeliveryFixesTheStart(stream, calls, i);
    EveryMessageIsReached(stream, calls, more, m + 1);
    SliceOnlyGrows(stream, calls, more);
    InSlice(stream, calls + more, m);
  }

  lemma Prefix(stream: seq<Message>, calls: seq<Call>, more: seq<Call>)
    requires Calls(stream, calls + more)
    ensures Calls(stream, calls)
  {
    assert forall k :: 0 <= k < |calls| ==> (calls + more)[k] == calls[k];
  }

  // So a message that arrives between two reads from `$`, the later of which is the first to
  // deliver, is lost, whatever is read afterwards.
  lemma MessageLostBeforeTheFirstBatch(stream: seq<Message>, calls: seq<Call>, j: nat, i: nat, more: seq<Call>, m: nat)
    requires Ascending(stream) && Calls(stream, calls + more) && IsFirstDelivery(calls, i) && j < i
    requires calls[j].atReturn <= m < calls[i].atCall
    ensures InBounds(stream, ProgressOf(calls + more))
    ensures m < |stream| && stream[m] !in Slice(stream, ProgressOf(calls + more))
  {
    assert (calls + more)[i] == calls[i] && (calls + more)[j] == calls[j];
    NeverProcessed(stream, calls, i, more, m);
  }

  // Such a run: the first read ends empty, a message arrives, and the second read starts behind it.
  lemma AMessageIsLost(a: Message, b: Message)
    requires a.id < b.id
    ensures var calls := [Call(0, 0, 100, false), Call(1, 2, 100, false)];
            && Calls([a, b], calls) && IsFirstDelivery(calls, 1)
            && InBounds([a, b], ProgressOf(calls)) && Slice([a, b], ProgressOf(calls)) == [b]
  {
    var calls := [Call(0, 0, 100, false), Call(1, 2, 100, false)];
    FirstDeliveryFixesTheStart([a, b], calls, 1);
    assert calls[..1] == [calls[0]] && [calls[0]][..0] == [];
    assert ProgressOf([calls[0]]) == Waiting;
  }
}
