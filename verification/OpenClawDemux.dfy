/** One turn of the OpenClaw gateway client: a response and a stream of events
    share one socket, and events that arrive before the response wait in a
    bounded buffer. */
module OpenClawDemux {
  import opened Prelude
  import opened Text

  // ---- frames ------------------------------------------------------------------

  datatype Content = NoContent | Plain(body: string) | Blocks(texts: seq<Option<string>>)

  datatype Message = NoMessage | Bare(text: string) | Rich(content: Content, fallback: Option<string>)

  /** The payload of an event, when it is an object.  None is an absent or non-string value. */
  datatype Payload = Payload(
    runId: Option<string>,
    state: Option<string>,
    delta: Option<string>,
    textDelta: Option<string>,
    chunk: Option<string>,
    text: Option<string>,
    errorMessage: string,       // "" when absent
    message: Message)

  datatype Reply = Reply(ok: bool, error: string, payload: Option<Option<string>>)   // payload object, its runId

  datatype Frame =
    | Response(id: nat, reply: Reply)
    | Event(event: string, payload: Option<Payload>)
    | Other

  datatype Fault = TimedOut | ConnectionLost | NonText | BadJson | NotObject

  datatype Recv = Got(frame: Frame) | Fails(fault: Fault)

  datatype ChatError = NotConnected | SendFailed | Transport(fault: Fault) | Protocol(text: string) | CallbackRaised

  // ---- payload readers -----------------------------------------------------------

  function FirstText(candidates: seq<Option<string>>): string {
    if candidates == [] then ""
    else if candidates[0].Some? && candidates[0].value != "" then candidates[0].value
    else FirstText(candidates[1..])
  }

  function ExtractDelta(p: Payload): string {
    FirstText([p.delta, p.textDelta, p.chunk, p.text])
  }

  function TextParts(texts: seq<Option<string>>): seq<string> {
    if texts == [] then []
    else (if texts[0].Some? then [texts[0].value] else []) + TextParts(texts[1..])
  }

  function ExtractFinalText(p: Payload): string {
    match p.message
    case NoMessage => ""
    case Bare(text) => text
    case Rich(content, text) =>
      if content.Plain? then content.body
      else if content.Blocks? && TextParts(content.texts) != [] then Concat(TextParts(content.texts))
      else if text.Some? then text.value
      else ""
  }

  // ---- the meaning of a turn -------------------------------------------------------

  const CAPACITY := 100

  datatype Outcome = Outcome(deltas: seq<string>, result: Result<string, ChatError>)

  /** What the socket yields to someone who only cares about events: payload
      events, and the fault that ends the stream. */
  function EventsOf(stream: seq<Recv>): seq<Recv> {
    if stream == [] then []
    else Kept(stream[0]) + EventsOf(stream[1..])
  }

  function Kept(r: Recv): seq<Recv> {
    if r.Fails? || r.frame.Event? then [r] else []
  }

  predicate Ours(r: Recv, runId: string) {
    r.Got? && r.frame.Event? && r.frame.event == "chat"
    && r.frame.payload.Some? && r.frame.payload.value.runId == Some(runId)
  }

  function Shown(p: Payload): seq<string> {
    if ExtractDelta(p) == "" then [] else [ExtractDelta(p)]
  }

  /** The turn as a fold over the events in arrival order, `chunks` heard so far. */
  function Turn(events: seq<Recv>, runId: string, chunks: seq<string>): Outcome
    decreases |events|
  {
    if events == [] then Outcome(chunks, Err(Transport(TimedOut)))
    else if events[0].Fails? then Outcome(chunks, Err(Transport(events[0].fault)))
    else if !Ours(events[0], runId) then Turn(events[1..], runId, chunks)
    else
      var p := events[0].frame.payload.value;
      var heard := chunks + Shown(p);
      if p.state == Some("error") then
        Outcome(heard, Err(Protocol(if p.errorMessage == "" then "chat failed" else p.errorMessage)))
      else if p.state == Some("final") then
        Outcome(heard, Ok(if ExtractFinalText(p) != "" then ExtractFinalText(p) else Strip(Concat(heard))))
      else Turn(events[1..], runId, heard)
  }

  /** Position of the frame that answers the request, or of the fault that pre-empts it. */
  function AnswerAt(stream: seq<Recv>, id: nat): (i: nat)
    ensures i <= |stream|
    ensures i < |stream| ==> stream[i].Fails? || (stream[i].frame.Response? && stream[i].frame.id == id)
    ensures forall j :: 0 <= j < i ==> stream[j].Got? && !(stream[j].frame.Response? && stream[j].frame.id == id)
  {
    if stream == [] || stream[0].Fails? || (stream[0].frame.Response? && stream[0].frame.id == id) then 0
    else 1 + AnswerAt(stream[1..], id)
  }

  function LastN<T>(s: seq<T>, n: nat): seq<T> {
    if |s| <= n then s else s[|s| - n..]
  }

  /** The events a turn listens to: the last hundred that came before the answer,
      then everything after it. */
  function Heard(stream: seq<Recv>, i: nat): seq<Recv>
    requires i < |stream|
  {
    LastN(EventsOf(stream[..i]), CAPACITY) + EventsOf(stream[i + 1..])
  }

  /** The same turn when the caller's callback raises at its call number `refusesAt`:
      nothing after that delta happens. */
  function Refused(o: Outcome, refusesAt: Option<nat>): Outcome {
    if refusesAt.Some? && refusesAt.value < |o.deltas| then
      Outcome(o.deltas[..refusesAt.value + 1], Err(CallbackRaised))
    else o
  }

  function Meaning(stream: seq<Recv>, id: nat): Outcome {
    var i := AnswerAt(stream, id);
    if i == |stream| then Outcome([], Err(Transport(TimedOut)))
    else if stream[i].Fails? then Outcome([], Err(Transport(stream[i].fault)))
    else
      var reply := stream[i].frame.reply;
      if !reply.ok then Outcome([], Err(Protocol(reply.error)))
      else if reply.payload.None? then Outcome([], Err(Protocol("chat.send returned invalid payload")))
      else if reply.payload.value.None? || reply.payload.value.value == "" then
        Outcome([], Err(Protocol("chat.send did not return runId")))
      else Turn(Heard(stream, i), reply.payload.value.value, [])
  }

  // ---- properties of the meaning ------------------------------------------------------

  lemma {:induction false} EventsOfConcat(a: seq<Recv>, b: seq<Recv>)
    ensures EventsOf(a + b) == EventsOf(a) + EventsOf(b)
  {
    if a == [] {
      assert a + b == b;
    } else {
      assert (a + b)[1..] == a[1..] + b && (a + b)[0] == a[0];
      EventsOfConcat(a[1..], b);
      Associate(Kept(a[0]), EventsOf(a[1..]), EventsOf(b));
    }
  }

  lemma NotKept(r: Recv, after: seq<Recv>)
    requires r.Got? && !r.frame.Event?
    ensures EventsOf([r] + after) == EventsOf(after)
  {
    assert ([r] + after)[1..] == after && [] + EventsOf(after) == EventsOf(after);
  }

  lemma AroundAnswer(stream: seq<Recv>, i: nat)
    requires i < |stream| && stream[i].Got? && !stream[i].frame.Event?
    ensures EventsOf(stream) == EventsOf(stream[..i]) + EventsOf(stream[i + 1..])
  {
    var before, after := stream[..i], stream[i + 1..];
    assert stream == before + ([stream[i]] + after);
    EventsOfConcat(before, [stream[i]] + after);
    NotKept(stream[i], after);
  }

  /** With at most a hundred early events nothing is lost or reordered: the turn
      hears every event of the stream, exactly in arrival order. */
  lemma NothingLost(stream: seq<Recv>, id: nat)
    requires AnswerAt(stream, id) < |stream| && stream[AnswerAt(stream, id)].Got?
    requires |EventsOf(stream[..AnswerAt(stream, id)])| <= CAPACITY
    ensures Heard(stream, AnswerAt(stream, id)) == EventsOf(stream)
  {
    AroundAnswer(stream, AnswerAt(stream, id));
  }

  /** ... and with more, exactly the earliest surplus is dropped. */
  lemma SurplusDropped(stream: seq<Recv>, id: nat)
    requires AnswerAt(stream, id) < |stream| && stream[AnswerAt(stream, id)].Got?
    requires |EventsOf(stream[..AnswerAt(stream, id)])| > CAPACITY
    ensures |EventsOf(stream[..AnswerAt(stream, id)])| <= |EventsOf(stream)|
    ensures Heard(stream, AnswerAt(stream, id))
         == EventsOf(stream)[|EventsOf(stream[..AnswerAt(stream, id)])| - CAPACITY..]
  {
    AroundAnswer(stream, AnswerAt(stream, id));
  }

  /** Only events and faults are heard, each once and in order. */
  lemma EventsOfOne(r: Recv)
    ensures EventsOf([r]) == if r.Got? && !r.frame.Event? then [] else [r]
    ensures EventsOf([]) == []
  {
    assert [r][1..] == [];
  }

  /** The answer, a fault or neither. */
  predicate Answers(r: Recv, id: nat) {
    r.Fails? || (r.frame.Response? && r.frame.id == id)
  }

  ghost predicate FirstAnswer(stream: seq<Recv>, i: nat, id: nat) {
    i < |stream| && Answers(stream[i], id) && forall j :: 0 <= j < i ==> !Answers(stream[j], id)
  }

  lemma FirstAnswerIs(stream: seq<Recv>, i: nat, id: nat)
    requires FirstAnswer(stream, i, id)
    ensures AnswerAt(stream, id) == i
  {
    assert forall j :: 0 <= j < AnswerAt(stream, id) ==> !Answers(stream[j], id);
  }

  /** Once the gateway has accepted the message as run `run`, the outcome is that of the
      run's turn on every event of the stream, early ones included, of which only the
      earliest beyond a hundred are missed. */
  lemma AcceptedMeaning(stream: seq<Recv>, i: nat, id: nat, error: string, run: string)
    requires FirstAnswer(stream, i, id) && run != ""
    requires stream[i] == Got(Response(id, Reply(true, error, Some(Some(run)))))
    ensures var early := |EventsOf(stream[..i])|;
            && early <= |EventsOf(stream)|
            && (early <= 100 ==> Meaning(stream, id) == Turn(EventsOf(stream), run, []))
            && (early > 100 ==> Meaning(stream, id) == Turn(EventsOf(stream)[early - 100..], run, []))
  {
    FirstAnswerIs(stream, i, id);
    AroundAnswer(stream, i);
    if |EventsOf(stream[..i])| <= CAPACITY { NothingLost(stream, id); } else { SurplusDropped(stream, id); }
  }

  /** In every other case nothing is heard, and the call fails for this reason. */
  lemma RejectedMeaning(stream: seq<Recv>, i: nat, id: nat)
    requires FirstAnswer(stream, i, id)
    ensures stream[i].Fails? ==> Meaning(stream, id) == Outcome([], Err(Transport(stream[i].fault)))
    ensures stream[i].Got? && !stream[i].frame.reply.ok ==>
              Meaning(stream, id) == Outcome([], Err(Protocol(stream[i].frame.reply.error)))
    ensures stream[i].Got? && stream[i].frame.reply.ok && stream[i].frame.reply.payload == None ==>
              Meaning(stream, id) == Outcome([], Err(Protocol("chat.send returned invalid payload")))
    ensures stream[i].Got? && stream[i].frame.reply.ok && stream[i].frame.reply.payload in {Some(None), Some(Some(""))} ==>
              Meaning(stream, id) == Outcome([], Err(Protocol("chat.send did not return runId")))
  {
    FirstAnswerIs(stream, i, id);
  }

  lemma UnansweredMeaning(stream: seq<Recv>, id: nat)
    requires forall j :: 0 <= j < |stream| ==> !Answers(stream[j], id)
    ensures Meaning(stream, id) == Outcome([], Err(Transport(TimedOut)))
  {
    if AnswerAt(stream, id) < |stream| { assert false; }
  }

  predicate Full(text: Option<string>) {
    text.Some? && text.value != ""
  }

  /** The four readings of an increment, in order of preference; an empty one counts as
      absent and nothing is heard of it. */
  lemma ShownMeaning(p: Payload)
    ensures Shown(p) == if Full(p.delta) then [p.delta.value]
                        else if Full(p.textDelta) then [p.textDelta.value]
                        else if Full(p.chunk) then [p.chunk.value]
                        else if Full(p.text) then [p.text.value]
                        else []
  {
    assert [p.delta, p.textDelta, p.chunk, p.text] == [p.delta] + [p.textDelta, p.chunk, p.text];
    assert [p.textDelta, p.chunk, p.text] == [p.textDelta] + [p.chunk, p.text];
    assert [p.chunk, p.text] == [p.chunk] + [p.text] && [p.text] == [p.text] + [];
    FirstTextStep(p.delta, [p.textDelta, p.chunk, p.text]);
    FirstTextStep(p.textDelta, [p.chunk, p.text]);
    FirstTextStep(p.chunk, [p.text]);
    FirstTextStep(p.text, []);
  }

  lemma FirstTextStep(first: Option<string>, rest: seq<Option<string>>)
    ensures FirstText([first] + rest) == if Full(first) then first.value else FirstText(rest)
  {
    assert ([first] + rest)[1..] == rest;
  }

  lemma OursExactly(r: Recv, runId: string)
    ensures Ours(r, runId) <==> exists p: Payload :: r == Got(Event("chat", Some(p))) && p.runId == Some(runId)
  {
    if Ours(r, runId) {
      assert r == Got(Event("chat", Some(r.frame.payload.value)));
    }
  }

  /** The texts of a block list, joined; blocks without a text are passed over. */
  lemma {:induction false} TextPartsConcat(a: seq<Option<string>>, b: seq<Option<string>>)
    ensures TextParts(a + b) == TextParts(a) + TextParts(b)
  {
    if a == [] {
      assert a + b == b;
    } else {
      assert (a + b)[1..] == a[1..] + b;
      TextPartsConcat(a[1..], b);
    }
  }

  lemma TextPartsOne(text: string)
    ensures TextParts([Some(text)]) == [text] && TextParts([None]) == []
  {
    var none: seq<Option<string>> := [None];
    assert [Some(text)][1..] == [] && none[1..] == [];
  }

  /** Where the closing text comes from. */
  lemma FinalTextMeaning(p: Payload, body: string, texts: seq<Option<string>>, fallback: Option<string>)
    ensures p.message == Bare(body) ==> ExtractFinalText(p) == body
    ensures p.message == Rich(Plain(body), fallback) ==> ExtractFinalText(p) == body
    ensures p.message == Rich(Blocks(texts), fallback) ==>
              ExtractFinalText(p) == if exists k :: 0 <= k < |texts| && texts[k].Some? then Concat(TextParts(texts))
                                     else if fallback.Some? then fallback.value else ""
    ensures p.message == Rich(NoContent, fallback) ==>
              ExtractFinalText(p) == if fallback.Some? then fallback.value else ""
    ensures p.message == NoMessage ==> ExtractFinalText(p) == ""
  {
    TextPartsEmpty(texts);
  }

  lemma {:induction false} TextPartsEmpty(texts: seq<Option<string>>)
    ensures TextParts(texts) == [] <==> forall k :: 0 <= k < |texts| ==> texts[k].None?
  {
    if texts != [] {
      TextPartsEmpty(texts[1..]);
      assert forall k :: 1 <= k < |texts| ==> texts[k] == texts[1..][k - 1];
      if forall k :: 0 <= k < |texts| ==> texts[k].None? {
        assert texts[0].None?;
        assert forall k :: 0 <= k < |texts[1..]| ==> texts[1..][k] == texts[k + 1];
      }
    }
  }

  /** No turn of its own raises what only a callback can. */
  lemma {:induction false} TurnNeverRaises(events: seq<Recv>, runId: string, chunks: seq<string>)
    ensures Turn(events, runId, chunks).result != Err(CallbackRaised)
    decreases |events|
  {
    if events != [] && !events[0].Fails? {
      TurnNeverRaises(events[1..], runId, if Ours(events[0], runId) then chunks + Shown(events[0].frame.payload.value) else chunks);
    }
  }

  /** A callback that raises at its call number `k` is the last thing that happens, and
      one that is never called so often changes nothing. */
  lemma RefusedMeaning(stream: seq<Recv>, id: nat, k: nat)
    ensures Refused(Meaning(stream, id), None) == Meaning(stream, id)
    ensures |Meaning(stream, id).deltas| <= k ==> Refused(Meaning(stream, id), Some(k)) == Meaning(stream, id)
    ensures var all, o := Meaning(stream, id).deltas, Refused(Meaning(stream, id), Some(k));
            && o.deltas <= all
            && (o.result == Err(CallbackRaised) <==> k < |all|)
            && (k < |all| ==> |o.deltas| == k + 1)
  {
    var i := AnswerAt(stream, id);
    if i < |stream| && stream[i].Got? && stream[i].frame.reply.payload.Some? && stream[i].frame.reply.payload.value.Some? {
      TurnNeverRaises(Heard(stream, i), stream[i].frame.reply.payload.value.value, []);
    }
  }

  predicate Ends(r: Recv, runId: string) {
    r.Fails? || (Ours(r, runId) && r.frame.payload.value.state in {Some("error"), Some("final")})
  }

  /** The deltas of our run's events, in order. */
  function DeltasOf(events: seq<Recv>, runId: string): seq<string> {
    if events == [] then []
    else DeltaOf(events[0], runId) + DeltasOf(events[1..], runId)
  }

  function DeltaOf(r: Recv, runId: string): seq<string> {
    if Ours(r, runId) then Shown(r.frame.payload.value) else []
  }

  /** The fold, read declaratively: let `n` be the first event that ends the turn.
      The deltas are those of our events up to and including it, the result depends
      on it and on them alone, and nothing after it matters. */
  lemma {:induction false} TurnMeaning(events: seq<Recv>, runId: string, chunks: seq<string>, n: nat)
    requires n < |events| && Ends(events[n], runId)
    requires forall j :: 0 <= j < n ==> !Ends(events[j], runId)
    ensures var o := Turn(events, runId, chunks);
            && o.deltas == chunks + DeltasOf(events[..n + 1], runId)
            && (events[n].Fails? ==> o.result == Err(Transport(events[n].fault)))
            && (events[n].Got? ==>
                  var p := events[n].frame.payload.value;
                  o.result == if p.state == Some("error")
                              then Err(Protocol(if p.errorMessage == "" then "chat failed" else p.errorMessage))
                              else Ok(if ExtractFinalText(p) != "" then ExtractFinalText(p) else Strip(Concat(o.deltas))))
  {
    assert events[..n + 1][1..] == events[1..][..n];
    if n == 0 {
      assert events[..1][1..] == [];
      assert DeltasOf(events[..1][1..], runId) == [];
    } else {
      assert !Ends(events[0], runId);
      assert chunks + [] == chunks;
      TurnMeaning(events[1..], runId, chunks + DeltaOf(events[0], runId), n - 1);
      Associate(chunks, DeltaOf(events[0], runId), DeltasOf(events[1..][..n], runId));
    }
  }

  /** Without such an event the client waits until it times out. */
  lemma {:induction false} TurnUnfinished(events: seq<Recv>, runId: string, chunks: seq<string>)
    requires forall j :: 0 <= j < |events| ==> !Ends(events[j], runId)
    ensures Turn(events, runId, chunks) == Outcome(chunks + DeltasOf(events, runId), Err(Transport(TimedOut)))
  {
    if events != [] {
      assert !Ends(events[0], runId);
      assert chunks + [] == chunks;
      TurnUnfinished(events[1..], runId, chunks + DeltaOf(events[0], runId));
      Associate(chunks, DeltaOf(events[0], runId), DeltasOf(events[1..], runId));
    }
  }

  /** A turn only adds to the deltas it has. */
  lemma {:induction false} TurnExtends(events: seq<Recv>, runId: string, chunks: seq<string>)
    ensures chunks <= Turn(events, runId, chunks).deltas
    decreases |events|
  {
    if events != [] && !events[0].Fails? {
      TurnExtends(events[1..], runId, if Ours(events[0], runId) then chunks + Shown(events[0].frame.payload.value) else chunks);
    }
  }

  /** Events of other runs are invisible: filtering them out changes nothing. */
  function OnlyOurs(events: seq<Recv>, runId: string): seq<Recv> {
    if events == [] then []
    else (if events[0].Fails? || Ours(events[0], runId) then [events[0]] else []) + OnlyOurs(events[1..], runId)
  }

  lemma {:induction false} OtherRunsInvisible(events: seq<Recv>, runId: string, chunks: seq<string>)
    ensures Turn(OnlyOurs(events, runId), runId, chunks) == Turn(events, runId, chunks)
  {
    if events != [] {
      var rest := OnlyOurs(events[1..], runId);
      if events[0].Fails? || Ours(events[0], runId) {
        assert OnlyOurs(events, runId)[0] == events[0] && OnlyOurs(events, runId)[1..] == rest;
        if events[0].Got? {
          OtherRunsInvisible(events[1..], runId, chunks + Shown(events[0].frame.payload.value));
        }
      } else {
        assert OnlyOurs(events, runId) == rest;
        OtherRunsInvisible(events[1..], runId, chunks);
      }
    }
  }

  // ---- the client ------------------------------------------------------------------------

  /** `incoming` is what the socket will still deliver; when it runs dry recv times out. */
  class OpenClawChatClient {
    var connected: bool
    var requestId: nat
    var eventBuffer: seq<Frame>
    var incoming: seq<Recv>

    method RecvJson() returns (r: Recv)
      modifies this`incoming
      ensures old(incoming) == [] ==> r == Fails(TimedOut) && incoming == []
      ensures old(incoming) != [] ==> r == old(incoming)[0] && incoming == old(incoming)[1..]
    {
      if incoming == [] { return Fails(TimedOut); }
      r, incoming := incoming[0], incoming[1..];
    }

    /** Buffers events while waiting, behind those already there; other responses and
        unknown frames are dropped. */
    method WaitForResponse(id: nat) returns (r: Result<Reply, Fault>)
      requires |eventBuffer| <= CAPACITY
      modifies this`incoming, this`eventBuffer
      ensures var stream := old(incoming);
              var i := AnswerAt(stream, id);
              && (i == |stream| ==> r == Err(TimedOut))
              && (i < |stream| && stream[i].Fails? ==> r == Err(stream[i].fault))
              && (i < |stream| && stream[i].Got? ==>
                    && r == Ok(stream[i].frame.reply)
                    && Wrap(eventBuffer) == LastN(Wrap(old(eventBuffer)) + EventsOf(stream[..i]), CAPACITY)
                    && incoming == stream[i + 1..])
    {
      ghost var stream, held := incoming, Wrap(eventBuffer);
      ghost var n := 0;
      assert held + EventsOf(stream[..0]) == held;
      while true
        invariant n <= |stream| && incoming == stream[n..]
        invariant n <= AnswerAt(stream, id)
        invariant Wrap(eventBuffer) == LastN(held + EventsOf(stream[..n]), CAPACITY)
        decreases |incoming|
      {
        if incoming == [] { return Err(TimedOut); }
        var frame := RecvJson();
        assert frame == stream[n];
        if frame.Fails? { return Err(frame.fault); }
        if frame.frame.Response? && frame.frame.id == id { return Ok(frame.frame.reply); }
        FrameBuffered(held, stream, n, eventBuffer);
        if frame.frame.Event? {
          eventBuffer := Bounded(eventBuffer + [frame.frame]);
        }
        n := n + 1;
      }
    }

    /** The buffer first, then the socket, skipping everything that is not an event. */
    method NextEvent() returns (r: Recv)
      modifies this`incoming, this`eventBuffer
      ensures var pending := Wrap(old(eventBuffer)) + EventsOf(old(incoming));
              var rest := Wrap(eventBuffer) + EventsOf(incoming);
              if pending == [] then r == Fails(TimedOut) && rest == [] else r == pending[0] && rest == pending[1..]
      ensures |eventBuffer| + |incoming| < |old(eventBuffer)| + |old(incoming)| || r.Fails?
    {
      if eventBuffer != [] {
        ghost var pending := Wrap(eventBuffer) + EventsOf(incoming);
        WrapTail(eventBuffer);
        assert Wrap(eventBuffer)[1..] + EventsOf(incoming) == pending[1..];
        r := Got(eventBuffer[0]);
        assert pending != [] && r == pending[0];
        eventBuffer := eventBuffer[1..];
        assert Wrap(eventBuffer) + EventsOf(incoming) == pending[1..];
        return;
      }
      while true
        invariant eventBuffer == [] && EventsOf(incoming) == EventsOf(old(incoming))
        invariant |incoming| <= |old(incoming)|
        decreases |incoming|
      {
        if incoming == [] { return Fails(TimedOut); }
        ghost var before := incoming;
        r := RecvJson();
        assert before == [before[0]] + incoming;
        if r.Fails? || r.frame.Event? { return; }
      }
    }

    /** One turn equals the fold over the frames it was given; `deltas` is what the
        callback saw, in order.  The send may fail, and the callback may raise. */
    method SendMessage(sends: bool, refusesAt: Option<nat>) returns (deltas: seq<string>, r: Result<string, ChatError>)
      modifies this
      ensures !old(connected) ==> r == Err(NotConnected) && deltas == [] && incoming == old(incoming)
      ensures old(connected) && !sends ==> r == Err(SendFailed) && deltas == [] && incoming == old(incoming)
      ensures old(connected) && sends ==>
                Outcome(deltas, r) == Refused(Meaning(old(incoming), old(requestId) + 1), refusesAt)
      ensures connected == old(connected)
      ensures requestId == old(requestId) + if old(connected) then 1 else 0
    {
      deltas := [];
      if !connected { return [], Err(NotConnected); }
      eventBuffer := [];
      requestId := requestId + 1;
      if !sends { return [], Err(SendFailed); }
      ghost var stream := incoming;
      var answer := WaitForResponse(requestId);
      if answer.Err? { return [], Err(Transport(answer.error)); }
      var reply := answer.value;
      if !reply.ok { return [], Err(Protocol(reply.error)); }
      if reply.payload.None? { return [], Err(Protocol("chat.send returned invalid payload")); }
      if reply.payload.value.None? || reply.payload.value.value == "" {
        return [], Err(Protocol("chat.send did not return runId"));
      }
      assert [] + EventsOf(stream[..AnswerAt(stream, requestId)]) == EventsOf(stream[..AnswerAt(stream, requestId)]);
      deltas, r := FollowRun(reply.payload.value.value, refusesAt);
    }

    /** The event loop of `send_message`. */
    method FollowRun(runId: string, refusesAt: Option<nat>) returns (chunks: seq<string>, r: Result<string, ChatError>)
      modifies this`incoming, this`eventBuffer
      ensures Outcome(chunks, r) == Refused(Turn(Wrap(old(eventBuffer)) + EventsOf(old(incoming)), runId, []), refusesAt)
    {
      chunks := [];
      ghost var all := Wrap(eventBuffer) + EventsOf(incoming);
      while true
        invariant Turn(Wrap(eventBuffer) + EventsOf(incoming), runId, chunks) == Turn(all, runId, [])
        invariant refusesAt.Some? ==> |chunks| <= refusesAt.value
        decreases |eventBuffer| + |incoming|
      {
        ghost var pending := Wrap(eventBuffer) + EventsOf(incoming);
        ghost var before := chunks;
        var event := NextEvent();
        if event.Fails? { return chunks, Err(Transport(event.fault)); }
        if !event.frame.Event? || event.frame.event != "chat" { continue; }
        if event.frame.payload.None? { continue; }
        var p := event.frame.payload.value;
        if p.runId != Some(runId) { continue; }
        var delta := ExtractDelta(p);
        if delta != "" {
          chunks := chunks + [delta];
          if refusesAt == Some(|chunks| - 1) {
            TurnHears(pending, runId, before);
            return chunks, Err(CallbackRaised);
          }
        }
        assert chunks == before + Shown(p);
        if p.state == Some("error") {
          return chunks, Err(Protocol(if p.errorMessage != "" then p.errorMessage else "chat failed"));
        }
        if p.state == Some("final") {
          var final := ExtractFinalText(p);
          return chunks, Ok(if final != "" then final else Strip(Concat(chunks)));
        }
      }
    }
  }

  /** The delta of our first pending event is among the turn's. */
  lemma TurnHears(events: seq<Recv>, runId: string, chunks: seq<string>)
    requires events != [] && Ours(events[0], runId)
    ensures chunks + Shown(events[0].frame.payload.value) <= Turn(events, runId, chunks).deltas
  {
    TurnExtends(events[1..], runId, chunks + Shown(events[0].frame.payload.value));
  }

  /** The bounded buffer after an append. */
  function Bounded(frames: seq<Frame>): seq<Frame> {
    if |frames| > CAPACITY then frames[1..] else frames
  }

  /** Buffering frame `n` if it is an event keeps the last hundred of those so far. */
  lemma FrameBuffered(held: seq<Recv>, stream: seq<Recv>, n: nat, buffer: seq<Frame>)
    requires n < |stream| && stream[n].Got? && Wrap(buffer) == LastN(held + EventsOf(stream[..n]), CAPACITY)
    ensures Wrap(if stream[n].frame.Event? then Bounded(buffer + [stream[n].frame]) else buffer)
         == LastN(held + EventsOf(stream[..n + 1]), CAPACITY)
  {
    var r, heard := stream[n], held + EventsOf(stream[..n]);
    assert stream[..n + 1] == stream[..n] + [r];
    EventsOfConcat(stream[..n], [r]);
    assert EventsOf([r]) == Kept(r) by { assert [r][1..] == []; }
    Associate(held, EventsOf(stream[..n]), Kept(r));
    if r.frame.Event? {
      WrapAppend(buffer, r.frame);
      LastNAppend(heard, r, CAPACITY);
      WrapTail(buffer + [r.frame]);
    } else {
      assert heard + [] == heard;
    }
  }

  function Wrap(frames: seq<Frame>): seq<Recv> {
    seq(|frames|, i requires 0 <= i < |frames| => Got(frames[i]))
  }

  lemma WrapAppend(frames: seq<Frame>, f: Frame)
    ensures Wrap(frames + [f]) == Wrap(frames) + [Got(f)]
  {
  }

  lemma WrapTail(frames: seq<Frame>)
    ensures frames != [] ==> Wrap(frames[1..]) == Wrap(frames)[1..]
  {
  }

  lemma LastNAppend<T>(s: seq<T>, x: T, n: nat)
    requires n > 0
    ensures LastN(s + [x], n) == if |LastN(s, n)| < n then LastN(s, n) + [x] else (LastN(s, n) + [x])[1..]
  {
  }
}
