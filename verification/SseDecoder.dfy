/** The server-sent-event decoder shared in shape by the Hermes and Ethos clients:
    lines in, text deltas and the assembled reply out. */
module SseDecoder {
  import opened Prelude
  import opened Text

  const DATA := "data:"
  const DONE := "[DONE]"

  datatype ChatError =
    | MalformedChunk
    | MissingContent
    | Disconnected            // the line iterator raised
    | CallbackRaised
    | Unauthorised
    | HttpStatus(code: int)
    | Unreachable
    | TimedOut
    | NotJson
    | NotConnected

  /** `chunkOf` decodes one payload: None is malformed JSON, otherwise its sanitised
      delta text, "" when it carries none.  `refusesAt` is the call on which the
      caller's callback raises, if it ever does. */
  datatype Env = Env(chunkOf: string -> Option<string>, refusesAt: Option<nat>)

  datatype Outcome = Outcome(deltas: seq<string>, result: Result<string, ChatError>)

  // ---- events ----------------------------------------------------------------------

  predicate IsData(line: string) {
    DATA <= line
  }

  /** lstrip(" ") */
  function TrimSpaces(s: string): string {
    if s != "" && s[0] == ' ' then TrimSpaces(s[1..]) else s
  }

  function DataValue(line: string): string
    requires IsData(line)
  {
    TrimSpaces(line[|DATA|..])
  }

  function Flush(buffer: seq<string>): seq<string> {
    if buffer == [] then [] else [JoinLines(buffer)]
  }

  /** Payloads of the events that a blank line completes. */
  function Complete(buffer: seq<string>, lines: seq<string>): seq<string>
    decreases |lines|
  {
    if lines == [] then []
    else if lines[0] == "" then Flush(buffer) + Complete([], lines[1..])
    else if IsData(lines[0]) then Complete(buffer + [DataValue(lines[0])], lines[1..])
    else Complete(buffer, lines[1..])
  }

  /** Data lines still waiting for their blank line. */
  function Leftover(buffer: seq<string>, lines: seq<string>): seq<string>
    decreases |lines|
  {
    if lines == [] then buffer
    else if lines[0] == "" then Leftover([], lines[1..])
    else if IsData(lines[0]) then Leftover(buffer + [DataValue(lines[0])], lines[1..])
    else Leftover(buffer, lines[1..])
  }

  function Payloads(lines: seq<string>): seq<string> {
    Complete([], lines) + Flush(Leftover([], lines))
  }

  // ---- the reply ---------------------------------------------------------------------

  function Finish(parts: seq<string>): Outcome {
    Outcome(parts, if Concat(parts) == "" then Err(MissingContent) else Ok(Concat(parts)))
  }

  /** What a list of payloads amounts to; `broken` when the connection then failed. */
  function Interpret(env: Env, payloads: seq<string>, broken: bool, parts: seq<string>): Outcome
    decreases |payloads|
  {
    if payloads == [] then (if broken then Outcome(parts, Err(Disconnected)) else Finish(parts))
    else if payloads[0] == DONE then Finish(parts)
    else match env.chunkOf(payloads[0])
         case None => Outcome(parts, Err(MalformedChunk))
         case Some(delta) =>
           if delta == "" then Interpret(env, payloads[1..], broken, parts)
           else if env.refusesAt == Some(|parts|) then Outcome(parts + [delta], Err(CallbackRaised))
           else Interpret(env, payloads[1..], broken, parts + [delta])
  }

  function Meaning(env: Env, lines: seq<string>, broken: bool): Outcome {
    Interpret(env, if broken then Complete([], lines) else Payloads(lines), broken, [])
  }

  function Decoded(env: Env, payloads: seq<string>): seq<string> {
    if payloads == [] then []
    else
      var c := env.chunkOf(payloads[0]);
      (if c.Some? && c.value != "" then [c.value] else []) + Decoded(env, payloads[1..])
  }

  /** The first `n` payloads decode, none of them ends the stream, and the callback takes
      all their deltas. */
  ghost predicate Smooth(env: Env, payloads: seq<string>, n: nat, parts: seq<string>)
    requires n <= |payloads|
  {
    && (forall i :: 0 <= i < n ==> payloads[i] != DONE && env.chunkOf(payloads[i]).Some?)
    && (env.refusesAt.Some? ==>
          env.refusesAt.value < |parts| || |parts + Decoded(env, payloads[..n])| <= env.refusesAt.value)
  }

  /** After a smooth prefix the callback has seen exactly its non-empty deltas. */
  lemma {:induction false} InterpretPrefix(env: Env, payloads: seq<string>, n: nat, broken: bool, parts: seq<string>)
    requires n <= |payloads| && Smooth(env, payloads, n, parts)
    ensures Interpret(env, payloads, broken, parts)
         == Interpret(env, payloads[n..], broken, parts + Decoded(env, payloads[..n]))
    decreases n
  {
    if n == 0 {
      assert parts + Decoded(env, payloads[..0]) == parts && payloads[0..] == payloads;
    } else {
      var rest, delta := payloads[1..], env.chunkOf(payloads[0]).value;
      assert payloads[..n][1..] == rest[..n - 1] && rest[n - 1..] == payloads[n..];
      var own := if delta == "" then [] else [delta];
      Associate(parts, own, Decoded(env, rest[..n - 1]));
      assert parts + [] == parts;
      InterpretPrefix(env, rest, n - 1, broken, parts + own);
    }
  }

  /** What a list of payloads means.  With `n` the first payload, if any, that is not
      smooth: `[DONE]` and the end of the stream finish with the concatenation of the
      deltas before it; a malformed payload, a raising callback or a lost connection is
      an error after exactly those deltas. */
  lemma InterpretMeaning(env: Env, payloads: seq<string>, n: nat, broken: bool, parts: seq<string>)
    requires n <= |payloads| && Smooth(env, payloads, n, parts)
    ensures var o, heard := Interpret(env, payloads, broken, parts), parts + Decoded(env, payloads[..n]);
            if n == |payloads| && broken then o == Outcome(heard, Err(Disconnected))
            else if n == |payloads| || payloads[n] == "[DONE]" then
              o == Outcome(heard, if Concat(heard) != "" then Ok(Concat(heard)) else Err(MissingContent))
            else match env.chunkOf(payloads[n])
                 case None => o == Outcome(heard, Err(MalformedChunk))
                 case Some(delta) =>
                   delta != "" && env.refusesAt == Some(|heard|) ==> o == Outcome(heard + [delta], Err(CallbackRaised))
  {
    InterpretPrefix(env, payloads, n, broken, parts);
  }

  /** The deltas are those of each payload in order; one without text has none. */
  lemma {:induction false} DecodedConcat(env: Env, a: seq<string>, b: seq<string>)
    ensures Decoded(env, a + b) == Decoded(env, a) + Decoded(env, b)
  {
    if a == [] {
      assert a + b == b;
    } else {
      assert (a + b)[0] == a[0] && (a + b)[1..] == a[1..] + b;
      DecodedConcat(env, a[1..], b);
    }
  }

  lemma DecodedOne(env: Env, payload: string)
    ensures Decoded(env, [payload]) == if env.chunkOf(payload) in {None, Some("")} then [] else [env.chunkOf(payload).value]
  {
    assert [payload][1..] == [];
  }

  /** A successful reply is the concatenation of what the callback saw, and not empty. */
  lemma {:induction false} ReplyIsDeltas(env: Env, payloads: seq<string>, broken: bool, parts: seq<string>)
    ensures var o := Interpret(env, payloads, broken, parts);
            o.result.Ok? ==> o.result.value == Concat(o.deltas) && o.result.value != ""
    decreases |payloads|
  {
    if payloads != [] && payloads[0] != DONE {
      var c := env.chunkOf(payloads[0]);
      if c.Some? {
        ReplyIsDeltas(env, payloads[1..], broken, if c.value == "" then parts else parts + [c.value]);
      }
    }
  }

  /** Nothing after a completed [DONE] event can matter. */
  lemma {:induction false} InterpretStopsAtDone(env: Env, a: seq<string>, b: seq<string>, broken: bool, parts: seq<string>)
    requires DONE in a
    ensures Interpret(env, a + b, broken, parts) == Interpret(env, a, false, parts)
  {
    assert (a + b)[0] == a[0] && (a + b)[1..] == a[1..] + b;
    if a[0] != DONE {
      var c := env.chunkOf(a[0]);
      if c.Some? {
        InterpretStopsAtDone(env, a[1..], b, broken, if c.value == "" then parts else parts + [c.value]);
      }
    }
  }

  lemma {:induction false} CompleteConcat(buffer: seq<string>, a: seq<string>, b: seq<string>)
    ensures Complete(buffer, a + b) == Complete(buffer, a) + Complete(Leftover(buffer, a), b)
    ensures Leftover(buffer, a + b) == Leftover(Leftover(buffer, a), b)
    decreases |a|
  {
    if a == [] {
      assert a + b == b;
    } else {
      assert (a + b)[0] == a[0] && (a + b)[1..] == a[1..] + b;
      if a[0] == "" { CompleteConcat([], a[1..], b); }
      else if IsData(a[0]) { CompleteConcat(buffer + [DataValue(a[0])], a[1..], b); }
      else { CompleteConcat(buffer, a[1..], b); }
    }
  }

  /** Once the lines read so far complete a [DONE] event, no continuation of the
      stream, and no failure of it, changes the outcome. */
  lemma InputAfterDoneIsIrrelevant(env: Env, before: seq<string>, after: seq<string>, broken: bool)
    requires DONE in Complete([], before)
    ensures Meaning(env, before + after, broken) == Meaning(env, before, false)
  {
    CompleteConcat([], before, after);
    var done, rest := Complete([], before), Complete(Leftover([], before), after);
    InterpretStopsAtDone(env, done, rest, broken, []);
    InterpretStopsAtDone(env, done, Flush(Leftover([], before)), false, []);
    assert done + (rest + Flush(Leftover([], before + after))) == done + rest + Flush(Leftover([], before + after));
    InterpretStopsAtDone(env, done, rest + Flush(Leftover([], before + after)), broken, []);
  }

  // ---- round trip ------------------------------------------------------------------------

  /** What a server may write between two blank lines. */
  datatype Item =
    | Data(pad: nat, text: string)      // "data:", any number of spaces, the text
    | Noise(text: string)               // a comment or an unknown field

  predicate ValidItem(i: Item) {
    match i
    case Data(_, text) => text == "" || text[0] != ' '
    case Noise(text) => text != "" && !IsData(text)
  }

  predicate ValidItems(items: seq<Item>) {
    forall i :: 0 <= i < |items| ==> ValidItem(items[i])
  }

  function Spaces(n: nat): string {
    if n == 0 then "" else " " + Spaces(n - 1)
  }

  function Render(i: Item): string {
    match i
    case Data(pad, text) => DATA + (Spaces(pad) + text)
    case Noise(text) => text
  }

  function RenderAll(items: seq<Item>): seq<string> {
    if items == [] then [] else [Render(items[0])] + RenderAll(items[1..])
  }

  function TextOf(i: Item): seq<string> {
    if i.Data? then [i.text] else []
  }

  function Texts(items: seq<Item>): seq<string> {
    if items == [] then [] else TextOf(items[0]) + Texts(items[1..])
  }

  /** Each event's items followed by a blank line. */
  function Encode(events: seq<seq<Item>>): seq<string> {
    if events == [] then [] else RenderAll(events[0]) + [""] + Encode(events[1..])
  }

  /** An event without a data line has no payload. */
  function Payload(items: seq<Item>): seq<string> {
    if forall i :: 0 <= i < |items| ==> items[i].Noise? then [] else [JoinLines(Texts(items))]
  }

  function EventPayloads(events: seq<seq<Item>>): seq<string> {
    if events == [] then [] else Payload(events[0]) + EventPayloads(events[1..])
  }

  lemma {:induction false} PayloadIsFlush(items: seq<Item>)
    ensures Payload(items) == Flush(Texts(items))
    ensures Texts(items) == [] <==> forall i :: 0 <= i < |items| ==> items[i].Noise?
  {
    if items != [] {
      PayloadIsFlush(items[1..]);
      assert items == [items[0]] + items[1..];
    }
  }

  lemma {:induction false} TrimPadded(pad: nat, text: string)
    requires text == "" || text[0] != ' '
    ensures TrimSpaces(Spaces(pad) + text) == text
  {
    if pad == 0 {
      assert Spaces(0) + text == text;
    } else {
      assert Spaces(pad) + text == " " + (Spaces(pad - 1) + text);
      assert (Spaces(pad) + text)[1..] == Spaces(pad - 1) + text;
      TrimPadded(pad - 1, text);
    }
  }

  lemma ReadItem(buffer: seq<string>, item: Item, rest: seq<string>)
    requires ValidItem(item)
    ensures var buffer' := buffer + TextOf(item);
            && Complete(buffer, [Render(item)] + rest) == Complete(buffer', rest)
            && Leftover(buffer, [Render(item)] + rest) == Leftover(buffer', rest)
  {
    var line := Render(item);
    assert ([line] + rest)[0] == line && ([line] + rest)[1..] == rest;
    match item
    case Data(pad, text) =>
      TrimPadded(pad, text);
      assert line[|DATA|..] == Spaces(pad) + text;
    case Noise(text) =>
      assert buffer + [] == buffer;
  }

  lemma {:induction false} ReadItems(buffer: seq<string>, items: seq<Item>)
    requires ValidItems(items)
    ensures Complete(buffer, RenderAll(items)) == [] && Leftover(buffer, RenderAll(items)) == buffer + Texts(items)
    decreases |items|
  {
    if items == [] {
      assert buffer + Texts(items) == buffer;
    } else {
      var first, rest := items[0], items[1..];
      assert ValidItem(first) && ValidItems(rest);
      ReadItem(buffer, first, RenderAll(rest));
      ReadItems(buffer + TextOf(first), rest);
      assert buffer + (TextOf(first) + Texts(rest)) == (buffer + TextOf(first)) + Texts(rest);
    }
  }

  /** One terminated event in front of anything else yields its payload and leaves
      nothing behind. */
  lemma ReadEvent(items: seq<Item>, rest: seq<string>)
    requires ValidItems(items)
    ensures Payloads(RenderAll(items) + [""] + rest) == Payload(items) + Payloads(rest)
  {
    PayloadIsFlush(items);
    var body, texts := RenderAll(items), Texts(items);
    ReadItems([], items);
    assert [] + texts == texts;
    CompleteConcat([], body, [""] + rest);
    assert ([""] + rest)[1..] == rest;
    assert body + [""] + rest == body + ([""] + rest);
    assert Complete(texts, [""] + rest) == Flush(texts) + Complete([], rest);
    assert [] + (Flush(texts) + Complete([], rest)) == Flush(texts) + Complete([], rest);
    assert Flush(texts) + (Complete([], rest) + Flush(Leftover([], rest)))
        == (Flush(texts) + Complete([], rest)) + Flush(Leftover([], rest));
  }

  /** Reading what was written: every event comes back with its data lines joined,
      comments and unknown fields vanish, and a last event needs no terminator. */
  lemma {:induction false} RoundTrip(events: seq<seq<Item>>, last: seq<Item>)
    requires ValidItems(last) && forall i :: 0 <= i < |events| ==> ValidItems(events[i])
    ensures Payloads(Encode(events) + RenderAll(last)) == EventPayloads(events) + Payload(last)
  {
    if events == [] {
      ReadLast(last);
    } else {
      var rest := Encode(events[1..]) + RenderAll(last);
      RoundTrip(events[1..], last);
      ReadEvent(events[0], rest);
      Associate(RenderAll(events[0]) + [""], Encode(events[1..]), RenderAll(last));
      Associate(Payload(events[0]), EventPayloads(events[1..]), Payload(last));
    }
  }

  lemma ReadLast(last: seq<Item>)
    requires ValidItems(last)
    ensures Payloads(Encode([]) + RenderAll(last)) == EventPayloads([]) + Payload(last)
  {
    PayloadIsFlush(last);
    ReadItems([], last);
    assert Encode([]) + RenderAll(last) == RenderAll(last);
    assert [] + Texts(last) == Texts(last);
  }

  /** From the server to the caller: a stream whose payloads decode, up to its end or to
      the first `[DONE]`, is answered with their deltas joined, each heard once in order. */
  lemma StreamIsAnswered(env: Env, events: seq<seq<Item>>, last: seq<Item>, n: nat)
    requires ValidItems(last) && forall i :: 0 <= i < |events| ==> ValidItems(events[i])
    requires var p := EventPayloads(events) + Payload(last);
             n <= |p| && Smooth(env, p, n, []) && (n < |p| ==> p[n] == "[DONE]")
    ensures var heard := Decoded(env, (EventPayloads(events) + Payload(last))[..n]);
            Meaning(env, Encode(events) + RenderAll(last), false)
            == Outcome(heard, if Concat(heard) != "" then Ok(Concat(heard)) else Err(MissingContent))
  {
    var p := EventPayloads(events) + Payload(last);
    RoundTrip(events, last);
    InterpretMeaning(env, p, n, false, []);
    assert [] + Decoded(env, p[..n]) == Decoded(env, p[..n]);
  }

  // ---- comparison with section 9.2.6 of the WHATWG HTML standard ----------------------------

  /** Position of the first colon, or the length of the line. */
  function Colon(line: string): (i: nat)
    ensures i <= |line| && (i < |line| ==> line[i] == ':') && forall j :: 0 <= j < i ==> line[j] != ':'
  {
    if line == "" || line[0] == ':' then 0 else 1 + Colon(line[1..])
  }

  function StandardField(line: string): string {
    line[..Colon(line)]
  }

  /** The field value loses at most one leading space. */
  function StandardValue(line: string): string {
    if Colon(line) == |line| then ""
    else
      var v := line[Colon(line) + 1..];
      if v != "" && v[0] == ' ' then v[1..] else v
  }

  /** The standard's event stream: an unterminated last event is discarded. */
  function StandardEvents(buffer: seq<string>, lines: seq<string>): seq<string>
    decreases |lines|
  {
    if lines == [] then []
    else if lines[0] == "" then (if buffer == [] then [] else [JoinLines(buffer)]) + StandardEvents([], lines[1..])
    else if lines[0][0] != ':' && StandardField(lines[0]) == "data" then
      StandardEvents(buffer + [StandardValue(lines[0])], lines[1..])
    else StandardEvents(buffer, lines[1..])
  }

  predicate Plain(line: string) {
    line != "data" && !("data:  " <= line)
  }

  lemma FieldIsData(line: string)
    requires line != "data" && StandardField(line) == "data"
    ensures IsData(line)
  {
    assert |StandardField(line)| == 4;
    assert Colon(line) == |line| ==> line == "data";
    assert line[..5] == line[..4] + [line[4]];
  }

  lemma DataFieldAgrees(line: string)
    requires line != "" && line != "data"
    ensures IsData(line) <==> line[0] != ':' && StandardField(line) == "data"
    ensures IsData(line) ==> Colon(line) == 4
  {
    if IsData(line) {
      assert line[4] == ':' && line[..4] == "data";
      assert line[0] == 'd' && line[1] == 'a' && line[2] == 't' && line[3] == 'a';
    }
    if StandardField(line) == "data" { FieldIsData(line); }
  }

  lemma DoubledSpace(line: string)
    requires IsData(line)
    ensures "data:  " <= line <==> |line| >= 7 && line[5] == ' ' && line[6] == ' '
  {
    if |line| >= 7 {
      assert line[..7] == line[..5] + [line[5], line[6]];
      assert "data:  "[5] == ' ' && "data:  "[6] == ' ' && "data:  "[..5] == "data:";
      assert "data:  " <= line <==> line[..7] == "data:  ";
    }
  }

  lemma {:induction false} TrimShortens(s: string)
    ensures |TrimSpaces(s)| <= |s|
    ensures s != "" && s[0] == ' ' ==> |TrimSpaces(s)| < |s|
    ensures (s == "" || s[0] != ' ') ==> TrimSpaces(s) == s
  {
    if s != "" && s[0] == ' ' { TrimShortens(s[1..]); }
  }

  /** The decoder strips every leading space where the standard strips one: the two
      values differ exactly when two spaces follow the colon, and then in length. */
  lemma ValueAgreesIff(line: string)
    requires IsData(line)
    ensures DataValue(line) == StandardValue(line) <==> !("data:  " <= line)
    ensures |DataValue(line)| <= |StandardValue(line)|
    ensures "data:  " <= line ==> |DataValue(line)| < |StandardValue(line)|
  {
    assert line != "data";
    DataFieldAgrees(line);
    DoubledSpace(line);
    var v := line[5..];
    TrimShortens(v);
    if |v| >= 1 && v[0] == ' ' { TrimShortens(v[1..]); }
    if |v| >= 2 && v[0] == ' ' && v[1] == ' ' { TrimShortens(v[1..][1..]); }
  }

  predicate HasBlank(lines: seq<string>) {
    exists j :: 0 <= j < |lines| && lines[j] == ""
  }

  /** A line that the two read differently is followed by a blank one. */
  predicate OddCompleted(lines: seq<string>) {
    exists i, j :: 0 <= i < j < |lines| && lines[j] == "" && !Plain(lines[i])
  }

  lemma ConsBlank(line: string, rest: seq<string>)
    ensures HasBlank([line] + rest) <==> line == "" || HasBlank(rest)
  {
    var lines := [line] + rest;
    assert lines[0] == line;
    if j :| 0 <= j < |lines| && lines[j] == "" { assert j == 0 || rest[j - 1] == ""; }
    if j :| 0 <= j < |rest| && rest[j] == "" { assert lines[j + 1] == ""; }
  }

  lemma ConsOdd(line: string, rest: seq<string>)
    ensures OddCompleted([line] + rest) <==> OddCompleted(rest) || (!Plain(line) && HasBlank(rest))
  {
    var lines := [line] + rest;
    if i, j :| 0 <= i < j < |lines| && lines[j] == "" && !Plain(lines[i]) {
      assert rest[j - 1] == "";
      assert i == 0 || !Plain(rest[i - 1]);
    }
    if i, j :| 0 <= i < j < |rest| && rest[j] == "" && !Plain(rest[i]) {
      assert lines[j + 1] == "" && !Plain(lines[i + 1]);
    }
    if !Plain(line) {
      if j :| 0 <= j < |rest| && rest[j] == "" { assert lines[j + 1] == "" && !Plain(lines[0]); }
    }
  }

  lemma {:induction false} NothingCompleted(a: seq<string>, b: seq<string>, lines: seq<string>)
    requires !HasBlank(lines)
    ensures Complete(a, lines) == [] == StandardEvents(b, lines)
    decreases |lines|
  {
    if lines != [] {
      var line, rest := lines[0], lines[1..];
      assert lines == [line] + rest;
      ConsBlank(line, rest);
      var a' := if IsData(line) then a + [DataValue(line)] else a;
      var b' := if line[0] != ':' && StandardField(line) == "data" then b + [StandardValue(line)] else b;
      NothingCompleted(a', b', rest);
    }
  }

  lemma {:induction false} AgreesWhenPlain(buffer: seq<string>, lines: seq<string>)
    requires !OddCompleted(lines)
    ensures Complete(buffer, lines) == StandardEvents(buffer, lines)
    decreases |lines|
  {
    if lines != [] {
      var line, rest := lines[0], lines[1..];
      assert lines == [line] + rest;
      ConsOdd(line, rest);
      if line == "" {
        AgreesWhenPlain([], rest);
      } else if !Plain(line) {
        ConsBlank(line, rest);
        NothingCompleted(buffer, buffer, lines);
      } else {
        DataFieldAgrees(line);
        if IsData(line) { ValueAgreesIff(line); }
        AgreesWhenPlain(if IsData(line) then buffer + [DataValue(line)] else buffer, rest);
      }
    }
  }

  /** Characters, and one more for each string. */
  function Weight(texts: seq<string>): nat {
    if texts == [] then 0 else |texts[0]| + 1 + Weight(texts[1..])
  }

  lemma {:induction false} WeightConcat(a: seq<string>, b: seq<string>)
    ensures Weight(a + b) == Weight(a) + Weight(b)
  {
    if a == [] {
      assert a + b == b;
    } else {
      assert (a + b)[1..] == a[1..] + b;
      WeightConcat(a[1..], b);
    }
  }

  lemma WeightAppend(a: seq<string>, text: string)
    ensures Weight(a + [text]) == Weight(a) + |text| + 1
  {
    WeightConcat(a, [text]);
    assert [text][1..] == [];
  }

  lemma {:induction false} JoinKeepsWeight(texts: seq<string>)
    requires texts != []
    ensures |JoinLines(texts)| + 1 == Weight(texts)
  {
    if |texts| > 1 { JoinKeepsWeight(texts[1..]); }
  }

  lemma FlushKeepsWeight(texts: seq<string>)
    ensures Weight(Flush(texts)) == Weight(texts)
  {
    if texts != [] {
      JoinKeepsWeight(texts);
      assert [JoinLines(texts)][1..] == [];
    }
  }

  /** What one line that is not blank adds to the two buffers. */
  lemma LineWeighs(a: seq<string>, b: seq<string>, line: string)
    requires line != ""
    ensures var a' := if IsData(line) then a + [DataValue(line)] else a;
            var b' := if line[0] != ':' && StandardField(line) == "data" then b + [StandardValue(line)] else b;
            && Weight(a') - Weight(a) <= Weight(b') - Weight(b)
            && (!Plain(line) ==> Weight(a') - Weight(a) < Weight(b') - Weight(b))
  {
    if line == "data" {
      assert Colon(line) == 4;
      WeightAppend(b, StandardValue(line));
    } else {
      DataFieldAgrees(line);
      if IsData(line) {
        ValueAgreesIff(line);
        WeightAppend(a, DataValue(line));
        WeightAppend(b, StandardValue(line));
      }
    }
  }

  /** The standard's events are never lighter, and heavier once a difference is
      completed by a blank line. */
  lemma {:induction false} StandardIsHeavier(a: seq<string>, b: seq<string>, lines: seq<string>)
    requires Weight(a) <= Weight(b)
    ensures Weight(Complete(a, lines)) <= Weight(StandardEvents(b, lines))
    ensures OddCompleted(lines) || (Weight(a) < Weight(b) && HasBlank(lines)) ==>
              Weight(Complete(a, lines)) < Weight(StandardEvents(b, lines))
    decreases |lines|
  {
    if lines != [] {
      var line, rest := lines[0], lines[1..];
      assert lines == [line] + rest;
      ConsOdd(line, rest);
      ConsBlank(line, rest);
      if line == "" {
        StandardIsHeavier([], [], rest);
        FlushKeepsWeight(a);
        FlushKeepsWeight(b);
        WeightConcat(Flush(a), Complete([], rest));
        WeightConcat(Flush(b), StandardEvents([], rest));
      } else {
        LineWeighs(a, b, line);
        StandardIsHeavier(if IsData(line) then a + [DataValue(line)] else a,
                          if line[0] != ':' && StandardField(line) == "data" then b + [StandardValue(line)] else b, rest);
      }
    }
  }

  /** The decoder's terminated events are the standard's exactly when no bare "data"
      line and no doubled space is followed by a blank line. */
  lemma AgreesWithStandardIff(lines: seq<string>)
    ensures Complete([], lines) == StandardEvents([], lines)
            <==> forall i, j :: 0 <= i < j < |lines| && lines[j] == "" ==> Plain(lines[i])
  {
    if OddCompleted(lines) {
      StandardIsHeavier([], [], lines);
    } else {
      AgreesWhenPlain([], lines);
    }
  }

  // ---- the loop ----------------------------------------------------------------------------

  /** `_dispatch_event`: decode the buffered lines; `stop` on [DONE]. */
  method Dispatch(env: Env, dataLines: seq<string>, parts: seq<string>)
    returns (parts': seq<string>, stop: bool, error: Option<ChatError>)
    ensures forall rest: seq<string>, broken: bool {:trigger Interpret(env, Flush(dataLines) + rest, broken, parts)} ::
              Interpret(env, Flush(dataLines) + rest, broken, parts)
              == if error.Some? then Outcome(parts', Err(error.value))
                 else if stop then Finish(parts')
                 else Interpret(env, rest, broken, parts')
    ensures dataLines == [] ==> parts' == parts && !stop && error.None?
  {
    parts', stop, error := parts, false, None;
    if dataLines == [] {
      assert forall rest: seq<string> :: [] + rest == rest;
      return;
    }
    var payload := JoinLines(dataLines);
    assert forall rest: seq<string> :: ([payload] + rest)[0] == payload && ([payload] + rest)[1..] == rest;
    if payload == DONE { return parts, true, None; }
    var chunk := env.chunkOf(payload);
    if chunk.None? { return parts, false, Some(MalformedChunk); }
    if chunk.value == "" { return; }
    parts' := parts + [chunk.value];
    if env.refusesAt == Some(|parts|) { error := Some(CallbackRaised); }
  }

  /** The payloads still to come: from the data lines in hand and the lines ahead. */
  function Ahead(dataLines: seq<string>, lines: seq<string>, broken: bool): seq<string> {
    Complete(dataLines, lines) + if broken then [] else Flush(Leftover(dataLines, lines))
  }

  lemma AheadStep(dataLines: seq<string>, lines: seq<string>, broken: bool)
    requires lines != []
    ensures Ahead(dataLines, lines, broken) ==
            if lines[0] == "" then Flush(dataLines) + Ahead([], lines[1..], broken)
            else Ahead(if IsData(lines[0]) then dataLines + [DataValue(lines[0])] else dataLines, lines[1..], broken)
  {
    if lines[0] == "" {
      Associate(Flush(dataLines), Complete([], lines[1..]), if broken then [] else Flush(Leftover([], lines[1..])));
    }
  }

  /** `_consume_sse_stream`: the callback sequence and the reply or error are the
      meaning of the lines. */
  method ConsumeSse(env: Env, lines: seq<string>, broken: bool)
    returns (deltas: seq<string>, r: Result<string, ChatError>)
    ensures Outcome(deltas, r) == Meaning(env, lines, broken)
  {
    deltas := [];
    var dataLines: seq<string> := [];
    var n := 0;
    assert lines[0..] == lines && Complete([], lines) + [] == Complete([], lines);
    while n < |lines|
      invariant n <= |lines|
      invariant Interpret(env, Ahead(dataLines, lines[n..], broken), broken, deltas) == Meaning(env, lines, broken)
    {
      var line := lines[n];
      AheadStep(dataLines, lines[n..], broken);
      assert lines[n..][1..] == lines[n + 1..];
      n := n + 1;
      if line == "" {
        var stop, error;
        deltas, stop, error := Dispatch(env, dataLines, deltas);
        dataLines := [];
        if error.Some? { return deltas, Err(error.value); }
        if stop { return deltas, Finish(deltas).result; }
        continue;
      }
      if ':' == line[0] { continue; }
      if !IsData(line) { continue; }
      dataLines := dataLines + [DataValue(line)];
    }
    assert lines[n..] == [];
    if broken {
      return deltas, Err(Disconnected);
    }
    assert Ahead(dataLines, [], broken) == Flush(dataLines) + [];
    var stop, error;
    deltas, stop, error := Dispatch(env, dataLines, deltas);
    if error.Some? { return deltas, Err(error.value); }
    return deltas, Finish(deltas).result;
  }
}
