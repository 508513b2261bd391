/** The browser's chat reader: text arrives in arbitrary chunks, is cut into lines
    as it comes, and each line may carry one JSON message. */
module ChunkedLines {
  import opened Prelude
  import opened Text

  // ---- lines of a text -----------------------------------------------------------

  /** s.split(/\r?\n/): pieces between newlines, each terminated piece without one
      trailing carriage return; the last piece is what follows the last newline. */
  function Split(s: string): (parts: seq<string>)
    ensures |parts| >= 1
  {
    SplitFrom("", s)
  }

  /** The same with the characters of the current piece read so far. */
  function SplitFrom(piece: string, s: string): (parts: seq<string>)
    ensures |parts| >= 1
    decreases |s|
  {
    if s == "" then [piece]
    else if s[0] == '\n' then [DropReturn(piece)] + SplitFrom("", s[1..])
    else SplitFrom(piece + [s[0]], s[1..])
  }

  /** s.replace(/\r$/, "") */
  function DropReturn(s: string): string {
    if s != "" && s[|s| - 1] == '\r' then s[..|s| - 1] else s
  }

  function Last(parts: seq<string>): string
    requires parts != []
  {
    parts[|parts| - 1]
  }

  function Init(parts: seq<string>): seq<string>
    requires parts != []
  {
    parts[..|parts| - 1]
  }

  /** Cutting a text anywhere, even between a carriage return and its newline, and
      carrying the unfinished piece over, finds the same lines. */
  lemma {:induction false} SplitFromConcat(piece: string, a: string, b: string)
    ensures SplitFrom(piece, a + b)
         == Init(SplitFrom(piece, a)) + SplitFrom(Last(SplitFrom(piece, a)), b)
    decreases |a|
  {
    if a == "" {
      assert a + b == b;
    } else {
      assert (a + b)[1..] == a[1..] + b && (a + b)[0] == a[0];
      if a[0] == '\n' {
        SplitFromConcat("", a[1..], b);
      } else {
        SplitFromConcat(piece + [a[0]], a[1..], b);
      }
    }
  }

  /** Splitting again what was carried over adds nothing: it holds no newline. */
  lemma {:induction false} SplitFromPiece(piece: string, s: string)
    requires '\n' !in piece
    ensures '\n' !in Last(SplitFrom(piece, s))
    ensures SplitFrom("", piece + s) == SplitFrom(piece, s)
    decreases |s|
  {
    NoNewline("", piece);
    SplitFromConcat("", piece, s);
    assert "" + piece == piece;
    if s == "" {
      assert Last(SplitFrom(piece, s)) == piece;
    } else if s[0] == '\n' {
      SplitFromPiece("", s[1..]);
      assert Last(SplitFrom(piece, s)) == Last(SplitFrom("", s[1..]));
    } else {
      SplitFromPiece(piece + [s[0]], s[1..]);
      assert SplitFrom(piece, s) == SplitFrom(piece + [s[0]], s[1..]);
    }
  }

  lemma {:induction false} NoNewline(piece: string, s: string)
    requires '\n' !in s
    ensures SplitFrom(piece, s) == [piece + s]
    decreases |s|
  {
    if s == "" {
      assert piece + s == piece;
    } else {
      assert s[0] in s;
      NoNewline(piece + [s[0]], s[1..]);
      assert piece + [s[0]] + s[1..] == piece + s;
    }
  }

  /** What splitting means, without the recursion: joined back with newlines and with
      the dropped carriage returns restored the pieces are the text, and no piece
      holds a newline. */
  lemma {:induction false} SplitRejoins(piece: string, s: string) returns (raw: seq<string>)
    requires '\n' !in piece
    ensures |raw| == |SplitFrom(piece, s)| && JoinLines(raw) == piece + s
    ensures forall i :: 0 <= i < |raw| ==> '\n' !in raw[i]
    ensures forall i :: 0 <= i < |raw| - 1 ==> SplitFrom(piece, s)[i] == DropReturn(raw[i])
    ensures Last(SplitFrom(piece, s)) == Last(raw)
    decreases |s|
  {
    if s == "" {
      raw := [piece];
      assert piece + s == piece;
    } else if s[0] == '\n' {
      var rest := SplitRejoins("", s[1..]);
      raw := [piece] + rest;
      RejoinCons(piece, s, rest);
    } else {
      raw := SplitRejoins(piece + [s[0]], s[1..]);
      assert piece + [s[0]] + s[1..] == piece + s;
    }
  }

  lemma RejoinCons(piece: string, s: string, rest: seq<string>)
    requires s != "" && s[0] == '\n' && rest != []
    requires |rest| == |SplitFrom("", s[1..])| && JoinLines(rest) == "" + s[1..]
    requires forall i :: 0 <= i < |rest| - 1 ==> SplitFrom("", s[1..])[i] == DropReturn(rest[i])
    requires Last(SplitFrom("", s[1..])) == Last(rest)
    ensures JoinLines([piece] + rest) == piece + s
    ensures forall i :: 0 <= i < |rest| ==> SplitFrom(piece, s)[i] == DropReturn(([piece] + rest)[i])
    ensures Last(SplitFrom(piece, s)) == Last([piece] + rest)
  {
    JoinCons(piece, s, rest);
    var parts := SplitFrom("", s[1..]);
    ConsPieces(DropReturn(piece), parts, piece, rest);
    assert SplitFrom(piece, s) == [DropReturn(piece)] + parts;
  }

  lemma JoinCons(piece: string, s: string, rest: seq<string>)
    requires s != "" && s[0] == '\n' && rest != [] && JoinLines(rest) == "" + s[1..]
    ensures JoinLines([piece] + rest) == piece + s
  {
    assert ([piece] + rest)[1..] == rest;
    assert "\n" + s[1..] == s;
    assert piece + "\n" + s[1..] == piece + ("\n" + s[1..]);
  }

  lemma ConsPieces(first: string, parts: seq<string>, piece: string, rest: seq<string>)
    requires |parts| == |rest| > 0 && first == DropReturn(piece)
    requires forall i :: 0 <= i < |rest| - 1 ==> parts[i] == DropReturn(rest[i])
    requires Last(parts) == Last(rest)
    ensures forall i :: 0 <= i < |rest| ==> ([first] + parts)[i] == DropReturn(([piece] + rest)[i])
    ensures Last([first] + parts) == Last([piece] + rest)
  {
    forall i | 0 <= i < |rest| ensures ([first] + parts)[i] == DropReturn(([piece] + rest)[i]) {
      if i > 0 { assert parts[i - 1] == DropReturn(rest[i - 1]); }
    }
  }

  /** The lines of a whole reply: every terminated line, and the rest if there is any. */
  function LinesOf(text: string): seq<string> {
    var parts := Split(text);
    Init(parts) + if Last(parts) == "" then [] else [DropReturn(Last(parts))]
  }

  lemma DropReturnMeaning(s: string)
    ensures DropReturn(s + "\r") == s
    ensures !(exists t :: s == t + "\r") ==> DropReturn(s) == s
  {
    assert (s + "\r")[..|s|] == s;
    if s != "" && s[|s| - 1] == '\r' { assert s == s[..|s| - 1] + "\r"; }
  }

  /** The lines are the pieces between newlines, each without one trailing carriage return,
      and an empty last piece is none. */
  lemma LinesOfMeaning(text: string) returns (raw: seq<string>)
    ensures raw != [] && JoinLines(raw) == text && forall i :: 0 <= i < |raw| ==> '\n' !in raw[i]
    ensures |LinesOf(text)| == if raw[|raw| - 1] == "" then |raw| - 1 else |raw|
    ensures forall i :: 0 <= i < |LinesOf(text)| ==> LinesOf(text)[i] == DropReturn(raw[i])
  {
    raw := SplitRejoins("", text);
    assert "" + text == text;
  }

  // ---- messages --------------------------------------------------------------------

  /** JSON.parse of what follows "data: ".  `Null` has no properties, so reading its
      type throws; other values simply lack the expected fields. */
  datatype Json =
    | SyntaxError
    | Null
    | Value(kind: Option<string>, text: Option<string>, message: Option<string>)

  datatype Failure = ChatFailure(message: string) | TypeFailure

  /** The parser and the two sanitisers, which are not modelled further. */
  datatype Env = Env(parse: string -> Json, cleanContent: string -> string, cleanError: string -> string)

  const PREFIX := "data: "

  predicate Carries(line: string) {
    PREFIX <= line && line != "data: [DONE]"
  }

  /** `processLine`: the new full text, or the error it throws. */
  function Process(env: Env, line: string, fullText: string): Result<string, Failure> {
    if !Carries(line) then Ok(fullText)
    else match env.parse(line[|PREFIX|..])
         case SyntaxError => Ok(fullText)
         case Null => Err(TypeFailure)
         case Value(kind, text, message) =>
           if kind == Some("error") then
             Err(ChatFailure(env.cleanError(if message.Some? then message.value else "Chat failed")))
           else if kind == Some("content") && text.Some? then Ok(env.cleanContent(text.value))
           else Ok(fullText)
  }

  function ProcessAll(env: Env, lines: seq<string>, fullText: string): Result<string, Failure> {
    if lines == [] then Ok(fullText)
    else match Process(env, lines[0], fullText)
         case Err(e) => Err(e)
         case Ok(text) => ProcessAll(env, lines[1..], text)
  }

  lemma {:induction false} ProcessAllConcat(env: Env, a: seq<string>, b: seq<string>, fullText: string)
    ensures ProcessAll(env, a + b, fullText)
         == match ProcessAll(env, a, fullText)
            case Err(e) => Err(e)
            case Ok(text) => ProcessAll(env, b, text)
  {
    if a == [] {
      assert a + b == b;
    } else {
      assert (a + b)[1..] == a[1..] + b;
      if Process(env, a[0], fullText).Ok? { ProcessAllConcat(env, a[1..], b, Process(env, a[0], fullText).value); }
    }
  }

  /** A line with the text of the assistant. */
  predicate IsContent(env: Env, line: string) {
    "data: " <= line && line[6..] != "[DONE]" &&
    var v := env.parse(line[6..]);
    v.Value? && v.kind == Some("content") && v.text.Some?
  }

  /** A line with JSON `null`, or with an error message. */
  predicate Throws(env: Env, line: string) {
    "data: " <= line && line[6..] != "[DONE]" &&
    var v := env.parse(line[6..]);
    v.Null? || (v.Value? && v.kind == Some("error"))
  }

  function Thrown(env: Env, line: string): Failure
    requires Throws(env, line)
  {
    var v := env.parse(line[6..]);
    if v.Null? then TypeFailure
    else ChatFailure(env.cleanError(if v.message.Some? then v.message.value else "Chat failed"))
  }

  /** Exactly such a line throws; a content line replaces the text; no other line matters. */
  lemma ProcessMeaning(env: Env, line: string, fullText: string)
    ensures Throws(env, line) ==> Process(env, line, fullText) == Err(Thrown(env, line))
    ensures IsContent(env, line) ==> Process(env, line, fullText) == Ok(env.cleanContent(env.parse(line[6..]).text.value))
    ensures !Throws(env, line) && !IsContent(env, line) ==> Process(env, line, fullText) == Ok(fullText)
    ensures !(Throws(env, line) && IsContent(env, line))
  {
    assert |PREFIX| == 6;
    if "data: " <= line { assert line == "data: " + line[6..]; }
    assert "data: [DONE]"[6..] == "[DONE]";
  }

  lemma {:induction false} NothingThrown(env: Env, lines: seq<string>, fullText: string)
    requires forall i :: 0 <= i < |lines| ==> !Throws(env, lines[i])
    ensures ProcessAll(env, lines, fullText) == Ok(LastContent(env, lines, fullText))
  {
    if lines != [] {
      assert !Throws(env, lines[0]);
      ProcessMeaning(env, lines[0], fullText);
      var step := Process(env, lines[0], fullText);
      NothingThrown(env, lines[1..], step.value);
      LastContentStep(env, lines, fullText, step.value);
    }
  }

  lemma {:induction false} FirstThrown(env: Env, lines: seq<string>, fullText: string, i: nat)
    requires i < |lines| && Throws(env, lines[i]) && forall j :: 0 <= j < i ==> !Throws(env, lines[j])
    ensures ProcessAll(env, lines, fullText) == Err(Thrown(env, lines[i]))
  {
    ProcessMeaning(env, lines[0], fullText);
    if i > 0 {
      assert forall j :: 0 <= j < i - 1 ==> lines[1..][j] == lines[j + 1];
      FirstThrown(env, lines[1..], Process(env, lines[0], fullText).value, i - 1);
    }
  }

  lemma {:induction false} EarliestThrow(env: Env, lines: seq<string>, i: nat) returns (k: nat)
    requires i < |lines| && Throws(env, lines[i])
    ensures k < |lines| && Throws(env, lines[k]) && forall j :: 0 <= j < k ==> !Throws(env, lines[j])
  {
    if j: nat :| j < i && Throws(env, lines[j]) {
      k := EarliestThrow(env, lines, j);
    } else {
      k := i;
    }
  }

  /** The outcome, declaratively: the error of the first line that throws, or the
      text of the last content line. */
  lemma OutcomeMeaning(env: Env, lines: seq<string>, fullText: string)
    ensures ProcessAll(env, lines, fullText).Err? <==> exists i :: 0 <= i < |lines| && Throws(env, lines[i])
    ensures forall i :: 0 <= i < |lines| && Throws(env, lines[i]) && (forall j :: 0 <= j < i ==> !Throws(env, lines[j]))
              ==> ProcessAll(env, lines, fullText) == Err(Thrown(env, lines[i]))
    ensures ProcessAll(env, lines, fullText).Ok? ==>
              ProcessAll(env, lines, fullText).value == LastContent(env, lines, fullText)
  {
    if i :| 0 <= i < |lines| && Throws(env, lines[i]) {
      var k := EarliestThrow(env, lines, i);
      FirstThrown(env, lines, fullText, k);
    } else {
      NothingThrown(env, lines, fullText);
    }
    forall i | 0 <= i < |lines| && Throws(env, lines[i]) && (forall j :: 0 <= j < i ==> !Throws(env, lines[j]))
      ensures ProcessAll(env, lines, fullText) == Err(Thrown(env, lines[i]))
    {
      FirstThrown(env, lines, fullText, i);
    }
  }

  function LastContent(env: Env, lines: seq<string>, fullText: string): string {
    if lines == [] then fullText
    else if IsContent(env, lines[|lines| - 1]) then
      env.cleanContent(env.parse(lines[|lines| - 1][6..]).text.value)
    else LastContent(env, lines[..|lines| - 1], fullText)
  }

  lemma {:induction false} LastContentStep(env: Env, lines: seq<string>, fullText: string, next: string)
    requires lines != [] && Process(env, lines[0], fullText) == Ok(next)
    ensures LastContent(env, lines, fullText) == LastContent(env, lines[1..], next)
  {
    ProcessMeaning(env, lines[0], fullText);
    if |lines| == 1 {
      assert lines[1..] == [] && lines[..0] == [];
    } else {
      assert lines[1..][|lines| - 2] == lines[|lines| - 1];
      assert lines[1..][..|lines| - 2] == lines[..|lines| - 1][1..];
      LastContentStep(env, lines[..|lines| - 1], fullText, next);
    }
  }

  /** The text of the last content line, or what was there before. */
  lemma {:induction false} LastContentMeaning(env: Env, lines: seq<string>, fullText: string, i: nat)
    requires i <= |lines| && forall j :: i < j < |lines| ==> !IsContent(env, lines[j])
    ensures i < |lines| && IsContent(env, lines[i]) ==>
              LastContent(env, lines, fullText) == env.cleanContent(env.parse(lines[i][6..]).text.value)
    ensures (forall j :: 0 <= j < |lines| ==> !IsContent(env, lines[j])) ==> LastContent(env, lines, fullText) == fullText
  {
    if lines != [] && i < |lines| - 1 {
      LastContentMeaning(env, lines[..|lines| - 1], fullText, i);
    } else if lines != [] && forall j :: 0 <= j < |lines| ==> !IsContent(env, lines[j]) {
      LastContentMeaning(env, lines[..|lines| - 1], fullText, |lines| - 1);
    }
  }

  // ---- the reader -----------------------------------------------------------------

  /** What flushing the decoder may add: replacement characters for a cut-off sequence. */
  predicate ReplacementOnly(tail: string) {
    forall c :: c in tail ==> c == '\U{FFFD}'
  }

  /** `parts.forEach(processLine)`: stops at the first line that throws. */
  method ForEachLine(env: Env, lines: seq<string>, start: string) returns (count: nat, r: Result<string, Failure>)
    ensures count <= |lines| && r == ProcessAll(env, lines[..count], start) == ProcessAll(env, lines, start)
    ensures r.Ok? ==> count == |lines|
    ensures r.Err? ==> 0 < count && Throws(env, lines[count - 1])
    ensures forall i :: 0 <= i < count - 1 ==> !Throws(env, lines[i])
  {
    var fullText := start;
    count := 0;
    while count < |lines|
      invariant count <= |lines| && ProcessAll(env, lines[..count], start) == Ok(fullText)
      invariant forall i :: 0 <= i < count ==> !Throws(env, lines[i])
    {
      var step := Process(env, lines[count], fullText);
      assert lines[..count + 1] == lines[..count] + [lines[count]];
      ProcessStep(env, lines[..count], lines[count], start, fullText);
      ProcessMeaning(env, lines[count], fullText);
      count := count + 1;
      if step.Err? {
        PrefixThrows(env, lines[..count], lines, start);
        return count, Err(step.error);
      }
      fullText := step.value;
    }
    assert lines[..count] == lines;
    return count, Ok(fullText);
  }

  /** `sendChatMessage` after a successful response: `chunks` are the decoded reads and
      `tail` the final flush of the decoder.  However the text was cut, the lines
      processed and the outcome are those of the whole text. */
  method SendChatMessage(env: Env, chunks: seq<string>, tail: string)
    returns (processed: seq<string>, r: Result<string, Failure>)
    requires ReplacementOnly(tail)
    ensures r == ProcessAll(env, LinesOf(Concat(chunks) + tail), "") == ProcessAll(env, processed, "")
    ensures processed <= LinesOf(Concat(chunks) + tail)
    ensures r.Ok? ==> processed == LinesOf(Concat(chunks) + tail)
    ensures r.Err? ==> processed != [] && Throws(env, Last(processed))
  {
    var fullText, buf := "", "";
    processed := [];
    for i := 0 to |chunks|
      invariant Split(Concat(chunks[..i])) == processed + [buf] && '\n' !in buf
      invariant ProcessAll(env, processed, "") == Ok(fullText)
    {
      var parts := Split(buf + chunks[i]);
      NextChunk(chunks, i, processed, buf);
      var count, step := ForEachLine(env, Init(parts), fullText);
      if step.Err? {
        ChunkThrew(env, chunks, tail, i, processed, buf, fullText, count);
        return processed + Init(parts)[..count], Err(step.error);
      }
      ProcessAllConcat(env, processed, Init(parts), "");
      buf := Last(parts);
      processed := processed + Init(parts);
      fullText := step.value;
    }
    assert chunks[..|chunks|] == chunks;
    Flushed(env, Concat(chunks), tail, processed, buf, fullText);
    buf := buf + tail;
    if buf != "" {
      var line := DropReturn(buf);
      processed := processed + [line];
      return processed, Process(env, line, fullText);
    }
    return processed, Ok(fullText);
  }

  /** A line of chunk `i` threw: that is the outcome of the whole text. */
  lemma ChunkThrew(env: Env, chunks: seq<string>, tail: string, i: nat, processed: seq<string>, buf: string,
                   fullText: string, count: nat)
    requires i < |chunks| && Split(Concat(chunks[..i])) == processed + [buf] && '\n' !in buf
    requires ProcessAll(env, processed, "") == Ok(fullText)
    requires var lines := Init(Split(buf + chunks[i]));
             0 < count <= |lines| && ProcessAll(env, lines[..count], fullText).Err? && Throws(env, lines[count - 1])
    ensures var stopped := processed + Init(Split(buf + chunks[i]))[..count];
            && stopped <= LinesOf(Concat(chunks) + tail) && stopped != [] && Throws(env, Last(stopped))
            && ProcessAll(env, stopped, "") == ProcessAll(env, Init(Split(buf + chunks[i]))[..count], fullText)
            && ProcessAll(env, LinesOf(Concat(chunks) + tail), "") == ProcessAll(env, stopped, "")
  {
    var lines := Init(Split(buf + chunks[i]));
    var stopped := processed + lines[..count];
    NextChunk(chunks, i, processed, buf);
    ProcessAllConcat(env, processed, lines[..count], "");
    assert Init(Split(Concat(chunks[..i + 1]))) == processed + lines;
    ProcessedPrefix(chunks, tail, i + 1, stopped);
    PrefixThrows(env, stopped, LinesOf(Concat(chunks) + tail), "");
  }

  /** What is left after the last chunk is one more line, unless it is empty. */
  lemma Flushed(env: Env, text: string, tail: string, processed: seq<string>, buf: string, fullText: string)
    requires ReplacementOnly(tail) && Split(text) == processed + [buf] && ProcessAll(env, processed, "") == Ok(fullText)
    ensures var rest := buf + tail;
            && LinesOf(text + tail) == processed + (if rest == "" then [] else [DropReturn(rest)])
            && ProcessAll(env, LinesOf(text + tail), "") ==
               if rest == "" then Ok(fullText) else Process(env, DropReturn(rest), fullText)
    ensures buf + tail != "" && Process(env, DropReturn(buf + tail), fullText).Err? ==> Throws(env, DropReturn(buf + tail))
  {
    FlushSplit(text, tail);
    assert Init(Split(text)) == processed && Last(Split(text)) == buf;
    var rest := buf + tail;
    assert Init(processed + [rest]) == processed;
    if rest == "" {
      assert processed + [] == processed;
    } else {
      ProcessStep(env, processed, DropReturn(rest), "", fullText);
    }
  }

  lemma NextChunk(chunks: seq<string>, i: nat, processed: seq<string>, buf: string)
    requires i < |chunks| && Split(Concat(chunks[..i])) == processed + [buf] && '\n' !in buf
    ensures var parts := Split(buf + chunks[i]);
            Split(Concat(chunks[..i + 1])) == processed + Init(parts) + [Last(parts)] && '\n' !in Last(parts)
  {
    assert chunks[..i + 1] == chunks[..i] + [chunks[i]];
    ConcatAppend(chunks[..i], [chunks[i]]);
    assert Concat([chunks[i]]) == chunks[i] by { assert [chunks[i]][1..] == []; }
    SplitFromConcat("", Concat(chunks[..i]), chunks[i]);
    SplitFromPiece(buf, chunks[i]);
  }

  lemma ProcessStep(env: Env, lines: seq<string>, line: string, start: string, fullText: string)
    requires ProcessAll(env, lines, start) == Ok(fullText)
    ensures ProcessAll(env, lines + [line], start) == Process(env, line, fullText)
  {
    ProcessAllConcat(env, lines, [line], start);
    assert [line][1..] == [];
  }

  lemma FlushSplit(text: string, tail: string)
    requires ReplacementOnly(tail)
    ensures Split(text + tail) == Init(Split(text)) + [Last(Split(text)) + tail]
  {
    SplitFromConcat("", text, tail);
    NoNewline(Last(Split(text)), tail);
  }

  lemma LinesGrow(text: string, rest: string)
    ensures Init(Split(text)) <= LinesOf(text + rest)
  {
    SplitFromConcat("", text, rest);
    var more := SplitFrom(Last(Split(text)), rest);
    assert Init(Split(text + rest)) == Init(Split(text)) + Init(more);
  }

  /** Lines found so far stay the first lines of the whole text. */
  lemma ProcessedPrefix(chunks: seq<string>, tail: string, n: nat, lines: seq<string>)
    requires n <= |chunks| && lines <= Init(Split(Concat(chunks[..n])))
    ensures lines <= LinesOf(Concat(chunks) + tail)
  {
    ConcatCut(chunks, tail, n);
    LinesGrow(Concat(chunks[..n]), Concat(chunks[n..]) + tail);
    PrefixTransitive(lines, Init(Split(Concat(chunks[..n]))), LinesOf(Concat(chunks) + tail));
  }

  lemma PrefixTransitive(a: seq<string>, b: seq<string>, c: seq<string>)
    requires a <= b <= c
    ensures a <= c
  {
  }

  lemma ConcatCut(chunks: seq<string>, tail: string, n: nat)
    requires n <= |chunks|
    ensures Concat(chunks) + tail == Concat(chunks[..n]) + (Concat(chunks[n..]) + tail)
  {
    assert chunks == chunks[..n] + chunks[n..];
    ConcatAppend(chunks[..n], chunks[n..]);
  }

  lemma PrefixThrows(env: Env, lines: seq<string>, all: seq<string>, start: string)
    requires lines <= all && ProcessAll(env, lines, start).Err?
    ensures ProcessAll(env, all, start) == ProcessAll(env, lines, start)
  {
    assert all == lines + all[|lines|..];
    ProcessAllConcat(env, lines, all[|lines|..], start);
  }
}
