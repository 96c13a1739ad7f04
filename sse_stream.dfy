/**
 * The line splitter of the Ask page's streamed chat reply, as pure functions.
 *
 * The reply arrives as text chunks of newline-separated lines of the form
 * `data: <json>`; `:` lines are comments, and `data: [DONE]` is the sentinel.
 * Every chunk is appended to a buffer, and one pass then takes complete lines
 * off the front of the buffer. A pass stops when no newline is left, when it
 * meets the sentinel, or when a payload fails to parse (the line then goes back
 * onto the buffer). `Pass` is one such pass, `Feed` one chunk, `Run` a whole
 * reply; the method `AskChat.AskPage.Respond` is proved to compute `Run`.
 */
module SseStream {
  import opened Options
  import opened Text

  /**
   * What the page learns from one payload: `Fail` when `JSON.parse` throws,
   * otherwise the value at `choices[0].delta.content` (`None` when the path is
   * missing). The JSON parser itself is a parameter of type `Parser`.
   */
  datatype Parsed = Fail | Ok(delta: Option<string>)

  type Parser = string -> Parsed

  const DataPrefix: string := "data: "
  const DoneSentinel: string := "[DONE]"

  /** How one complete line (after the `\r` is stripped) is handled. */
  datatype LineAction =
    | Comment        // starts with ':'
    | Blank          // white space only
    | NotData        // any other line not starting with "data: "
    | Done           // payload is the sentinel
    | Delta(text: string)  // payload carries a non-empty delta
    | NoDelta        // payload parses but carries no (or an empty) delta
    | Malformed      // payload does not parse

  /** Why a pass stopped. */
  datatype Outcome = Drained | SawDone | Failed

  datatype PassResult = PassResult(buffer: string, content: string, outcome: Outcome)

  /** The two variables the read loop keeps: `textBuffer` and `assistantContent`. */
  datatype StreamState = StreamState(buffer: string, content: string)

  const Initial := StreamState("", "")

  /** The complete lines of a buffer and the unterminated text after them. */
  datatype Split = Split(lines: seq<string>, rest: string)

  /** The text before the first newline and the text after it, if there is a newline. */
  function NextLine(buffer: string): (r: Option<(string, string)>)
    ensures r.None? <==> '\n' !in buffer
    ensures r.Some? ==> buffer == r.value.0 + "\n" + r.value.1 && '\n' !in r.value.0
  {
    var i := IndexOf(buffer, '\n');
    if i < 0 then None
    else
      assert buffer == buffer[..i] + "\n" + buffer[i + 1..];
      Some((buffer[..i], buffer[i + 1..]))
  }

  /** Removes one trailing carriage return, if there is one. */
  function StripCR(line: string): (r: string)
    ensures line == r + "\r" || (line == r && !EndsWith(line, "\r"))
  {
    if EndsWith(line, "\r") then
      assert line == line[..|line| - 1] + "\r";
      line[..|line| - 1]
    else line
  }

  /** The JSON text of a data line: what follows the six-character prefix, trimmed. */
  function Payload(line: string): string
    requires StartsWith(line, DataPrefix)
  {
    Trim(line[|DataPrefix|..])
  }

  function Classify(line: string, parse: Parser): LineAction {
    if StartsWith(line, ":") then Comment
    else if Trim(line) == "" then Blank
    else if !StartsWith(line, DataPrefix) then NotData
    else
      var payload := Payload(line);
      if payload == DoneSentinel then Done
      else match parse(payload)
        case Fail => Malformed
        case Ok(None) => NoDelta
        case Ok(Some(d)) => if d == "" then NoDelta else Delta(d)
  }

  /** The text a raw line contributes to the accumulated content when a pass handles it. */
  function DeltaOf(raw: string, parse: Parser): string {
    match Classify(StripCR(raw), parse)
    case Delta(d) => d
    case _ => ""
  }

  /** One run of the inner line loop over `buffer`, with `content` accumulated so far. */
  function Pass(buffer: string, content: string, parse: Parser): (r: PassResult)
    decreases |buffer|
    ensures content <= r.content
    ensures r.outcome == Drained ==> '\n' !in r.buffer
    ensures '\n' !in buffer ==> r == PassResult(buffer, content, Drained)
    ensures |r.buffer| <= |buffer|
  {
    match NextLine(buffer)
    case None => PassResult(buffer, content, Drained)
    case Some((raw, rest)) =>
      var line := StripCR(raw);
      match Classify(line, parse)
      case Done => PassResult(rest, content, SawDone)
      case Malformed => PassResult(line + "\n" + rest, content, Failed)
      case Delta(d) => Pass(rest, content + d, parse)
      case _ => Pass(rest, content, parse)
  }

  /** One iteration of the outer read loop: append the chunk, then run one pass. */
  function Feed(st: StreamState, chunk: string, parse: Parser): StreamState {
    var p := Pass(st.buffer + chunk, st.content, parse);
    StreamState(p.buffer, p.content)
  }

  function FeedAll(st: StreamState, chunks: seq<string>, parse: Parser): StreamState {
    if chunks == [] then st
    else Feed(FeedAll(st, chunks[..|chunks| - 1], parse), chunks[|chunks| - 1], parse)
  }

  /** The state after the reader has delivered `chunks` and reported done. */
  function Run(chunks: seq<string>, parse: Parser): StreamState {
    FeedAll(Initial, chunks, parse)
  }

  /** All chunks in order, as one text. */
  function Concat(chunks: seq<string>): string {
    if chunks == [] then "" else Concat(chunks[..|chunks| - 1]) + chunks[|chunks| - 1]
  }

  /** Every line followed by its newline. */
  function Unlines(lines: seq<string>): string {
    if lines == [] then "" else lines[0] + "\n" + Unlines(lines[1..])
  }

  function SplitLines(s: string): Split
    decreases |s|
  {
    match NextLine(s)
    case None => Split([], s)
    case Some((line, tail)) =>
      var t := SplitLines(tail);
      Split([line] + t.lines, t.rest)
  }

  /** The deltas of `lines`, concatenated in order. */
  function Deltas(lines: seq<string>, parse: Parser): string {
    if lines == [] then "" else DeltaOf(lines[0], parse) + Deltas(lines[1..], parse)
  }

  predicate Stops(a: LineAction) {
    a == Done || a == Malformed
  }

  /** No line is the sentinel or fails to parse, so no pass stops early. */
  predicate Clean(lines: seq<string>, parse: Parser) {
    forall i :: 0 <= i < |lines| ==> !Stops(Classify(StripCR(lines[i]), parse))
  }

  /** The first complete line of the buffer fails to parse, even after one more `\r` is stripped. */
  predicate Stalled(buffer: string, parse: Parser) {
    match NextLine(buffer)
    case None => false
    case Some((raw, _)) => Classify(StripCR(raw), parse) == Malformed
  }

  /** No line is the sentinel. */
  predicate NoSentinel(lines: seq<string>, parse: Parser) {
    forall i :: 0 <= i < |lines| ==> Classify(StripCR(lines[i]), parse) != Done
  }

  /** Some line fails to parse. */
  predicate Fails(lines: seq<string>, parse: Parser) {
    lines != [] && (Classify(StripCR(lines[0]), parse) == Malformed || Fails(lines[1..], parse))
  }

  /** The deltas of the lines before the first one that fails to parse. */
  function DeltasUntilFail(lines: seq<string>, parse: Parser): string {
    if lines == [] || Classify(StripCR(lines[0]), parse) == Malformed then ""
    else DeltaOf(lines[0], parse) + DeltasUntilFail(lines[1..], parse)
  }

  // ---------------------------------------------------------------- lemmas

  /** A comment, blank or non-data line is dropped and the pass goes on with the rest. */
  lemma NoiseLineSkipped(buffer: string, content: string, parse: Parser)
    requires NextLine(buffer).Some?
    requires var line := StripCR(NextLine(buffer).value.0);
      StartsWith(line, ":") || AllSpace(line) || !StartsWith(line, DataPrefix)
    ensures Pass(buffer, content, parse) == Pass(NextLine(buffer).value.1, content, parse)
  {
    TrimEmptyIffAllSpace(StripCR(NextLine(buffer).value.0));
    PassSkips(buffer, content, parse);
  }

  /** The same, with white space tested as the handler does, by trimming. */
  lemma PassSkips(buffer: string, content: string, parse: Parser)
    requires NextLine(buffer).Some?
    requires var line := StripCR(NextLine(buffer).value.0);
      StartsWith(line, ":") || Trim(line) == "" || !StartsWith(line, DataPrefix)
    ensures Pass(buffer, content, parse) == Pass(NextLine(buffer).value.1, content, parse)
  {
  }

  /** How a pass goes on from a data line, by its payload. */
  lemma PassAtDataLine(buffer: string, content: string, parse: Parser)
    requires NextLine(buffer).Some?
    requires var line := StripCR(NextLine(buffer).value.0);
      !StartsWith(line, ":") && Trim(line) != "" && StartsWith(line, DataPrefix)
    ensures var line, rest := StripCR(NextLine(buffer).value.0), NextLine(buffer).value.1;
      var payload := Payload(line);
      && (payload == DoneSentinel ==> Pass(buffer, content, parse) == PassResult(rest, content, SawDone))
      && (payload != DoneSentinel && parse(payload) == Fail ==>
            Pass(buffer, content, parse) == PassResult(line + "\n" + rest, content, Failed))
      && (payload != DoneSentinel && parse(payload).Ok? && parse(payload).delta.Some? && parse(payload).delta.value != "" ==>
            Pass(buffer, content, parse) == Pass(rest, content + parse(payload).delta.value, parse))
      && (payload != DoneSentinel && parse(payload).Ok? && (parse(payload).delta.None? || parse(payload).delta.value == "") ==>
            Pass(buffer, content, parse) == Pass(rest, content, parse))
  {
    var line := StripCR(NextLine(buffer).value.0);
    var payload := Payload(line);
    if payload == DoneSentinel {
      assert Classify(line, parse) == Done;
    } else {
      match parse(payload)
      case Fail =>
        assert Classify(line, parse) == Malformed;
      case Ok(None) =>
        assert Classify(line, parse) == NoDelta;
      case Ok(Some(d)) =>
        if d == "" {
          assert Classify(line, parse) == NoDelta;
        } else {
          assert Classify(line, parse) == Delta(d);
        }
    }
  }

  /** The accumulated content only ever grows at the end: each state is a prefix of the next. */
  lemma {:induction false} RunGrows(chunks: seq<string>, i: nat, parse: Parser)
    requires i <= |chunks|
    ensures Run(chunks[..i], parse).content <= Run(chunks, parse).content
  {
    if i < |chunks| {
      var init := chunks[..|chunks| - 1];
      assert chunks[..i] == init[..i];
      RunGrows(init, i, parse);
      var mid := Run(init, parse);
      assert Run(chunks, parse) == Feed(mid, chunks[|chunks| - 1], parse);
      PrefixTrans(Run(chunks[..i], parse).content, mid.content, Run(chunks, parse).content);
    } else {
      assert chunks[..i] == chunks;
    }
  }

  /** A line that does not stop the pass is handled and the pass goes on with the rest of the buffer. */
  lemma PassStep(buffer: string, content: string, parse: Parser)
    requires NextLine(buffer).Some?
    requires !Stops(Classify(StripCR(NextLine(buffer).value.0), parse))
    ensures Pass(buffer, content, parse)
         == Pass(NextLine(buffer).value.1, content + DeltaOf(NextLine(buffer).value.0, parse), parse)
  {
    assert content + "" == content;
  }

  lemma {:induction false} DeltasAppend(x: seq<string>, y: seq<string>, parse: Parser)
    ensures Deltas(x + y, parse) == Deltas(x, parse) + Deltas(y, parse)
  {
    if x == [] {
      assert x + y == y;
    } else {
      assert (x + y)[1..] == x[1..] + y;
      DeltasAppend(x[1..], y, parse);
    }
  }

  lemma CleanAppend(x: seq<string>, y: seq<string>, parse: Parser)
    requires Clean(x + y, parse)
    ensures Clean(x, parse) && Clean(y, parse)
  {
    forall i | 0 <= i < |x| ensures !Stops(Classify(StripCR(x[i]), parse)) {
      assert x[i] == (x + y)[i];
    }
    forall i | 0 <= i < |y| ensures !Stops(Classify(StripCR(y[i]), parse)) {
      assert y[i] == (x + y)[|x| + i];
    }
  }

  /** The first line of `a` is also the first line of `a + b`. */
  lemma NextLineAppend(a: string, b: string)
    requires NextLine(a).Some?
    ensures NextLine(a + b) == Some((NextLine(a).value.0, NextLine(a).value.1 + b))
  {
    IndexOfAppend(a, b, '\n');
    var i := IndexOf(a, '\n');
    assert (a + b)[..i] == a[..i];
    assert (a + b)[i + 1..] == a[i + 1..] + b;
  }

  /** Splitting is undone by putting each line's newline back; no character is lost. */
  lemma {:induction false} SplitLinesInverse(s: string)
    decreases |s|
    ensures s == Unlines(SplitLines(s).lines) + SplitLines(s).rest
    ensures '\n' !in SplitLines(s).rest
    ensures forall i :: 0 <= i < |SplitLines(s).lines| ==> '\n' !in SplitLines(s).lines[i]
  {
    match NextLine(s)
    case None =>
    case Some((line, tail)) =>
      SplitLinesInverse(tail);
      var t := SplitLines(tail);
      assert ([line] + t.lines)[1..] == t.lines;
      assert ([line] + t.lines)[0] == line;
      ConcatAssoc(line + "\n", Unlines(t.lines), t.rest);
  }

  /** Splitting a concatenation: the lines of `a`, then the lines of what `a` left over followed by `b`. */
  lemma {:induction false} SplitLinesAppend(a: string, b: string)
    decreases |a|
    ensures SplitLines(a + b).lines == SplitLines(a).lines + SplitLines(SplitLines(a).rest + b).lines
    ensures SplitLines(a + b).rest == SplitLines(SplitLines(a).rest + b).rest
  {
    match NextLine(a)
    case None =>
    case Some((line, tail)) =>
      NextLineAppend(a, b);
      SplitLinesAppend(tail, b);
      var u := SplitLines(tail);
      var v := SplitLines(u.rest + b);
      assert SplitLines(a + b).lines == [line] + SplitLines(tail + b).lines;
      assert SplitLines(a).lines == [line] + u.lines;
      ConcatAssoc([line], u.lines, v.lines);
  }

  /** On a buffer whose complete lines are all clean, a pass consumes every complete line. */
  lemma {:induction false} CleanPass(buffer: string, content: string, parse: Parser)
    requires Clean(SplitLines(buffer).lines, parse)
    decreases |buffer|
    ensures Pass(buffer, content, parse)
         == PassResult(SplitLines(buffer).rest, content + Deltas(SplitLines(buffer).lines, parse), Drained)
  {
    match NextLine(buffer)
    case None =>
      assert content + "" == content;
    case Some((raw, rest)) =>
      var t := SplitLines(rest);
      var lines := SplitLines(buffer).lines;
      assert lines == [raw] + t.lines;
      assert lines[0] == raw;
      assert lines[1..] == t.lines;
      CleanAppend([raw], t.lines, parse);
      assert !Stops(Classify(StripCR(lines[0]), parse));
      PassStep(buffer, content, parse);
      CleanPass(rest, content + DeltaOf(raw, parse), parse);
      assert Deltas(lines, parse) == DeltaOf(raw, parse) + Deltas(t.lines, parse);
      ConcatAssoc(content, DeltaOf(raw, parse), Deltas(t.lines, parse));
  }

  /**
   * A reference definition of a reply without sentinel or malformed line: the
   * content is the deltas of all complete lines of the whole text, and the buffer
   * holds the unterminated text at its end.
   */
  lemma {:induction false} CleanReplyReassembles(chunks: seq<string>, parse: Parser)
    requires Clean(SplitLines(Concat(chunks)).lines, parse)
    ensures Run(chunks, parse)
         == StreamState(SplitLines(Concat(chunks)).rest, Deltas(SplitLines(Concat(chunks)).lines, parse))
  {
    if chunks != [] {
      var init, last := chunks[..|chunks| - 1], chunks[|chunks| - 1];
      var whole := Concat(init);
      var left := SplitLines(whole);
      var right := SplitLines(left.rest + last);
      SplitLinesAppend(whole, last);
      CleanAppend(left.lines, right.lines, parse);
      CleanReplyReassembles(init, parse);
      CleanPass(left.rest + last, Deltas(left.lines, parse), parse);
      DeltasAppend(left.lines, right.lines, parse);
    }
  }

  /**
   * Chunking invariance: when no line is the sentinel, a reply split across any
   * number of reads accumulates the same content as the same text read at once.
   * Without a malformed line the whole final state agrees; with one, both runs
   * end stuck on a malformed line.
   */
  lemma ChunkingInvariance(chunks: seq<string>, parse: Parser)
    requires NoSentinel(SplitLines(Concat(chunks)).lines, parse)
    ensures Run(chunks, parse).content == Run([Concat(chunks)], parse).content
    ensures !Fails(SplitLines(Concat(chunks)).lines, parse) ==> Run(chunks, parse) == Run([Concat(chunks)], parse)
    ensures Fails(SplitLines(Concat(chunks)).lines, parse) ==>
      Stalled(Run(chunks, parse).buffer, parse) && Stalled(Run([Concat(chunks)], parse).buffer, parse)
  {
    var whole := Concat(chunks);
    assert [whole][..0] == [];
    assert Concat([whole]) == "" + whole == whole;
    RunUntilFail(chunks, parse);
    RunUntilFail([whole], parse);
  }

  /**
   * Text with no newline is never part of a handled line: appended to the buffer,
   * it only ends up at the end of the buffer the pass leaves.
   */
  lemma {:induction false} UnterminatedTextStaysBuffered(buffer: string, fragment: string, content: string, parse: Parser)
    requires '\n' !in fragment
    decreases |buffer|
    ensures var p := Pass(buffer, content, parse);
      Pass(buffer + fragment, content, parse) == PassResult(p.buffer + fragment, p.content, p.outcome)
  {
    match NextLine(buffer)
    case None =>
      assert '\n' !in buffer + fragment;
    case Some((raw, rest)) =>
      NextLineAppend(buffer, fragment);
      var line := StripCR(raw);
      match Classify(line, parse)
      case Done =>
      case Malformed =>
        ConcatAssoc(line + "\n", rest, fragment);
      case Delta(d) =>
        UnterminatedTextStaysBuffered(rest, fragment, content + d, parse);
      case _ =>
        UnterminatedTextStaysBuffered(rest, fragment, content, parse);
  }

  /** Stripping a `\r` from a data line leaves a data line with the same payload. */
  lemma StrippedDataLine(line: string)
    requires StartsWith(line, DataPrefix) && EndsWith(line, "\r")
    ensures StartsWith(StripCR(line), DataPrefix)
    ensures !StartsWith(StripCR(line), ":") && Trim(StripCR(line)) != ""
    ensures Payload(StripCR(line)) == Payload(line)
  {
    var m := StripCR(line);
    assert line == m + "\r";
    assert line[|DataPrefix| - 1] == ' ';
    assert m[..|DataPrefix|] == line[..|DataPrefix|];
    assert m[0] == 'd';
    assert !AllSpace(m) by { assert !IsSpace(m[0]); }
    TrimEmptyIffAllSpace(m);
    assert line[|DataPrefix|..] == m[|DataPrefix|..] + ['\r'];
    TrimDropsTrailingSpace(m[|DataPrefix|..], '\r');
  }

  /** A line that fails to parse still fails once one more trailing `\r` is stripped. */
  lemma MalformedStable(line: string, parse: Parser)
    requires Classify(line, parse) == Malformed
    ensures Classify(StripCR(line), parse) == Malformed
  {
    if EndsWith(line, "\r") {
      StrippedDataLine(line);
    }
  }

  /** A line put back in front of the rest of the buffer is again the buffer's first line. */
  lemma RebufferedLineFirst(line: string, rest: string)
    requires '\n' !in line
    ensures NextLine(line + "\n" + rest) == Some((line, rest))
  {
    assert NextLine(line + "\n") == Some((line, [])) by {
      var b := line + "\n";
      assert b[|line|] == '\n';
      assert b[..|line|] == line;
    }
    NextLineAppend(line + "\n", rest);
    assert [] + rest == rest;
  }

  /** A pass that stops on a malformed line leaves that line, unchanged but for a `\r`, at the head of the buffer. */
  lemma {:induction false} FailedPassStalls(buffer: string, content: string, parse: Parser)
    decreases |buffer|
    ensures Pass(buffer, content, parse).outcome == Failed ==> Stalled(Pass(buffer, content, parse).buffer, parse)
  {
    match NextLine(buffer)
    case None =>
    case Some((raw, rest)) =>
      var line := StripCR(raw);
      match Classify(line, parse)
      case Malformed =>
        RebufferedLineFirst(line, rest);
        MalformedStable(line, parse);
      case Delta(d) =>
        FailedPassStalls(rest, content + d, parse);
      case _ =>
        FailedPassStalls(rest, content, parse);
  }

  /** On a stalled buffer a pass stops at once, whatever chunk was appended. */
  lemma {:induction false} StalledPass(buffer: string, chunk: string, content: string, parse: Parser)
    requires Stalled(buffer, parse)
    ensures Pass(buffer + chunk, content, parse).content == content
    ensures Stalled(Pass(buffer + chunk, content, parse).buffer, parse)
  {
    var raw, rest := NextLine(buffer).value.0, NextLine(buffer).value.1;
    NextLineAppend(buffer, chunk);
    assert Classify(StripCR(raw), parse) == Malformed;
    var p := Pass(buffer + chunk, content, parse);
    assert p == PassResult(StripCR(raw) + "\n" + (rest + chunk), content, Failed);
    FailedPassStalls(buffer + chunk, content, parse);
  }

  /**
   * Once a complete line fails to parse, the read loop is stuck on it: the line is
   * re-buffered and fails again on every later chunk, so nothing after it is ever
   * accumulated.
   */
  lemma {:induction false} FailureFreezesContent(st: StreamState, chunk: string, more: seq<string>, parse: Parser)
    requires Pass(st.buffer + chunk, st.content, parse).outcome == Failed
    ensures FeedAll(Feed(st, chunk, parse), more, parse).content == Feed(st, chunk, parse).content
    ensures Stalled(FeedAll(Feed(st, chunk, parse), more, parse).buffer, parse)
  {
    FailedPassStalls(st.buffer + chunk, st.content, parse);
    if more != [] {
      var init := more[..|more| - 1];
      FailureFreezesContent(st, chunk, init, parse);
      var mid := FeedAll(Feed(st, chunk, parse), init, parse);
      StalledPass(mid.buffer, more[|more| - 1], mid.content, parse);
    }
  }

  lemma NoSentinelAppend(x: seq<string>, y: seq<string>, parse: Parser)
    requires NoSentinel(x + y, parse)
    ensures NoSentinel(x, parse) && NoSentinel(y, parse)
  {
    forall i | 0 <= i < |x| ensures Classify(StripCR(x[i]), parse) != Done {
      assert x[i] == (x + y)[i];
    }
    forall i | 0 <= i < |y| ensures Classify(StripCR(y[i]), parse) != Done {
      assert y[i] == (x + y)[|x| + i];
    }
  }

  /** Lines appended after a failing line add nothing; after lines that all parse, they add their own deltas. */
  lemma {:induction false} UntilFailAppend(x: seq<string>, y: seq<string>, parse: Parser)
    ensures Fails(x + y, parse) == (Fails(x, parse) || Fails(y, parse))
    ensures Fails(x, parse) ==> DeltasUntilFail(x + y, parse) == DeltasUntilFail(x, parse)
    ensures !Fails(x, parse) ==> DeltasUntilFail(x + y, parse) == DeltasUntilFail(x, parse) + DeltasUntilFail(y, parse)
  {
    if x == [] {
      assert x + y == y;
    } else {
      assert (x + y)[0] == x[0];
      assert (x + y)[1..] == x[1..] + y;
      UntilFailAppend(x[1..], y, parse);
      ConcatAssoc(DeltaOf(x[0], parse), DeltasUntilFail(x[1..], parse), DeltasUntilFail(y, parse));
    }
  }

  /**
   * On a buffer without the sentinel, a pass accumulates the deltas up to the
   * first malformed line and fails there, or consumes every complete line.
   */
  lemma {:induction false} PassUntilFail(buffer: string, content: string, parse: Parser)
    requires NoSentinel(SplitLines(buffer).lines, parse)
    decreases |buffer|
    ensures Pass(buffer, content, parse).content == content + DeltasUntilFail(SplitLines(buffer).lines, parse)
    ensures Pass(buffer, content, parse).outcome == if Fails(SplitLines(buffer).lines, parse) then Failed else Drained
    ensures !Fails(SplitLines(buffer).lines, parse) ==> Pass(buffer, content, parse).buffer == SplitLines(buffer).rest
  {
    match NextLine(buffer)
    case None =>
      assert content + "" == content;
    case Some((raw, rest)) =>
      var t := SplitLines(rest);
      var lines := SplitLines(buffer).lines;
      assert lines == [raw] + t.lines;
      assert lines[0] == raw;
      assert lines[1..] == t.lines;
      if Classify(StripCR(raw), parse) == Malformed {
        assert content + "" == content;
      } else {
        assert Classify(StripCR(lines[0]), parse) != Done;
        NoSentinelAppend([raw], t.lines, parse);
        PassStep(buffer, content, parse);
        PassUntilFail(rest, content + DeltaOf(raw, parse), parse);
        ConcatAssoc(content, DeltaOf(raw, parse), DeltasUntilFail(t.lines, parse));
      }
  }

  /**
   * A reference definition of a reply without the sentinel: the content is the
   * deltas of the complete lines before the first malformed one; the buffer is
   * the unterminated tail when no line is malformed, and otherwise stuck on a
   * malformed line.
   */
  lemma {:induction false} RunUntilFail(chunks: seq<string>, parse: Parser)
    requires NoSentinel(SplitLines(Concat(chunks)).lines, parse)
    ensures Run(chunks, parse).content == DeltasUntilFail(SplitLines(Concat(chunks)).lines, parse)
    ensures !Fails(SplitLines(Concat(chunks)).lines, parse) ==> Run(chunks, parse).buffer == SplitLines(Concat(chunks)).rest
    ensures Fails(SplitLines(Concat(chunks)).lines, parse) ==> Stalled(Run(chunks, parse).buffer, parse)
  {
    if chunks != [] {
      var init, last := chunks[..|chunks| - 1], chunks[|chunks| - 1];
      var whole := Concat(init);
      var left := SplitLines(whole);
      var right := SplitLines(left.rest + last);
      SplitLinesAppend(whole, last);
      NoSentinelAppend(left.lines, right.lines, parse);
      UntilFailAppend(left.lines, right.lines, parse);
      RunUntilFail(init, parse);
      var st := Run(init, parse);
      if Fails(left.lines, parse) {
        StalledPass(st.buffer, last, st.content, parse);
      } else {
        PassUntilFail(left.rest + last, st.content, parse);
        FailedPassStalls(left.rest + last, st.content, parse);
      }
    }
  }

  // ------------------------------------------------------- two concrete replies

  /** Reads every payload as a delta: enough to see which lines a pass reaches. */
  function EchoParser(payload: string): Parsed {
    Ok(Some(payload))
  }

  /**
   * The sentinel is not chunking invariant: it ends only the pass over the chunk
   * it arrives in. A data line after it in the same chunk is left unread when the
   * reader reports done, but the same line in a later chunk is accumulated.
   */
  lemma SentinelEndsOnlyThePass(sentinel: string, data: string, parse: Parser)
    requires '\n' !in sentinel && '\n' !in data
    requires Classify(StripCR(sentinel), parse) == Done
    requires Classify(StripCR(data), parse).Delta?
    ensures Run([sentinel + "\n" + data + "\n"], parse).content == ""
    ensures Run([sentinel + "\n", data + "\n"], parse).content == Classify(StripCR(data), parse).text
  {
    SentinelSameChunk(sentinel, data, parse);
    SentinelEarlierChunk(sentinel, data, parse);
  }

  lemma SentinelSameChunk(sentinel: string, data: string, parse: Parser)
    requires '\n' !in sentinel
    requires Classify(StripCR(sentinel), parse) == Done
    ensures Run([sentinel + "\n" + data + "\n"], parse).content == ""
  {
    var one := sentinel + "\n" + data + "\n";
    ConcatAssoc(sentinel + "\n", data, "\n");
    RebufferedLineFirst(sentinel, data + "\n");
    RunOne(one, parse);
    assert "" + one == one;
  }

  lemma SentinelEarlierChunk(sentinel: string, data: string, parse: Parser)
    requires '\n' !in sentinel && '\n' !in data
    requires Classify(StripCR(sentinel), parse) == Done
    requires Classify(StripCR(data), parse).Delta?
    ensures Run([sentinel + "\n", data + "\n"], parse).content == Classify(StripCR(data), parse).text
  {
    var first, second := sentinel + "\n", data + "\n";
    FeedLine(Initial, sentinel, parse);
    FeedLine(Initial, data, parse);
    RunTwo(first, second, parse);
  }

  lemma RunTwo(first: string, second: string, parse: Parser)
    ensures Run([first, second], parse) == Feed(Feed(Initial, first, parse), second, parse)
  {
    var chunks := [first, second];
    assert chunks[..1] == [first];
    RunOne(first, parse);
  }

  /** One more chunk is one more `Feed`. */
  lemma RunSnoc(chunks: seq<string>, i: nat, parse: Parser)
    requires i < |chunks|
    ensures Run(chunks[..i + 1], parse) == Feed(Run(chunks[..i], parse), chunks[i], parse)
  {
    assert chunks[..i + 1][..i] == chunks[..i];
  }

  lemma RunOne(chunk: string, parse: Parser)
    ensures Run([chunk], parse) == Feed(Initial, chunk, parse)
  {
    var cs := [chunk];
    assert cs[..|cs| - 1] == [];
    assert FeedAll(Initial, cs, parse) == Feed(FeedAll(Initial, cs[..|cs| - 1], parse), cs[|cs| - 1], parse);
  }

  /** Feeding one newline-terminated line to an empty buffer handles exactly that line. */
  lemma FeedLine(st: StreamState, line: string, parse: Parser)
    requires st.buffer == [] && '\n' !in line
    ensures Classify(StripCR(line), parse) == Done ==> Feed(st, line + "\n", parse) == st
    ensures Classify(StripCR(line), parse).Delta? ==>
      Feed(st, line + "\n", parse) == StreamState("", st.content + Classify(StripCR(line), parse).text)
  {
    assert st.buffer + (line + "\n") == line + "\n" + "";
    RebufferedLineFirst(line, "");
  }

  /** The lines `data: [DONE]` and `data: x` meet the conditions of `SentinelEndsOnlyThePass`. */
  lemma SentinelExample()
    ensures '\n' !in "data: [DONE]" && '\n' !in "data: x"
    ensures Classify(StripCR("data: [DONE]"), EchoParser) == Done
    ensures Classify(StripCR("data: x"), EchoParser) == Delta("x")
  {
    SentinelLine();
    DataXLine();
  }

  lemma SentinelLine()
    ensures StripCR("data: [DONE]") == "data: [DONE]"
    ensures Classify("data: [DONE]", EchoParser) == Done
  {
    var line := "data: [DONE]";
    assert line[|line| - 1] == ']';
    assert line[..6] == DataPrefix;
    assert !IsSpace(line[0]);
    TrimEmptyIffAllSpace(line);
    assert line[6..] == DoneSentinel;
    assert TrimStart(DoneSentinel) == DoneSentinel;
    assert TrimEnd(DoneSentinel) == DoneSentinel;
  }

  lemma DataXLine()
    ensures StripCR("data: x") == "data: x"
    ensures Classify("data: x", EchoParser) == Delta("x")
  {
    var line := "data: x";
    assert line[|line| - 1] == 'x';
    assert line[..6] == DataPrefix;
    assert !IsSpace(line[0]);
    TrimEmptyIffAllSpace(line);
    assert line[6..] == "x";
    assert TrimStart("x") == "x";
    assert TrimEnd("x") == "x";
  }
}
