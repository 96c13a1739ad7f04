/**
 * The Ask page: the conversation, the input box and the loading flag, with the
 * submit handler split at its `await` into `Submit` (before the request) and
 * `Respond` (the reply and the read loop of the streamed answer).
 */
module AskChat {
  import opened Options
  import opened Text
  import opened SseStream

  datatype Role = User | Assistant

  datatype Message = Message(role: Role, content: string)

  /** What the `fetch` to the chat endpoint produced: a thrown error, or a response with its chunks. */
  datatype ChatReply = FetchFailed | Reply(status: int, hasBody: bool, chunks: seq<string>)

  /** The notification the page raises. */
  datatype Toast = NoToast | RateLimitToast | UsageLimitToast | ErrorToast

  /** `question || input.trim()`: a non-empty suggested question wins over the input box. */
  function SubmittedText(question: Option<string>, input: string): string {
    if question.Some? && question.value != "" then question.value else Trim(input)
  }

  /** `response.ok`. */
  predicate IsOk(status: int) {
    200 <= status <= 299
  }

  /** The reply is streamed: not rate-limited, not out of credits, ok and with a body. */
  predicate Streams(reply: ChatReply) {
    reply.Reply? && reply.status != 429 && reply.status != 402 && IsOk(reply.status) && reply.hasBody
  }

  class AskPage {
    var messages: seq<Message>
    var input: string
    var isLoading: bool

    constructor ()
      ensures messages == [] && input == "" && !isLoading
    {
      messages, input, isLoading := [], "", false;
    }

    /** The text area's change handler. */
    method EditInput(text: string)
      modifies this
      ensures input == text && messages == old(messages) && isLoading == old(isLoading)
    {
      input := text;
    }

    /**
     * The part of the submit handler before the request. It is ignored when the
     * text is empty or a reply is still loading; otherwise it appends exactly one
     * user message, clears the input and starts loading.
     */
    method Submit(question: Option<string>) returns (accepted: bool)
      modifies this
      ensures accepted == (SubmittedText(question, old(input)) != "" && !old(isLoading))
      ensures accepted ==> messages == old(messages) + [Message(User, SubmittedText(question, old(input)))]
      ensures accepted ==> input == "" && isLoading
      ensures !accepted ==> messages == old(messages) && input == old(input) && isLoading == old(isLoading)
    {
      var messageText := SubmittedText(question, input);
      if messageText == "" || isLoading {
        return false;
      }
      messages := messages + [Message(User, messageText)];
      input := "";
      isLoading := true;
      accepted := true;
    }

    /**
     * The part of the submit handler after the request. A 429 or 402 status, a
     * failed fetch, a non-ok status or a missing body add no message; otherwise an
     * empty assistant message is appended and rewritten, delta by delta, until it
     * holds the content `Run` assembles from the chunks. Loading ends in every case.
     */
    method Respond(reply: ChatReply, parse: Parser) returns (toast: Toast)
      modifies this
      ensures !isLoading && input == old(input)
      ensures reply.FetchFailed? ==> toast == ErrorToast
      ensures reply.Reply? && reply.status == 429 ==> toast == RateLimitToast
      ensures reply.Reply? && reply.status == 402 ==> toast == UsageLimitToast
      ensures reply.Reply? && reply.status != 429 && reply.status != 402 && !Streams(reply) ==> toast == ErrorToast
      ensures !Streams(reply) ==> messages == old(messages)
      ensures Streams(reply) ==> toast == NoToast
      ensures Streams(reply) ==>
        messages == old(messages) + [Message(Assistant, Run(reply.chunks, parse).content)]
    {
      toast := NoToast;
      if reply.FetchFailed? {
        toast := ErrorToast;
      } else if reply.status == 429 {
        toast := RateLimitToast;
      } else if reply.status == 402 {
        toast := UsageLimitToast;
      } else if !IsOk(reply.status) || !reply.hasBody {
        toast := ErrorToast;
      } else {
        var chunks := reply.chunks;
        ghost var before := messages;
        var textBuffer := "";
        var assistantContent := "";
        messages := messages + [Message(Assistant, "")];
        var i := 0;
        while i < |chunks|
          invariant 0 <= i <= |chunks|
          invariant StreamState(textBuffer, assistantContent) == Run(chunks[..i], parse)
          invariant messages == before + [Message(Assistant, assistantContent)]
          invariant input == old(input)
        {
          textBuffer := textBuffer + chunks[i];
          ghost var target := Pass(textBuffer, assistantContent, parse);
          while true
            invariant Pass(textBuffer, assistantContent, parse) == target
            invariant messages == before + [Message(Assistant, assistantContent)]
            invariant input == old(input)
            decreases |textBuffer|
          {
            ghost var buf := textBuffer;
            var newlineIndex := IndexOf(textBuffer, '\n');
            if newlineIndex == -1 {
              break;
            }
            var line := textBuffer[..newlineIndex];
            textBuffer := textBuffer[newlineIndex + 1..];
            assert NextLine(buf) == Some((line, textBuffer));
            if EndsWith(line, "\r") {
              line := line[..|line| - 1];
            }
            assert line == StripCR(NextLine(buf).value.0);
            if StartsWith(line, ":") || Trim(line) == "" {
              PassSkips(buf, assistantContent, parse);
              continue;
            }
            if !StartsWith(line, DataPrefix) {
              PassSkips(buf, assistantContent, parse);
              continue;
            }
            PassAtDataLine(buf, assistantContent, parse);
            var jsonStr := Payload(line);
            if jsonStr == DoneSentinel {
              break;
            }
            match parse(jsonStr)
            case Fail =>
              textBuffer := line + "\n" + textBuffer;
              break;
            case Ok(content) =>
              if content.Some? && content.value != "" {
                assistantContent := assistantContent + content.value;
                assert messages[..|messages| - 1] == before;
                messages := messages[..|messages| - 1] + [Message(Assistant, assistantContent)];
              }
          }
          RunSnoc(chunks, i, parse);
          i := i + 1;
        }
        assert chunks[..i] == chunks;
      }
      isLoading := false;
    }
  }
}
