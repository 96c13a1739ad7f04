/**
 * The `generate-quiz` edge function: one request in, one response out. Each
 * effect it performs (reading the request body, reading the API key, calling
 * the AI gateway, reading its reply) is an input here, and every error it
 * throws ends in the same 500 response.
 */
module QuizProxy {
  import opened Options
  import opened Text

  datatype Header = Header(name: string, value: string)

  const CorsHeaders: seq<Header> := [
    Header("Access-Control-Allow-Origin", "*"),
    Header("Access-Control-Allow-Headers", "authorization, x-client-info, apikey, content-type")
  ]

  const JsonHeaders: seq<Header> := CorsHeaders + [Header("Content-Type", "application/json")]

  /** `JSON.stringify({ error: "Failed to generate quiz" })`. */
  const ErrorBody: string := "{\"error\":\"Failed to generate quiz\"}"

  /** A response: its status, its body (none for `null`) and its headers. */
  datatype Response = Response(status: int, body: Option<string>, headers: seq<Header>)

  /** The answer to a CORS preflight: no body, the CORS headers, the default status. */
  const Preflight: Response := Response(200, None, CorsHeaders)

  const ErrorResponse: Response := Response(500, Some(ErrorBody), JsonHeaders)

  /** The request's method, and whether `const { topic } = await req.json()` succeeded. */
  datatype Request = Request(httpMethod: string, bodyReadable: bool)

  /**
   * The gateway's reply body: not JSON, JSON with no `choices` array (reading
   * `choices[0]` throws), or one with `choices[0]?.message?.content`, `None`
   * when that is missing or empty.
   */
  datatype Completion = NotJson | NoChoices | Choices(content: Option<string>)

  /** The call to the gateway threw, or answered with some `ok` flag and body. */
  datatype Upstream = FetchError | Answered(ok: bool, completion: Completion)

  /** `!LOVABLE_API_KEY` rejects a missing and an empty key. */
  predicate KeyConfigured(apiKey: Option<string>) {
    apiKey.Some? && apiKey.value != ""
  }

  /* ----- The match of /\{[\s\S]*\}/ ----- */

  /**
   * The engine after `{` at position `p`: `[\s\S]*` first takes everything up
   * to position `q + 1`, then gives back one character at a time until a `}`
   * at `q` completes the match. The result is the end of the match.
   */
  function TryStar(s: string, p: nat, q: int): (r: Option<nat>)
    requires q < |s|
    ensures r.Some? ==> p + 2 <= r.value <= |s| && s[r.value - 1] == '}'
    decreases q
  {
    if q <= p then None
    else if s[q] == '}' then Some(q + 1)
    else TryStar(s, p, q - 1)
  }

  /** The engine's scan: the leftmost start from `i` at which the pattern matches, with its end. */
  function Search(s: string, i: nat): (r: Option<(nat, nat)>)
    requires i <= |s|
    ensures r.Some? ==> i <= r.value.0 && r.value.0 + 2 <= r.value.1 <= |s|
    decreases |s| - i
  {
    if i == |s| then None
    else if s[i] == '{' && TryStar(s, i, |s| - 1).Some? then Some((i, TryStar(s, i, |s| - 1).value))
    else Search(s, i + 1)
  }

  /** `content.match(/\{[\s\S]*\}/)`, as the matched text. */
  function Matched(s: string): Option<string> {
    match Search(s, 0)
    case None => None
    case Some((b, e)) => Some(s[b..e])
  }

  /** The same span in closed form: from the first `{` to the last `}`, when that `}` comes after it. */
  function GreedySpan(s: string): (r: Option<string>)
    ensures r.Some? ==> |r.value| >= 2 && r.value[0] == '{' && r.value[|r.value| - 1] == '}'
  {
    var first, last := IndexOf(s, '{'), LastIndexOf(s, '}');
    if first >= 0 && last > first then Some(s[first..last + 1]) else None
  }

  /** Backing off from `q`, the star stops at the last `}` after `p` and at or before `q`. */
  lemma {:induction false} TryStarIsLastBrace(s: string, p: nat, q: int)
    requires q < |s|
    ensures q >= 0 ==> TryStar(s, p, q) == (var l := LastIndexOf(s[..q + 1], '}'); if l > p then Some(l + 1) else None)
    ensures q < 0 ==> TryStar(s, p, q) == None
    decreases q
  {
    if q > p && s[q] != '}' {
      TryStarIsLastBrace(s, p, q - 1);
      assert s[..q + 1][..q] == s[..q];
    }
  }

  /** With the last `}` at `last`, the star from a `{` at `p` ends just after it, or fails when `last <= p`. */
  lemma TryStarWhole(s: string, p: nat)
    requires |s| > 0
    ensures TryStar(s, p, |s| - 1) ==
      (var l := LastIndexOf(s, '}'); if l > p then Some(l + 1) else None)
  {
    TryStarIsLastBrace(s, p, |s| - 1);
    assert s[..|s|] == s;
  }

  /** No `}` at or after `i`: no start from `i` matches. */
  lemma {:induction false} SearchFails(s: string, i: nat)
    requires i <= |s|
    requires LastIndexOf(s, '}') < i
    ensures Search(s, i) == None
    decreases |s| - i
  {
    if i < |s| {
      TryStarWhole(s, i);
      SearchFails(s, i + 1);
    }
  }

  /** Scanning from before the first `{`, the engine finds the closed-form span. */
  lemma {:induction false} SearchFindsGreedySpan(s: string, i: nat)
    requires i <= |s|
    requires forall k :: 0 <= k < i ==> s[k] != '{'
    ensures Search(s, i) == (var first, last := IndexOf(s, '{'), LastIndexOf(s, '}');
      if first >= 0 && last > first then Some((first, last + 1)) else None)
    decreases |s| - i
  {
    var first, last := IndexOf(s, '{'), LastIndexOf(s, '}');
    if i == |s| {
      assert first < 0;
    } else if s[i] == '{' {
      assert first == i;
      TryStarWhole(s, i);
      if last <= i {
        SearchFails(s, i + 1);
      }
    } else {
      SearchFindsGreedySpan(s, i + 1);
    }
  }

  /**
   * The greedy match runs from the first `{` to the last `}`; there is no
   * match exactly when no `}` follows the first `{`.
   */
  lemma MatchIsGreedySpan(s: string)
    ensures Matched(s) == GreedySpan(s)
    ensures Matched(s).None? <==> (IndexOf(s, '{') < 0 || LastIndexOf(s, '}') < IndexOf(s, '{'))
  {
    SearchFindsGreedySpan(s, 0);
    var first, last := IndexOf(s, '{'), LastIndexOf(s, '}');
    if first >= 0 && last >= 0 {
      assert last != first by { assert s[first] == '{' && s[last] == '}'; }
    }
  }

  /** The span does not stop at the end of the first object: `{a} x {b}` yields the whole text. */
  lemma SpanCoversLaterObjects()
    ensures Matched("{a} x {b}") == Some("{a} x {b}")
  {
    var s := "{a} x {b}";
    MatchIsGreedySpan(s);
    assert IndexOf(s, '{') == 0 by { assert s[0] == '{'; }
    assert LastIndexOf(s, '}') == 8 by { assert s[8] == '}'; }
    assert s[0..9] == s;
  }

  /* ----- The handler ----- */

  /**
   * The decision of the handler. A preflight is answered at once; otherwise
   * the request body must be readable, the key configured, the gateway
   * reachable and ok, its body JSON with a `choices` array, its content must
   * hold a `{…}` span and that span must parse. The reply is then the
   * serialised parse; any failure gives the single 500 response.
   */
  function Handle<J>(req: Request, apiKey: Option<string>, upstream: Upstream,
                     parse: string -> Option<J>, stringify: J -> string): (r: Response)
    ensures req.httpMethod == "OPTIONS" ==> r == Preflight
    ensures r == Preflight || r == ErrorResponse || (r.status == 200 && r.body.Some? && r.headers == JsonHeaders)
  {
    if req.httpMethod == "OPTIONS" then Preflight
    else if !req.bodyReadable || !KeyConfigured(apiKey) then ErrorResponse
    else if upstream.FetchError? || !upstream.ok then ErrorResponse
    else if !upstream.completion.Choices? then ErrorResponse
    else
      var content := if upstream.completion.content.Some? then upstream.completion.content.value else "";
      match Matched(content)
      case None => ErrorResponse
      case Some(span) =>
        match parse(span)
        case None => ErrorResponse
        case Some(parsed) => Response(200, Some(stringify(parsed)), JsonHeaders)
  }

  /** A request that is not a preflight with no usable key fails, whatever the gateway would say. */
  lemma MissingKeyFails<J>(req: Request, apiKey: Option<string>, upstream: Upstream,
                           parse: string -> Option<J>, stringify: J -> string)
    requires req.httpMethod != "OPTIONS" && !KeyConfigured(apiKey)
    ensures Handle(req, apiKey, upstream, parse, stringify) == ErrorResponse
  {
  }

  /** A gateway reply that is not ok fails. */
  lemma GatewayErrorFails<J>(req: Request, apiKey: Option<string>, completion: Completion,
                             parse: string -> Option<J>, stringify: J -> string)
    requires req.httpMethod != "OPTIONS"
    ensures Handle(req, apiKey, Answered(false, completion), parse, stringify) == ErrorResponse
  {
  }

  /** Missing content is read as the empty string, which has no span, so it fails. */
  lemma MissingContentFails<J>(req: Request, apiKey: Option<string>, ok: bool,
                               parse: string -> Option<J>, stringify: J -> string)
    requires req.httpMethod != "OPTIONS"
    ensures Handle(req, apiKey, Answered(ok, Choices(None)), parse, stringify) == ErrorResponse
  {
    MatchIsGreedySpan("");
  }

  /**
   * A request that is not a preflight succeeds exactly when every step does,
   * and then its body is the serialised parse of exactly the closed-form span.
   */
  lemma HandleSucceeds<J>(req: Request, apiKey: Option<string>, upstream: Upstream,
                          parse: string -> Option<J>, stringify: J -> string)
    requires req.httpMethod != "OPTIONS"
    ensures var r := Handle(req, apiKey, upstream, parse, stringify);
      r != ErrorResponse <==>
        && req.bodyReadable && KeyConfigured(apiKey)
        && upstream.Answered? && upstream.ok && upstream.completion.Choices?
        && upstream.completion.content.Some?
        && GreedySpan(upstream.completion.content.value).Some?
        && parse(GreedySpan(upstream.completion.content.value).value).Some?
    ensures var r := Handle(req, apiKey, upstream, parse, stringify);
      r != ErrorResponse ==>
        r == Response(200, Some(stringify(parse(GreedySpan(upstream.completion.content.value).value).value)), JsonHeaders)
  {
    MatchIsGreedySpan("");
    if upstream.Answered? && upstream.completion.Choices? && upstream.completion.content.Some? {
      MatchIsGreedySpan(upstream.completion.content.value);
    }
  }
}
