/** The POST handler of the analyze endpoint: the order in which it checks the credential, the
    prompt, the response cache and the rate limiter before it calls the upstream model, and how
    it turns the upstream outcome into its own response. */
module Handler {
  import opened Wrappers
  import opened Text
  import opened RateLimit
  import opened Cache

  /** The model the upstream request names. */
  const Model: string := "claude-opus-4-6"

  /** `max_tokens` when the request body gives none. */
  const DefaultMaxTokens: int := 300

  /** The text answered when the upstream reply's first item carries no `text` field. */
  const NoResponseText: string := "No response generated."

  const NoKeyMessage: string := "API key not configured"
  const PromptRequiredMessage: string := "prompt is required"
  const RateLimitedMessage: string := "Rate limit exceeded. Try again later."
  const ApiErrorPrefix: string := "Anthropic API error: "

  /** The message Python gives when indexing an empty list. */
  const EmptyListMessage: string := "list index out of range"

  /** What the handler reads from an inbound request. `prompt` is the body's `prompt` field,
      empty when the field, or a parseable body, is missing; `maxTokens` is its `max_tokens`
      field; `forwardedFor` is the `X-Forwarded-For` header. */
  datatype Request = Request(prompt: string, maxTokens: Option<int>, forwardedFor: Option<string>)

  /** An element of the upstream reply's `content` list: an object with or without a `text`
      field, or some other JSON value (whose `.get` raises the given message). */
  datatype Item = Object(text: Option<string>) | NonObject(error: string)

  /** The reply's `content` field: missing, a list, or another JSON value, whose first element
      cannot be read as an object; reading it fails with the given message. */
  datatype Content = Absent | Items(items: seq<Item>) | NotAList(error: string)

  /** The decoded upstream reply body: an object, or another JSON value. */
  datatype Reply = ObjectReply(content: Content) | NonObjectReply(error: string)

  /** How the upstream call ends: a decoded reply, an HTTP error status with its body, or any
      other failure (network, timeout, undecodable reply) with its message. */
  datatype Upstream = Replied(reply: Reply) | HttpError(code: int, body: string) | Failed(message: string)

  /** The body of the upstream request: the model, the token budget and the single user
      message. */
  datatype Payload = Payload(model: string, maxTokens: int, prompt: string)

  /** The JSON object answered to the client: `{"text": ...}` or `{"error": ...}`. */
  datatype Body = TextBody(text: string) | ErrorBody(error: string)

  datatype Response = Response(status: int, body: Body)

  /** The clock readings the handler takes: one for the cache lookup, one for the admission
      check and one for the cache write. */
  datatype Clock = Clock(lookupAt: int, admitAt: int, storeAt: int)

  /** Everything one request produces: the response, the upstream request if one was sent,
      whether the rate limiter was consulted, and both stores afterwards. */
  datatype Outcome = Outcome(response: Response, sent: Option<Payload>, consulted: bool,
                             limits: map<string, RateRecord>, entries: map<string, CacheEntry>)

  /** The text of an upstream reply: the `text` field of the first `content` item, with a
      fallback when the reply has no `content` or the item has no `text`. The steps that raise
      in the source (a non-object reply, an empty or non-list `content`, a non-object first
      item) fail with the message of the exception. */
  function ExtractText(reply: Reply): (r: Result<string, string>)
    ensures reply.NonObjectReply? ==> r == Failure(reply.error)
    ensures reply.ObjectReply? && reply.content.Absent? ==> r == Success(NoResponseText)
    ensures reply.ObjectReply? && reply.content == Items([]) ==> r == Failure(EmptyListMessage)
    ensures reply.ObjectReply? && reply.content.NotAList? ==> r == Failure(reply.content.error)
    ensures reply.ObjectReply? && reply.content.Items? && reply.content.items != [] ==>
              match reply.content.items[0]
              case Object(Some(t)) => r == Success(t)
              case Object(None) => r == Success(NoResponseText)
              case NonObject(e) => r == Failure(e)
    ensures r.Success? && r.value != NoResponseText ==>
              reply.ObjectReply? && reply.content.Items? && reply.content.items != []
              && reply.content.items[0] == Object(Some(r.value))
  {
    match reply
    case NonObjectReply(e) => Failure(e)
    case ObjectReply(content) =>
      match content
      case Absent => Success(NoResponseText)
      case NotAList(e) => Failure(e)
      case Items(items) =>
        if items == [] then Failure(EmptyListMessage)
        else
          match items[0]
          case NonObject(e) => Failure(e)
          case Object(text) => Success(text.GetOr(NoResponseText))
  }

  /** The 502 message: the fixed prefix, the upstream status code in decimal, a space and the
      upstream body. The code can be read back from the message. */
  function ApiErrorMessage(code: int, body: string): (m: string)
    ensures |ApiErrorPrefix| < |m| - |body|
    ensures m[..|ApiErrorPrefix|] == ApiErrorPrefix
    ensures m[|m| - |body|..] == body && m[|m| - |body| - 1] == ' '
    ensures IsIntLiteral(m[|ApiErrorPrefix|..|m| - |body| - 1])
    ensures ParseInt(m[|ApiErrorPrefix|..|m| - |body| - 1]) == code
    ensures m[|ApiErrorPrefix|..|m| - |body| - 1] == IntToDecimal(code)
  {
    var digits := IntToDecimal(code);
    IntToDecimalRoundTrip(code);
    var m := ApiErrorPrefix + digits + " " + body;
    assert m[|ApiErrorPrefix|..|m| - |body| - 1] == digits;
    m
  }

  /** An upstream 401 with body `invalid key`: the status and the body appear verbatim in the
      message. */
  lemma ApiErrorMessageExample()
    ensures ApiErrorMessage(401, "invalid key") == "Anthropic API error: 401 invalid key"
  {
    assert IntToDecimal(401) == "401" by {
      assert NatToDecimal(40) == "40" by {
        assert NatToDecimal(4) == "4";
      }
    }
    assert ApiErrorMessage(401, "invalid key") == ApiErrorPrefix + "401" + " " + "invalid key";
  }

  /** The cache answers the request: a live entry whose text is non-empty (the source tests
      the cached string for truth, so a cached empty string counts as a miss). */
  predicate CacheHit(entries: map<string, CacheEntry>, h: string, now: int) {
    var cached := Lookup(entries, h, now);
    cached.Some? && cached.value != ""
  }

  /** The response to a sent upstream request and the cache afterwards: a successful reply is
      answered with 200 and cached under `h`; an HTTP error becomes 502 and any other failure
      500, neither touching the cache. */
  function Dispatch(upstream: Upstream, entries: map<string, CacheEntry>, h: string, now: int): (Response, map<string, CacheEntry>) {
    match upstream
    case Replied(reply) =>
      (match ExtractText(reply)
       case Success(text) => (Response(200, TextBody(text)), Store(entries, h, text, now))
       case Failure(e) => (Response(500, ErrorBody(e)), entries))
    case HttpError(code, body) => (Response(502, ErrorBody(ApiErrorMessage(code, body))), entries)
    case Failed(message) => (Response(500, ErrorBody(message)), entries)
  }

  /** One POST to the analyze endpoint, given the stores it finds, the configured key, the
      request, the clock readings, the prompt fingerprint and how the upstream call would end.
      Each check can end the request, in this order: no key (503), no prompt (400), cache hit
      (200, skipping the limiter and the upstream call), rate denial (429, no upstream call);
      only then is the upstream model called. */
  function Decide(limits: map<string, RateRecord>, entries: map<string, CacheEntry>, apiKey: string,
                  req: Request, clock: Clock, fingerprint: string -> string, upstream: Upstream): (o: Outcome)
    ensures o.response.status == 503 <==> apiKey == ""
    ensures o.response.status == 400 <==> apiKey != "" && req.prompt == ""
    ensures apiKey == "" ==> o.response == Response(503, ErrorBody(NoKeyMessage))
    ensures apiKey != "" && req.prompt == "" ==> o.response == Response(400, ErrorBody(PromptRequiredMessage))
    ensures apiKey == "" || req.prompt == "" ==>
              o.sent == None && !o.consulted && o.limits == limits && o.entries == entries
    ensures apiKey != "" && req.prompt != "" && CacheHit(entries, fingerprint(req.prompt), clock.lookupAt) ==>
              o.response == Response(200, TextBody(entries[fingerprint(req.prompt)].text))
              && o.sent == None && !o.consulted && o.limits == limits && o.entries == entries
    ensures o.consulted <==> apiKey != "" && req.prompt != "" && !CacheHit(entries, fingerprint(req.prompt), clock.lookupAt)
    ensures o.consulted ==> o.limits == CheckRateLimit(limits, ClientKey(req.forwardedFor), clock.admitAt).limits
    ensures !o.consulted ==> o.limits == limits
    ensures o.response.status == 429 <==> o.consulted && !CheckRateLimit(limits, ClientKey(req.forwardedFor), clock.admitAt).allowed
    ensures o.response.status == 429 ==> o.response.body == ErrorBody(RateLimitedMessage) && o.entries == entries
    ensures o.sent.Some? <==> o.consulted && CheckRateLimit(limits, ClientKey(req.forwardedFor), clock.admitAt).allowed
    ensures o.sent.Some? ==> o.sent.value.model == Model && o.sent.value.prompt == req.prompt
                             && o.sent.value.maxTokens == (if req.maxTokens.Some? then req.maxTokens.value else 300)
    ensures o.sent.Some? && upstream.Replied? && ExtractText(upstream.reply).Success? ==>
              o.response == Response(200, TextBody(ExtractText(upstream.reply).value))
              && o.entries == Store(entries, fingerprint(req.prompt), ExtractText(upstream.reply).value, clock.storeAt)
    ensures o.sent.Some? && upstream.HttpError? ==>
              o.response == Response(502, ErrorBody(ApiErrorMessage(upstream.code, upstream.body))) && o.entries == entries
    ensures o.sent.Some? && upstream.Failed? ==> o.response == Response(500, ErrorBody(upstream.message)) && o.entries == entries
    ensures o.sent.Some? && upstream.Replied? && ExtractText(upstream.reply).Failure? ==>
              o.response == Response(500, ErrorBody(ExtractText(upstream.reply).error)) && o.entries == entries
    ensures o.entries != entries ==> o.sent.Some? && o.response.status == 200
  {
    if apiKey == "" then
      Outcome(Response(503, ErrorBody(NoKeyMessage)), None, false, limits, entries)
    else if req.prompt == "" then
      Outcome(Response(400, ErrorBody(PromptRequiredMessage)), None, false, limits, entries)
    else
      var h := fingerprint(req.prompt);
      if CacheHit(entries, h, clock.lookupAt) then
        Outcome(Response(200, TextBody(entries[h].text)), None, false, limits, entries)
      else
        var admission := CheckRateLimit(limits, ClientKey(req.forwardedFor), clock.admitAt);
        if !admission.allowed then
          Outcome(Response(429, ErrorBody(RateLimitedMessage)), None, true, admission.limits, entries)
        else
          var payload := Payload(Model, req.maxTokens.GetOr(DefaultMaxTokens), req.prompt);
          var (response, written) := Dispatch(upstream, entries, h, clock.storeAt);
          Outcome(response, Some(payload), true, admission.limits, written)
  }

  /** A first request whose reply is cached is answered from the cache by an
      identical request within the hour, with no second upstream call and no admission check. */
  lemma AnsweredThenCached(limits: map<string, RateRecord>, entries: map<string, CacheEntry>, apiKey: string,
                           req: Request, clock: Clock, fingerprint: string -> string, text: string,
                           later: Clock, upstream: Upstream)
    requires apiKey != "" && req.prompt != "" && text != ""
    requires !CacheHit(entries, fingerprint(req.prompt), clock.lookupAt)
    requires CheckRateLimit(limits, ClientKey(req.forwardedFor), clock.admitAt).allowed
    requires later.lookupAt - clock.storeAt < CacheTtl
    ensures var first := Decide(limits, entries, apiKey, req, clock, fingerprint, Replied(ObjectReply(Items([Object(Some(text))]))));
            var second := Decide(first.limits, first.entries, apiKey, req, later, fingerprint, upstream);
            && first.response == Response(200, TextBody(text))
            && first.sent == Some(Payload(Model, req.maxTokens.GetOr(DefaultMaxTokens), req.prompt))
            && second.response == Response(200, TextBody(text))
            && second.sent == None && !second.consulted
            && second.limits == first.limits && second.entries == first.entries
  {
    var reply := Replied(ObjectReply(Items([Object(Some(text))])));
    assert ExtractText(reply.reply) == Success(text);
    var first := Decide(limits, entries, apiKey, req, clock, fingerprint, reply);
    var h := fingerprint(req.prompt);
    assert first.entries == Store(entries, h, text, clock.storeAt);
    StoreThenLookup(entries, h, text, clock.storeAt, later.lookupAt - clock.storeAt);
    assert Lookup(first.entries, h, later.lookupAt) == Some(text);
    assert first.entries[h].text == text;
    assert CacheHit(first.entries, h, later.lookupAt);
  }

  /** The outcomes of identical requests handled one after another, each seeing the stores the
      previous one left. */
  function Replay(limits: map<string, RateRecord>, entries: map<string, CacheEntry>, apiKey: string,
                  req: Request, clocks: seq<Clock>, fingerprint: string -> string, upstream: Upstream): (os: seq<Outcome>)
    ensures |os| == |clocks|
    decreases |clocks|
  {
    if clocks == [] then []
    else
      var o := Decide(limits, entries, apiKey, req, clocks[0], fingerprint, upstream);
      [o] + Replay(o.limits, o.entries, apiKey, req, clocks[1..], fingerprint, upstream)
  }

  /** However many identical requests arrive while their cached answer is live, every one is
      answered from the cache: none consults the rate limiter, none calls upstream, and
      neither store changes. */
  lemma {:induction false} RepeatedHits(limits: map<string, RateRecord>, entries: map<string, CacheEntry>, apiKey: string,
                                        req: Request, clocks: seq<Clock>, fingerprint: string -> string, upstream: Upstream)
    requires apiKey != "" && req.prompt != ""
    requires forall i :: 0 <= i < |clocks| ==> CacheHit(entries, fingerprint(req.prompt), clocks[i].lookupAt)
    ensures forall i :: 0 <= i < |clocks| ==>
              var o := Replay(limits, entries, apiKey, req, clocks, fingerprint, upstream)[i];
              && o.response == Response(200, TextBody(entries[fingerprint(req.prompt)].text))
              && o.sent == None && !o.consulted && o.limits == limits && o.entries == entries
    decreases |clocks|
  {
    if clocks != [] {
      RepeatedHits(limits, entries, apiKey, req, clocks[1..], fingerprint, upstream);
      var os := Replay(limits, entries, apiKey, req, clocks, fingerprint, upstream);
      forall i | 0 < i < |clocks|
        ensures os[i] == Replay(limits, entries, apiKey, req, clocks[1..], fingerprint, upstream)[i - 1]
      {
      }
    }
  }

  /** Handles one POST to the analyze endpoint against the two stores, returning the response
      and the upstream request if one was sent. */
  method Handle(limiter: RateLimiter, cache: ResponseCache, apiKey: string, req: Request, clock: Clock,
                fingerprint: string -> string, upstream: Upstream)
    returns (response: Response, sent: Option<Payload>)
    modifies limiter, cache
    ensures var o := Decide(old(limiter.limits), old(cache.entries), apiKey, req, clock, fingerprint, upstream);
            && response == o.response && sent == o.sent
            && limiter.limits == o.limits && cache.entries == o.entries
    ensures old(limiter.Valid()) ==> limiter.Valid()
  {
    if apiKey == "" {
      return Response(503, ErrorBody(NoKeyMessage)), None;
    }
    var prompt := req.prompt;
    var maxTokens := req.maxTokens.GetOr(DefaultMaxTokens);
    if prompt == "" {
      return Response(400, ErrorBody(PromptRequiredMessage)), None;
    }
    var h := fingerprint(prompt);
    var cached := cache.Get(h, clock.lookupAt);
    if cached.Some? && cached.value != "" {
      return Response(200, TextBody(cached.value)), None;
    }
    var ip := ClientKey(req.forwardedFor);
    var allowed := limiter.Admit(ip, clock.admitAt);
    if !allowed {
      return Response(429, ErrorBody(RateLimitedMessage)), None;
    }
    sent := Some(Payload(Model, maxTokens, prompt));
    match upstream {
      case Replied(reply) =>
        var text := ExtractText(reply);
        if text.Success? {
          cache.Put(h, text.value, clock.storeAt);
          response := Response(200, TextBody(text.value));
        } else {
          response := Response(500, ErrorBody(text.error));
        }
      case HttpError(code, body) =>
        response := Response(502, ErrorBody(ApiErrorMessage(code, body)));
      case Failed(message) =>
        response := Response(500, ErrorBody(message));
    }
  }
}
