# Request admission for the analyze endpoint, in Dafny

This project models the request-admission layer of the `POST /api/analyze` serverless handler
(`api/analyze.py`). The handler shields the upstream language-model API key from browser code.
Before it spends an upstream call, it puts two stores in front of that call:

- a **fixed-window rate limiter**. It maps a client key to `{count, window_start}` and admits at
  most 10 requests per client per 3600-second window. A record whose window has elapsed starts
  over. A denial writes nothing. An admission bumps the count and evicts every elapsed record.
- a **TTL response cache**. It maps a prompt fingerprint to `{text, ts}`. A lookup hits while
  the entry is younger than 3600 seconds. A write stamps the current time and evicts every
  expired entry.

The handler checks in a fixed order, and each check can end the request:
1. no API key gives 503;
2. an empty prompt gives 400;
3. a cache hit gives 200 and skips both the limiter and the upstream call;
4. a rate denial gives 429;
5. otherwise the upstream call ends in 200 plus a cache write, or in 502, or in 500.

The project also models the string handling the handler does itself:
- deriving the client key from `X-Forwarded-For`;
- picking the answer text out of the upstream reply;
- formatting the 502 message.

Files, one module each:

- `wrappers.dfy`: `Option` and `Result`.
- `text.dfy` (module `Text`): Python's `str.strip()` and `split(",")[0]`, the client key, and
  decimal rendering of integers with its parser.
- `rate_limit.dfy` (module `RateLimit`): the pure admission step `CheckRateLimit`, lemmas about
  series of checks, and the class `RateLimiter` whose `Admit` method updates the store in place.
- `cache.dfy` (module `Cache`): the pure `Lookup` and `Store`, and the class `ResponseCache`
  whose `Put` method updates the store in place.
- `handler.dfy` (module `Handler`): the request, reply and response datatypes, the pure
  decision function `Decide`, and the method `Handle`. `Handle` runs the same steps against a
  `RateLimiter` and a `ResponseCache`, and its contract ties it to `Decide`.

The Python code reads the clock three times: in the cache lookup, in the admission check and in
the cache write. The model keeps those three readings apart in a `Clock` value. Times are whole
seconds.

Two behaviours of the code are easy to miss:

- The fallback text "No response generated." is used only when the reply has no `content` key
  or its first item has no `text` key. An empty `text` string is answered and cached as it is.
  An empty `content` list raises `IndexError`, so the request ends in 500 with
  "list index out of range".
- A cached empty string is falsy, so the handler treats it as a miss. It then goes on to the
  rate limiter and the upstream call.

## Model

| member | source | states |
|---|---|---|
| `Text.Strip` | api/analyze.py:101 | the result starts and ends with non-white-space and is the slice of the input that begins after its leading white space; only white space follows it |
| `Text.StripSurrounded` | api/analyze.py:101 | stripping is characterised by its result: trimmed text with only white space around it strips back to exactly that text |
| `Text.FirstField` | api/analyze.py:101 | `split(",")[0]` is the prefix of the input that contains no comma and is followed by a comma or by the end of the input |
| `Text.FirstFieldOfList` | api/analyze.py:101 | the first field of `a,b` is `a`, and a comma-free string is its own first field |
| `Text.ClientKey` | api/analyze.py:101 | a missing or empty `X-Forwarded-For` gives the key `unknown`; every key has no comma and no surrounding white space |
| `Text.ClientKeyOfList` | api/analyze.py:101 | for a header `first,rest` or a comma-free non-empty header `first`, the key is `first` trimmed |
| `Text.NatToDecimal` | api/analyze.py:126 | a non-negative code renders as a non-empty string of decimal digits without a leading zero |
| `Text.NatToDecimalRoundTrip` | api/analyze.py:126 | reading the digits back gives the number |
| `Text.IntToDecimal` | api/analyze.py:126 | `str()` of an integer: a minus sign iff it is negative, then decimal digits with no leading zero (a lone `0` for zero) |
| `Text.IntToDecimalRoundTrip` | api/analyze.py:126 | rendering any integer, sign included, and parsing it back gives the integer |
| `RateLimit.CheckRateLimit` | api/analyze.py:40-53 | admitted iff the effective count (stored, or 0 when absent or elapsed) is below 10; a denial leaves the store unchanged; an admission stores the count plus one with the same window start (never above 10), keeps exactly the client and the records whose window has not elapsed, leaves the others unchanged, and preserves the bound on stored counts |
| `RateLimit.AdmittedAfterWindow` | api/analyze.py:43-45 | a client with no record or an elapsed window, however often denied before, is admitted and stored as count 1 with the window starting now |
| `RateLimit.AdmitSeriesAppend` | api/analyze.py:40-53 | running two series of checks in a row answers as the first series, then the second series started from the store the first left |
| `RateLimit.SeriesWithinWindow` | api/analyze.py:43-49 | while the window lasts, the `i`-th of successive checks after a record of count `c` is admitted iff `c + i < 10`, and the record keeps its window start |
| `RateLimit.FreshClientGetsCeiling` | api/analyze.py:43-49 | a fresh client is admitted on exactly the first 10 checks within one window; the 11th and every later one are denied |
| `RateLimit.BoundaryBurst` | api/analyze.py:43-45 | the window is fixed, not sliding: 10 checks at `t` and 10 more at `t + 3601` are all admitted |
| `RateLimit.RateLimiter.constructor` | api/analyze.py:24-29 | a store that cannot be read behaves as an empty map, which satisfies the count bound |
| `RateLimit.RateLimiter.Admit` | api/analyze.py:40-53 | the in-place update returns the answer of `CheckRateLimit` and leaves exactly its store; the bound on counts is preserved |
| `Cache.Lookup` | api/analyze.py:56-61 | a hit iff an entry exists and `now - ts < 3600`, returning the stored text |
| `Cache.ResponseCache.Get` | api/analyze.py:56-61 | the class-side lookup: a hit iff an entry exists and `now - ts < 3600`, returning the stored text; it only reads the cache |
| `Cache.Store` | api/analyze.py:64-70 | the fingerprint maps to the text stamped `now`; exactly the live entries survive besides it, unchanged |
| `Cache.StoreThenLookup` | api/analyze.py:59-67 | an entry written at `t` is a hit `d` seconds later iff `d < 3600` |
| `Cache.StoreKeepsOtherLookups` | api/analyze.py:64-70 | a write never changes a same-time lookup of another fingerprint |
| `Cache.ResponseCache.constructor` | api/analyze.py:24-29 | a cache that cannot be read behaves as an empty map |
| `Cache.ResponseCache.Put` | api/analyze.py:64-70 | the in-place update leaves exactly `Store` of the old entries |
| `Handler.ExtractText` | api/analyze.py:121 | the first `content` item's `text` is answered verbatim; the fallback is used only when `content` or `text` is missing; a non-object reply, an empty `content` list ("list index out of range"), a non-list `content` and a non-object first item each fail with the exception's message; any answer other than the fallback is the first item's `text` |
| `Handler.ApiErrorMessage` | api/analyze.py:124-126 | the 502 message is the prefix `Anthropic API error: `, then exactly `str(code)` (which parses back to the code), a space and the upstream body verbatim |
| `Handler.ApiErrorMessageExample` | api/analyze.py:126 | status 401 with body `invalid key` gives `Anthropic API error: 401 invalid key` |
| `Handler.Decide` | api/analyze.py:74-128 | 503 `API key not configured` iff no key, 400 `prompt is required` iff a key and an empty prompt, neither touching a store; a non-empty cache hit answers 200 with the cached text without consulting the limiter or calling upstream; the limiter is consulted iff key, prompt and no hit; 429 iff it denies, with no upstream call and no cache write; upstream is called iff admitted, with the model, the prompt and `max_tokens` defaulting to 300; success answers 200 and caches the text under the prompt's fingerprint; 502 and 500 never write the cache (the helper `Dispatch` maps the upstream outcome, lines 118-128, and is covered by this contract) |
| `Handler.AnsweredThenCached` | api/analyze.py:93-123 | a first request answered by upstream is answered again from the cache by an identical request within the hour, with no second upstream call and no admission check |
| `Handler.RepeatedHits` | api/analyze.py:93-98 | any number of identical requests arriving while the cached answer is live are all answered from the cache and change neither store |
| `Handler.Handle` | api/analyze.py:74-128 | the in-place handler returns the response and upstream request of `Decide` and leaves both stores as `Decide` does; the limiter's count bound is preserved |

## Left out

- File persistence (`_load_json` / `_save_json`, api/analyze.py:24-37). The stores are in-memory
  maps. A failed load behaves as an empty store, as the constructors do. The model assumes every
  save succeeds. In the source a failed save is silent but loses the write: with an unwritable
  store every request is admitted and nothing is ever cached. That behaviour is not modelled.
- `time.time()`. Clock readings are parameters in whole seconds. Floating-point time stamps are
  not modelled.
- `hashlib.sha256`. The prompt fingerprint is the function parameter `fingerprint`. Any
  deterministic function fits.
- The upstream HTTP call. This covers building the URL, the `x-api-key` and `anthropic-version`
  headers, JSON encoding and `urlopen`. Its outcome is the input `Upstream`: a decoded reply,
  an HTTP error with its code and body, or any other failure with its message. The reply's
  `text` field is taken to be a string or missing. Other JSON values there are not modelled.
- Request body decoding (`Content-Length`, `json.loads`, api/analyze.py:80-87). A missing body,
  or a body that is not valid JSON, yields an empty prompt. So does a falsy `prompt` value
  (`null`, `0`, `false`, `[]`, `{}`), which fails `if not prompt` and gets 400. The model covers
  all of these as `prompt == ""`. The following cases make the source raise outside any `try`,
  so no response is sent, and they are not modelled:
  - a `Content-Length` that is not an integer (`ValueError` at line 80);
  - a body that is not valid UTF-8 (`UnicodeDecodeError`, which line 83 does not catch);
  - a JSON body that is not an object (`body.get` fails at line 86);
  - a truthy `prompt` that is not a string (`prompt.encode()` fails at line 94);
  - a prompt holding a lone surrogate such as `"\ud800"` (`UnicodeEncodeError` at line 94). A
    Dafny string cannot hold it.
  `max_tokens` is passed through unchecked. It is modelled as an optional integer.
- `_respond`: writing the status, the headers and the JSON body to the socket.
- Concurrency. The file-backed stores are read-modify-write without locking, so parallel
  requests can race. The model is sequential.
- `server.py`, the local development server. Its handler repeats the proxy without the cache
  and the rate limiter, and it also serves static files.
- `api/status.py`. It only reports whether the key environment variable is set.
