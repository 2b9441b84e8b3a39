# tiny-ssl-reverse-proxy: a Dafny model of the forwarding core

tiny-ssl-reverse-proxy terminates TLS and forwards every request to one backend.
This project models the sequential logic of its `main.go`:

- **Response rewrite** (`rewriteBody`, the startup proxy's `ModifyResponse`). It drains
  the body, replaces every `background` with `Background`, stores the new body,
  sets `ContentLength` and `Content-Length`, and appends a Content-Security-Policy
  header and `Access-Control-Allow-Origin: *`. The byte replacement is the pure
  function `Replace.ReplaceAll` (Go's `bytes.Replace` with `n = -1`). The in-place
  update is the method `Rewrite.RewriteBody` on an `Http.Response` object. That
  method is proved equal to the specification function `Rewrite.Rewrite`.
- **Transport failure interception** (`ConnectionErrorHandler.RoundTrip`).
  `Transport.RoundTrip` decides on the inner transport's result. A `*net.OpError`
  becomes a 503 response whose body is the fixed page `Transport.Message`. Every
  other result passes through unchanged.
- **Backend selection** (the handler closure in `main`). The class
  `Forwarder.Handler` holds the captured `url` variable as `Option<URL>`; `None`
  is a nil `*url.URL`. `Handle` serves one request and is proved equal to the
  specification function `Forwarder.Step`. `Forwarder.Run` chains `Step` over a
  sequence of requests.

Modules: `Wrappers` (Option), `Decimal` (`strconv.Itoa`), `Replace` (the byte
substitution), `Http` (header map operations, body, response record), `Rewrite`,
`Transport`, `Forwarder`.

Response bodies are sequences of `char`, one per byte; every literal involved is
ASCII. The Go `panic`s the code can reach are outcomes, not crashes:
`Rewrite.NilHeaderPanic` for a write into a nil `Header` map, and
`Forwarder.NilDeref` for a nil `*url.URL` dereference.

### Behaviour of the code a reader may not expect

- A request without a non-empty first `_url` value (main.go:108) goes to the
  proxy built at startup (main.go:124), and so to the startup target, if `url`
  is not nil; if it is nil, main.go:123 panics first (`Forwarder.DefaultBranch`). The last override only
  supplies its Host header (main.go:123, `Forwarder.OverrideThenPlain`). The
  code's comment at main.go:104 ("reset the where param if we find a url= in
  request") reads as if the override were meant to become the new target.
- An override that does not parse is not forwarded anywhere: the `if err == nil`
  at main.go:112 has no else. The assignment at main.go:110 has already stored
  nil in `url` (`Forwarder.OverrideUnparsable`). The next request without `_url`
  panics on `url.Host` at main.go:123
  (`Forwarder.UnparsableOverrideBreaksDefault`). This goes on until an override
  whose reference has a scheme succeeds. `ResolveReference` reads its receiver
  only for references without a scheme, so such an override works even on a nil
  `url`, and plain requests are then forwarded again
  (`Forwarder.AbsoluteOverrideRecovers`).
- On the startup proxy's path (main.go:88-91), the 503 page never reaches the
  client. The synthetic response has no header map (main.go:53-56), so
  `rewriteBody` panics at `Header.Set` (main.go:165,
  `Transport.UnavailablePageAborts`). Even with a header map, the page would be
  rewritten, because its CSS contains `background-color`
  (`Transport.MessageContainsPattern`). A proxy built for an override
  (main.go:116-119) uses the same transport but has no `ModifyResponse`. On that
  path the synthetic 503 page passes through unchanged.

## Model

| member | source | states |
|---|---|---|
| `Replace.ReplaceAll` | main.go:161 | bytes.Replace(b, old, new, -1) with a non-empty pattern; when pattern and replacement have the same length, the result has the input's length |
| `Replace.Capitalise` | main.go:161 | the call bytes.Replace(b, "background", "Background", -1): the rewritten body has the length of the original |
| `Replace.CapitaliseAt` | main.go:161 | the rewritten body has the input's length; at each index it holds `B` where an occurrence of `background` starts in the input, and the input's byte everywhere else (every occurrence is replaced, nothing else changes) |
| `Replace.NoPatternRemains` | main.go:161 | the rewritten body contains no `background` |
| `Replace.CapitaliseIdentityIff` | main.go:161 | the rewrite leaves a body unchanged if and only if it contains no `background` |
| `Replace.CapitaliseChanges` | main.go:161 | a body containing `background` is changed by the rewrite |
| `Replace.CapitaliseIdempotent` | main.go:161 | rewriting a rewritten body changes nothing |
| `Decimal.Itoa` | main.go:165 | strconv.Itoa of a length: a non-empty string of decimal digits without a leading zero |
| `Decimal.ValueOfItoa` | main.go:165 | reading back the decimal string gives the length again |
| `Decimal.ItoaInjective` | main.go:165 | different lengths give different Content-Length values |
| `Http.Set` | main.go:165 | Header.Set: the key holds exactly the new value; all other keys and values are kept |
| `Http.Add` | main.go:166-168 | Header.Add: the value is appended after the key's existing values; all other keys are kept |
| `Http.BufferBody` | main.go:162 | NopCloser over an in-memory reader: yields exactly the given bytes, and reading and closing never fail |
| `Rewrite.Rewrite` | main.go:151-171 | a read or close error is returned and the record is left unchanged (read error first); otherwise the body is replaced by the rewritten bytes, ContentLength becomes the original length and the status is kept; the outcome is the nil-map panic exactly when there is no header map |
| `Rewrite.RewriteSucceeds` | main.go:161-168 | on success: the body has every `background` capitalised and none left, the same length, ContentLength and the single Content-Length value both equal that length (the header reads back as it), the CSP and Access-Control-Allow-Origin values are appended to any existing ones, and every other header is unchanged |
| `Rewrite.RewriteBody` | main.go:151-171 | updates the *http.Response in place, with the outcome and new record given by Rewrite |
| `Transport.UnavailableResponse` | main.go:53-56 | the synthetic response: status 503, a body that yields exactly the page and never fails, no header map, ContentLength 0 |
| `Transport.RoundTrip` | main.go:46-60 | never returns an OpError: an OpError becomes status 503, body exactly the page, nil error, no header map and ContentLength 0; a success or any other error is returned unchanged |
| `Transport.MessageContainsPattern` | main.go:23-42 | the 503 page contains `background` (in its CSS) |
| `Transport.UnavailablePageAborts` | main.go:52-57 | the synthetic 503 response, passed to rewriteBody, ends in the nil-header-map panic |
| `Transport.UnavailableResponseWithHeader` | main.go:53-56 | the synthetic 503 response, identical to UnavailableResponse except that its header map is present and empty |
| `Transport.RoundTripWithHeader` | main.go:46-60 | the same decision as RoundTrip and the same result field for field, except that the synthetic response has an empty header map |
| `Transport.UnavailablePageDelivered` | main.go:53-56 | with the header map present, an unreachable backend yields status 503 with the rewritten page (not the page itself), Content-Length equal to the page's length, and exactly the three headers of rewriteBody |
| `Forwarder.ParseOn` | main.go:110 | (*URL).Parse(site) on the current variable: a parse error whenever url.Parse fails, before the receiver is read; a nil-receiver panic exactly when the receiver is nil and the reference has no scheme; otherwise the reference resolved against the receiver |
| `Forwarder.FirstValue` | main.go:106 | `Query()["_url"][0]`: absent if and only if no pair has the key; otherwise the value of the first pair that has it |
| `Forwarder.OverrideSite` | main.go:106-108 | an override is taken only when the first `_url` value exists and is non-empty |
| `Forwarder.Step` | main.go:98-125 | the version header (key `X-Tiny-Ssl-Version`, the canonical form Header.Add stores; value 0.21.0) is added exactly for `/_version`; a forwarded query is the request's own query (the `Del` has no effect); rewritten responses only come from the startup target, with the current variable's host, and the variable is kept; any other forward went to the override's resolved URL with its host, and that URL is the new variable; only an override changes the variable |
| `Forwarder.OverrideResolved` | main.go:108-120 | an override that resolves to u: the variable becomes u, and the request goes to u with Host u.host and without the rewrite |
| `Forwarder.OverrideUnparsable` | main.go:110-112 | an override that fails to parse: the variable becomes nil and nothing is forwarded |
| `Forwarder.DefaultBranch` | main.go:121-125 | without an override the variable is unchanged; the request goes to the startup target with the variable's host and the rewrite, or panics when the variable is nil |
| `Forwarder.Run` | main.go:98-129 | one reply per request, handled in order with the variable threaded through |
| `Forwarder.RewrittenOnlyFromStartup` | main.go:88-124 | over any sequence of requests, every rewritten response came from the startup target, and every other forward carried an override |
| `Forwarder.StableWithoutOverride` | main.go:121-125 | over a sequence of requests without an override, the variable never changes and every request gets the same destination and Host (or every one panics when it is nil) |
| `Forwarder.OverrideThenPlain` | main.go:108-124 | after an override to u, the next plain request goes to the startup target with Host u.host, and the variable stays u |
| `Forwarder.UnparsableOverrideBreaksDefault` | main.go:110-123 | after an override that fails to parse, the next plain request panics on the nil variable |
| `Forwarder.AbsoluteOverrideRecovers` | main.go:106-124 | after an override that fails to parse, an override whose reference has a scheme still resolves on the nil variable, and the next plain request is forwarded to the startup target with that URL's host |
| `Forwarder.RelativeOverrideOnNil` | main.go:110 | on a nil variable, an override whose reference has no scheme panics in ResolveReference and leaves the variable nil |
| `Forwarder.StepKeepingTarget` | main.go:110-112 | the same reply as Step; a successful override still replaces the variable, a failed parse keeps the previous target, so a non-nil variable stays non-nil |
| `Forwarder.RunKeepingTarget` | main.go:98-129 | one reply per request under StepKeepingTarget |
| `Forwarder.KeepingTargetNeverPanics` | main.go:110-123 | with the fix, starting from a parsed target, no request ever panics and the variable always holds a target |
| `Forwarder.Handler.constructor` | main.go:83-97 | the variable starts as the target parsed from -where, which is also the startup proxy's target |
| `Forwarder.Handler.Handle` | main.go:98-129 | serves one request: the reply and the new value of the captured variable are those of Step |

## Left out

- Flag parsing, usage text, defaults and the fatal exit on a bad `-where` (main.go:63-86). The handler starts from an already parsed target.
- Choosing and starting the server, TLS, the `proxyprotocol` package and `LoggingMiddleware` (main.go:131-148). They are I/O or foreign code whose source is not part of this model. So the PROXY-header decoder is not modelled.
- The inside of `httputil.ReverseProxy` and `http.DefaultTransport`: network I/O and library behaviour. A forward is modelled as "destination, Host header, query, with or without the rewrite hook". How the director joins paths and queries is not modelled.
- `FlushInterval` (main.go:75, 90, 118): it is passed to the streaming layer unchanged.
- Logging and the `fmt.Printf` of the body (main.go:49-50, 115, 153): output only.
- Concurrent requests: the source reads and writes `url` without synchronisation. The model handles requests one at a time.
- `url.Parse` and `(*URL).ResolveReference` are parameters of `Forwarder.Config`. Only one of their behaviours is modelled: a nil receiver panics for a reference without a scheme.
- `Query()` parsing: a request carries its already decoded query pairs, so malformed pairs that Go drops are not modelled.
- What `net/http` does after a handler panic (recover, log, close the connection): the panics are outcomes only.
- `CanonicalMIMEHeaderKey` is not modelled as a function. The names rewriteBody writes are already canonical. The version header is stored under its canonical form, `X-Tiny-Ssl-Version`, which `Header.Add` makes of the `X-Tiny-SSL-Version` written at main.go:100.
- Replace.ReplaceAll: requires a non-empty pattern; Go's `bytes.Replace` with an empty pattern inserts the replacement around every UTF-8 sequence, which this code never asks for.
- Rewrite.Rewrite: after a failed read or close, the body field is kept as it was. The partly consumed or closed state of the stream is not modelled.
- `ContentLength` is an `int64` in Go. The model uses an unbounded integer; body lengths are far below 2^63.

## Findings

| source | as written | input that shows it | evidently intended | confidence | as-written member | corrected member |
|---|---|---|---|---|---|---|
| main.go:53-56 | The synthetic 503 response has no Header map. On the startup proxy's path (main.go:88-91), the proxy passes it to rewriteBody, whose `Header.Set` (main.go:165) panics on the nil map, so the page is never sent. | A backend that refuses connections, so the inner transport returns a `*net.OpError` | A 503 with the page, a matching Content-Length and the two policy headers reaches the client (`Transport.UnavailablePageDelivered`) | medium, not executed | `Transport.UnavailablePageAborts` | `Transport.RoundTripWithHeader` |
| main.go:110 | `url, err = url.Parse(site)` stores nil in the captured variable when the parse fails. Every later request without `_url` then dereferences it at main.go:123, until an override whose reference has a scheme succeeds. | `/?_url=%3A` (the value `:` has no scheme and does not parse), then `/` | A failed override keeps the previous target (`Forwarder.KeepingTargetNeverPanics`) | high, not executed | `Forwarder.UnparsableOverrideBreaksDefault` | `Forwarder.StepKeepingTarget` |
