# bettercap HTTP proxy filters, modelled in Dafny

This project models the per-message rewriting pipeline of bettercap's HTTP
proxy module (`modules/http_proxy_base_filters.go`). For every intercepted
request and response, the proxy:

- strips the headers that get in its way;
- lets the session stripper and the user's proxy script rewrite or answer
  the message;
- injects a configured hook into HTML pages by replacing every `</head>`;
- appends an audit event to the session's event sink whenever the script
  spoofs a request or a response.

Files, one module each (plus a scenario module):

- `text.dfy` (`Text`): the Go `strings` functions the filters use.
  `ToLower` becomes `Lower`, `Contains` stays `Contains`,
  `Replace(…, -1)` becomes `ReplaceAll`, and `Split(…)[0]` becomes
  `FirstField`. `Count` (non-overlapping occurrences) is not called by the
  filters; it is a helper that states the length of a replacement. Lemmas
  relate them.
- `http.dfy` (`Http`): the `net/http` message parts that the filters touch.
  A `Header` class holds `fields: map<string, seq<string>>` and has `Del`,
  `Set` and `Add`. `Request` and `Response` are classes. A response body is
  either open (with the text or read error that reading it gives) or
  `Drained` (already read to its end and closed).
- `header_policy.dfy` (`HeaderPolicy`): the header rules as functions on
  values. These cover the two sanitizers, the answers a case-insensitive
  lookup may give, and the effect of copying every header value into an
  injected response.
- `proxy_filters.dfy` (`ProxyFilters`, `FilterScenarios`): the `HttpProxy`
  class, whose `events` field is the event sink. Nine of its methods are
  the nine functions of the source file. Three more are pieces of them:
  `CopyHeaders` is the copying loop of `doScriptInjection` (lines 111-115),
  and `InjectOrPassAsWritten` and `InjectOrPass` are the injection stage of
  `onResponseFilter` (lines 145-154), as written and corrected. The scenario
  module applies the filters to small concrete messages.

Helper definitions without a row of their own: `Http.ReadAll` (reading a
body, line 98), `ProxyFilters.SpoofedRequestEvent` and
`ProxyFilters.SpoofedResponseEvent` (the records built at lines 158-170 and
174-186, stated through `LogRequestAction` and `LogResponseAction`),
`ProxyFilters.AfterStripper` (the sanitize-then-`Process` of lines
131-133) and `ProxyFilters.ScriptResponse` (the script's response answer,
lines 136-138), both stated through `OnResponseFilter`, `Text.Count`, and
the predicates `HeaderPolicy.LookupResult`,
`ProxyFilters.HtmlTyped` and `ProxyFilters.InjectionStage`.

The session stripper, the proxy script and the conversions of script
objects back into Go messages are collaborators this model cannot see.
Each becomes a function-valued parameter of the proxy (`Stripper`,
`Script`). Each function is applied to a snapshot of the message
(`ReqView`, `ResView`) taken at the moment the source calls the
collaborator. As a result, the contracts show what every collaborator was
shown, for example the already-sanitized headers. The message that
`ToRequest`/`ToResponse` would build travels inside the script's reply
(`JSRequest.converted`, `JSResponse.converted`).

Three behaviours of the code are worth noting:

- The code replaces each `</head>` with the hook itself (line 109). It does
  not put the hook in front of the marker. Only a hook that itself ends
  with `</head>` gives the "inserted before `</head>`" effect, as
  `FilterScenarios.HookReplacesHeadEnd` shows.
- The injected response copies every original header verbatim, a stale
  `Content-Length` included. Nothing is recomputed.
- The header lookup returns the first value of whichever matching key Go's
  map iteration reaches first. Which key that is, when several spellings
  match, is unspecified.

## Model

| member | source | states |
|---|---|---|
| `Http.Header.Del` | modules/http_proxy_base_filters.go:16-19 | the key and all its values are gone; every other key is unchanged |
| `Http.Header.Set` | modules/http_proxy_base_filters.go:20 | the key holds exactly the one given value; every other key is unchanged |
| `Http.Header.Add` | modules/http_proxy_base_filters.go:113 | the value is appended after the key's existing values; every other key is unchanged |
| `Http.Response.constructor` | modules/http_proxy_base_filters.go:110 | `goproxy.NewResponse`: a fresh response with the given request, status and body, whose only header is the given `Content-Type` |
| `HeaderPolicy.SanitizeRequest` | modules/http_proxy_base_filters.go:15-21 | `Accept-Encoding`, `If-None-Match`, `If-Modified-Since` and `Upgrade-Insecure-Requests` are absent; `Pragma` is exactly `["no-cache"]`; every other key and its values are unchanged |
| `HeaderPolicy.SanitizeRequestIdempotent` | modules/http_proxy_base_filters.go:15-21 | sanitizing request headers twice gives the same headers as sanitizing once |
| `ProxyFilters.HttpProxy.FixRequestHeaders` | modules/http_proxy_base_filters.go:15-21 | the four `Del`s and the `Set`, applied in place, leave exactly `SanitizeRequest` of the old headers |
| `HeaderPolicy.SanitizeResponse` | modules/http_proxy_base_filters.go:55-72 | the twelve security headers are absent (`X-WebKit-CSP` in its canonical form `X-Webkit-Csp`, the key Go's `Del` removes); `Allow-Access-From-Same-Origin` and the three `Access-Control-Allow-*` keys are exactly `["*"]`; every other key and its values are unchanged |
| `HeaderPolicy.SanitizeResponseDeletes` | modules/http_proxy_base_filters.go:56-71 | the twelve deletions and four sets, one after the other, give `SanitizeResponse` |
| `HeaderPolicy.SanitizeResponseIdempotent` | modules/http_proxy_base_filters.go:55-72 | sanitizing response headers twice gives the same headers as sanitizing once |
| `ProxyFilters.HttpProxy.FixResponseHeaders` | modules/http_proxy_base_filters.go:55-72 | the in-place `Del`s and `Set`s leave exactly `SanitizeResponse` of the old headers |
| `ProxyFilters.HttpProxy.GetHeader` | modules/http_proxy_base_filters.go:74-84 | the answer is the first value held under some key equal to the requested name up to case, or `""` when no such key holds any value |
| `ProxyFilters.HttpProxy.IsScriptInjectable` | modules/http_proxy_base_filters.go:86-93 | eligible only with a non-empty hook and a looked-up `Content-Type` value that contains `text/html` case-sensitively; that value is returned, otherwise `""`; always eligible when every possible answer holds `text/html`, never when none does |
| `Text.LowerIdempotent` | modules/http_proxy_base_filters.go:75-78 | lower-casing a lower-cased name changes nothing |
| `FilterScenarios.FirstContentType` | modules/http_proxy_base_filters.go:76-80 | in any header where `Content-Type` is the only key matching it up to case, the lookup answers that key's first value, whatever values follow and whatever other keys are present |
| `FilterScenarios.MultiValuedContentType` | modules/http_proxy_base_filters.go:86-93 | a page whose `Content-Type` values are `text/html` then `application/json` is eligible, with `text/html` as its content type |
| `Text.Contains` | modules/http_proxy_base_filters.go:89 | true exactly when some position of the string starts a copy of the substring |
| `Text.ContainsIffCount` | modules/http_proxy_base_filters.go:101 | the marker occurs exactly when the non-overlapping count of it is positive |
| `Text.ReplaceAll` | modules/http_proxy_base_filters.go:109 | the result's length is the input's length plus, for each of the k non-overlapping occurrences, the hook's length minus the marker's |
| `Text.ReplaceAllWithoutMarker` | modules/http_proxy_base_filters.go:101-109 | a body without the marker is left unchanged |
| `Text.ReplaceAllFirstOccurrence` | modules/http_proxy_base_filters.go:109 | the text before the first occurrence is kept; that occurrence is replaced by the hook, not prefixed; the rest is processed the same way |
| `ProxyFilters.HttpProxy.DoScriptInjection` | modules/http_proxy_base_filters.go:95-121 | the body is always left read and closed. A read error is returned with no response. Without a marker, there is no response and no error. With one, a fresh response comes back with the original status and request, the body with every marker replaced by the hook, and headers equal to `Content-Type` followed by every original value. Its third result, `raw` (the text read), is an addition of the model: the source returns only the error and the response, and the as-written stage ignores `raw` |
| `ProxyFilters.HttpProxy.CopyHeaders` | modules/http_proxy_base_filters.go:111-115 | after the nested loop over keys (in any order) and values, the header equals `AddedAll` of the old header and the source |
| `HeaderPolicy.AddedAllKeepsValues` | modules/http_proxy_base_filters.go:111-115 | every key with values is present afterwards; existing values come first; every copied value follows in its original order |
| `HeaderPolicy.InjectedHeaders` | modules/http_proxy_base_filters.go:110-115 | in the injected response, `Content-Type` holds the new type followed by the original values; every other key holds exactly its original values; keys with no values are not copied |
| `ProxyFilters.HttpProxy.InjectOrPassAsWritten` | modules/http_proxy_base_filters.go:145-154 | the injection stage as written. An ineligible response passes untouched. An eligible, readable body with a marker gives the injected response. An eligible page without a marker passes with its body drained. An eligible response always leaves with its body read and closed, whether the read failed, no marker was found or a new response was built; an ineligible one keeps its body |
| `ProxyFilters.HttpProxy.InjectOrPass` | modules/http_proxy_base_filters.go:145-154 | the same stage with the read text restored as the body when nothing is injected; when a new response is built, the original's body is left read and closed; the original leaves with a changed body only when that body could not be read |
| `ProxyFilters.HttpProxy.OnRequestFilter` | modules/http_proxy_base_filters.go:23-53 | headers are sanitized before anything else; a stripper redirect wins without consulting the script; with no script the request passes; a script-rewritten request wins over a script response; exactly one event is appended on either script rewrite and none otherwise |
| `ProxyFilters.HttpProxy.OnResponseFilter` | modules/http_proxy_base_filters.go:123-155 | a nil response gives nil with no change and no events. Otherwise the headers are sanitized, then patched by the stripper. A script response is returned after one `spoofed-response` event, with injection skipped. Without one, the corrected injection stage decides, the original's body is left read and closed whenever an injected response is returned, and no event is appended |
| `ProxyFilters.HttpProxy.LogRequestAction` | modules/http_proxy_base_filters.go:157-171 | appends one `<name>.spoofed-request` event. It holds the client address before its first `:`, and the new request's method, host name, path and body length |
| `ProxyFilters.HttpProxy.LogResponseAction` | modules/http_proxy_base_filters.go:173-187 | appends one `<name>.spoofed-response` event. It holds the client address before its first `:`, the original request's method, host and path, and the new body's length |
| `Text.FirstField` | modules/http_proxy_base_filters.go:165 | the result is a prefix of the address without `:`, followed in the address by `:` or by nothing |
| `Text.FirstFieldBeforeSeparator` | modules/http_proxy_base_filters.go:181 | the first field of `a:b` is `a` whenever `a` has no `:` |
| `FilterScenarios.ClientHostOfAddress` | modules/http_proxy_base_filters.go:165 | the audit address of client `1.2.3.4:9999` is `1.2.3.4` |
| `FilterScenarios.SpoofedRequestScenario` | modules/http_proxy_base_filters.go:157-171 | a rewritten `POST evil.test/x` request with a five-byte body, from client `1.2.3.4:9999`, is recorded as `{1.2.3.4, POST, evil.test, /x, 5}` |
| `FilterScenarios.HookReplacesHeadEnd` | modules/http_proxy_base_filters.go:109 | with hook `<script>1</script></head>`, the page `<html><head></head><body></body></html>` becomes `<html><head><script>1</script></head><body></body></html>` |
| `FilterScenarios.MissingMarkerAsWritten` | modules/http_proxy_base_filters.go:96-120 | an HTML page `<p>hi</p>` without `</head>` leaves the as-written injection stage with its body drained |
| `FilterScenarios.MissingMarkerCorrected` | modules/http_proxy_base_filters.go:145-154 | the same page leaves the corrected injection stage with its body intact |

## Findings

| source | as written | input that shows it | evidently intended | confidence | as-written member | corrected member |
|---|---|---|---|---|---|---|
| modules/http_proxy_base_filters.go:96-120, 145-154 | `doScriptInjection` reads the whole body and, through the deferred `Close`, closes it on every path. When the page has no `</head>`, `onResponseFilter` then returns the original response, whose body is already consumed and closed | an eligible response: `Content-Type: text/html`, body `<p>hi</p>`, non-empty hook | a page without a marker passes through with its body unchanged; the read text is put back as the body | not executed; high | `ProxyFilters.HttpProxy.InjectOrPassAsWritten` (exhibited by `FilterScenarios.MissingMarkerAsWritten`) | `ProxyFilters.HttpProxy.InjectOrPass` (used by `OnResponseFilter`) |

The model's `DoScriptInjection` also hands back the text it read (`raw`).
The source's `doScriptInjection` returns only the error and the response.
`raw` exists for the corrected stage, which uses it to restore the body;
the as-written stage ignores it. When the body could not be read at all, both stages let the response
go on with a closed body, since no text is available to put back.

## Left out

- `ProxyFilters.HttpProxy.GetHeader`: promises the first value of some matching key, not of one key in particular. When several spellings of the name are present, which key the source reaches first depends on Go's unspecified map iteration order, and the model iterates keys in an arbitrary order too.
- `ProxyFilters.HttpProxy.OnResponseFilter`: uses the corrected injection stage (see Findings). The as-written stage is `InjectOrPassAsWritten`.
- Logging and terminal colouring (`log.Debug`, `log.Info`, `log.Error`, `tui`, lines 24, 102-107, 129, 148): observability only.
- Body I/O: reading a body is its `BodyRead` value, and closing it is the `Drained` state. Stream timing and partial reads are not modelled.
- Script, stripper and conversion internals (`OnRequest`, `OnResponse`, `ToRequest`, `ToResponse`, `Preprocess`, `Process`): these are a JavaScript engine and an external module. They are function-valued parameters. `Process` is an arbitrary replacement of the headers and body. `Preprocess` and the script callbacks are taken not to change the message they are shown. The response script is shown the request's method, host, path and address but not the request's headers.
- `goproxy.NewResponse` internals: taken to yield a response whose only header is the given `Content-Type`. Its `ContentLength` field is not modelled.
- Canonicalisation of header keys inside `Del`, `Set` and `Add`: keys are taken to be canonical already. The one non-canonical argument in the file, `Del("X-WebKit-CSP")` at line 63, is written in the canonical form `X-Webkit-Csp` that Go's `Del` turns it into.
- `strings.ToLower` beyond ASCII: `Lower` maps only `A`-`Z`.
- Sizes in audit records count characters. Go's `len` counts UTF-8 bytes, so the two agree only on ASCII text.
- The `goproxy.ProxyCtx` argument: the filters pass it on to the stripper only, and the stripper is opaque here.
- Concurrency across connections and the event sink's thread safety: each filter call is modelled as one sequential step.
