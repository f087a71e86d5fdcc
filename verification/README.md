# REST data export bridge: a Dafny model of its decision logic

The REST data export service bridges a message bus to HTTP. One task per
configured subscriber listens on the first of that subscriber's topics. Each
received metadata event is
tagged with its topic and stored as the single shared "last-seen" metadata.
When the fetch method is `POST`, the event is also forwarded to the topic's
configured endpoint. Before each POST the forwarder blocks on a readiness
probe that dials the endpoint until a TCP connection succeeds. A small HTTP
server serves `/metadata` (the last-seen event as JSON) and `/image` (one
blob fetched from the image store by handle).

This project models that logic as pure functions over immutable data:

- `Text`: Go's `strings.Replace(s, old, new, 1)` as `ReplaceFirst`, and
  `strings.Split` on a one-character separator as `Split`. `Join` is the
  inverse of `Split`.
- `Endpoint`: the endpoint looked up per topic, the probe address (first
  `"http://"` removed) and the POST URL. In secured mode the POST URL has its
  first `"http"` rewritten to `"https"`.
- `Forwarder`: the readiness loop over a sequence of dial outcomes, and the
  actions of one `postMetaData` call (dials, sleeps, close, the POST).
- `Subscriber`: one receive step on the state (last-seen metadata, outbox of
  forwarder calls), and runs over an ordered sequence of deliveries from all
  topics. Also covered: task setup failure, and a task that stalls for good
  in the probe of a message whose endpoint never answers.
- `Server`: the `/metadata` and `/image` handlers, query parsing and the
  image-store result selection.
- `Bridge`: how the last-seen slot the tasks write is what `/metadata` serves.

Two behaviours of the code are easy to misread. In both, the model follows
the code:

- A query with more than one `=` does not fail. `strings.Split` yields more
  pieces, and only the first two are read.
- A failed image-store exchange yields status 200 with an empty body.
  However, a response that carries no blob makes `resp.Blob[0]` panic. So does
  a query with no `=`. Both are modelled as an aborted handler (`Aborted`):
  net/http recovers the panic and drops the connection.

Some behaviour of the code as written is stated as lemmas:

- An endpoint configured as `https://...` would be posted to `httpss://...` in
  secured mode. Its probe address keeps the scheme, so it cannot be dialled,
  and the task stalls in the probe (`SecuredRewriteOfHttpsEndpoint`).

## Model

| member | source | states |
|---|---|---|
| Text.IndexOf | RestDataExport.go:275-278 | the located index is the leftmost occurrence of the pattern, and none is found exactly when the pattern does not occur |
| Text.ReplaceFirst | RestDataExport.go:275-278 | a count-one replace is the identity when the pattern is absent; otherwise exactly the leftmost occurrence is replaced and every other character is kept in place |
| Text.ReplaceFirstAt | RestDataExport.go:275-278 | splitting the input at its first occurrence as pre + pattern + post, the result is pre + replacement + post |
| Text.Split | RestDataExport.go:427 | splitting on '=' yields one more piece than there are '=' characters |
| Text.SplitPiecesExcludeSeparator | RestDataExport.go:427 | no piece of a split on '=' contains '=' |
| Text.JoinSplit | RestDataExport.go:427 | the pieces rejoined with '=' give back the raw query |
| Text.SplitJoin | RestDataExport.go:427 | splitting a join of '='-free pieces gives back exactly those pieces |
| Text.SplitAround | RestDataExport.go:427 | the pieces of a + '=' + b are the pieces of a followed by the pieces of b |
| Endpoint.EndpointOf | RestDataExport.go:274 | the endpoint is the topic's configured value; a topic without an entry renders as "<nil>" |
| Endpoint.DialAddress | RestDataExport.go:275 | the probe address is the un-rewritten endpoint with only its first "http://" removed, and it does not depend on the mode |
| Endpoint.PostUrl | RestDataExport.go:276-279 | in development mode the target is the endpoint plus "/metadata"; in secured mode only the first "http" becomes "https", the rest is unchanged, and without "http" the endpoint is unchanged |
| Endpoint.PlainEndpoint | RestDataExport.go:274-279 | for "http://rest" the probe dials rest, development mode posts to "http://rest/metadata" and secured mode to "https://rest/metadata" |
| Endpoint.SecuredRewriteOfHttpsEndpoint | RestDataExport.go:275-278 | an endpoint already "https://rest" would be posted to "httpss://rest/metadata" in secured mode; its probe address keeps the scheme, cannot be dialled, and the task stalls in the probe |
| Forwarder.FirstConnected | RestDataExport.go:283-295 | the probe's first success is at a Connected outcome preceded only by refusals, and there is none exactly when no dial succeeds |
| Forwarder.WaitUntilReachable | RestDataExport.go:282-295 | the loop stops after the first successful dial, making attempts equal to its 1-based position, or uses every outcome when none succeeds; it sleeps once per refused attempt; its attempts and sleeps are the dials and sleeps of the probe's action trace |
| Forwarder.ProbeTrace | RestDataExport.go:282-295 | the probe's actions number two per refused dial (dial, sleep) plus two for a success (dial, close) |
| Forwarder.ProbeNeverPosts | RestDataExport.go:282-295 | the probe never posts |
| Forwarder.ProbeDialsOnlyAddress | RestDataExport.go:282-295 | every dial of the probe goes to the probe address |
| Forwarder.ProbeSleepsAfterRefusal | RestDataExport.go:282-295 | every refused dial is directly followed by a sleep |
| Forwarder.ProbeEndsWithSuccess | RestDataExport.go:282-295 | the probe ends with a successful dial and its close exactly when some dial succeeds |
| Forwarder.ProbeTraceCounts | RestDataExport.go:282-295 | the probe makes one refused dial and one sleep per refusal, and one successful dial and one close iff some dial succeeds |
| Forwarder.PostMetaData | RestDataExport.go:262-349 | a call whose probe succeeds ends with the POST of the unchanged body to the resolved URL, with the credential-bundle TLS client iff not in development mode; a call whose probe never succeeds posts nothing |
| Forwarder.PostFollowsFirstSuccess | RestDataExport.go:282-304 | a POST happens iff some dial succeeds; it is the last action and directly follows the successful dial and close; it carries the body to the resolved URL, with the credential-bundle TLS client iff not in development mode |
| Subscriber.Tag | RestDataExport.go:250 | the tagged event has key "topic" set to the topic and every other key unchanged |
| Subscriber.Step | RestDataExport.go:245-257 | a message becomes last-seen in tagged form and that same map is forwarded iff the fetch method is "POST"; an error item leaves the state unchanged |
| Subscriber.Run | RestDataExport.go:245-258 | handling deliveries in order only appends to the outbox, and never in any mode other than POST |
| Subscriber.Handled | RestDataExport.go:245-254 | a running task handles its arrivals in order under its topic; none before the last handled one stalls, and it stops short only right after one that stalls (a POST-mode message whose probe never connects) |
| Subscriber.Subscribe | RestDataExport.go:232-254 | a task whose bus client or subscriber cannot be created contributes no deliveries; otherwise it handles its arrivals in order, all of them when none stalls, and nothing after the first that stalls |
| Subscriber.StalledTaskStopsHandling | RestDataExport.go:252-253 | in POST mode, when the k-th arrival is the first whose probe never succeeds, exactly k + 1 messages are handled and the stalled message stays last-seen |
| Subscriber.ErrorsChangeNothing | RestDataExport.go:255-256 | a run of error items changes neither the last-seen metadata nor the outbox |
| Subscriber.LastWriterWins | RestDataExport.go:250-251 | after a run over interleaved topics, last-seen is the tagged form of the last message |
| Subscriber.RunOutbox | RestDataExport.go:250-254 | the outbox grows by exactly the tagged messages, in order, in POST mode, and not at all otherwise |
| Subscriber.ForwardedIsLastSeen | RestDataExport.go:250-254 | in POST mode the latest forwarded body is the very map stored as last-seen |
| Subscriber.FailedSetupChangesNothing | RestDataExport.go:232-243 | a task whose setup failed leaves the shared state unchanged |
| Subscriber.Deliver | RestDataExport.go:253-304 | the forwarder call for a queued body ends with its POST to the topic's resolved URL, with the credential-bundle TLS client iff not in development mode, when the probe succeeds, and posts nothing otherwise |
| Subscriber.ForwardExample | RestDataExport.go:250-304 | {"a": 1} on topic "foo" is forwarded as {"a": 1, "topic": "foo"} to the POST URL of foo's endpoint after a successful probe |
| Server.WireStatus | RestDataExport.go:390-396 | the client receives the status the handler wrote, or 200 when it wrote none |
| Server.HandleMetadata | RestDataExport.go:384-396 | only GET writes status 200 and the JSON of the last-seen metadata; other methods get the default 200 with an empty body; the content type is always "text/json" |
| Server.ParseImageQuery | RestDataExport.go:427-431 | parsing fails exactly when the query has no '=', and a parsed handle never contains '=' |
| Server.ParseKeyValue | RestDataExport.go:427-431 | for "key=rest" the handle is rest up to its next '=' when the key is "img_handle", and empty otherwise |
| Server.ParseHandleQuery | RestDataExport.go:427-431 | the query "img_handle=h" yields the handle h |
| Server.TrailingPiecesIgnored | RestDataExport.go:427-431 | pieces after the second do not change the parsed handle |
| Server.ReadCommand | RestDataExport.go:403 | the read command has exactly the keys "command" and "img_handle", with "read" and the handle |
| Server.ReadImage | RestDataExport.go:400-417 | a failed request or response yields no bytes; otherwise the result is the first blob of the response for the read command, and a blob-less response panics |
| Server.HandleImage | RestDataExport.go:420-439 | GET without '=' aborts; POST answers "Received a POST request"; other methods answer the unsupported notice; every reply has the image content type and status 200 |
| Server.ImageProxy | RestDataExport.go:425-434 | a GET whose query contains '=' asks the store for the parsed handle and returns status 200 with exactly the store's first blob, status 200 with an empty body when the exchange fails, or aborts when no blob comes back |
| Server.ForeignKeyAsksEmptyHandle | RestDataExport.go:427-432 | a query "k=v" whose key is not "img_handle" is handled as the query "img_handle=", asking the store for the empty handle |
| Server.NonGetIgnoresStore | RestDataExport.go:424-439 | only GET consults the image store |
| Bridge.MetadataServesLastMessage | RestDataExport.go:384-393 | GET /metadata serves the tagged form of the most recent message, whichever topic it came on |
| Bridge.MetadataBeforeAnyMessage | RestDataExport.go:384-393 | before any message, GET /metadata serves the nil map |

## Left out

- Configuration loading, schema validation and config-manager calls (`init`, RestDataExport.go:66-227) come from foreign libraries. This includes starting one task per subscriber with only the first of its topics.
- TLS material: certificate pools, `tls.X509KeyPair` and writing the certificate and key files. This is crypto and filesystem work. The model keeps only whether the POST uses the credential-bundle TLS client.
- Dial outcomes are inputs, not tied to the address's syntax. In the code only a bare host:port can ever connect, so an address that keeps its scheme always fails.
- Server binding and timeouts (`restExportServer`) and `main` are network plumbing.
- Real I/O is not modelled. TCP dials, HTTP requests, bus subscriptions and image-store exchanges are abstract inputs: dial outcomes, `Event`s, `Setup` and a `RoundTrip` function.
- The POST's response is only logged, so it is not modelled. Sleep durations, timeouts, glog output and md5 logging are left out too.
- JSON serialisation is not modelled. The forwarded body and the `/metadata` body are the metadata map itself. A marshalling error, which the code only logs, is not modelled.
- Endpoint.EndpointOf: configuration values are taken already rendered by `%v`; how Go renders non-string values is not modelled.
- Goroutines are not modelled. The unsynchronised writes to the last-seen slot are taken as one ordered sequence of deliveries, so the last writer wins.
- Subscriber.Step: the fetch-method environment variable is read once as a parameter. The code reads it for every message.
- Forwarder.WaitUntilReachable: the outcome sequence is finite. When no dial in it succeeds, the model reports the endpoint as not present and no POST is made, whereas the code would go on dialling forever. The effect on the task is modelled by `Subscriber.Subscribe`, which handles nothing after such a message.
- Subscriber.Step: the outbox records every call of the forwarder, including one whose probe never succeeds and so never returns.
- Server.ReadImage: an image-store requester that was never created (no client configured) is not modelled, since the requester is foreign code.
- Strings are sequences of Unicode characters rather than Go's byte strings. Every pattern the code looks for ("http://", "http", '=') is ASCII, so it is found at the same positions either way.
- JSON numbers are modelled as integers, because no operation computes on them.
- etcd_update.py is a configuration-store script driven entirely by I/O.
