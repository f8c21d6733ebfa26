# Webhook notifier: batching engine and round-robin sender

This project models the two deterministic parts of a Go webhook notifier library.

**The immediate sender `notify`** (notifier.go) keeps a pool of webhook tokens.
- Each message picks a token round-robin with a fetch-and-increment counter. The counter is reset to 0 once the fetched value reaches 100 times the pool size.
- The message gets an optional `"[identity] "` tag in front and goes out as one HTTP exchange.
- An empty pool gives the error "no webhook url" and no request is made.
- Building the request, the transport and the status code each map to an error. Only a 200 response succeeds.

**The batching engine `delayNotify`** (delay_notifier.go) wraps a sender.
- `SendMessage` only queues the text in a bounded inbox of capacity 1000.
- A collection cycle (`sendCollectedMessages`) does nothing when the inbox is empty. Otherwise it:
  - drains the whole inbox;
  - drops repeated texts, keeping first occurrences in arrival order;
  - cuts the batch into groups of at most `maxMessages` (via `groupInMax` and the start/end slicing);
  - hands each group, joined with the separator, to the wrapped sender.
- A failed payload is only logged, and the remaining payloads are still sent.
- `Close` runs one final cycle and seals the inbox.
- The defaults are:
  - separator: the 7-character text backslash, `n`, `===`, backslash, `n`;
  - `maxMessages`: 5;
  - collection period: 500 ms.

Layout:
- `wrappers.dfy`: `Option`.
- `arith.dfy`: small integer facts.
- `go_strings.dfy`: `strings.Join`.
- `collect.dfy`: the deduplication the drain loop performs.
- `grouping.dfy`: `groupInMax`, with a recursive reference chunking to prove it against.
- `notifier.dfy`: the selector, the identity tag and the class `Notify`.
- `delay_notifier.dfy`: the class `DelayNotify`.

How the two classes fit together:
- Both are Dafny classes whose methods update their fields in place.
- Every cycle is one atomic step.
- `DelayNotify` keeps a ghost trace `sent` of every payload it handed to the wrapped sender. The cycle's contract states that trace exactly, as `Payloads(Dedup(old inbox), maxMessages, sep)`. The lemmas then relate `Payloads` to the groups, their count and their slices.

Outside code is passed in rather than modelled:
- `fmt.Sprintf` applied to a user template stands for a function parameter `sprintf`.
- The result of one HTTP exchange is a parameter `Outcome`: the request could not be built, the transport failed, or some status code came back.
- A cycle takes one outcome per payload, `outcomes(i)`.

Closing and non-positive group sizes:
- `Close` closes the message channel after the final cycle (delay_notifier.go:166), so queuing afterwards panics on the send to a closed channel. A second `Close` panics on `close(n.done)` (delay_notifier.go:164). The model makes `!closed` a precondition of both.
- `maxMessages <= 0` is modelled as written:
  - with 0, `groupInMax` returns one group while the send loop slices `[0, 0)`, so exactly one empty payload is sent;
  - with a negative value there are no groups, and the drained batch is sent nowhere.

## Model

| member | source | states |
|---|---|---|
| Collect.Dedup | delay_notifier.go:100-112 | the collected batch holds exactly the queued texts, each once (Distinct), and is no longer than the inbox |
| Collect.DedupOrder | delay_notifier.go:104-108 | entries of the batch appear in the order of their first occurrence in the inbox |
| Collect.DedupOrderAt | delay_notifier.go:104-108 | for any two positions i < j of the batch, entry i first occurs in the inbox before entry j |
| Collect.DedupOfDistinct | delay_notifier.go:104-108 | an inbox without repeats is collected unchanged |
| Collect.DedupIdempotent | delay_notifier.go:100-112 | collecting an already collected batch changes nothing |
| Collect.DedupBurst | delay_notifier.go:100-112 | a burst a, b, a, b, b of two different texts is collected as a, b |
| Collect.FirstIndex | delay_notifier.go:104-105 | the first position of a text in the inbox: it holds the text and no earlier position does |
| Collect.FirstIndexPrefix | delay_notifier.go:104-105 | a text that occurs in a prefix first occurs at the same position in the whole inbox |
| DelayNotifier.DedupStep | delay_notifier.go:104-108 | when the seen set holds exactly the texts collected so far, one received text extends the batch by that text if the seen set does not hold it, and leaves it unchanged if it does |
| GoStrings.Join | delay_notifier.go:127 | joining no parts gives ""; otherwise the result starts with the first part and has the parts' total length plus one separator between each pair of neighbours |
| GoStrings.JoinAppend | delay_notifier.go:127 | joining two non-empty lists puts exactly one separator between their joins |
| Grouping.CeilQuotient | delay_notifier.go:147 | q is the ceiling of a / b for positive b: (q - 1) * b < a <= q * b; the mirrored bounds for negative b |
| Grouping.CeilUnique | delay_notifier.go:147 | the ceiling is unique: two values meeting the ceiling bounds are equal |
| Grouping.Chunks | delay_notifier.go:150-158 | reference chunking: concatenating the chunks gives back the input |
| Grouping.ChunksSizes | delay_notifier.go:150-158 | every chunk has between 1 and size entries, and every chunk but the last has exactly size |
| Grouping.ChunksBounds | delay_notifier.go:147-151 | the number n of chunks satisfies (n - 1) * size < len <= n * size |
| Grouping.ChunksCount | delay_notifier.go:147 | the number of chunks is the ceiling of len / size |
| Grouping.ChunksAt | delay_notifier.go:151-156 | chunk k is the slice [k * size, min(k * size + size, len)) of the input |
| Grouping.GroupCount | delay_notifier.go:137-147 | the number of groups: 0 for empty input, 1 when max is 0, 0 for negative max, and the ceiling of len / max for max >= 1 |
| Grouping.Groups | delay_notifier.go:134-160 | for max >= 0 the groups concatenate back to the input |
| Grouping.GroupsPartition | delay_notifier.go:134-160 | for max >= 0 the groups concatenate to the input and none is empty |
| Grouping.GroupsSizes | delay_notifier.go:150-158 | for max >= 1 every group has at most max entries and all but the last exactly max |
| Grouping.GroupsCount | delay_notifier.go:137-147 | the number of groups is GroupCount of the input length |
| Grouping.GroupsCeil | delay_notifier.go:147 | for max >= 1 the number of groups is the integer ceiling of len / max |
| Grouping.GroupsAt | delay_notifier.go:121-126 | for max >= 1, group i is the slice [i * max, min(i * max + max, len)) that the send loop cuts |
| Grouping.SliceBounds | delay_notifier.go:121-126 | for every round i the send loop's bounds satisfy 0 <= start <= end <= len; a round exists only for max >= 0 |
| Grouping.ChunksStep | delay_notifier.go:151-157 | one round of the groupInMax loop appends the next reference chunk, between the advancing start and end |
| Grouping.GroupInMax | delay_notifier.go:134-160 | returns the groups: none for empty input; the input itself when it fits or max is 0; otherwise consecutive non-empty chunks that concatenate to the input, at most max long, all but the last exactly max |
| DelayNotifier.Zeros | delay_notifier.go:120 | the placeholder slice make([]int, n) has length n |
| DelayNotifier.RoundCount | delay_notifier.go:120-121 | the number of send rounds is the number of groups groupInMax returns for the batch length |
| DelayNotifier.PayloadAt | delay_notifier.go:122-127 | for max >= 1 payload i is group i of the batch joined with sep |
| DelayNotifier.Payloads | delay_notifier.go:120-127 | a cycle sends one payload per group |
| DelayNotifier.PayloadSlice | delay_notifier.go:121-127 | payload i is the batch slice [i * max, min(i * max + max, len)) joined with sep, and those bounds are in range |
| DelayNotifier.PayloadRound | delay_notifier.go:122-127 | the start and end the send loop computes in round i cut out exactly payload i |
| DelayNotifier.PayloadsAreJoinedGroups | delay_notifier.go:120-127 | for max >= 1 payload i is the i-th group of groupInMax joined with sep, one payload per group |
| DelayNotifier.SmallBatchOnePayload | delay_notifier.go:142-143 | a batch that fits in one group goes out as one payload holding all of it |
| DelayNotifier.TwelveMessagesThreeGroups | delay_notifier.go:120-127 | with max 5, twelve messages go out as three payloads of 5, 5 and 2 |
| DelayNotifier.ZeroMaxSendsEmptyPayload | delay_notifier.go:120-127 | with max 0, groupInMax returns the whole batch as one group, and the cycle sends exactly one empty payload |
| DelayNotifier.NegativeMaxSendsNothing | delay_notifier.go:142-158 | with a negative max there are no groups and no payloads |
| DelayNotifier.DelayNotify.constructor | delay_notifier.go:33-47 | defaults: the 7-character separator, 5 messages per group, 500 ms period, empty inbox, fresh sender with counter 0, no identity, method POST, a JSON content-type header and the default client |
| DelayNotifier.DelayNotify.SetSep | delay_notifier.go:50-53 | overwrites only the separator |
| DelayNotifier.DelayNotify.SetCollectFreq | delay_notifier.go:56-59 | overwrites only the collection period |
| DelayNotifier.DelayNotify.SetMaxMessages | delay_notifier.go:62-65 | overwrites only the group size |
| DelayNotifier.DelayNotify.SendMessage | delay_notifier.go:67-70 | only appends the text to the inbox and returns no error; it requires a non-full inbox of an open engine |
| DelayNotifier.DelayNotify.Drain | delay_notifier.go:100-112 | the inbox ends empty and the result is Dedup of what was queued |
| DelayNotifier.DelayNotify.SendCollectedMessages | delay_notifier.go:91-132 | an empty inbox changes nothing; otherwise the inbox ends empty; whatever the exchange outcomes, the payloads Payloads(Dedup(old inbox), maxMessages, sep) are appended to the trace in order; the counter advances once per payload |
| DelayNotifier.DelayNotify.SendBatch | delay_notifier.go:120-131 | every payload of the batch is handed to the sender in increasing order, a failure not stopping the rest; the counter advances once per payload |
| DelayNotifier.DelayNotify.SendRound | delay_notifier.go:121-130 | round i hands payload i of the batch to the wrapped sender and records it; the counter advances once; the error is "no webhook url" for an empty URL, else the outcome's error |
| DelayNotifier.DelayNotify.Close | delay_notifier.go:163-168 | runs exactly one final cycle over what is queued, then seals the engine and returns no error |
| DelayNotifier.BurstQueued | delay_notifier.go:67-70 | five SendMessage calls queue the burst a, b, a, b, b in arrival order |
| DelayNotifier.BurstOneCycle | delay_notifier.go:91-132 | one cycle over the burst a, b, a, b, b empties the inbox and sends the single payload a + sep + b |
| DelayNotifier.CloseFlushes | delay_notifier.go:82-85 | closing an engine holding one queued text sends that text in the final cycle, empties the inbox and seals the engine |
| Notifier.NextCounter | notifier.go:59-66 | an empty pool leaves the counter alone; otherwise the counter stays within [0, 100 * N] |
| Notifier.NextCounterModular | notifier.go:63-66 | within its bound one selection adds 1 to the counter modulo 100 * N + 1 |
| Notifier.Picks | notifier.go:63-68 | k selections choose k token indices, each below the pool size |
| Notifier.Steps | notifier.go:59-66 | over any number of sequential selections an empty pool never moves the counter, and a counter within [0, 100 * N] stays there |
| Notifier.PicksAt | notifier.go:63-68 | selection j uses the counter value before its own increment: the value after j selections, mod N |
| Notifier.StepsShift | notifier.go:63-66 | one selection followed by k more is the same as k + 1 selections |
| Notifier.FreshSteps | notifier.go:63-66 | from a fresh selector the counter after k selections is k mod (100 * N + 1) |
| Notifier.FreshSelection | notifier.go:63-68 | from a fresh selector selection k picks token (k mod (100N + 1)) mod N, which is k mod N for k up to 100 * N |
| Notifier.ResetRepeatsFirstToken | notifier.go:64-68 | at the reset point (idx = 100 * N) the selection picks token 0, and the next selection picks token 0 again |
| Notifier.StepsBelowReset | notifier.go:63-66 | below the reset point every selection increments the counter by one |
| Notifier.Rotation | notifier.go:68 | the rotation of the pool starting at token r lists every token index exactly once |
| Notifier.RotationMod | notifier.go:68 | the rotation starting at c mod N lists (c + j) mod N for j = 0 .. N - 1 |
| Notifier.WindowPick | notifier.go:63-68 | selection j of a window of N selections below the reset point picks token (c + j) mod N |
| Notifier.RoundRobinWindow | notifier.go:63-68 | N consecutive selections at or below the reset point visit every token exactly once, in registration order, starting at token c mod N |
| Notifier.ThreeTokensNineSelections | notifier.go:63-68 | with three tokens, nine selections from a fresh selector go 0, 1, 2, 0, 1, 2, 0, 1, 2 |
| Notifier.WithIdentity | notifier.go:78-80 | an empty identity leaves the text unchanged; otherwise the text is "[" + identity + "] " followed by the message |
| Notifier.IndexOf | notifier.go:79 | the first position at or after i that holds the given character, or none |
| Notifier.IdentityRoundTrip | notifier.go:78-80 | the identity tag can be read back: a non-empty identity without ']' and the original message are recovered from the sent text |
| Notifier.OutcomeError | notifier.go:82-99 | SendMessage returns no error exactly when the exchange responded with status 200 |
| Notifier.Notify.constructor | notifier.go:31-40 | POST, a JSON content-type header, the default client, the given templates and tokens, counter 0 and no identity |
| Notifier.Notify.SetClient | notifier.go:43-45 | overwrites only the client |
| Notifier.Notify.SetIdentity | notifier.go:48-50 | overwrites only the identity |
| Notifier.Notify.SetRequestConfig | notifier.go:53-56 | overwrites only the method and the headers |
| Notifier.Notify.UrlAt | notifier.go:59-68 | for counter value c: "" for an empty pool, else the URL template applied to the token the next selection picks |
| Notifier.Notify.GetWebhookUrl | notifier.go:58-69 | an empty pool gives "" and leaves the counter alone; otherwise it formats tokens[idx mod N], where idx is the counter before the increment, and advances the counter by NextCounter, keeping it within [0, 100 * N] |
| Notifier.Notify.SendMessage | notifier.go:72-102 | an empty URL gives "no webhook url" and no request; otherwise the request carries the method, URL, headers and client, with the identity-tagged text formatted as the body; the error is the exchange outcome's, with no request when building failed |

## Left out

- The goroutine, ticker, `select` loop, `sync.WaitGroup`, mutex and atomic operations (delay_notifier.go:44-45, 73-88, 92-93; notifier.go:63-65) are not modelled. Each cycle and each selection is one atomic sequential step, and the collection period is only a stored setting. As a result, `SetCollectFreq` after construction is modelled as a plain field write. In Go that write races with the worker goroutine, which reads `collectFreq` when it creates the ticker (delay_notifier.go:75) at a moment the constructor does not wait for (delay_notifier.go:45).
- The HTTP layer is not modelled: request building, the headers loop, `client.Do` and closing the response body (notifier.go:82-99). The exchange is an opaque `Outcome` parameter, and `Request` is only a record of what would be handed to `client.Do`.
- `fmt.Sprintf` with user templates is a function parameter, because it is foreign formatting. Only the identity tag's fixed `"[%s] %s"` template is written out.
- `log.Println` for failed payloads (delay_notifier.go:129) is not modelled. The error is computed and then dropped, as in the code.
- Go strings are byte strings; the model uses `seq<char>`. The lengths stated for `GoStrings.Join` and `Notifier.WithIdentity` therefore count characters, which equal bytes only for single-byte text.
- `context.Context`, which only reaches the HTTP layer, is not modelled.
- A full inbox blocks the caller in Go. `DelayNotify.SendMessage` instead requires a non-full inbox.
- Sealing is modelled by preconditions. Queuing after `Close` and a second `Close` panic in Go; `DelayNotify.SendMessage` and `DelayNotify.Close` instead require `!closed`. Messages queued concurrently with the final cycle are out of scope, because the model has no concurrency.
- Notifier.Notify.GetWebhookUrl: does not model the uint64 wrap-around of the counter. With the reset at 100 * N the counter never gets near it in sequential use.
- Grouping.CeilQuotient: is the exact integer ceiling, not `math.Ceil` on float64. The two agree for every length a slice can have.
- The setters the engine inherits by embedding (`SetClient`, `SetIdentity`, `SetRequestConfig`) are reached through the engine's `inner` sender instead of being repeated on `DelayNotify`.
- lark/notifier.go and qyweixin/notifier.go are one-line wrappers that build a URL and a JSON template through an older constructor. They are not part of this model.
- The test files are not part of this model. They need real tokens and network access and assert nothing.
