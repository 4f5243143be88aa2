# Verified model of the data service core

This project models the parts of the data service where correctness is hardest to see from the
code, and proves what they are for.

* **The read-query compiler.** An endpoint specification and a request become SQL text and an
  ordered list of bind values. Fragments are chosen and substituted, then a byte scanner lowers
  `:name` to `$N`. For ClickHouse either the query IR is printed with `?` binds and a PREWHERE split,
  or a second scanner turns `$N` and its cast into `?`. The model has the scanners as loops, the
  printer as methods that append to a shared value list, independent readers of the printed
  characters and tokens, and an arbitrary engine on which statements run.
* **The response cache.** Writers, invalidations and readers interleave freely over an in-process
  tier and Redis. A body is the database version it was computed from for freshness, and real bytes
  with a tag and timestamps for age.
* **The LLM router.** Configuration becomes interned backend handles, a request orders them and
  tries them under in-flight guards and circuit breakers, may overflow to OpenRouter, and a hedged
  stream task races two upstreams.
* **Admission and time.** The fixed-window rate limiter over whole traces, the concurrency limiter
  as separate atomic steps of any number of threads, and the conversion of day numbers to dates.

A character of a `string` stands for one byte wherever the program works on bytes. Concurrent
code is a state machine over its atomic steps: a run is any sequence of steps, and a step that does
not apply changes nothing, so the theorems hold for every interleaving. Where the program keeps
state in an object, a class refines the functions the theorems are about.

Verify with `dafny verify dfyconfig.toml`.

## What the proofs found

Statements that hold only under a condition carry that condition as an equivalence or with a
lemma that shows the failing family.

* A `$` in front of a digit in an author's SQL is read by Postgres as one of the binds
  (`BindLaws.PgNumberingExact`), and an author's own `::int8` or `::float8` right behind a
  non-numeric bind is lost on the way to ClickHouse (`BindLaws.ScannersAgree`).
* A `?` in any verbatim text of a query, for example inside a string literal, takes a value that
  belongs to a bind (`ChMarks.PositionsExact`).
* The cache key identifies the query among requests no value of which contains `&`, a parameter name
  that sorts after its own parameter's, and `=` (`ResolveLaws.KeyDeterminesQuery`). Where parameters
  are optional texts, every request that does not meet this shares its key with one that does and
  binds other values (`ResolveLaws.SettledExact`), and a request has its key to itself only if it
  sends at most one parameter (`ResolveLaws.AloneExact`). A specification that uses one name for a
  path and a query parameter collides as well (`ResolveLaws.SharedNameCollides`).
* A process that restarts over a Redis holding entries of later generations can serve a body that
  misses an invalidated write, and only such a process can (`ReadCache.FreshExactly`); the module
  comment of `crates/platform/src/read/cache.rs` lists surviving restarts as a feature of that tier.
* A cached body can be served almost a whole Redis expiry past its time-to-live
  (`CacheAge.BoundIsTight`).
* The `*` form of If-None-Match is treated as a tag (`CacheBodies.WildcardIgnored`), and a weak tag
  `W/"<digest>"` does not match (`CacheBodies.WeakTagMissed`). Together with headers outside visible
  ASCII these are all the fields that section 13.1.2 of RFC 9110 would answer otherwise
  (`CacheBodies.RfcExact`).
* The comment at `crates/platform/src/handlers/llm.rs:961-974` wants a client that left noticed on
  every tick. The drain has no tick: it holds its in-flight slot until the hedge sends or ends
  (`HedgedStream.TickNotices`, `HedgedStream.DrainLeaver`, `HedgedStream.SilentHedgeHoldsSlot`).
* The hedged stream never mixes data chunks. The comment at
  `crates/platform/src/handlers/llm.rs:846-847` says that only keepalives have reached the client when
  the hedge starts; the local chunks without data have too (`HedgedStream.BeforeTheAnswer`), so a local
  frame cut inside its field name leaves its first piece in front of the hedge's answer
  (`HedgedStream.SplitFrameReachesClient`). A chunk counts as data unless every payload in it is
  copies of the text `data:` and blanks (`SseFrames.FrameExact`).
* The circuit flag can be wrong at rest when a success overlaps a failure that opens the circuit, and
  only then (`Circuit.CircuitExact`).
* A deployment without rosters counts its primary as a local backend for every model name, so there
  an overloaded or failing primary opens every mapped model to unprivileged callers
  (`Router.OpenRouterReachability`, `Router.JsonReachesExactly`).
* A roof of 2^31 or more wraps to a negative number when it is compared and makes its backend always
  full (`BackendOrder.HugeRoofIsFull`).
* Threads that have overshot a limit and not yet undone their adds count like live guards
  (`Concurrency.KeyRefusedExactly`), so a thread can fail although no guard is alive
  (`Concurrency.SpuriousRefusal`).
* The rate limit counts exactly unless a key's clock goes back into a window it had left
  (`RateLimit.CountsExactly`); then a window has no bound (`RateLimit.BackwardClockReopens`). A unit
  written with a capital plural S falls back to one minute (`RateLimit.UnitRule`).
* The comment on `intern_backends` (`crates/platform/src/llm_pool.rs:379-382`) says that the primary
  URL is interned first; the code interns the rosters first, and the model follows the code.

## Model

| member | source | states |
|---|---|---|
| `BindText.LowerBinds` | crates/platform/src/read/dialect.rs:62-103 | the scanner loop yields the text and values of the tokenised source, or names an occurring bind without a value |
| `BindText.LowerTextBinds` | crates/platform/src/read/dialect.rs:372-405 | the `?` scanner loop yields the `?` text of the same tokens and appends its values behind those already collected |
| `BindText.PgPlaceholdersToCh` | crates/platform/src/read/dialect.rs:433-457 | the translating loop computes the `$N`-to-`?` function on every text |
| `BindText.SkipCast` | crates/platform/src/read/dialect.rs:443-448 | exactly one widening cast is skipped, and only if it is there |
| `BindLaws.SourceOfTokens` | crates/platform/src/read/dialect.rs:66-101 | the tokens spell the source, so nothing but binds is touched and `::type` casts stay |
| `BindLaws.NameBinds` | crates/platform/src/read/dialect.rs:71-80 | a colon in front of a whole identifier is a bind of that name |
| `BindLaws.CastStays` | crates/platform/src/read/dialect.rs:71-74 | a `::type` cast is copied as it is |
| `BindLaws.PgNumberingExact` | crates/platform/src/read/dialect.rs:84-94 | read as Postgres reads it, the lowered text has the binds numbered 1 to k from left to right and nothing else, if and only if no `$` of the source precedes a digit |
| `BindLaws.PgInvertible` | crates/platform/src/read/dialect.rs:62-103 | putting the names back for `$i` and dropping the added cast restores the source if and only if no `$` of it precedes a digit |
| `BindLaws.PgMeaning` | crates/platform/src/read/dialect.rs:62-103 | executing the positional statement is executing the source with each name replaced by its own value, numbers declared at full width, if and only if no `$` of it precedes a digit |
| `BindLaws.LowerPostgres` | crates/platform/src/read/dialect.rs:106-116 | the method's text and values, executed by position, are the author's statement with every name replaced by its value, declared `::int8` if an integer and `::float8` if a float, if and only if no `$` of the source precedes a digit |
| `BindLaws.ScannersAgree` | crates/platform/src/read/dialect.rs:62-103 | Postgres lowering followed by translation equals direct `?` lowering if and only if the text is clean |
| `BindLaws.OwnPlaceholderMisread` | crates/platform/src/read/dialect.rs:99 | an author's `$1` is misread as a bind |
| `BindLaws.OwnCastLost` | crates/platform/src/read/dialect.rs:443-448 | an author's cast behind a text bind disappears |
| `ChRead.ReadExprBack` | crates/platform/src/read/dialect.rs:331-367 | reading the printed tokens of an expression returns the expression and leaves the rest |
| `ChRead.ReadConjBack` | crates/platform/src/read/dialect.rs:278-329 | reading a printed conjunct list with NOT over AND over OR returns exactly the same list of predicate trees |
| `ChStatement.ReadsBack` | crates/platform/src/read/dialect.rs:131-207 | a printed statement reads back clause by clause as itself |
| `ChStatement.ReadsUnique` | crates/platform/src/read/dialect.rs:131-207 | a token list is the print of at most one statement |
| `ChBinding.FillsStatement` | crates/platform/src/read/dialect.rs:131-207 | giving the k-th `?` the k-th ordered value, across SELECT, JOIN, PREWHERE, WHERE and LIMIT, is giving every name its own value |
| `ChText.PairingExact` | crates/platform/src/read/dialect.rs:131-207 | the `?`s of the text pair off with the values if and only if no verbatim text shows one |
| `ChScan.TextReadsBack` | crates/platform/src/read/dialect.rs:131-329 | a reader of characters with its own list of operators and keywords gives back the tokens of every printed text, its verbatim pieces marked |
| `ChScan.PlainMarked` | crates/platform/src/read/dialect.rs:131-329 | the marked text is the printed text, character by character |
| `ChLowering.RenderExpr` | crates/platform/src/read/dialect.rs:331-367 | succeeds if and only if all names resolve and all casts are expressible; then text and appended values are those of the tokens |
| `ChLowering.RenderPredicate` | crates/platform/src/read/dialect.rs:291-329 | the same for predicates of any depth |
| `ChLowering.RenderConjuncts` | crates/platform/src/read/dialect.rs:278-289 | the same for a conjunct list joined with AND |
| `ChLowering.RenderSelect` | crates/platform/src/read/dialect.rs:213-222 | the same for the select items |
| `ChLowering.RenderJoins` | crates/platform/src/read/dialect.rs:224-232 | the same for the joins |
| `ChLowering.SplitPrewhere` | crates/platform/src/read/dialect.rs:244-276 | the loop is a stable partition by the leading key |
| `ChLowering.CheckChosen` | crates/platform/src/read/dialect.rs:462-505 | the load-time validation accepts a WHERE if and only if it accepts both halves of its split |
| `ChBinding.LastSegmentExact` | crates/platform/src/read/dialect.rs:268-276 | a qualified column matches by the text behind its last dot |
| `ChBinding.HoistExact` | crates/platform/src/read/dialect.rs:244-276 | a conjunct goes to PREWHERE if and only if it compares a column that is the first key, by itself or behind a qualifier and a dot |
| `ChBinding.TableExact` | crates/platform/src/read/dialect.rs:209-211 | a table's text splits back into schema, table and alias |
| `ClickHouse.LowerIr` | crates/platform/src/read/dialect.rs:131-207 | fails exactly when a mentioned name is unresolved or the load-time validation rejects the query; otherwise the text reads back as the statement's tokens and the values follow in print order |
| `ClickHouse.HoistingKeepsNames` | crates/platform/src/read/dialect.rs:162-171 | PREWHERE hoisting changes the order of binds, not which need a value |
| `ClickHouse.RenderGroupTail` | crates/platform/src/read/dialect.rs:173-204 | GROUP BY and ORDER BY are copied and LIMIT takes the last bind |
| `ClickHouse.Lower` | crates/platform/src/read/dialect.rs:409-428 | with an IR the structured lowering; without one the translated Postgres text, which is the direct lowering if and only if the source is clean |
| `ChMeaning.SplitFilter` | crates/platform/src/read/dialect.rs:244-259 | a row passes the conjunction if and only if it passes PREWHERE and WHERE, in three-valued logic |
| `ChMeaning.LoweringPreservesMeaning` | crates/platform/src/read/dialect.rs:131-207 | the lowered text, read by characters and bound by position, is exactly one query, and running it equals running the IR by name on every engine |
| `ChMarks.StatementMarks` | crates/platform/src/read/dialect.rs:131-207 | the printed statement shows a stray `?` if and only if some text of the IR has one |
| `ChMarks.PositionsExact` | crates/platform/src/read/dialect.rs:131-207 | text and values pair off if and only if the IR's texts are free of `?`, and then every bind gets its own value |
| `ChMarks.LiteralMarkMisbinds` | crates/platform/src/read/dialect.rs:338-339 | a `?` in a literal in front of a bind breaks the pairing, whatever is selected, hoisted and bound |
| `ChMarks.LiteralTakesValue` | crates/platform/src/read/dialect.rs:338-339 | bound from left to right the value ends up inside the literal and the bind gets none |
| `Resolve.CoerceVariant` | crates/platform/src/read/bind.rs:142-205 | the variant of a coerced value depends on the parameter's type alone |
| `Resolve.CoerceExact` | crates/platform/src/read/bind.rs:117-205 | a raw text is accepted with a value if and only if it says that value in its type and the value meets the declared bounds, length and characters |
| `Resolve.SlotExact` | crates/platform/src/read/bind.rs:213-264 | a parameter has a value if and only if the path, the query or the default supplies a text that it accepts or chooses by |
| `Resolve.AdmitsExact` | crates/platform/src/read/bind.rs:219-235 | a parameter is admitted if and only if it has a value, or nothing is supplied and it may be missing |
| `Resolve.CanonInjective` | crates/platform/src/read/bind.rs:46-55 | values of one parameter with the same canonical text are equal |
| `Resolve.BoolCanonBack` | crates/platform/src/read/bind.rs:46-55 | the canonical text of a truth value is read as that value |
| `Resolve.SubstituteFragments` | crates/platform/src/read/bind.rs:311-328 | the loop computes fragment substitution on every text |
| `Resolve.SubstituteMarker` | crates/platform/src/read/bind.rs:316-322 | a marker becomes its fragment, or nothing if there is none, and the fragment is not looked into |
| `Resolve.SubstituteIdle` | crates/platform/src/read/bind.rs:324-325 | text without braces is copied |
| `Resolve.ResolveParams` | crates/platform/src/read/bind.rs:213-264 | the parameter loop accepts exactly when every parameter does and fills the maps and the key parts |
| `Resolve.BuildFragments` | crates/platform/src/read/bind.rs:266-283 | the fragment loop merges the chosen and presence fragments in parameter order |
| `Resolve.ResolveRequest` | crates/platform/src/read/bind.rs:208-309 | rejected exactly when a parameter is not admitted or a bind has no value; otherwise every resolved value meets what its parameter declares, and SQL, values and key are the stated functions of the request |
| `ResolveLaws.SqlIgnoresValues` | crates/platform/src/read/bind.rs:208-328 | same presence and choices give the same SQL text and the same acceptance, whatever the values |
| `ResolveLaws.ValueMapExact` | crates/platform/src/read/bind.rs:213-264 | each name is bound to the value of its own parameter, and to nothing if that has none |
| `ResolveLaws.ChosenFragment` | crates/platform/src/read/bind.rs:266-275 | a choice puts in its own text for a fragment, unless a later parameter offers the fragment too |
| `ResolveLaws.PresenceFragment` | crates/platform/src/read/bind.rs:276-281 | a parameter with a value puts in its `present` text and one without its `absent` text |
| `ResolveLaws.NoFragment` | crates/platform/src/read/bind.rs:266-283 | a fragment nobody offers is not in the map, so its marker becomes empty |
| `CanonKey.Unjoin` | crates/platform/src/read/bind.rs:297-299 | a joined string has one reading with rising names and tame values: values without `&`, a parameter name that sorts after their own, and `=` |
| `CanonKey.CanonBack` | crates/platform/src/read/bind.rs:297-299 | equal canonical strings of parts with tame values come from equal parts up to order, also when a parameter is listed more than once |
| `CanonKey.JoinedExact` | crates/platform/src/read/bind.rs:297-299 | lists of any values share their string if and only if they have the same tame reading, and a list is its own tame reading if and only if its names rise and its values are tame |
| `ResolveLaws.KeyDeterminesQuery` | crates/platform/src/read/exec.rs:143-154 | requests with the same canonical string have the same values, fragments, SQL and ordered binds, given names without separators that each stand for one parameter, and values without `&`, a parameter name that sorts after their own, and `=` |
| `ResolveLaws.DefaultSharesKey` | crates/platform/src/read/bind.rs:219-223 | omitting a query parameter and sending its default give the same query and key |
| `ResolveLaws.SharedNameCollides` | crates/platform/src/read/bind.rs:219-223 | a name used for a path and a query parameter lets any two requests that swap two different values share a key and bind different values |
| `ResolveLaws.KeysExact` | crates/platform/src/read/bind.rs:297-299 | for every specification, parameter types and values, two requests share their key if and only if their parts have the same tame reading |
| `ResolveLaws.LaterMarkCollides` | crates/platform/src/read/bind.rs:297-299 | every accepted request with the mark of a later name in a value, where the parameters from that one on are optional texts, shares its key with another accepted request that binds other values |
| `ResolveLaws.SettledExact` | crates/platform/src/read/bind.rs:297-299 | over optional texts a request agrees with every tame request that shares its key if and only if it is tame itself |
| `ResolveLaws.AloneExact` | crates/platform/src/read/bind.rs:297-299 | over optional texts a request has its key to itself if and only if it sends at most one parameter and no later mark |
| `ReadCache.RedisKeyExact` | crates/platform/src/read/cache.rs:42-46 | two keys share a Redis entry if and only if endpoint, generation and digest of the canonical string are equal |
| `ReadCache.StepKeeps` | crates/platform/src/read/cache.rs:108-184 | every step keeps the invariant that no entry or read is older than the start of its generation |
| `ReadCache.Freshness` | crates/platform/src/read/cache.rs:114-184 | in every interleaving an answered read includes every write whose invalidation had returned when it took its generation |
| `ReadCache.ReadYourWrites` | crates/platform/src/handlers/ingest.rs:75-81 | the same said of a run: invalidation returns, later a read takes its generation, and its answer includes the write |
| `ReadCache.OldRedisIsStale` | crates/platform/src/read/cache.rs:108-110 | every old entry of a later generation whose endpoint some table invalidates can be served stale |
| `ReadCache.FreshExactly` | crates/platform/src/read/cache.rs:108-184 | every answer of every interleaving is fresh if and only if the process starts over a Redis without later-generation entries of endpoints that some table invalidates |
| `Caching.CacheManager.GetOrCompute` | crates/platform/src/read/cache.rs:114-154 | first tier, then Redis, then compute; fills both, never rewrites Redis on a hit, caches no error, and keeps every stored body tagged |
| `Caching.CacheManager.Lookup` | crates/platform/src/read/cache.rs:131-139 | a body found in Redis is the tagged body that was stored there |
| `Caching.CacheManager.Read` | crates/platform/src/read/exec.rs:143-157 | a read answers what was computed now or what was stored under the endpoint's current generation, and changes no entry but its own; without caching it changes none |
| `Caching.CacheManager.InvalidateTableLocal` | crates/platform/src/read/cache.rs:161-170 | the loop bumps every endpoint over the table exactly once and no other |
| `Caching.CacheManager.Serve` | crates/platform/src/read/cache.rs:108-170 | over any reads, invalidations and evictions of a fresh manager, every answer's bytes were computed by a read of the same endpoint and canonical string with no invalidation of the endpoint since, given a digest that tells the canonical strings apart |
| `CacheBodies.TagChars` | crates/platform/src/read/cache.rs:57-62 | a tag has no newline, no comma and no surrounding blanks |
| `CacheBodies.L2RoundTrip` | crates/platform/src/read/cache.rs:217-231 | decoding undoes encoding if and only if the tag has no newline |
| `CacheBodies.ConditionalExact` | crates/platform/src/read/exec.rs:382-406 | a client that lists tags, with any blanks around them, gets a 304 if and only if the header is visible ASCII and the digest of the current bytes is among them |
| `CacheBodies.WildcardIgnored` | crates/platform/src/read/exec.rs:385-386 | the wildcard of section 13.1.2 of RFC 9110 gets a full response |
| `CacheBodies.RfcExact` | crates/platform/src/read/exec.rs:384-396 | every well-formed If-None-Match field, tags with commas included, gets the answer of section 13.1.2 of RFC 9110 if and only if it is not `*` and, where it matches weakly, also holds the strong tag and only visible ASCII |
| `CacheBodies.WeakTagMissed` | crates/platform/src/read/exec.rs:385-386 | the weak form of the body's own tag, which the section wants to match, gets a full response |
| `CacheAge.BoundedAge` | crates/platform/src/read/cache.rs:129-153 | across replicas and restarts every served body carries the digest of its bytes and is younger than time-to-live plus Redis expiry plus the time reads had it in their hands, however long they take |
| `CacheAge.NotModifiedIsCurrent` | crates/platform/src/read/exec.rs:382-406 | a served body gets a 304 if and only if the header is visible ASCII and names the digest of the body's bytes |
| `CacheAge.BoundIsTight` | crates/platform/src/read/cache.rs:67-77 | with no time in hand at all the age bound is met to within two milliseconds, past the time-to-live |
| `SseFrames.KeepAliveHasNoData` | crates/platform/src/handlers/llm.rs:774-781 | the keepalive frame carries no data |
| `SseFrames.BinaryIsData` | crates/platform/src/handlers/llm.rs:774-777 | only text can be without data |
| `SseFrames.LineExact` | crates/platform/src/handlers/llm.rs:779-780 | a data field is missed if and only if its payload is some copies of the field name followed only by blanks |
| `SseFrames.FrameExact` | crates/platform/src/handlers/llm.rs:774-781 | a chunk of any lines is seen as data if and only if one of its lines is a data field that is not missed |
| `SseFrames.CutFrameExact` | crates/platform/src/handlers/llm.rs:774-781 | for every data line and every cut into two chunks, the exact cut positions at which neither chunk is seen |
| `HedgedStream.StepKeeps` | crates/platform/src/handlers/llm.rs:889-980 | every arm of the select loop, the drain and every channel event keep the invariant |
| `HedgedStream.NeverAMix` | crates/platform/src/handlers/llm.rs:868-982 | in every run the client's stream from its first data chunk on is a prefix of one side's stream from its first data chunk on |
| `HedgedStream.HedgeOnlyBeforeData` | crates/platform/src/handlers/llm.rs:937-959 | at most one hedge, only with a plan, only before any local data |
| `HedgedStream.WinnerStays` | crates/platform/src/handlers/llm.rs:892-931 | the race is decided once |
| `HedgedStream.NoOwnSender` | crates/platform/src/handlers/llm.rs:874-883 | in every run, once a started hedge's task has ended nobody can send into its channel |
| `HedgedStream.DrainEnds` | crates/platform/src/handlers/llm.rs:904-918 | once the hedge task is over the drain ends within the queue length and one more turn, whatever else happens in between |
| `HedgedStream.TickNotices` | crates/platform/src/handlers/llm.rs:960-979 | after the client has left, in any run, a tick leaves the task over if and only if it is not draining |
| `HedgedStream.DrainLeaver` | crates/platform/src/handlers/llm.rs:911-917 | a drain whose client has left ends if and only if a hedge chunk or the end of the hedge is received |
| `HedgedStream.SilentHedgeHoldsSlot` | crates/platform/src/handlers/llm.rs:911-917 | with a silent hedge such a drain goes on through any events, so its in-flight slot stays taken |
| `HedgedStream.TurnCompletes` | crates/platform/src/handlers/llm.rs:868-982 | in every run in which both sides have ended, in any order and with any queue, the task ends within the queue length and one more turn, and a client that stayed has the whole answer of its side |
| `HedgedStream.BeforeTheAnswer` | crates/platform/src/handlers/llm.rs:868-982 | in every run the client's stream is a lead and then one side's answer; the lead holds only keepalives, the local chunks of the open race and, in a drain, hedge chunks without data, and before an answer all local chunks of the open race |
| `HedgedStream.StreamTask.LocalArm` | crates/platform/src/handlers/llm.rs:892-901 | the arm on the task's variables is the step of the specification |
| `HedgedStream.StreamTask.Drive` | crates/platform/src/handlers/llm.rs:889-980 | the loop over any event sequence is the run the theorems speak of |
| `HedgedStream.SplitFrameReachesClient` | crates/platform/src/handlers/llm.rs:892-901 | the guarantee is one of chunks: a local frame cut anywhere inside its field name leaves its first piece in front of any hedge answer |
| `HedgedStream.SseGuarantees` | crates/platform/src/handlers/llm.rs:774-982 | the guarantees hold for the program's own framing: no mix, at most one hedge and only with a plan, and a complete answer |
| `InFlight.Conservation` | crates/platform/src/llm_pool.rs:251-287 | in every run each count is its live guards, no request holds two, and all counts are zero when requests and stream tasks have ended |
| `InFlight.BackendsInOrder` | crates/platform/src/handlers/llm.rs:621-687 | in every run a request takes slots on its backends in their order, one per turn, whatever happens to it and to others |
| `InFlight.TurnByTurn` | crates/platform/src/handlers/llm.rs:621-687 | a turn takes one slot and a failure, an answer or a cancellation gives it back; without backends left the request gives up |
| `InFlight.StreamTurn` | crates/platform/src/handlers/llm.rs:792-870 | a connected stream keeps its slot until its task finishes |
| `Circuit.InTurnExact` | crates/platform/src/llm_pool.rs:257-275 | for reports that do not overlap the two atomics are the breaker of the retry loop, open exactly after three failures since the last success |
| `Circuit.CountExact` | crates/platform/src/llm_pool.rs:257-275 | under every interleaving of reports the count is the failures since the last success |
| `Circuit.OneCallEach` | crates/platform/src/llm_pool.rs:257-275 | no caller is in two reports at once |
| `Circuit.CircuitExact` | crates/platform/src/llm_pool.rs:257-275 | at every rest a concurrent run can come to, the circuit is open exactly after three failures in a row, if and only if no success was under way together with a failure that opens the circuit |
| `Circuit.OverlapMisjudges` | crates/platform/src/llm_pool.rs:257-275 | from every state with such an overlap the calls can finish so that the flag is wrong and stays so with no further connect |
| `Circuit.OverlapNear` | crates/platform/src/llm_pool.rs:257-275 | such an overlap is one success and three failures away from every state |
| `InFlight.ProxyJson` | crates/platform/src/handlers/llm.rs:621-687 | the first backend that does not fail answers, every earlier turn counts as one failure of its backend, later ones are not asked and every slot is returned |
| `BackendPool.ParseSuffix` | crates/platform/src/llm_pool.rs:309-327 | the loop finds the last value of each key, with its default |
| `BackendPool.ParseShortSuffix` | crates/platform/src/llm_pool.rs:333-351 | a short-prompt preference needs both keys and a positive roof |
| `BackendPool.SuffixRoundTrip` | crates/platform/src/llm_pool.rs:309-327 | a written suffix reads back as written |
| `BackendPool.ShortWritten` | crates/platform/src/llm_pool.rs:333-351 | both short keys written with a positive roof read back as written, and one of them alone means nothing |
| `BackendPool.SettingsWritten` | crates/platform/src/llm_pool.rs:411-424 | a written suffix gives a handle its own limit and tier, and a bare URL the defaults |
| `BackendPool.KeyExact` | crates/platform/src/llm_pool.rs:414 | URLs that differ in trailing slashes have one key |
| `BackendPool.InternedExact` | crates/platform/src/llm_pool.rs:411-428 | one handle per normalised URL, with the settings of its first mention |
| `BackendPool.PrimarySettings` | crates/platform/src/llm_pool.rs:439-443 | the primary's handle has the settings of the first roster entry that names its URL, and its own only if none does |
| `BackendPool.Interner.Intern` | crates/platform/src/llm_pool.rs:414-428 | returns the handle of the URL's key and creates it only on the first mention |
| `BackendPool.InternBackends` | crates/platform/src/llm_pool.rs:404-451 | every model list and the primary point into `all` at the handles of their URLs, rosters first, and the primary has the settings just said |
| `BackendOrder.OrderIsStable` | crates/platform/src/llm_pool.rs:496-514 | the result is a stable sorted permutation of the roster |
| `BackendOrder.OrderUnique` | crates/platform/src/llm_pool.rs:496-514 | there is only one such order |
| `BackendOrder.InOrder` | crates/platform/src/llm_pool.rs:496-514 | of any two backends the earlier one is up rather than down, then has room, then has the lower tier for the request, then the smaller load, then the earlier place |
| `BackendOrder.AtRoofExact` | crates/platform/src/llm_pool.rs:213-250 | a backend is full if and only if a configured roof is reached |
| `BackendOrder.AsI32Exact` | crates/platform/src/llm_pool.rs:213-250 | a setting is compared as the signed 32-bit number congruent to it |
| `BackendOrder.HugeRoofIsFull` | crates/platform/src/llm_pool.rs:213-250 | a roof of 2^31 or more compares as negative, so the backend is always full |
| `BackendOrder.HeadProperties` | crates/platform/src/llm_pool.rs:496-514 | an unhealthy head means all are, a full healthy head means all healthy ones are full, and a lower tier is passed over only if unhealthy or full |
| `BackendOrder.ShortMattersOnlyIfConfigured` | crates/platform/src/llm_pool.rs:132-137 | rosters without short keys order short and long requests alike |
| `BackendOrder.BackendsExact` | crates/platform/src/llm_pool.rs:462-495 | exactly the model's roster is tried, the primary only for a request without a model or where no roster is configured, and nothing for a model outside every roster |
| `Router.MapIsClean` | crates/platform/src/config.rs:424-429 | the configured map has trimmed non-empty keys and values |
| `Router.OpenRouterReachability` | crates/platform/src/handlers/llm.rs:452-612 | for every pool, load, size class, outcome of the local attempts and course of the stream: on the direct, spill and hedge paths at most one completion reaches OpenRouter, only for a mapped model that is not a Claude id, under its mapped id, and for an unprivileged caller only if the model has a local backend or a deployment without rosters has a primary |
| `Router.JsonReachesExactly` | crates/platform/src/handlers/llm.rs:484-516 | the JSON path sends if and only if the model is mapped and no Claude id and its backends are all full where roofs are configured, all down, or all could not connect or answered 503, or it has none and the caller is privileged |
| `Router.StreamAllowed` | crates/platform/src/handlers/llm.rs:792-866 | the stream dispatcher, its spill and the hedges of its stream task send at most once, and only what is allowed, although the hedge looks the model up untrimmed |
| `Router.StreamReachesExactly` | crates/platform/src/handlers/llm.rs:792-866 | the stream path sends if and only if that holds or a backend connected and its stream task was hedged |
| `Router.RoomStaysLocal` | crates/platform/src/handlers/llm.rs:484-516 | a request with a healthy backend below its roofs and a first answer sends nothing |
| `Router.StayingLocalIsUsable` | crates/platform/src/handlers/llm.rs:475-530 | a request that could overflow and stays local starts on a healthy backend, and on a full one only if every other is full or down |
| `Router.ShortExact` | crates/platform/src/handlers/llm.rs:444-450 | a request is short if and only if it has fewer than four bytes per configured token |
| `Router.UntrimmedKeyLeaks` | crates/platform/src/handlers/llm.rs:785-790 | the trimming of configured keys is needed: with any untrimmed key whose trimmed form is not configured, a hedged request for it sends the local id upstream |
| `Router.UntrimmedKeyHedges` | crates/platform/src/handlers/llm.rs:785-790 | for every such key there is a configuration and a stream in which that happens |
| `RateLimit.ParseRateExact` | crates/platform/src/auth/ratelimit.rs:16-28 | a number and a unit in any case, with blanks, singular or plural, mean what they say if and only if the unit does not end in a capital S or is the minute |
| `RateLimit.UnitRule` | crates/platform/src/auth/ratelimit.rs:19-26 | the same of the window alone, for any number text |
| `RateLimit.UnitLengths` | crates/platform/src/auth/ratelimit.rs:20-26 | the units are one second and 60, 60 and 24 times the one before |
| `RateLimit.ParseRateDefaults` | crates/platform/src/auth/ratelimit.rs:16-28 | an unreadable number and a missing or unknown unit mean sixty and a minute |
| `RateLimit.TierExact` | crates/platform/src/auth/ratelimit.rs:65-70 | identified and presented callers get the authenticated tier and addresses the anonymous one |
| `RateLimit.RateLimiter.Check` | crates/platform/src/auth/ratelimit.rs:67-90 | the bucket update and decision of one call |
| `RateLimit.RateLimiter.Serve` | crates/platform/src/auth/ratelimit.rs:67-90 | a fresh limiter over a trace decides as the trace functions say |
| `RateLimit.CountsExactly` | crates/platform/src/auth/ratelimit.rs:67-90 | every call of a key is counted as the calls of its window if and only if the key never leaves a window and enters it again |
| `RateLimit.OrderedIsContiguous` | crates/platform/src/auth/ratelimit.rs:67-90 | a clock that never steps back meets that condition |
| `RateLimit.FirstCallsAllowed` | crates/platform/src/auth/ratelimit.rs:67-90 | exactly the first `limit` calls of each window of a key are allowed, and each call is told how many are left, if and only if the limit is zero or that condition holds |
| `RateLimit.SlidingBound` | crates/platform/src/auth/ratelimit.rs:67-90 | under that condition any half-open interval of one window length admits at most twice the limit |
| `RateLimit.TwiceTheLimit` | crates/platform/src/auth/ratelimit.rs:67-90 | the bound is reached |
| `RateLimit.RetryLandsInNextWindow` | crates/platform/src/auth/ratelimit.rs:79-81 | an allowed call is told not to wait; for a refused one waiting as told lands on the first second of the next window, and not before |
| `RateLimit.BackwardClockReopens` | crates/platform/src/auth/ratelimit.rs:72-76 | for any tiers and any two calls of one key in different windows, a clock that keeps stepping back admits the limit once more in every round, so without bound |
| `Concurrency.Safety` | crates/platform/src/auth/ratelimit.rs:98-142 | under all interleavings each counter is live guards plus unresolved adds, and live guards never exceed the limit |
| `Concurrency.NothingLeaks` | crates/platform/src/auth/ratelimit.rs:119-142 | when every thread is idle every counter is zero |
| `Concurrency.PairLeavesNoTrace` | crates/platform/src/auth/ratelimit.rs:135-142 | a thread that is refused at either limit, or acquires and releases, with any steps of others in between, changes no counter beyond what the others contribute |
| `Concurrency.KeyRefusedExactly` | crates/platform/src/auth/ratelimit.rs:119-133 | in every reachable state, whatever others do meanwhile, an attempt on a key is refused if and only if live guards and unresolved adds fill the limit as it begins |
| `Concurrency.IpRefusedExactly` | crates/platform/src/auth/ratelimit.rs:135-142 | the same for the address of a thread that has its key |
| `Concurrency.QuietRefusalMeansFull` | crates/platform/src/auth/ratelimit.rs:119-133 | with no unresolved add, refusal means that as many guards as the limit are alive |
| `Concurrency.SpuriousRefusal` | crates/platform/src/auth/ratelimit.rs:124-127 | for every pair of limits there is a run after which no guard on the key is alive and yet an attempt is refused |
| `Concurrency.ConcurrencyLimiter.Acquire` | crates/platform/src/auth/ratelimit.rs:135-142 | uninterrupted, both slots or neither, exactly when both have room |
| `Calendar.CivilExact` | crates/platform/src/handlers/usage.rs:384-402 | day n is the date reached by counting n days from the epoch under the leap rule of Appendix C of RFC 3339, and the standard count takes it back to n |
| `Calendar.CivilOfDayNumber` | crates/platform/src/handlers/usage.rs:391-401 | converting the count of a valid date gives the date back |
| `Calendar.CivilEveryDay` | crates/platform/src/handlers/usage.rs:391-401 | for every integer day number the date is valid and the next day has the next date |
| `Calendar.StampExact` | crates/platform/src/handlers/usage.rs:386-389 | the whole stamp has its fields in range and counts back to the clock reading |

## Left out

- Non-ASCII text: the scanners copy byte by byte, so bytes above 127 become other characters; the model's characters are bytes.
- Engine semantics: expressions, comparisons and verbatim text are evaluated by arbitrary functions, connectives by three-valued logic, PREWHERE as one more conjoined filter; SQL typing, FINAL and the interplay of PREWHERE with joins are not modelled.
- ChRead.ReadConjBack: verbatim text (the Raw variants) is read back as one token, so what is inside it is not re-parsed.
- GROUP BY and ORDER BY text with binds: the program copies it unlowered, and so does the model.
- The SQL parser that produces the IR, table and column resolution, and the federation of reads.
- The admin suffix of the cache key and the echoed id field: only the unelevated key is modelled.
- Number, date and timestamp parsing and case mapping are library functions of the resolver, and a float, date or timestamp is its canonical rendering; integers are compared with bounds as reals, not as rounded floats.
- Freshness across replicas: each replica counts generations on its own; the freshness theorem is about one process that solely owns its Redis namespace, the age bound about any number.
- HTTP, Redis, Postgres, pub/sub and timers are environment steps; the priority of the biased select is not modelled, so the theorems hold for every order.
- HedgedStream.NeverAMix: chunks, not bytes, are the unit.
- Backend order: loads are a snapshot; a sort whose keys change while it compares is not modelled.
- The binary and multipart dispatchers, which have no OpenRouter arm, the default model, the thinking control and LLM federation.
- Wrap-around of 32-bit and 64-bit counters, except the signed comparison of roofs and tiers' limits, which is modelled.
- Landing pages, metrics parsing, proposal approval, ingest validation, realtime and sync.
