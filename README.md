# doghouse: a Dafny model of the mock Datadog trace endpoint

`MockDatadogServer` (datadog.go) is a test double for the Datadog trace agent.
The tracing client POSTs MessagePack batches of traces to it; the server
checks each request, writes every span of an accepted batch into two
indexes, and answers 200 whatever happens. Tests then query those indexes:
they wait for a span, check that a span is absent, check a span's chain of
parents, or check a span against a predicate.

This project models that core in Dafny:

- `wrappers.dfy`: `Option`.
- `names.dfy` (`Names`): Go's byte-wise string order, and the sort behind
  `sort.Strings`. It proves the sort returns a sorted permutation, and that a
  sorted permutation is unique.
- `strconv.dfy` (`Strconv`): `strconv.Atoi` as the handler uses it on the
  `X-Datadog-Trace-Count` header (64-bit `int`). Its partner is `FormatInt`
  (`strconv.Itoa`); the two round-trip.
- `spans.dfy` (`Spans`): `Span`, `Trace`, `Batch` and the 64/32-bit field
  widths. `Flatten` gives a batch's spans in trace-then-span order. `Merge`
  is the last-write-wins write of spans into a map under a key (span id or
  name). `Index` is a snapshot of both maps.
- `assertions.dfy` (`Assertions`): the parent-chain walk (`ParentChain`, and
  the loop `WalkParents` proved against it). Also the wait predicate
  (`SpanPoll`), the immediate checks (`SpanCheck`, `SpanFnCheck`), the absence
  check, and what a polling wait concludes from the states it observes
  (`WaitResult`, `AbsenceResult`).
- `server.dfy` (`Server`): the class `MockDatadogServer` with fields `path`,
  `spansById`, `spansByName`. A ghost `received` holds every span of every
  batch accepted since the last reset. The object invariant `Valid()` says
  both maps are exactly what writing `received` in order produces. From that,
  every entry is filed under its own id or name and came from an accepted
  batch. `Admit` is the handler's chain of gates as a function.
- `scenarios.dfy` (`Scenarios`): the repository's tests replayed against
  the model, each stating what the test expects.

Modelling choices:

- `r.Header.Get` returns `""` both for a missing header and for an empty
  one, so the header is a `string` and `""` means "missing".
- Reading the body (`io.Copy`) and decoding it (`batch.UnmarshalMsg`) are
  one input, `body: Option<Batch>`; `None` means either step failed.
- A `t.Fatalf` becomes a `Fail(failure)` result. A wait's predicate returns
  `Satisfied`, `Pending` (Go's `false`, which is retried) or `Fatal`.
- Waits: the clock is dropped. `WaitDurationForSpan` and `ExpectDurationNoSpan`
  take the states seen at the ticks before the timeout (`later`) as a
  parameter. They evaluate the check on the current state first, then on
  each later state, as the Go `select` loop does.
- Parent id 0 is looked up like any other id, as in the code.
- `spanNames` appends one name per entry of the id map, so a name carried
  by several ids is listed that many times; `SpanNames` states this.

## Model

| member | source | states |
|---|---|---|
| `Strconv.Atoi` | datadog.go:110-114 | a parsed count fits a 64-bit int; an accepted header is non-empty, starts with a digit or with a sign followed by more, and is all digits after that first character; a negative result carries a minus sign |
| `Strconv.FormatInt` | datadog.go:104-114 | the client's decimal count: a minus sign exactly for negative numbers, then only digits (round trip in `AtoiFormatInt`) |
| `Strconv.AtoiFormatInt` | datadog.go:104-114 | every 64-bit count written in decimal by the client parses back to itself |
| `Names.Sort` | datadog.go:150 | the sort returns a sorted permutation of the names it is given (its `ensures`, proved through `InsertCorrect`) |
| `Names.SortedUnique` | datadog.go:145-152 | two sorted lists with the same multiset of names are equal, so the listing does not depend on map iteration order |
| `Spans.Flatten` | datadog.go:136-138 | the spans a batch writes; there are as many as all its traces hold together (`TotalSpans`); the order is fixed by `FlattenAppend` |
| `Spans.FlattenAppend` | datadog.go:136-138 | the spans of two batches sent one after the other are the first batch's spans followed by the second's, so a batch's spans come trace by trace, each trace in its own order |
| `Spans.FlattenMembers` | datadog.go:136-138 | a span is written by a batch exactly when it occurs in one of the batch's traces |
| `Spans.Merge` | datadog.go:139-140 | the last-write-wins write of spans into a map under a key; old keys stay and every written key is present (exact key set in `MergeKeys`, stored values in `MergeLastWins` and `MergeUntouched`) |
| `Spans.MergeAppend` | datadog.go:136-142 | writing one list and then another equals writing their concatenation (batches compose) |
| `Spans.MergeLastWins` | datadog.go:139-140 | a span with no later span sharing its key is the entry under that key (last write wins) |
| `Spans.MergeUntouched` | datadog.go:136-142 | a key no written span carries keeps its previous entry, or stays absent |
| `Spans.MergeKeys` | datadog.go:139-140 | the keys afterwards are the old keys plus the keys of the written spans |
| `Spans.MergeKeyed` | datadog.go:139-140 | writing keeps every entry filed under its own key; every entry is an old one or a written span |
| `Spans.IndexOfConsistent` | datadog.go:139-140 | in indexes built from spans, `byId[k].spanId == k`, `byName[n].name == n`, and every entry is one of those spans |
| `Assertions.ParentChain` | datadog.go:174-184 | the chain walk: an empty chain passes, and it fails only with "parent not found" or "mismatch"; its meaning is fixed by `ParentChainPassIff` and `ParentChainFailsFirst` |
| `Assertions.ParentChainPassIff` | datadog.go:174-184 | the chain check passes iff, for each i, the (i+1)-th ancestor through the id index exists and is named `parents[i]` (order-sensitive) |
| `Assertions.ParentChainFailsFirst` | datadog.go:250-260 | if the first i names matched, a missing parent at step i gives "parent not found" for the current span and a wrong name gives "mismatch(got, want)"; nothing later is examined |
| `Assertions.ZeroParentIsLookedUp` | datadog.go:176 | parent id 0 gets no special case: it resolves to the span indexed under 0, or fails as not found |
| `Assertions.WalkParents` | datadog.go:250-260 | the loop that reassigns `current` returns exactly the chain check's result |
| `Assertions.Expectation` | datadog.go:165-187 | the wait predicate is pending when the name is absent, fatal when the chain breaks, satisfied otherwise |
| `Assertions.SpanPoll` | datadog.go:165-187 | the wait predicate is pending exactly when the name is absent, satisfied exactly when the name is indexed and its parent chain passes, fatal only on a broken chain, and never fatal with no expected parents |
| `Assertions.SpanCheck` | datadog.go:245-260 | fails "not found" exactly when the name is absent, and passes exactly when the name is indexed and its parent chain passes; with no expected parents it passes exactly when the name is indexed |
| `Assertions.SpanFnCheck` | datadog.go:268-275 | passes exactly when the name is indexed and the predicate holds of its span; fails "not found" exactly when the name is absent |
| `Assertions.AbsenceCheck` | datadog.go:221-224 | passes exactly when the name is absent, and otherwise fails with "unexpected span" |
| `Assertions.WaitResult` | datadog.go:189-203 | a wait fails only by timeout or a broken chain, and times out when no observed state holds the name (pass condition in `WaitResultPassIff`) |
| `Assertions.AbsenceResult` | datadog.go:217-237 | passes or fails with "unexpected span", and fails at once when the current state holds the name (pass condition in `AbsenceResultPassIff`) |
| `Assertions.PollAgreesWithCheck` | datadog.go:169-186 | the wait predicate and the immediate check agree, except that an absent name is retried by one and fatal to the other; a broken chain is fatal to both |
| `Assertions.WaitResultPassIff` | datadog.go:189-203 | a wait passes iff some observed state satisfies the predicate and every earlier one was pending; a fatal state ends the wait |
| `Assertions.WaitResultFailsAt` | datadog.go:176-182 | a broken chain on the first observed state that is not pending, on whichever tick, ends the wait with that same chain failure; it is not retried |
| `Assertions.WaitResultTimedOutIff` | datadog.go:189-203 | a wait times out exactly when no observed state holds the name |
| `Assertions.AbsenceResultPassIff` | datadog.go:217-237 | the absence check passes iff no observed state holds the name; otherwise it fails with "unexpected span" |
| `Server.Admit` | datadog.go:97-134 | a request is accepted iff the path matches, the count header is present and parses, the body decodes, and the trace count equals the header; the wrong path is reported as such |
| `Server.MockDatadogServer.constructor` | datadog.go:68-72 | a new server listens on `/v0.4/traces` with both indexes empty |
| `Server.MockDatadogServer.SetTracePath` | datadog.go:84-86 | the accepted path becomes the given one |
| `Server.MockDatadogServer.ServeHTTP` | datadog.go:94-143 | status is always 200; a rejected request leaves both maps unchanged; an accepted batch is merged last-write-wins into both maps; the object invariant and the key consistency are kept |
| `Server.MockDatadogServer.InsertTrace` | datadog.go:137-141 | one trace's spans are written in order into both maps |
| `Server.MockDatadogServer.InsertBatch` | datadog.go:136-142 | the whole batch is written in trace-then-span order, and is added to the received spans |
| `Server.MockDatadogServer.SpanNames` | datadog.go:145-152 | the names come out sorted, one per id: each name appears as often as ids carry it, so the length is the number of ids |
| `Server.MockDatadogServer.WaitDurationForSpan` | datadog.go:160-204 | the first check on the current state decides at once if satisfied or fatal; otherwise later states are polled until one decides; an absent span with no later state times out |
| `Server.MockDatadogServer.ExpectDurationNoSpan` | datadog.go:212-238 | fails with "unexpected span" as soon as the name is seen in the current or a later state; passes otherwise |
| `Server.MockDatadogServer.ExpectSpan` | datadog.go:241-261 | passes iff the name is indexed and its parent chain matches; an absent name fails with "not found" |
| `Server.MockDatadogServer.ExpectSpanFn` | datadog.go:264-276 | passes iff the name is indexed and the predicate holds of its span |
| `Server.MockDatadogServer.Reset` | datadog.go:279-285 | both maps become empty; every span check then fails "not found" and every absence check passes |
| `Scenarios.ResetScenario` | datadog_test.go:52-62 | a span found before a reset is absent after it |
| `Scenarios.CountMismatchScenario` | datadog.go:131-134 | a batch declaring two traces but carrying one is discarded and nothing is indexed |
| `Scenarios.ExpectSpanFnScenario` | datadog_test.go:20-32 | a span is found with a predicate on its resource |
| `Scenarios.ExpectSpanScenario` | datadog_test.go:34-50 | both the parent and the child are absent before they are sent; afterwards the child is found under its parent |
| `Scenarios.SpanNamesScenario` | datadog_test.go:64-79 | with spans "1" to "3" and "0" chained, "1" is found and the names are listed as "0", "1", "2", "3" |
| `Scenarios.ParentChainScenario` | datadog.go:250-260 | chain "3","2","1" from "0" passes; "3","1","2" fails with mismatch("2","1"); the root's parent id 0 is not found |

## Left out

- `New`: the `atomic.Bool` singleton guard, `httptest.NewServer`, `os.Setenv` and `tracer.Start` are process wiring and a foreign library. The constructor models only the initial state. `Close` stops the HTTP server and is left out too.
- HTTP plumbing: the `ResponseWriter`, and copying the body with `io.Copy` (its failure is folded into `body == None`).
- The MessagePack decoder `batch.UnmarshalMsg` is generated code and is not part of this model. Its result is the input `body: Option<Batch>`.
- `sync.RWMutex`: the model is sequential. Each method is one step, so a batch is applied whole or not at all.
- Timers and tickers: wall-clock polling is replaced by the sequence of observed states. `WaitForSpan` and `ExpectNoSpan` differ from `WaitDurationForSpan` and `ExpectDurationNoSpan` only in their default durations (10 ms, 100 ms), so they are not separate members.
- `Server.MockDatadogServer.WaitDurationForSpan`: the later states are any sequence of indexes. The model does not require them to be reachable from the current state by ingests and resets.
- `log.Print*` output, and the text of `t.Fatalf` messages, including the list of known span names in the "not found" message.
- `Span.Metrics` (a map of float64) is not modelled. The other payload fields are carried through unchanged.
- `sort.Strings` sorts in place with pattern-defeating quicksort. Only its result is modelled, by an insertion sort; the sorted permutation is unique, so the result is the same.
- Span names and the other string fields are modelled as valid Unicode text. The MessagePack decoder does not validate UTF-8, so a name may hold arbitrary bytes in the system; the argument that byte order equals code-point order holds only for valid UTF-8.
