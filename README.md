# Search provider core, modelled in Dafny

This project models the abstract search provider `API<APIResult>` in
`src/api/api.ts`. Every search backend of the application extends it with
a request builder (`fetchURL`) and a response parser (`processResult`). The
shared core is what the model covers:

- the query-length gate: a query of fewer than 3 characters yields `[]`
  with no request and no change to the counter;
- the request token: each search that passes the gate increments the
  counter `last_id` and captures the new value, and a response that arrives
  after a newer search has begun on the same instance is thrown away
  without being parsed;
- result validation: every parsed result's `image_url` is probed with a
  HEAD request; only URLs answered with status exactly 200 are valid, a
  probe that throws is swallowed, and the results whose URL is valid are
  returned in their original order;
- the tab rename `character` to `characters` and the default `showMore`.

Layout:

- `validation.dfy`, module `Validation`: `SearchResult`, probe outcomes, the
  set-building loop `CollectValidUrls` (proved against the function
  `ValidUrls`), the filter `KeepValid`, the validator `FilterValidResults`,
  and lemmas that the output is a subsequence of the input with exactly
  the right multiplicities.
- `api.dfy`, module `Api`: the class `SearchProvider<Raw>` with the field
  `lastId`. `search` suspends twice: first on the main request
  (`src/api/api.ts:22-23`), then on the HEAD probes inside
  `filterValidResults` (`src/api/api.ts:26`, `src/api/api.ts:31-35`). The model
  splits it at both points into three steps:
  - `Begin` checks the length, bumps and captures the token and builds the
    request (`src/api/api.ts:17-21`);
  - `CheckAndParse` runs when the decoded response is in. It tests the token
    and parses (`src/api/api.ts:24-25`);
  - `FilterValidResults` validates the parsed results (`src/api/api.ts:26`).

  An interleaving of several searches on one instance is a sequence of these
  steps. `Complete` is a check followed directly by validation.
  `Search` is a whole search with nothing interleaved.
  `BeginAll` begins a run of searches on one provider. It is proved to move
  the counter as `AdvanceAll` says and to capture the tokens `IssuedTokens`
  lists. The lemmas about these two functions therefore hold of the provider
  itself:
  - after N searches that pass the length check, the counter has grown by N;
  - the tokens are consecutive and strictly increasing;
  - exactly the latest search is not stale.

  `OverlappingSearches` runs two searches that overlap all the way through
  their main requests, with the responses arriving in either order.
  `StaleSearchStillDelivers` shows the window that follows the token test
  (see "## Findings").

The network is a parameter:
- The decoded body of the main request is an argument of `CheckAndParse`
  and `Complete`, or a function `respond` from request to body in `Search`.
- Every result gets its own HEAD request, also when results share a URL.
  `probe(i)` is the outcome (`Status(code)` or `Error`) of the request for
  the result at position `i`. Two requests for one URL may therefore
  disagree. The set of valid URLs only ever grows, so a URL is valid as soon
  as any one of its requests answered 200.
- `fetchURL` and `processResult` are function-valued constants of each
  provider instance. They are left uninterpreted.

`search` does not apply `denormalizeTab`. It hands the caller's tab to
`fetchURL` (`src/api/api.ts:21`) and to `processResult`
(`src/api/api.ts:25`). The helper is protected, so a backend may apply it
inside its own builder or parser, which are not modelled. The model follows
the code: `Begin` passes the raw tab to `fetchUrl` and carries it on to the
step that passes it to `processResult`. `DenormalizeTab` is modelled on its
own, as the code defines it.

## Model

| member | source | states |
|---|---|---|
| Validation.ValidUrls | src/api/api.ts:30-42 | a URL is in the valid set exactly when some result carries it and that result's probe request answered status exactly 200 |
| Validation.CollectValidUrls | src/api/api.ts:30-42 | the probing loop builds exactly `ValidUrls`; a rejected or throwing probe adds nothing and does not stop the remaining probes |
| Validation.KeepValid | src/api/api.ts:43 | the filter never grows the input and keeps exactly the input results whose URL is in the valid set |
| Validation.KeepValidIsSubsequence | src/api/api.ts:43 | the filter's output is a subsequence of its input (original relative order) |
| Validation.KeepValidCounts | src/api/api.ts:43 | each result occurs in the output as often as in the input if its URL is valid, and not at all otherwise |
| Validation.KeepValidIdempotent | src/api/api.ts:43 | filtering the output again with the same set changes nothing |
| Validation.SharedUrlKeptTogether | src/api/api.ts:30-43 | two results with the same image URL are both kept or both dropped |
| Validation.ValidatedMembership | src/api/api.ts:29-44 | a result is in the validated output exactly when it is in the input and some probe request for its URL, its own or a sibling's, answered 200 |
| Validation.ConsistentProbesDecideEach | src/api/api.ts:31-43 | when all requests for one URL come back the same, a result survives exactly when its own probe answered 200 |
| Validation.SiblingProbeSuffices | src/api/api.ts:31-43 | two results sharing a URL, whose first probe throws and whose second answers 200, are both kept |
| Validation.ValidUrlsAppend | src/api/api.ts:31-42 | the valid set of a batch is the union of the valid sets of its parts, each with its own probe outcomes, so one failing probe never affects another result |
| Validation.ValidUrlsOrderFree | src/api/api.ts:31 | the valid set depends only on the multiset of (result, outcome) pairs, not on the order in which the probes run or settle |
| Validation.FilterValidResults | src/api/api.ts:29-44 | the validator returns the subsequence of its input whose members are exactly the input results for whose URL some probe request answered 200 |
| Validation.ThreeProbeExample | src/api/api.ts:32-43 | results with distinct URLs probed with 200, 404 and a thrown error validate to the first one alone |
| Api.DenormalizeTab | src/api/api.ts:12-14 | the rename never yields "character", leaves every other tab unchanged, and yields "characters" exactly for "character" and "characters" |
| Api.DenormalizeTabIdempotent | src/api/api.ts:12-14 | applying the rename twice is applying it once |
| Api.SearchProvider.constructor | src/api/api.ts:3-7 | a new provider starts with counter 0 and no show-more capability, with its backend's name, tabs, builder and parser |
| Api.SearchProvider.Begin | src/api/api.ts:16-22 | a short query yields `[]` with no request and the counter unchanged; any other query increments the counter by one, captures the new value and sends `fetchUrl` of the caller's raw tab and query |
| Api.SearchProvider.CheckAndParse | src/api/api.ts:24-25 | a response is dropped without parsing exactly when the counter has passed its token; otherwise it is parsed for the caller's raw tab |
| Api.SearchProvider.Complete | src/api/api.ts:24-26 | with no search begun during validation: a response whose token the counter has passed yields `[]`; otherwise the validated parse of the response for the raw tab, a subsequence of the parse |
| Api.SearchProvider.Recheck | src/api/api.ts:24 | the corrected second staleness test: stale validated results become `[]`, current ones pass unchanged |
| Api.SearchProvider.Search | src/api/api.ts:16-27 | a search with no other search begun during its request yields `[]` for a short query and otherwise the validated parse of its own response; the counter advances as for `Begin` |
| Api.SearchProvider.ShowMore | src/api/api.ts:47-49 | the default pagination yields `[]` for every tab and selected result |
| Api.BeginAll | src/api/api.ts:17-20 | beginning a run of searches on one provider moves its counter to `AdvanceAll` of the run and captures exactly the tokens `IssuedTokens` lists |
| Api.AdvanceAllCounts | src/api/api.ts:17-20 | after a run of searches the counter has grown by the number of queries that passed the length gate |
| Api.IssuedTokensConsecutive | src/api/api.ts:20 | the captured tokens are one per gated query and are the consecutive numbers after the starting counter |
| Api.TokensStrictlyIncrease | src/api/api.ts:20 | a search begun later captures a strictly larger token, so no two searches share a token |
| Api.OnlyLatestIsCurrent | src/api/api.ts:20-24 | after a run of searches has begun, a search's token is stale exactly when it is not the latest one |
| Api.StaleIffNewerSent | src/api/api.ts:17-24 | a search is discarded exactly when some query begun between its start and its completion passed the length gate |
| Api.OverlappingSearches | src/api/api.ts:16-27 | of two searches that overlap through their main requests, the first yields `[]` and the second its validated results, whichever response arrives first |
| Api.StaleSearchStillDelivers | src/api/api.ts:24-26 | a search that passes the token test and is then superseded while its probes are in flight still yields its validated results, after the newer search delivered its own |
| Api.StaleSearchDiscardedByRecheck | src/api/api.ts:24-26 | with a second token test after validation, the same superseded search yields `[]` and the newer one its validated results |

## Findings

| source | as written | input that shows it | evidently intended | confidence | as-written member | corrected member |
|---|---|---|---|---|---|---|
| src/api/api.ts:24-26 | the token is tested once, before `filterValidResults` awaits the probes | search A's response arrives and passes the test; search B begins and delivers; then A's probes settle with one result answered 200, so A returns that result after B's | a search superseded at any point before it returns yields `[]` | medium, not executed | Api.StaleSearchStillDelivers | Api.StaleSearchDiscardedByRecheck |

`search` itself is modelled as written: `Complete` and `Search` have no
second test. `Recheck` is the step a corrected `search` would add after
validation. `StaleSearchDiscardedByRecheck` uses it and proves that the
superseded search then yields nothing.

## Left out

- Api.SearchProvider.Complete — reads the token once, before validation, as
  the source does. It is atomic only for a search during whose probes no
  other search begins. An interleaving that begins a search inside that
  window is modelled with `CheckAndParse` and `FilterValidResults` as
  separate steps (`StaleSearchStillDelivers`).

- The network: `fetch`, `resp.json()` and the HEAD requests are inputs
  (a decoded body, and the `probe` outcome of each request by position). A main request that fails or
  never resolves is a `Begin` with no `Complete`; its error propagates to
  the caller, which the model does not represent.
- Exceptions thrown by `processResult` are not modelled; the parser is a
  total function.
- `Promise.all` and the asynchronous scheduling inside validation: the
  probes run one after another, and validation is one step. Apart from the
  token window above, nothing else reads shared state while the probes are
  in flight. `ValidUrlsOrderFree` shows why the resulting set is the same
  for any order in which the probes settle.
- `console.warn` on a failed probe: logging only.
- The concrete `fetchURL` and `processResult` of the backends, `RequestInit`
  (kept as a string map), and the fields of `SearchResult` other than
  `image_url` (kept as an opaque map).
- `last_id` is a JavaScript number; the model uses an unbounded `nat`,
  so precision loss beyond 2^53 searches is not modelled.
- `query.length` counts UTF-16 code units; the model uses the length of
  the query as a sequence of characters.
- Backends that override `has_show_more` or `showMore` are not modelled;
  only the defaults of the base class are.
