/** The search provider: the query-length gate, the request token that
    suppresses stale responses, and the hand-off to a backend's request
    builder, response parser and the result validator. */
module Api {
  import opened Validation

  /** Queries shorter than this are answered with no results and no request. */
  const MinQueryLength := 3

  /** A request as a backend's `fetchURL` builds it: the URL and the transport
      options (method, headers, body, ...), an empty map when it gives none. */
  datatype FetchRequest = FetchRequest(url: string, options: map<string, string>)

  /** What the synchronous part of a search (everything before its first
      suspension) hands back: either the search is already over with
      `results`, or it has captured `token` and sent `request`, and will be
      completed with the same `tab` once the response arrives. */
  datatype Begun =
    | Finished(results: seq<SearchResult>)
    | Awaiting(token: nat, tab: string, request: FetchRequest)

  /** What the check after the main response yields: the response is
      dropped because a newer search has begun, or it is parsed into
      `results`, which still have to be validated. */
  datatype Checked = Discarded | Parsed(results: seq<SearchResult>)

  /** The rename of the externally visible tab "character" to the backends'
      "characters"; every other tab is left alone. `search` does not apply it
      (see `SearchProvider.Begin`). */
  function DenormalizeTab(tab: string): (internal: string)
    ensures internal != "character"
    ensures tab != "character" ==> internal == tab
    ensures internal == "characters" <==> tab == "character" || tab == "characters"
  {
    if tab == "character" then "characters" else tab
  }

  /** Applying the rename to a renamed tab changes nothing more. */
  lemma DenormalizeTabIdempotent(tab: string)
    ensures DenormalizeTab(DenormalizeTab(tab)) == DenormalizeTab(tab)
  {
  }

  /** One search provider instance. `Raw` is the type of the decoded response
      body its backend understands. */
  class SearchProvider<Raw> {
    /** The token of the most recently begun search; 0 before any. */
    var lastId: nat
    const hasShowMore: bool
    const name: string
    const tabs: seq<string>
    /** The backend's request builder, from tab and query. */
    const fetchUrl: (string, string) -> FetchRequest
    /** The backend's parser, from decoded response body and tab. */
    const processResult: (Raw, string) -> seq<SearchResult>

    constructor (name: string, tabs: seq<string>, fetchUrl: (string, string) -> FetchRequest,
                 processResult: (Raw, string) -> seq<SearchResult>)
      ensures lastId == 0 && !hasShowMore
      ensures this.name == name && this.tabs == tabs
      ensures this.fetchUrl == fetchUrl && this.processResult == processResult
    {
      lastId := 0;
      hasShowMore := false;
      this.name := name;
      this.tabs := tabs;
      this.fetchUrl := fetchUrl;
      this.processResult := processResult;
    }

    /** The part of `search` that runs before the network request suspends
        it: the length gate, then bumping and capturing the token, then
        building the request. The caller's tab goes to `fetchUrl` as it is. */
    method Begin(query: string, tab: string) returns (begun: Begun)
      modifies this`lastId
      ensures lastId == Advance(old(lastId), query)
      ensures |query| < MinQueryLength ==> begun == Finished([])
      ensures |query| >= MinQueryLength ==>
                begun == Awaiting(lastId, tab, fetchUrl(tab, query)) && lastId == old(lastId) + 1
    {
      if |query| < MinQueryLength {
        return Finished([]);
      }
      lastId := lastId + 1;
      var id := lastId;
      var request := fetchUrl(tab, query);
      begun := Awaiting(id, tab, request);
    }

    /** The step of `search` that runs once the decoded response `data` is
        in: if a newer search has begun since `token` was captured, the
        response is dropped without being parsed; otherwise it is parsed for
        the same raw `tab`. Validation, which suspends again, comes after. */
    method CheckAndParse(token: nat, tab: string, data: Raw) returns (checked: Checked)
      ensures checked == Discarded <==> Stale(token, lastId)
      ensures !Stale(token, lastId) ==> checked == Parsed(processResult(data, tab))
    {
      if lastId > token {
        return Discarded;
      }
      checked := Parsed(processResult(data, tab));
    }

    /** The rest of a search, from the main response on, when no other search
        begins while its probes are in flight: the check, the parse and the
        validation with `probe`. */
    method Complete(token: nat, tab: string, data: Raw, probe: nat -> ProbeOutcome)
      returns (results: seq<SearchResult>)
      ensures Stale(token, lastId) ==> results == []
      ensures !Stale(token, lastId) ==> results == Validated(processResult(data, tab), probe)
      ensures IsSubsequence(results, if Stale(token, lastId) then [] else processResult(data, tab))
    {
      var checked := CheckAndParse(token, tab, data);
      if checked.Discarded? {
        return [];
      }
      results := FilterValidResults(checked.results, probe);
    }

    /** A second staleness test, after validation: what `search` would need
        so that a search superseded while its probes are in flight yields
        nothing. The source has no such step. */
    method Recheck(token: nat, validated: seq<SearchResult>) returns (results: seq<SearchResult>)
      ensures Stale(token, lastId) ==> results == []
      ensures !Stale(token, lastId) ==> results == validated
    {
      results := if lastId > token then [] else validated;
    }

    /** A search whose response arrives with no other search begun on this
        instance in the meantime: `respond` stands for the network, from
        request to decoded body. */
    method Search(query: string, tab: string, respond: FetchRequest -> Raw, probe: nat -> ProbeOutcome)
      returns (results: seq<SearchResult>)
      modifies this`lastId
      ensures lastId == Advance(old(lastId), query)
      ensures |query| < MinQueryLength ==> results == []
      ensures |query| >= MinQueryLength ==>
                results == Validated(processResult(respond(fetchUrl(tab, query)), tab), probe)
    {
      var begun := Begin(query, tab);
      if begun.Finished? {
        return begun.results;
      }
      results := Complete(begun.token, begun.tab, respond(begun.request), probe);
    }

    /** The default pagination: nothing more to show, whatever the tab and
        the selected result. */
    method ShowMore(tab: string, selected: SearchResult) returns (more: seq<SearchResult>)
      ensures more == []
    {
      more := [];
    }
  }

  /** The token counter after beginning a search for `query`: unchanged for a
      short query, one more otherwise. */
  function Advance(lastId: nat, query: string): nat {
    if |query| < MinQueryLength then lastId else lastId + 1
  }

  /** A search with `token` is stale once the counter has moved past it. */
  predicate Stale(token: nat, lastId: nat) {
    lastId > token
  }

  /** The number of queries that pass the length gate. */
  function CountSent(queries: seq<string>): nat {
    if queries == [] then 0
    else (if |queries[0]| < MinQueryLength then 0 else 1) + CountSent(queries[1..])
  }

  /** The counter after beginning searches for `queries` in order, from `lastId`. */
  function AdvanceAll(lastId: nat, queries: seq<string>): nat
    decreases |queries|
  {
    if queries == [] then lastId else AdvanceAll(Advance(lastId, queries[0]), queries[1..])
  }

  /** The tokens captured by the searches for `queries`, begun in order from
      `lastId`, one per query that passes the length gate. */
  function IssuedTokens(lastId: nat, queries: seq<string>): seq<nat>
    decreases |queries|
  {
    if queries == [] then []
    else
      (if |queries[0]| < MinQueryLength then [] else [lastId + 1])
        + IssuedTokens(Advance(lastId, queries[0]), queries[1..])
  }

  /** Beginning N searches that pass the gate raises the counter by exactly N;
      short queries leave it alone. */
  lemma {:induction false} AdvanceAllCounts(lastId: nat, queries: seq<string>)
    ensures AdvanceAll(lastId, queries) == lastId + CountSent(queries)
    decreases |queries|
  {
    if queries != [] {
      AdvanceAllCounts(Advance(lastId, queries[0]), queries[1..]);
    }
  }

  lemma {:induction false} CountSentAppend(a: seq<string>, b: seq<string>)
    ensures CountSent(a + b) == CountSent(a) + CountSent(b)
  {
    if a == [] {
      assert a + b == b;
    } else {
      assert (a + b)[0] == a[0] && (a + b)[1..] == a[1..] + b;
      CountSentAppend(a[1..], b);
    }
  }

  /** The tokens of successive searches are the consecutive numbers after the
      starting counter, so they strictly increase in call order and never
      collide; the last one is the counter's final value. */
  lemma {:induction false} IssuedTokensConsecutive(lastId: nat, queries: seq<string>)
    ensures |IssuedTokens(lastId, queries)| == CountSent(queries)
    ensures forall i :: 0 <= i < |IssuedTokens(lastId, queries)| ==> IssuedTokens(lastId, queries)[i] == lastId + i + 1
    decreases |queries|
  {
    if queries != [] {
      var next := Advance(lastId, queries[0]);
      IssuedTokensConsecutive(next, queries[1..]);
      var tail := IssuedTokens(next, queries[1..]);
      if |queries[0]| >= MinQueryLength {
        assert IssuedTokens(lastId, queries) == [lastId + 1] + tail;
      } else {
        assert IssuedTokens(lastId, queries) == tail;
      }
    }
  }

  /** Beginning one more search after a run: the counter moves as `Advance` says. */
  lemma {:induction false} AdvanceAllSnoc(lastId: nat, queries: seq<string>, query: string)
    ensures AdvanceAll(lastId, queries + [query]) == Advance(AdvanceAll(lastId, queries), query)
    decreases |queries|
  {
    if queries == [] {
      assert queries + [query] == [query] && [query][1..] == [];
    } else {
      assert (queries + [query])[0] == queries[0] && (queries + [query])[1..] == queries[1..] + [query];
      AdvanceAllSnoc(Advance(lastId, queries[0]), queries[1..], query);
    }
  }

  /** Beginning one more search after a run: it adds the next token, if any. */
  lemma {:induction false} IssuedTokensSnoc(lastId: nat, queries: seq<string>, query: string)
    ensures IssuedTokens(lastId, queries + [query]) ==
              IssuedTokens(lastId, queries) + (if |query| < MinQueryLength then [] else [AdvanceAll(lastId, queries) + 1])
    decreases |queries|
  {
    if queries == [] {
      assert queries + [query] == [query] && [query][1..] == [];
    } else {
      var next := Advance(lastId, queries[0]);
      assert (queries + [query])[0] == queries[0] && (queries + [query])[1..] == queries[1..] + [query];
      IssuedTokensSnoc(next, queries[1..], query);
      var first: seq<nat> := if |queries[0]| < MinQueryLength then [] else [lastId + 1];
      var last: seq<nat> := if |query| < MinQueryLength then [] else [AdvanceAll(next, queries[1..]) + 1];
      assert IssuedTokens(lastId, queries + [query]) == first + (IssuedTokens(next, queries[1..]) + last);
      assert first + (IssuedTokens(next, queries[1..]) + last) == (first + IssuedTokens(next, queries[1..])) + last;
    }
  }

  /** Begins a search for each of `queries` in turn on `provider`, before any
      response arrives, and collects the tokens they capture: the counter
      and the tokens are those of `AdvanceAll` and `IssuedTokens`, so the
      lemmas about these two describe the provider itself. */
  method BeginAll<Raw>(provider: SearchProvider<Raw>, queries: seq<string>, tab: string) returns (tokens: seq<nat>)
    modifies provider
    ensures provider.lastId == AdvanceAll(old(provider.lastId), queries)
    ensures tokens == IssuedTokens(old(provider.lastId), queries)
  {
    ghost var start := provider.lastId;
    tokens := [];
    var i := 0;
    while i < |queries|
      invariant 0 <= i <= |queries|
      invariant provider.lastId == AdvanceAll(start, queries[..i])
      invariant tokens == IssuedTokens(start, queries[..i])
    {
      AdvanceAllSnoc(start, queries[..i], queries[i]);
      IssuedTokensSnoc(start, queries[..i], queries[i]);
      assert queries[..i + 1] == queries[..i] + [queries[i]];
      var begun := provider.Begin(queries[i], tab);
      if begun.Awaiting? {
        tokens := tokens + [begun.token];
      }
      i := i + 1;
    }
    assert queries[..i] == queries;
  }

  /** Tokens strictly increase in call order. */
  lemma TokensStrictlyIncrease(lastId: nat, queries: seq<string>, i: nat, j: nat)
    requires i < j < |IssuedTokens(lastId, queries)|
    ensures IssuedTokens(lastId, queries)[i] < IssuedTokens(lastId, queries)[j]
  {
    IssuedTokensConsecutive(lastId, queries);
  }

  /** After a run of searches has begun, exactly the latest one is not stale:
      every earlier one is discarded when its response arrives, whatever the
      order of arrival, and the latest is never discarded. */
  lemma OnlyLatestIsCurrent(lastId: nat, queries: seq<string>, i: nat)
    requires i < |IssuedTokens(lastId, queries)|
    ensures Stale(IssuedTokens(lastId, queries)[i], AdvanceAll(lastId, queries)) <==> i < |IssuedTokens(lastId, queries)| - 1
  {
    IssuedTokensConsecutive(lastId, queries);
    AdvanceAllCounts(lastId, queries);
  }

  /** A search for `query` begun after `before`, and completed after the
      searches for `after` have begun, is discarded exactly when at least one
      query of `after` passed the length gate. */
  lemma StaleIffNewerSent(lastId: nat, before: seq<string>, query: string, after: seq<string>)
    requires |query| >= MinQueryLength
    ensures Stale(AdvanceAll(lastId, before) + 1, AdvanceAll(lastId, before + [query] + after)) <==> CountSent(after) > 0
  {
    AdvanceAllCounts(lastId, before);
    AdvanceAllCounts(lastId, before + [query] + after);
    CountSentAppend(before, [query]);
    CountSentAppend(before + [query], after);
    assert CountSent([query]) == 1 by {
      assert [query][1..] == [];
    }
  }

  /** Two searches begun one after the other on a fresh provider, before
      either response arrives: whichever response comes first, the first
      search yields nothing and the second yields its validated results. */
  method OverlappingSearches<Raw>(fetchUrl: (string, string) -> FetchRequest,
                                  processResult: (Raw, string) -> seq<SearchResult>,
                                  first: string, second: string, tab: string,
                                  firstData: Raw, secondData: Raw,
                                  firstProbe: nat -> ProbeOutcome, secondProbe: nat -> ProbeOutcome,
                                  firstArrivesFirst: bool)
    returns (firstResults: seq<SearchResult>, secondResults: seq<SearchResult>)
    requires |first| >= MinQueryLength && |second| >= MinQueryLength
    ensures firstResults == []
    ensures secondResults == Validated(processResult(secondData, tab), secondProbe)
  {
    var provider := new SearchProvider("backend", [tab], fetchUrl, processResult);
    var a := provider.Begin(first, tab);
    var b := provider.Begin(second, tab);
    if firstArrivesFirst {
      firstResults := provider.Complete(a.token, a.tab, firstData, firstProbe);
      secondResults := provider.Complete(b.token, b.tab, secondData, secondProbe);
    } else {
      secondResults := provider.Complete(b.token, b.tab, secondData, secondProbe);
      firstResults := provider.Complete(a.token, a.tab, firstData, firstProbe);
    }
  }

  /** The staleness test runs once, before validation. Here the first
      search's response arrives and passes it; then a second search begins,
      and its response arrives and is validated; then the first search's
      probes settle. The first search is stale by then, yet it still yields
      its validated results, after the second search delivered its own. */
  method StaleSearchStillDelivers<Raw>(fetchUrl: (string, string) -> FetchRequest,
                                       processResult: (Raw, string) -> seq<SearchResult>,
                                       first: string, second: string, tab: string,
                                       firstData: Raw, secondData: Raw,
                                       firstProbe: nat -> ProbeOutcome, secondProbe: nat -> ProbeOutcome)
    returns (firstResults: seq<SearchResult>, secondResults: seq<SearchResult>, firstIsStale: bool)
    requires |first| >= MinQueryLength && |second| >= MinQueryLength
    ensures firstIsStale
    ensures firstResults == Validated(processResult(firstData, tab), firstProbe)
    ensures secondResults == Validated(processResult(secondData, tab), secondProbe)
  {
    var provider := new SearchProvider("backend", [tab], fetchUrl, processResult);
    var a := provider.Begin(first, tab);
    var checkedA := provider.CheckAndParse(a.token, a.tab, firstData);
    var b := provider.Begin(second, tab);
    secondResults := provider.Complete(b.token, b.tab, secondData, secondProbe);
    firstResults := FilterValidResults(checkedA.results, firstProbe);
    firstIsStale := Stale(a.token, provider.lastId);
  }

  /** The same interleaving with a second staleness test after validation:
      the superseded first search then yields nothing, and the second search
      still yields its validated results. */
  method StaleSearchDiscardedByRecheck<Raw>(fetchUrl: (string, string) -> FetchRequest,
                                            processResult: (Raw, string) -> seq<SearchResult>,
                                            first: string, second: string, tab: string,
                                            firstData: Raw, secondData: Raw,
                                            firstProbe: nat -> ProbeOutcome, secondProbe: nat -> ProbeOutcome)
    returns (firstResults: seq<SearchResult>, secondResults: seq<SearchResult>)
    requires |first| >= MinQueryLength && |second| >= MinQueryLength
    ensures firstResults == []
    ensures secondResults == Validated(processResult(secondData, tab), secondProbe)
  {
    var provider := new SearchProvider("backend", [tab], fetchUrl, processResult);
    var a := provider.Begin(first, tab);
    var checkedA := provider.CheckAndParse(a.token, a.tab, firstData);
    var b := provider.Begin(second, tab);
    var validatedB := provider.Complete(b.token, b.tab, secondData, secondProbe);
    secondResults := provider.Recheck(b.token, validatedB);
    var validatedA := FilterValidResults(checkedA.results, firstProbe);
    firstResults := provider.Recheck(a.token, validatedA);
  }
}
