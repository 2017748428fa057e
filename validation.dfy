/** Result validation: a search result survives only if a HEAD probe of its
    image URL answers with status 200. Each result gets its own probe request,
    even when several results share a URL; the requests are network calls in
    the program, and here `probe(i)` is the outcome of the request sent for
    the result at position `i`. */
module Validation {

  /** A search result as the backends produce it: an image URL and whatever
      other fields the backend attaches, which the validator never looks at. */
  datatype SearchResult = SearchResult(imageUrl: string, fields: map<string, string>)

  /** What a HEAD probe of a URL comes back with: a response with a status
      code, or a thrown error (network failure, malformed URL, ...). */
  datatype ProbeOutcome = Status(code: int) | Error

  /** The only status that marks an image as reachable. */
  const OkStatus := 200

  /** A probe accepts a URL exactly when it answered with status 200; every
      other status and every thrown error reject it. */
  predicate Accepted(o: ProbeOutcome) {
    o.Status? && o.code == OkStatus
  }

  /** The image URLs of `results` for which at least one probe request
      answered 200. */
  function ValidUrls(results: seq<SearchResult>, probe: nat -> ProbeOutcome): (urls: set<string>)
    ensures forall u :: u in urls <==>
              exists i :: 0 <= i < |results| && results[i].imageUrl == u && Accepted(probe(i))
  {
    if results == [] then {}
    else
      var n := |results| - 1;
      var prefix := results[..n];
      assert forall i :: 0 <= i < n ==> prefix[i] == results[i];
      ValidUrls(prefix, probe) + (if Accepted(probe(n)) then {results[n].imageUrl} else {})
  }

  /** The set-building loop: probe every result's image URL in turn and add
      the accepted ones to the set. A rejected or failed probe adds nothing and
      the loop goes on with the next result; the set only ever grows. */
  method CollectValidUrls(results: seq<SearchResult>, probe: nat -> ProbeOutcome) returns (validUrls: set<string>)
    ensures validUrls == ValidUrls(results, probe)
    ensures forall u :: u in validUrls <==>
              exists i :: 0 <= i < |results| && results[i].imageUrl == u && Accepted(probe(i))
  {
    validUrls := {};
    var i := 0;
    while i < |results|
      invariant 0 <= i <= |results|
      invariant validUrls == ValidUrls(results[..i], probe)
    {
      var head := probe(i);
      if head.Status? && head.code == OkStatus {
        validUrls := validUrls + {results[i].imageUrl};
      }
      assert results[..i + 1][..i] == results[..i];
      i := i + 1;
    }
    assert results[..i] == results;
  }

  /** The final filter: the results whose image URL is in `validUrls`, in
      their original order. */
  function KeepValid(results: seq<SearchResult>, validUrls: set<string>): (kept: seq<SearchResult>)
    ensures |kept| <= |results|
    ensures forall x :: x in kept <==> x in results && x.imageUrl in validUrls
  {
    if results == [] then []
    else
      assert forall x :: x in results <==> x == results[0] || x in results[1..];
      (if results[0].imageUrl in validUrls then [results[0]] else []) + KeepValid(results[1..], validUrls)
  }

  /** What validating `results` against `probe` yields. */
  function Validated(results: seq<SearchResult>, probe: nat -> ProbeOutcome): seq<SearchResult> {
    KeepValid(results, ValidUrls(results, probe))
  }

  /** `sub` is `s` with some elements deleted, the rest in their order. */
  predicate IsSubsequence<T(==)>(sub: seq<T>, s: seq<T>)
    decreases |s|
  {
    if s == [] then sub == []
    else (sub != [] && sub[0] == s[0] && IsSubsequence(sub[1..], s[1..])) || IsSubsequence(sub, s[1..])
  }

  /** The filter deletes elements and never reorders them. */
  lemma {:induction false} KeepValidIsSubsequence(results: seq<SearchResult>, validUrls: set<string>)
    ensures IsSubsequence(KeepValid(results, validUrls), results)
  {
    if results != [] {
      var kept, rest := KeepValid(results, validUrls), KeepValid(results[1..], validUrls);
      KeepValidIsSubsequence(results[1..], validUrls);
      if results[0].imageUrl in validUrls {
        assert kept == [results[0]] + rest;
        assert kept != [] && kept[0] == results[0] && kept[1..] == rest;
      } else {
        assert kept == rest;
      }
    }
  }

  /** Every copy of a kept result is kept and every copy of a dropped one is
      dropped: together with the subsequence property this pins the output
      down to exactly one sequence. */
  lemma {:induction false} KeepValidCounts(results: seq<SearchResult>, validUrls: set<string>, x: SearchResult)
    ensures multiset(KeepValid(results, validUrls))[x] == if x.imageUrl in validUrls then multiset(results)[x] else 0
  {
    if results != [] {
      KeepValidCounts(results[1..], validUrls, x);
      assert results == [results[0]] + results[1..];
      assert multiset(results) == multiset([results[0]]) + multiset(results[1..]);
    }
  }

  /** Filtering twice with the same set is filtering once. */
  lemma {:induction false} KeepValidIdempotent(results: seq<SearchResult>, validUrls: set<string>)
    ensures KeepValid(KeepValid(results, validUrls), validUrls) == KeepValid(results, validUrls)
  {
    if results != [] {
      var kept, rest := KeepValid(results, validUrls), KeepValid(results[1..], validUrls);
      KeepValidIdempotent(results[1..], validUrls);
      if results[0].imageUrl in validUrls {
        assert kept == [results[0]] + rest;
        assert kept != [] && kept[0] == results[0] && kept[1..] == rest;
        assert KeepValid(kept, validUrls) == [results[0]] + KeepValid(rest, validUrls);
      } else {
        assert kept == rest;
      }
    }
  }

  /** Validity is a property of the URL, not of the result: two results that
      share an image URL are kept together or dropped together. */
  lemma SharedUrlKeptTogether(results: seq<SearchResult>, probe: nat -> ProbeOutcome, a: SearchResult, b: SearchResult)
    requires a in results && b in results && a.imageUrl == b.imageUrl
    ensures a in Validated(results, probe) <==> b in Validated(results, probe)
  {
  }

  /** A result of the input survives validation exactly when some probe
      request for its image URL, its own or a sibling's, answered 200. */
  lemma ValidatedMembership(results: seq<SearchResult>, probe: nat -> ProbeOutcome, x: SearchResult)
    ensures x in Validated(results, probe) <==>
              x in results && exists i :: 0 <= i < |results| && results[i].imageUrl == x.imageUrl && Accepted(probe(i))
  {
  }

  /** When every request for one URL comes back the same, each result survives
      exactly when its own probe answered 200. */
  lemma ConsistentProbesDecideEach(results: seq<SearchResult>, probe: nat -> ProbeOutcome, k: nat)
    requires forall i, j :: 0 <= i < |results| && 0 <= j < |results| && results[i].imageUrl == results[j].imageUrl ==> probe(i) == probe(j)
    requires k < |results|
    ensures results[k] in Validated(results, probe) <==> Accepted(probe(k))
  {
  }

  /** Two results with one URL whose first request throws and whose second
      answers 200: both survive, because one accepted request suffices. */
  lemma SiblingProbeSuffices(a: SearchResult, b: SearchResult, probe: nat -> ProbeOutcome)
    requires a.imageUrl == b.imageUrl
    requires probe(0) == Error && probe(1) == Status(200)
    ensures Validated([a, b], probe) == [a, b]
  {
  }

  /** The probe outcomes of `probe` from position `offset` on. */
  function Shifted(probe: nat -> ProbeOutcome, offset: nat): nat -> ProbeOutcome {
    (i: nat) => probe(offset + i)
  }

  /** Probing a batch is probing its parts: a failed or rejected probe in one
      part takes nothing away from what the other part contributes. */
  lemma ValidUrlsAppend(a: seq<SearchResult>, b: seq<SearchResult>, probe: nat -> ProbeOutcome)
    ensures ValidUrls(a + b, probe) == ValidUrls(a, probe) + ValidUrls(b, Shifted(probe, |a|))
  {
    var ab, later := a + b, Shifted(probe, |a|);
    forall u | u in ValidUrls(ab, probe)
      ensures u in ValidUrls(a, probe) + ValidUrls(b, later)
    {
      var i :| 0 <= i < |ab| && ab[i].imageUrl == u && Accepted(probe(i));
      if i >= |a| {
        assert b[i - |a|] == ab[i] && later(i - |a|) == probe(i);
      }
    }
    forall u | u in ValidUrls(b, later)
      ensures u in ValidUrls(ab, probe)
    {
      var j :| 0 <= j < |b| && b[j].imageUrl == u && Accepted(later(j));
      assert ab[|a| + j] == b[j];
    }
    forall u | u in ValidUrls(a, probe)
      ensures u in ValidUrls(ab, probe)
    {
      var j :| 0 <= j < |a| && a[j].imageUrl == u && Accepted(probe(j));
      assert ab[j] == a[j];
    }
  }

  /** Each result paired with the outcome of its probe request. */
  function Probed(results: seq<SearchResult>, probe: nat -> ProbeOutcome): (pairs: seq<(SearchResult, ProbeOutcome)>)
    ensures |pairs| == |results|
    ensures forall i :: 0 <= i < |results| ==> pairs[i] == (results[i], probe(i))
  {
    seq(|results|, i requires 0 <= i < |results| => (results[i], probe(i)))
  }

  /** The valid set seen through the (result, outcome) pairs. */
  lemma ValidUrlsByPairs(results: seq<SearchResult>, probe: nat -> ProbeOutcome, u: string)
    ensures u in ValidUrls(results, probe) <==>
              exists e :: e in Probed(results, probe) && e.0.imageUrl == u && Accepted(e.1)
  {
    var pairs := Probed(results, probe);
    if u in ValidUrls(results, probe) {
      var i :| 0 <= i < |results| && results[i].imageUrl == u && Accepted(probe(i));
      assert pairs[i] in pairs;
    }
    if exists e :: e in pairs && e.0.imageUrl == u && Accepted(e.1) {
      var e :| e in pairs && e.0.imageUrl == u && Accepted(e.1);
      var i :| 0 <= i < |pairs| && pairs[i] == e;
      assert results[i].imageUrl == u && Accepted(probe(i));
    }
  }

  /** The valid set depends only on which (result, outcome) pairs there are,
      not on the order in which the probes run or settle; this is why running
      the probes one after another gives the set the concurrent fan-out
      builds. */
  lemma ValidUrlsOrderFree(a: seq<SearchResult>, pa: nat -> ProbeOutcome, b: seq<SearchResult>, pb: nat -> ProbeOutcome)
    requires multiset(Probed(a, pa)) == multiset(Probed(b, pb))
    ensures ValidUrls(a, pa) == ValidUrls(b, pb)
  {
    forall u
      ensures u in ValidUrls(a, pa) <==> u in ValidUrls(b, pb)
    {
      ValidUrlsByPairs(a, pa, u);
      ValidUrlsByPairs(b, pb, u);
      forall e
        ensures e in Probed(a, pa) <==> e in Probed(b, pb)
      {
        assert e in Probed(a, pa) <==> e in multiset(Probed(a, pa));
        assert e in Probed(b, pb) <==> e in multiset(Probed(b, pb));
      }
    }
  }

  /** The validator over a batch: collect the valid URLs, then filter. */
  method FilterValidResults(results: seq<SearchResult>, probe: nat -> ProbeOutcome) returns (valid: seq<SearchResult>)
    ensures valid == Validated(results, probe)
    ensures IsSubsequence(valid, results)
    ensures forall x :: x in valid <==>
              x in results && exists i :: 0 <= i < |results| && results[i].imageUrl == x.imageUrl && Accepted(probe(i))
  {
    var validUrls := CollectValidUrls(results, probe);
    valid := KeepValid(results, validUrls);
    KeepValidIsSubsequence(results, validUrls);
  }

  /** Three results with distinct URLs whose probes answer 200, answer 404 and
      throw: only the first survives, and the failed probe does not abort
      validation. */
  lemma ThreeProbeExample(a: SearchResult, b: SearchResult, c: SearchResult, probe: nat -> ProbeOutcome)
    requires a.imageUrl != b.imageUrl && a.imageUrl != c.imageUrl && b.imageUrl != c.imageUrl
    requires probe(0) == Status(200) && probe(1) == Status(404) && probe(2) == Error
    ensures Validated([a, b, c], probe) == [a]
  {
    var urls := ValidUrls([a, b, c], probe);
    assert [a, b, c][0] == a && [a, b, c][1] == b && [a, b, c][2] == c;
    assert a.imageUrl in urls && b.imageUrl !in urls && c.imageUrl !in urls;
    assert [a, b, c][1..] == [b, c] && [b, c][1..] == [c] && [c][1..] == [];
    assert KeepValid([c], urls) == [];
    assert KeepValid([b, c], urls) == [];
    assert KeepValid([a, b, c], urls) == [a];
  }
}
