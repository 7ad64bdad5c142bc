/**
 * The logic the HTTP endpoints wrap around the index: the ingest length check, the rate-limit
 * cost of each endpoint, the `k` clamp, the delete argument check, the per-source grouping of
 * `/index_grouped` and the citation list sent ahead of a streamed answer.
 */
module Api {
  import opened Wrappers
  import opened Text
  import opened Records
  import opened MetaStore
  import opened Rag
  import opened RateLimit

  // ---------------------------------------------------------------------------
  // /ingest
  // ---------------------------------------------------------------------------

  const MismatchError := "texts and metas length mismatch"

  /**
   * `req.metas or [{} for _ in texts]`, then the length check: a missing or empty list of
   * metas stands for one empty dictionary per text; any other list must match the texts.
   */
  function IngestMetas(texts: seq<string>, metas: Option<seq<MetaArg>>): (r: Result<seq<MetaArg>, string>)
    ensures r.Ok? <==> metas.None? || metas.value == [] || |metas.value| == |texts|
    ensures r.Ok? ==> |r.value| == |texts|
    ensures r.Ok? && metas.Some? && metas.value != [] ==> r.value == metas.value
    ensures r.Ok? && (metas.None? || metas.value == []) ==> forall j :: 0 <= j < |r.value| ==> r.value[j] == Dict(EmptyMeta)
    ensures r.Err? ==> r.error == MismatchError
  {
    var ms := if metas.None? || metas.value == [] then seq(|texts|, _ => Dict(EmptyMeta)) else metas.value;
    if |texts| != |ms| then Err(MismatchError) else Ok(ms)
  }

  /**
   * `/ingest`: a mismatch is rejected before the index is touched; otherwise every text is
   * added with its meta, the index stays consistent and the answer is the number of texts.
   */
  method Ingest(index: RagIndex, texts: seq<string>, metas: Option<seq<MetaArg>>, dim: int) returns (r: Result<nat, string>)
    requires index.Valid()
    modifies index
    ensures r.Err? ==> r.error == MismatchError && unchanged(index)
    ensures r.Err? <==> metas.Some? && metas.value != [] && |metas.value| != |texts|
    ensures r.Ok? ==> r.value == |texts| && index.Valid() && index.size == old(index.size) + |texts|
    ensures r.Ok? ==>
      && index.texts == (if index.useTfidf then old(index.texts) + texts else old(index.texts))
      && index.Metas() == old(index.Metas()) + NewMetas(IngestMetas(texts, metas).value, index.useTfidf, index.texts, old(index.size))
    ensures r.Ok? && texts != [] ==>
      && index.rows == (if index.useTfidf then index.texts else DenseRows(old(index.rows), texts))
      && index.useFaiss == (old(index.useFaiss) || (!index.useTfidf && index.hasFaiss))
    ensures r.Ok? && texts == [] ==> unchanged(index)
  {
    var ms := IngestMetas(texts, metas);
    if ms.Err? {
      return Err(ms.error);
    }
    index.AddTexts(texts, ms.value, dim);
    return Ok(|texts|);
  }

  // ---------------------------------------------------------------------------
  // Rate limiting and k
  // ---------------------------------------------------------------------------

  /** Every endpoint's bucket holds 60 tokens refilled over 60 seconds. */
  const Capacity := 60
  const PerSeconds := 60

  datatype Endpoint = PlainQuery | LlmQuery | StreamQuery

  /** `cost = 5 if use_llm else 1` for `/query`, 10 for the streaming endpoints. */
  function Cost(e: Endpoint): int {
    match e
    case PlainQuery => 1
    case LlmQuery => 5
    case StreamQuery => 10
  }

  /** The address the bucket is kept for: the client host, or "unknown". */
  function ClientKey(host: Option<string>): string {
    host.GetOr("unknown")
  }

  /** The rate-limit check an endpoint makes before doing anything else. */
  method Admit(limiter: RateLimiter, host: Option<string>, e: Endpoint, now: real) returns (d: Decision)
    modifies limiter
    ensures var ip := ClientKey(host);
      var t := Refilled(Current(old(limiter.buckets), ip, Capacity, now), Capacity, Rate(Capacity, PerSeconds), now);
      && (d.allowed <==> t >= Cost(e) as real)
      && (d.allowed ==> d.retryAfter == 0.0 && d.remaining == Trunc(t - Cost(e) as real)
                        && limiter.buckets == old(limiter.buckets)[ip := Bucket(t - Cost(e) as real, now)])
      && (!d.allowed ==> d.retryAfter == (Cost(e) as real - t) / Rate(Capacity, PerSeconds)
                         && d.remaining == Trunc(t)
                         && limiter.buckets == old(limiter.buckets)[ip := Bucket(t, now)])
      && limiter.buckets.Keys == old(limiter.buckets).Keys + {ip}
      && (forall a :: a in old(limiter.buckets) && a != ip ==> limiter.buckets[a] == old(limiter.buckets)[a])
  {
    d := limiter.Allow(ClientKey(host), Capacity, PerSeconds, Cost(e), now);
  }

  /**
   * On a bucket no request has drawn on, or one that has had a minute to refill, any single
   * request of any endpoint is let through.
   */
  lemma FullBucketAdmits(b: Bucket, e: Endpoint, now: real)
    requires b.tokens >= 0.0 && b.last + PerSeconds as real <= now
    ensures Refilled(b, Capacity, Rate(Capacity, PerSeconds), now) >= Cost(e) as real
  {
    var rate := Rate(Capacity, PerSeconds);
    assert rate == 1.0;
    assert (now - b.last) * rate >= 60.0;
  }

  /** `RAG_MAX_K`, default 6 (an unset or unparsable setting is `None`). */
  const DefaultMaxK := 6

  function MaxK(setting: Option<int>): int {
    setting.GetOr(DefaultMaxK)
  }

  /** `min(k, max_k)`, the `k` that `/query` and `/query_stream_sse` search with. */
  function ClampK(k: int, setting: Option<int>): (c: int)
    ensures c <= MaxK(setting) && c <= k
    ensures c == k || c == MaxK(setting)
  {
    if k < MaxK(setting) then k else MaxK(setting)
  }

  /**
   * `/query` after embedding: the search with the clamped `k`. It never returns more hits than
   * the limit (`/query_stream` passes `k` through unclamped and is only bounded by `k`).
   */
  method ClampedQuery(index: RagIndex, k: int, setting: Option<int>, ranking: seq<nat>, dists: seq<real>)
    returns (r: Result<seq<Hit>, string>)
    requires index.Valid()
    requires |ranking| == |index.rows| && |dists| == |index.rows|
    ensures r.Ok? ==> (|r.value| <= MaxK(setting) && |r.value| <= k) || r.value == []
    ensures r.Err? ==> ClampK(k, setting) < 1
  {
    r := index.Query(ClampK(k, setting), ranking, dists);
  }

  // ---------------------------------------------------------------------------
  // /delete
  // ---------------------------------------------------------------------------

  datatype Target = ById(id: int) | BySource(source: string)

  const MissingArgument := "Provide id or source"

  /** The argument check: an id, or else a non-empty source; the id wins when both are given. */
  function DeleteTarget(id: Option<int>, source: Option<string>): (r: Result<Target, string>)
    ensures r.Err? <==> id.None? && (source.None? || source.value == "")
    ensures r.Err? ==> r.error == MissingArgument
    ensures id.Some? ==> r == Ok(ById(id.value))
    ensures id.None? && r.Ok? ==> r == Ok(BySource(source.value)) && source.value != ""
  {
    if id.None? && (source.None? || source.value == "") then Err(MissingArgument)
    else if id.Some? then Ok(ById(id.value))
    else Ok(BySource(source.value))
  }

  /** Deleting one id removes one chunk when the id exists and none otherwise. */
  lemma RemovedOne(n: nat, id: int)
    ensures |Removed(n, set i | i in [id])| == if 0 <= id < n then 1 else 0
  {
    if 0 <= id < n {
      assert Removed(n, set i | i in [id]) == {id};
    } else {
      assert Removed(n, set i | i in [id]) == {};
    }
  }

  /**
   * `DELETE /delete`: a bad request changes nothing; otherwise the chosen removal runs, and
   * a removal by id reports at most one chunk.
   */
  method Delete(index: RagIndex, id: Option<int>, source: Option<string>, dim: int) returns (r: Result<nat, string>)
    requires index.Valid()
    modifies index
    ensures DeleteTarget(id, source).Err? ==> r == Err(MissingArgument) && unchanged(index)
    ensures r.Ok? ==> index.Valid()
    ensures r.Ok? && id.Some? ==> r.value == (if 0 <= id.value < old(index.size) then 1 else 0)
    ensures r.Ok? && id.None? ==> r.value == CountSource(old(index.Metas()), source.value)
    ensures r.Ok? && id.Some? ==> index.RebuiltFrom(KeptByIds(old(index.Metas()), {id.value}), dim)
    ensures r.Ok? && id.None? ==> index.RebuiltFrom(KeptBySource(old(index.Metas()), source.value), dim)
    ensures r.Ok? ==> index.useFaiss == (old(index.useFaiss) || (!index.useTfidf && index.hasFaiss))
    ensures DeleteTarget(id, source).Ok? ==>
      var kept := if id.Some? then KeptByIds(old(index.Metas()), {id.value})
                  else KeptBySource(old(index.Metas()), source.value);
      && (r.Err? <==> !index.useTfidf && exists j :: 0 <= j < |kept| && !HasText(kept[j]))
      && (r.Err? ==> r.error == MissingText && unchanged(index))
  {
    var target := DeleteTarget(id, source);
    if target.Err? {
      return Err(target.error);
    }
    match target.value {
      case ById(i) =>
        RemovedOne(index.size, i);
        assert (set j | j in [i]) == {i};
        r := index.RemoveByIds([i], dim);
      case BySource(s) =>
        r := index.RemoveBySource(s, dim);
    }
  }

  // ---------------------------------------------------------------------------
  // /index_grouped
  // ---------------------------------------------------------------------------

  /** One item of the grouped listing. */
  datatype Group = Group(source: string, count: nat)

  /** `(m or {}).get('source') or ""` */
  function SourceKey(l: Listed): string {
    l.meta.source.GetOr("")
  }

  /** How many listed metas are filed under `s`. */
  function Occurrences(ls: seq<Listed>, s: string): nat
    decreases |ls|
  {
    if ls == [] then 0
    else Occurrences(ls[..|ls| - 1], s) + (if SourceKey(ls[|ls| - 1]) == s then 1 else 0)
  }

  /** The count the groups hold for `s` (0 when there is no group for it). */
  function CountFor(gs: seq<Group>, s: string): nat
    decreases |gs|
  {
    if gs == [] then 0 else (if gs[0].source == s then gs[0].count else 0) + CountFor(gs[1..], s)
  }

  /** `sum(counts.values())` */
  function Total(gs: seq<Group>): nat
    decreases |gs|
  {
    if gs == [] then 0 else gs[0].count + Total(gs[1..])
  }

  /** No group is for `s`. */
  predicate Absent(gs: seq<Group>, s: string) {
    forall j :: 0 <= j < |gs| ==> gs[j].source != s
  }

  /** No source has two groups. */
  predicate Distinct(gs: seq<Group>)
    decreases |gs|
  {
    gs == [] || (Absent(gs[1..], gs[0].source) && Distinct(gs[1..]))
  }

  predicate Positive(gs: seq<Group>) {
    forall j :: 0 <= j < |gs| ==> gs[j].count >= 1
  }

  /** Sorted by source, ascending, with no source twice. */
  predicate StrictlySorted(gs: seq<Group>) {
    forall j :: 0 <= j < |gs| - 1 ==> StrLess(gs[j].source, gs[j + 1].source)
  }

  /** `counts[s] += 1` on the dictionary, seen as its items in insertion order. */
  function Bump(gs: seq<Group>, s: string): seq<Group>
    decreases |gs|
  {
    if gs == [] then [Group(s, 1)]
    else if gs[0].source == s then [Group(s, gs[0].count + 1)] + gs[1..]
    else [gs[0]] + Bump(gs[1..], s)
  }

  /** `sorted(counts.items(), key=source)`, by inserting the items one after another. */
  function Insert(sorted: seq<Group>, g: Group): seq<Group>
    decreases |sorted|
  {
    if sorted == [] then [g]
    else if StrLess(g.source, sorted[0].source) then [g] + sorted
    else [sorted[0]] + Insert(sorted[1..], g)
  }

  function SortGroups(gs: seq<Group>): seq<Group>
    decreases |gs|
  {
    if gs == [] then [] else Insert(SortGroups(gs[1..]), gs[0])
  }

  /** Counting one more meta under `s` adds one to its group, creating it if new. */
  lemma {:induction false} BumpCount(gs: seq<Group>, s: string, t: string)
    ensures CountFor(Bump(gs, s), t) == CountFor(gs, t) + (if t == s then 1 else 0)
    ensures Total(Bump(gs, s)) == Total(gs) + 1
    decreases |gs|
  {
    if gs != [] && gs[0].source != s {
      BumpCount(gs[1..], s, t);
      assert Bump(gs, s)[1..] == Bump(gs[1..], s);
    } else if gs != [] {
      assert Bump(gs, s)[1..] == gs[1..];
    }
  }

  /** Counting never creates a second group for a source. */
  lemma {:induction false} BumpDistinct(gs: seq<Group>, s: string)
    requires Distinct(gs) && Positive(gs)
    ensures Distinct(Bump(gs, s)) && Positive(Bump(gs, s))
    decreases |gs|
  {
    var b := Bump(gs, s);
    if gs == [] {
    } else if gs[0].source == s {
      assert b[1..] == gs[1..];
    } else {
      BumpDistinct(gs[1..], s);
      BumpAbsent(gs[1..], s, gs[0].source);
      assert b[1..] == Bump(gs[1..], s);
    }
  }

  lemma {:induction false} BumpAbsent(gs: seq<Group>, s: string, x: string)
    requires Absent(gs, x) && x != s
    ensures Absent(Bump(gs, s), x)
    decreases |gs|
  {
    if gs != [] && gs[0].source != s {
      BumpAbsent(gs[1..], s, x);
      var b := Bump(gs, s);
      assert b[1..] == Bump(gs[1..], s);
      assert forall j :: 1 <= j < |b| ==> b[j] == b[1..][j - 1];
    }
  }

  /** Inserting a group adds its count to its source and to the total. */
  lemma {:induction false} InsertCount(sorted: seq<Group>, g: Group, t: string)
    ensures CountFor(Insert(sorted, g), t) == CountFor(sorted, t) + (if t == g.source then g.count else 0)
    ensures Total(Insert(sorted, g)) == Total(sorted) + g.count
    decreases |sorted|
  {
    var r := Insert(sorted, g);
    if sorted == [] {
    } else if StrLess(g.source, sorted[0].source) {
      assert r[1..] == sorted;
    } else {
      InsertCount(sorted[1..], g, t);
      assert r[1..] == Insert(sorted[1..], g);
    }
  }

  /** Inserting keeps every group, adds the new one, and starts with it or with the old head. */
  lemma {:induction false} InsertMembers(sorted: seq<Group>, g: Group)
    ensures var r := Insert(sorted, g);
      && |r| == |sorted| + 1
      && (forall j :: 0 <= j < |r| ==> r[j] == g || r[j] in sorted)
      && (r[0] == g || r[0] == sorted[0])
    decreases |sorted|
  {
    if sorted != [] && !StrLess(g.source, sorted[0].source) {
      InsertMembers(sorted[1..], g);
      var r := Insert(sorted, g);
      var r' := Insert(sorted[1..], g);
      assert r == [sorted[0]] + r';
      forall j | 1 <= j < |r| ensures r[j] == g || r[j] in sorted {
        assert r[j] == r'[j - 1];
        assert r'[j - 1] == g || r'[j - 1] in sorted[1..];
      }
    }
  }

  /** Inserting a group for a new source keeps the list strictly sorted. */
  lemma {:induction false} InsertSorted(sorted: seq<Group>, g: Group)
    requires StrictlySorted(sorted) && Absent(sorted, g.source)
    ensures StrictlySorted(Insert(sorted, g))
    decreases |sorted|
  {
    if sorted != [] && !StrLess(g.source, sorted[0].source) {
      var rest := sorted[1..];
      assert StrictlySorted(rest) by {
        forall j | 0 <= j < |rest| - 1 ensures StrLess(rest[j].source, rest[j + 1].source) {
          assert rest[j] == sorted[j + 1] && rest[j + 1] == sorted[j + 2];
        }
      }
      assert Absent(rest, g.source) by {
        forall j | 0 <= j < |rest| ensures rest[j].source != g.source {
          assert rest[j] == sorted[j + 1];
        }
      }
      InsertSorted(rest, g);
      InsertMembers(rest, g);
      var r := Insert(sorted, g);
      var r' := Insert(rest, g);
      assert r == [sorted[0]] + r';
      assert StrLess(sorted[0].source, r'[0].source) by {
        if r'[0] == g {
          StrLessTotal(g.source, sorted[0].source);
        }
      }
      forall j | 0 <= j < |r| - 1 ensures StrLess(r[j].source, r[j + 1].source) {
        if j > 0 {
          assert r[j] == r'[j - 1] && r[j + 1] == r'[j];
        }
      }
    }
  }

  lemma InsertAbsent(sorted: seq<Group>, g: Group, x: string)
    requires Absent(sorted, x) && x != g.source
    ensures Absent(Insert(sorted, g), x)
  {
    InsertMembers(sorted, g);
  }

  lemma InsertPositive(sorted: seq<Group>, g: Group)
    requires Positive(sorted) && g.count >= 1
    ensures Positive(Insert(sorted, g))
  {
    InsertMembers(sorted, g);
  }

  /** Sorting keeps each source's count and the total. */
  lemma {:induction false} SortCount(gs: seq<Group>, t: string)
    ensures CountFor(SortGroups(gs), t) == CountFor(gs, t)
    ensures Total(SortGroups(gs)) == Total(gs)
    decreases |gs|
  {
    if gs != [] {
      SortCount(gs[1..], t);
      InsertCount(SortGroups(gs[1..]), gs[0], t);
    }
  }

  /** Sorting neither adds a source nor drops a positive count. */
  lemma {:induction false} SortAbsent(gs: seq<Group>, x: string)
    requires Absent(gs, x)
    ensures Absent(SortGroups(gs), x)
    decreases |gs|
  {
    if gs != [] {
      SortAbsent(gs[1..], x);
      InsertAbsent(SortGroups(gs[1..]), gs[0], x);
    }
  }

  lemma {:induction false} SortPositive(gs: seq<Group>)
    requires Positive(gs)
    ensures Positive(SortGroups(gs))
    decreases |gs|
  {
    if gs != [] {
      SortPositive(gs[1..]);
      InsertPositive(SortGroups(gs[1..]), gs[0]);
    }
  }

  /** Sorting groups with distinct sources gives a strictly sorted list. */
  lemma {:induction false} SortSorted(gs: seq<Group>)
    requires Distinct(gs)
    ensures StrictlySorted(SortGroups(gs))
    decreases |gs|
  {
    if gs != [] {
      SortSorted(gs[1..]);
      SortAbsent(gs[1..], gs[0].source);
      InsertSorted(SortGroups(gs[1..]), gs[0]);
    }
  }

  /** One more listed meta adds one to the occurrences of its source. */
  lemma OccurrencesSnoc(ls: seq<Listed>, i: nat, s: string)
    requires i < |ls|
    ensures Occurrences(ls[..i + 1], s) == Occurrences(ls[..i], s) + (if SourceKey(ls[i]) == s then 1 else 0)
  {
    assert ls[..i + 1][..i] == ls[..i];
  }

  /**
   * `/index_grouped` over the listed metas: one item per distinct source key, sorted by
   * source, each with the number of metas filed under it; `total_chunks` is the number of
   * metas.
   */
  method GroupBySource(ls: seq<Listed>) returns (items: seq<Group>, totalSources: nat, totalChunks: nat)
    ensures StrictlySorted(items) && Positive(items)
    ensures forall s :: CountFor(items, s) == Occurrences(ls, s)
    ensures totalSources == |items|
    ensures totalChunks == |ls|
  {
    var counts: seq<Group> := [];
    var i := 0;
    while i < |ls|
      invariant 0 <= i <= |ls|
      invariant Distinct(counts) && Positive(counts)
      invariant Total(counts) == i
      invariant forall s :: CountFor(counts, s) == Occurrences(ls[..i], s)
    {
      var key := SourceKey(ls[i]);
      BumpDistinct(counts, key);
      forall s ensures CountFor(Bump(counts, key), s) == Occurrences(ls[..i + 1], s) {
        BumpCount(counts, key, s);
        OccurrencesSnoc(ls, i, s);
      }
      BumpCount(counts, key, key);
      counts := Bump(counts, key);
      i := i + 1;
    }
    assert ls[..i] == ls;
    items := SortGroups(counts);
    SortSorted(counts);
    SortPositive(counts);
    forall s ensures CountFor(items, s) == CountFor(counts, s) {
      SortCount(counts, s);
    }
    totalSources := |items|;
    totalChunks := Total(counts);
  }

  /** `/index_grouped` on the index: the grouping of everything `get_metas(limit=None)` lists. */
  method IndexGrouped(index: RagIndex) returns (items: seq<Group>, totalSources: nat, totalChunks: nat)
    requires index.Valid()
    ensures StrictlySorted(items) && Positive(items)
    ensures forall s :: CountFor(items, s) == Occurrences(Listing(index.Metas()), s)
    ensures totalSources == |items| && totalChunks == index.size
  {
    var ls := index.GetMetas(None);
    assert ls == Listing(index.Metas());
    items, totalSources, totalChunks := GroupBySource(ls);
  }

  // ---------------------------------------------------------------------------
  // Citations of /query_stream_sse
  // ---------------------------------------------------------------------------

  /** One citation: its number, where it came from, its distance and a preview of its text. */
  datatype Citation = Citation(n: nat, source: Option<string>, chunk: Option<int>, score: real, preview: string)

  /** `r.get('meta') or {}` */
  function MetaOf(h: Hit): Meta {
    h.meta.GetOr(EmptyMeta)
  }

  const PreviewChars := 200

  /**
   * The citation list: the hits numbered 1, 2, ... in result order, each with its meta's
   * source and chunk, its score, and at most 200 leading characters of its text.
   */
  method Citations(rs: seq<Hit>) returns (cs: seq<Citation>)
    ensures |cs| == |rs|
    ensures forall j :: 0 <= j < |rs| ==>
      && cs[j].n == j + 1
      && cs[j].source == MetaOf(rs[j]).source && cs[j].chunk == MetaOf(rs[j]).chunk
      && cs[j].score == rs[j].score
      && |cs[j].preview| <= PreviewChars
      && cs[j].preview <= TextOf(rs[j])
      && (|TextOf(rs[j])| <= PreviewChars ==> cs[j].preview == TextOf(rs[j]))
      && (|TextOf(rs[j])| > PreviewChars ==> |cs[j].preview| == PreviewChars)
  {
    cs := [];
    var idx := 1;
    while idx <= |rs|
      invariant 1 <= idx <= |rs| + 1
      invariant |cs| == idx - 1
      invariant forall j :: 0 <= j < idx - 1 ==>
        && cs[j].n == j + 1
        && cs[j].source == MetaOf(rs[j]).source && cs[j].chunk == MetaOf(rs[j]).chunk
        && cs[j].score == rs[j].score
        && cs[j].preview == Prefix(TextOf(rs[j]), PreviewChars)
    {
      var r := rs[idx - 1];
      var meta := MetaOf(r);
      var preview := Prefix(meta.text.GetOr(""), PreviewChars);
      cs := cs + [Citation(idx, meta.source, meta.chunk, r.score, preview)];
      idx := idx + 1;
    }
  }
}
