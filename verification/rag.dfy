/**
 * The retrieval index (`RAGIndex`): the metadata table, the TF-IDF corpus and the stored
 * vectors, updated in place by ingestion and deletion.
 *
 * Vectors are not modelled as numbers: each stored row is represented by the text it embeds,
 * and the nearest-neighbour search is an oracle that ranks rows. The index runs in one of two
 * modes fixed at construction: TF-IDF (`useTfidf`), which refits on the whole corpus, or dense
 * sentence embeddings, stored in a FAISS index when FAISS is importable (`hasFaiss`) and in a
 * plain matrix otherwise.
 */
module Rag {
  import opened Wrappers
  import opened Text
  import opened Records
  import opened MetaStore

  const MissingText := "Cannot rebuild: missing text in metas; re-ingest required"

  /**
   * The rows a dense-mode `add_texts` leaves behind, as written: with FAISS the new vectors
   * are added to the index; without it the stored matrix is replaced by the new batch alone.
   */
  function DenseRowsAsWritten(hasFaiss: bool, rows: seq<string>, added: seq<string>): seq<string> {
    if hasFaiss then rows + added else added
  }

  /** The rows a dense-mode `add_texts` should leave behind in both cases: old rows, then new. */
  function DenseRows(rows: seq<string>, added: seq<string>): (r: seq<string>)
    ensures |r| == |rows| + |added|
    ensures r[..|rows|] == rows && r[|rows|..] == added
  {
    rows + added
  }

  /**
   * Without FAISS, a second dense ingestion leaves one row for two ids: the search can only
   * reach the newest chunk through row 0, which reports the metadata of id 0.
   */
  lemma DenseRowsAsWrittenLoseRows()
    ensures |DenseRowsAsWritten(false, ["a"], ["b"])| == 1
    ensures DenseRowsAsWritten(false, ["a"], ["b"])[0] == "b"
    ensures |DenseRows(["a"], ["b"])| == 2
  {
  }

  /**
   * The loop of `add_texts` that stores the metas: `args[i]` goes under id `start + i`, with its
   * corpus text in TF-IDF mode.
   */
  method StoreMetas(m: map<string, Entry>, args: seq<MetaArg>, tfidf: bool, corpus: seq<string>,
                    start: nat) returns (table: map<string, Entry>)
    ensures table == Assign(m, args, tfidf, corpus, start)
  {
    table := m;
    var i := 0;
    while i < |args|
      invariant 0 <= i <= |args|
      invariant table == Assign(m, args[..i], tfidf, corpus, start)
    {
      AssignSnoc(m, args, tfidf, corpus, start, i);
      table := table[Key(start + i) := Stored(NewMeta(args[i], tfidf, corpus, start + i))];
      i := i + 1;
    }
    assert args[..i] == args;
  }

  /**
   * The loop of `_rebuild_from_metas`: the kept metas under ids "0", "1", ..., and the
   * non-empty texts among them, in order.
   */
  method RenumberMetas(kept: seq<Meta>) returns (table: map<string, Entry>, present: seq<string>)
    ensures table == Renumber(kept) && present == Present(kept)
  {
    table := map[];
    present := [];
    var id := 0;
    while id < |kept|
      invariant 0 <= id <= |kept|
      invariant table == Renumber(kept[..id]) && present == Present(kept[..id])
    {
      assert kept[..id + 1][..id] == kept[..id];
      var m := kept[id];
      if HasText(m) {
        present := present + [m.text.value];
      }
      table := table[Key(id) := Stored(m)];
      id := id + 1;
    }
    assert kept[..id] == kept;
  }

  /**
   * The loop of `remove_by_ids` over the table's `n` ids: the metas whose ids are not in
   * `ids`, in id order, and the number of ids visited.
   */
  method SelectByIds(m: map<string, Entry>, n: nat, ids: set<int>) returns (kept: seq<Meta>, before: nat)
    requires Table(m, n)
    ensures kept == KeptByIds(MetasOf(m, n), ids) && before == n
  {
    ghost var metas := MetasOf(m, n);
    kept := [];
    before := 0;
    var id := 0;
    while id < n
      invariant 0 <= id <= n && before == id
      invariant kept == KeptByIds(metas[..id], ids)
    {
      assert metas[..id + 1][..id] == metas[..id];
      before := before + 1;
      if id !in ids {
        kept := kept + [m[Key(id)].meta];
      }
      id := id + 1;
    }
    assert metas[..id] == metas;
  }

  /**
   * The loop of `remove_by_source` over the table's `n` ids: the metas not from `source`, in
   * id order, and the number of ids visited.
   */
  method SelectBySource(m: map<string, Entry>, n: nat, source: string) returns (kept: seq<Meta>, before: nat)
    requires Table(m, n)
    ensures kept == KeptBySource(MetasOf(m, n), source) && before == n
  {
    ghost var metas := MetasOf(m, n);
    kept := [];
    before := 0;
    var id := 0;
    while id < n
      invariant 0 <= id <= n && before == id
      invariant kept == KeptBySource(metas[..id], source)
    {
      assert metas[..id + 1][..id] == metas[..id];
      before := before + 1;
      var meta := m[Key(id)].meta;
      if !FromSource(meta, source) {
        kept := kept + [meta];
      }
      id := id + 1;
    }
    assert metas[..id] == metas;
  }

  class RagIndex {
    /** TF-IDF mode, as opposed to dense sentence embeddings. */
    const useTfidf: bool
    /** FAISS is importable. */
    const hasFaiss: bool
    /** The vectors live in a FAISS index (`_use_faiss`). */
    var useFaiss: bool
    /** `id_to_meta` */
    var idToMeta: map<string, Entry>
    /** The TF-IDF corpus (`texts`), empty in dense mode. */
    var texts: seq<string>
    /** The text each stored vector embeds, in row order; empty when no vectors are stored. */
    var rows: seq<string>
    /** The number of stored chunks. */
    ghost var size: nat

    /**
     * The index is consistent: its table holds `size` metas under ids "0".."size-1", there is
     * one stored row per id, and the TF-IDF corpus is exactly the rows in TF-IDF mode and
     * unused otherwise.
     */
    ghost predicate Valid()
      reads this
    {
      && Table(idToMeta, size)
      && |rows| == size
      && (useTfidf ==> texts == rows && !useFaiss && !hasFaiss)
      && (!useTfidf ==> texts == [])
      && (useFaiss ==> hasFaiss)
    }

    /** The stored metas by id. */
    ghost function Metas(): seq<Meta>
      reads this
      requires Valid()
    {
      MetasOf(idToMeta, size)
    }

    /**
     * A new, empty index. In TF-IDF mode the vectoriser comes from the sklearn import that is
     * made only when FAISS is missing, so the two cannot be combined.
     */
    constructor (useTfidf: bool, hasFaiss: bool)
      requires !(useTfidf && hasFaiss)
      ensures Valid() && size == 0
      ensures this.useTfidf == useTfidf && this.hasFaiss == hasFaiss && !useFaiss
      ensures idToMeta == map[] && texts == [] && rows == []
    {
      this.useTfidf := useTfidf;
      this.hasFaiss := hasFaiss;
      useFaiss := false;
      idToMeta := map[];
      texts := [];
      rows := [];
      size := 0;
      new;
      assert IdKeys(0) == {};
    }

    /** `count()`: the number of keys other than "dim". */
    function Count(): (n: nat)
      reads this
      ensures Valid() ==> n == size
    {
      TableCount(idToMeta, size);
      CountKeys(idToMeta)
    }

    /**
     * `add_texts`: ids continue after the existing ones (the corpus length in TF-IDF mode, the
     * number of keys in dense mode); TF-IDF mode appends to the corpus and re-embeds all of
     * it, and gives each new meta its corpus text; dense mode stores the metas as given and
     * appends the new vectors; the width goes under "dim". An empty list changes nothing.
     */
    method AddTexts(added: seq<string>, args: seq<MetaArg>, dim: int)
      requires Valid()
      modifies this
      ensures added == [] ==> unchanged(this) && size == old(size)
      ensures added != [] ==>
        && texts == (if useTfidf then old(texts) + added else old(texts))
        && rows == (if useTfidf then texts else DenseRows(old(rows), added))
        && useFaiss == (old(useFaiss) || (!useTfidf && hasFaiss))
        && idToMeta == Assign(old(idToMeta), args, useTfidf, texts, old(size))[DimKey := Dim(dim)]
        && size == old(size) + |args|
        && Table(idToMeta, size)
        && MetasOf(idToMeta, size) == old(Metas()) + NewMetas(args, useTfidf, texts, old(size))
      ensures |args| == |added| ==> Valid()
    {
      if |added| == 0 {
        return;
      }
      var m0 := idToMeta;
      var start: nat := if useTfidf then |texts| else Count();
      var corpus := if useTfidf then texts + added else texts;
      assert start == size && Table(m0, start);
      ghost var metas0 := Metas();
      var table := StoreMetas(m0, args, useTfidf, corpus, start);
      AssignDimTable(m0, start, args, useTfidf, corpus, dim);
      var newRows := if useTfidf then corpus else DenseRows(rows, added);
      Install(corpus, newRows, useFaiss || (!useTfidf && hasFaiss), table[DimKey := Dim(dim)], start + |args|);
    }

    /** Replaces the index's state by the given one. */
    method Install(texts': seq<string>, rows': seq<string>, useFaiss': bool, idToMeta': map<string, Entry>,
                   ghost size': nat)
      modifies this
      ensures texts == texts' && rows == rows' && useFaiss == useFaiss' && idToMeta == idToMeta'
      ensures size == size'
    {
      texts, rows, useFaiss, idToMeta, size := texts', rows', useFaiss', idToMeta', size';
    }

    /**
     * The state `_rebuild_from_metas` leaves for the kept metas: ids renumbered from 0 with the
     * width under `"dim"` (0 for an empty TF-IDF corpus), the TF-IDF corpus the metas' texts,
     * and the rows that corpus in TF-IDF mode or the present texts in dense mode.
     */
    ghost predicate RebuiltFrom(kept: seq<Meta>, dim: int)
      reads this
    {
      && Valid() && size == |kept| && Metas() == kept
      && idToMeta == Renumber(kept)[DimKey := Dim(if useTfidf && kept == [] then 0 else dim)]
      && texts == (if useTfidf then CorpusOf(kept) else [])
      && rows == (if useTfidf then texts else Present(kept))
    }

    /**
     * `_rebuild_from_metas`: renumbers the kept metas from 0 and rebuilds the vectors from
     * their texts. In dense mode a kept meta without text is an error raised before anything
     * changes; otherwise the rows become the metas' texts and the corpus is cleared. In TF-IDF
     * mode the corpus becomes the metas' texts (`""` where missing) and the width is 0 when
     * nothing is kept. Returns the number of kept metas.
     */
    method Rebuild(kept: seq<Meta>, dim: int) returns (r: Result<nat, string>)
      requires Valid()
      modifies this
      ensures r.Err? <==> !useTfidf && exists j :: 0 <= j < |kept| && !HasText(kept[j])
      ensures r.Err? ==> r.error == MissingText && unchanged(this) && size == old(size)
      ensures r.Ok? ==>
        && r.value == |kept|
        && RebuiltFrom(kept, dim)
        && useFaiss == (old(useFaiss) || (!useTfidf && hasFaiss))
    {
      var table, present := RenumberMetas(kept);
      RenumberTable(kept);
      PresentAll(kept);
      if !useTfidf {
        if |present| != |kept| {
          return Err(MissingText);
        }
        SetDim(table, |kept|, dim);
        Install([], present, useFaiss || hasFaiss, table[DimKey := Dim(dim)], |kept|);
        return Ok(|kept|);
      }
      var corpus := CorpusOf(kept);
      var width := if corpus == [] then 0 else dim;
      SetDim(table, |kept|, width);
      Install(corpus, corpus, useFaiss, table[DimKey := Dim(width)], |kept|);
      return Ok(|kept|);
    }

    /**
     * `remove_by_ids`: keeps the metas whose ids are not listed, rebuilds, and returns how
     * many existing ids were listed.
     */
    method RemoveByIds(ids: seq<int>, dim: int) returns (r: Result<nat, string>)
      requires Valid()
      modifies this
      ensures var kept := KeptByIds(old(Metas()), set i | i in ids);
        && (r.Err? <==> !useTfidf && exists j :: 0 <= j < |kept| && !HasText(kept[j]))
        && (r.Err? ==> r.error == MissingText && unchanged(this))
        && (r.Ok? ==> r.value == |Removed(old(size), set i | i in ids)| && RebuiltFrom(kept, dim)
                      && useFaiss == (old(useFaiss) || (!useTfidf && hasFaiss)))
    {
      var idSet := set i | i in ids;
      ghost var metas := Metas();
      var kept, before := SelectByIds(idToMeta, Count(), idSet);
      KeptByIdsCount(metas, idSet);
      var after := Rebuild(kept, dim);
      match after {
        case Err(e) => r := Err(e);
        case Ok(a) => r := Ok(before - a);
      }
    }

    /**
     * `remove_by_source`: keeps the metas whose source differs, rebuilds, and returns how many
     * metas came from that source.
     */
    method RemoveBySource(source: string, dim: int) returns (r: Result<nat, string>)
      requires Valid()
      modifies this
      ensures var kept := KeptBySource(old(Metas()), source);
        && (r.Err? <==> !useTfidf && exists j :: 0 <= j < |kept| && !HasText(kept[j]))
        && (r.Err? ==> r.error == MissingText && unchanged(this))
        && (r.Ok? ==> r.value == CountSource(old(Metas()), source) && RebuiltFrom(kept, dim)
                      && useFaiss == (old(useFaiss) || (!useTfidf && hasFaiss)))
    {
      ghost var metas := Metas();
      var kept, before := SelectBySource(idToMeta, Count(), source);
      KeptBySourceCount(metas, source);
      var after := Rebuild(kept, dim);
      match after {
        case Err(e) => r := Err(e);
        case Ok(a) => r := Ok(before - a);
      }
    }

    /** `get_metas(limit)`: the stored metas with their ids, by ascending id, cut to `limit`. */
    method GetMetas(limit: Option<int>) returns (listed: seq<Listed>)
      requires Valid()
      ensures |listed| <= size
      ensures forall j :: 0 <= j < |listed| ==> listed[j] == Listed(j, Metas()[j])
      ensures limit.None? ==> |listed| == size
      ensures limit.Some? && limit.value >= 0 ==> |listed| == if limit.value < size then limit.value else size
      ensures limit.Some? && limit.value < 0 ==> |listed| == if size + limit.value < 0 then 0 else size + limit.value
    {
      var all: seq<Listed> := [];
      var n := Count();
      var id := 0;
      while id < n
        invariant 0 <= id <= n
        invariant all == Listing(Metas()[..id])
      {
        all := all + [Listed(id, idToMeta[Key(id)].meta)];
        id := id + 1;
      }
      assert Metas()[..id] == Metas();
      listed := if limit.Some? then Prefix(all, limit.value) else all;
    }

    /**
     * `query(text, k)` after the query has been embedded. `ranking` lists the rows from the
     * nearest on, as the search library returns them, and `dists` their distances. TF-IDF mode
     * with an empty corpus and an index with no vectors answer `[]`; a `k` below 1 is rejected
     * by the search library; otherwise the `min(k, rows)` nearest rows are reported with the
     * metas stored under their ids.
     */
    method Query(k: int, ranking: seq<nat>, dists: seq<real>) returns (r: Result<seq<Hit>, string>)
      requires Valid()
      requires |ranking| == |rows| && |dists| == |rows|
      ensures var empty := (useTfidf && texts == []) || (!useFaiss && rows == []);
        && (empty ==> r == Ok([]))
        && (!empty && k < 1 ==> r.Err?)
        && (!empty && k >= 1 ==>
              && r.Ok?
              && |r.value| == (if k < |rows| then k else |rows|)
              && forall j :: 0 <= j < |r.value| ==> r.value[j] == Hit(dists[j], Lookup(idToMeta, ranking[j], useFaiss)))
    {
      if useTfidf && texts == [] {
        return Ok([]);
      }
      if !useFaiss && rows == [] {
        return Ok([]);
      }
      if k < 1 {
        return Err("number of neighbours must be at least 1");
      }
      var n := if k < |rows| then k else |rows|;
      var hits: seq<Hit> := [];
      var j := 0;
      while j < n
        invariant 0 <= j <= n
        invariant |hits| == j
        invariant forall i :: 0 <= i < j ==> hits[i] == Hit(dists[i], Lookup(idToMeta, ranking[i], useFaiss))
      {
        hits := hits + [Hit(dists[j], Lookup(idToMeta, ranking[j], useFaiss))];
        j := j + 1;
      }
      return Ok(hits);
    }
  }
}
