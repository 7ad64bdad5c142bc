/**
 * The metadata table of the retrieval index, `id_to_meta`: chunk metadata under the decimal
 * keys "0", "1", ... of their ids, and the embedding width under the reserved key "dim".
 * The functions here are the values the index's methods compute, and the lemmas are what
 * those values guarantee.
 */
module MetaStore {
  import opened Wrappers
  import opened Text
  import opened Records

  /** A value of `id_to_meta`: a chunk's metadata, or the embedding width stored under "dim". */
  datatype Entry = Stored(meta: Meta) | Dim(dim: int)

  const DimKey := "dim"

  /** `str(id)` */
  function Key(id: nat): string {
    NatToString(id)
  }

  /** No id key collides with the reserved key. */
  lemma KeyNotDim(id: nat)
    ensures Key(id) != DimKey
  {
    assert IsDigit(Key(id)[0]);
  }

  /** The keys "0" .. "n-1". */
  function IdKeys(n: nat): set<string> {
    set id | 0 <= id < n :: Key(id)
  }

  /** The table holds metas under exactly "0" .. "n-1", and at most a width under "dim". */
  predicate Table(m: map<string, Entry>, n: nat) {
    && m.Keys - {DimKey} == IdKeys(n)
    && (forall id :: 0 <= id < n ==> Key(id) in m && m[Key(id)].Stored?)
    && (DimKey in m ==> m[DimKey].Dim?)
  }

  /** The metas of a table in id order. */
  function MetasOf(m: map<string, Entry>, n: nat): (ms: seq<Meta>)
    requires Table(m, n)
    ensures |ms| == n
  {
    seq(n, id requires 0 <= id < n => m[Key(id)].meta)
  }

  /** The number of keys other than "dim" (`count()`). */
  function CountKeys(m: map<string, Entry>): nat {
    |m.Keys - {DimKey}|
  }

  /** One key more: "0" .. "n" is "0" .. "n-1" and "n", which is new. */
  lemma IdKeysSnoc(n: nat)
    ensures IdKeys(n + 1) == IdKeys(n) + {Key(n)}
    ensures Key(n) !in IdKeys(n)
  {
    if Key(n) in IdKeys(n) {
      var id :| 0 <= id < n && Key(id) == Key(n);
      NatToStringInjective(id, n);
    }
    assert forall s :: s in IdKeys(n + 1) ==> s in IdKeys(n) + {Key(n)};
  }

  /** There are exactly `n` id keys. */
  lemma {:induction false} IdKeysCount(n: nat)
    ensures |IdKeys(n)| == n
  {
    if n > 0 {
      IdKeysCount(n - 1);
      IdKeysSnoc(n - 1);
    }
  }

  /** `count()` of a table is its number of metas. */
  lemma TableCount(m: map<string, Entry>, n: nat)
    ensures Table(m, n) ==> CountKeys(m) == n
  {
    IdKeysCount(n);
  }

  /** Writing the width under "dim" keeps the table and its metas. */
  lemma SetDim(m: map<string, Entry>, n: nat, dim: int)
    requires Table(m, n)
    ensures Table(m[DimKey := Dim(dim)], n)
    ensures MetasOf(m[DimKey := Dim(dim)], n) == MetasOf(m, n)
  {
    var m' := m[DimKey := Dim(dim)];
    assert m'.Keys - {DimKey} == m.Keys - {DimKey};
    forall id | 0 <= id < n ensures Key(id) in m' && m'[Key(id)] == m[Key(id)] {
      KeyNotDim(id);
    }
  }

  /** Adding the meta for id `n` to a table of `n` metas. */
  lemma TableSnoc(m: map<string, Entry>, n: nat, meta: Meta)
    requires Table(m, n)
    ensures Table(m[Key(n) := Stored(meta)], n + 1)
    ensures MetasOf(m[Key(n) := Stored(meta)], n + 1) == MetasOf(m, n) + [meta]
    ensures DimKey in m[Key(n) := Stored(meta)] <==> DimKey in m
    ensures DimKey in m ==> m[Key(n) := Stored(meta)][DimKey] == m[DimKey]
  {
    var m' := m[Key(n) := Stored(meta)];
    KeyNotDim(n);
    IdKeysSnoc(n);
    assert m'.Keys - {DimKey} == IdKeys(n + 1);
    forall id | 0 <= id < n ensures Key(id) in m' && m'[Key(id)] == m[Key(id)] {
      if Key(id) == Key(n) {
        NatToStringInjective(id, n);
      }
    }
    assert MetasOf(m', n + 1) == MetasOf(m, n) + [meta];
  }

  // ---------------------------------------------------------------------------
  // add_texts
  // ---------------------------------------------------------------------------

  /** A `metas` element: a dictionary, or any other value, which is stored by its `str()`. */
  datatype MetaArg = Dict(meta: Meta) | Other(repr: string)

  /** `dict(m) if isinstance(m, dict) else {"source": str(m)}` */
  function Given(arg: MetaArg): Meta {
    match arg
    case Dict(meta) => meta
    case Other(repr) => Meta(Some(repr), None, None)
  }

  /** The TF-IDF corpus text at position `j`, if there is one. */
  function CorpusText(corpus: seq<string>, j: nat): Option<string> {
    if j < |corpus| then Some(corpus[j]) else None
  }

  /**
   * The meta stored for the `j`-th id: the given one, whose text is replaced by the corpus text
   * at `j` in TF-IDF mode when that text exists and is not empty.
   */
  function NewMeta(arg: MetaArg, tfidf: bool, corpus: seq<string>, j: nat): (m: Meta)
    ensures m.source == Given(arg).source && m.chunk == Given(arg).chunk
    ensures !tfidf ==> m == Given(arg)
  {
    var meta := Given(arg);
    var t := if tfidf then CorpusText(corpus, j) else meta.text;
    if t.Some? && t.value != "" then meta.(text := t) else meta
  }

  /** The metas `args` become when their ids start at `start`. */
  function NewMetas(args: seq<MetaArg>, tfidf: bool, corpus: seq<string>, start: nat): (ms: seq<Meta>)
    ensures |ms| == |args|
  {
    seq(|args|, i requires 0 <= i < |args| => NewMeta(args[i], tfidf, corpus, start + i))
  }

  /** The loop of `add_texts` that stores `args` under ids `start`, `start + 1`, ... */
  function Assign(m: map<string, Entry>, args: seq<MetaArg>, tfidf: bool, corpus: seq<string>,
                  start: nat): map<string, Entry>
    decreases |args|
  {
    if args == [] then m
    else
      var i := |args| - 1;
      Assign(m, args[..i], tfidf, corpus, start)[Key(start + i) := Stored(NewMeta(args[i], tfidf, corpus, start + i))]
  }

  /** One more turn of the loop: the meta for `args[i]` goes under id `start + i`. */
  lemma AssignSnoc(m: map<string, Entry>, args: seq<MetaArg>, tfidf: bool, corpus: seq<string>,
                   start: nat, i: nat)
    requires i < |args|
    ensures Assign(m, args[..i + 1], tfidf, corpus, start)
         == Assign(m, args[..i], tfidf, corpus, start)[Key(start + i) := Stored(NewMeta(args[i], tfidf, corpus, start + i))]
  {
    assert args[..i + 1][..i] == args[..i];
  }

  /** Assigning after the last id extends the table by the new metas and keeps "dim". */
  lemma {:induction false} AssignTable(m: map<string, Entry>, n: nat, args: seq<MetaArg>,
                                       tfidf: bool, corpus: seq<string>)
    requires Table(m, n)
    ensures var m' := Assign(m, args, tfidf, corpus, n);
      && Table(m', n + |args|)
      && MetasOf(m', n + |args|) == MetasOf(m, n) + NewMetas(args, tfidf, corpus, n)
      && (DimKey in m' <==> DimKey in m)
      && (DimKey in m ==> m'[DimKey] == m[DimKey])
    decreases |args|
  {
    if args != [] {
      var i := |args| - 1;
      var prev := Assign(m, args[..i], tfidf, corpus, n);
      AssignTable(m, n, args[..i], tfidf, corpus);
      var meta := NewMeta(args[i], tfidf, corpus, n + i);
      TableSnoc(prev, n + i, meta);
      NewMetasSnoc(args, tfidf, corpus, n);
      assert MetasOf(m, n) + NewMetas(args, tfidf, corpus, n)
          == (MetasOf(m, n) + NewMetas(args[..i], tfidf, corpus, n)) + [meta];
    }
  }

  lemma NewMetasSnoc(args: seq<MetaArg>, tfidf: bool, corpus: seq<string>, n: nat)
    requires args != []
    ensures var i := |args| - 1;
      NewMetas(args, tfidf, corpus, n) == NewMetas(args[..i], tfidf, corpus, n) + [NewMeta(args[i], tfidf, corpus, n + i)]
  {
  }

  /** The table `add_texts` leaves: the new metas after the old ones, and the width under "dim". */
  lemma AssignDimTable(m: map<string, Entry>, n: nat, args: seq<MetaArg>, tfidf: bool,
                       corpus: seq<string>, dim: int)
    requires Table(m, n)
    ensures var m' := Assign(m, args, tfidf, corpus, n)[DimKey := Dim(dim)];
      && Table(m', n + |args|)
      && MetasOf(m', n + |args|) == MetasOf(m, n) + NewMetas(args, tfidf, corpus, n)
  {
    AssignTable(m, n, args, tfidf, corpus);
    SetDim(Assign(m, args, tfidf, corpus, n), n + |args|, dim);
  }

  // ---------------------------------------------------------------------------
  // _rebuild_from_metas
  // ---------------------------------------------------------------------------

  /** The loop of `_rebuild_from_metas` that renumbers the kept metas from 0. */
  function Renumber(kept: seq<Meta>): map<string, Entry>
    decreases |kept|
  {
    if kept == [] then map[]
    else Renumber(kept[..|kept| - 1])[Key(|kept| - 1) := Stored(kept[|kept| - 1])]
  }

  /** Renumbering gives keys "0" .. "n-1" holding the kept metas in order, and no "dim". */
  lemma {:induction false} RenumberTable(kept: seq<Meta>)
    ensures Table(Renumber(kept), |kept|)
    ensures MetasOf(Renumber(kept), |kept|) == kept
    ensures DimKey !in Renumber(kept)
    decreases |kept|
  {
    if kept == [] {
      assert IdKeys(0) == {};
    } else {
      var i := |kept| - 1;
      RenumberTable(kept[..i]);
      TableSnoc(Renumber(kept[..i]), i, kept[i]);
      assert kept[..i] + [kept[i]] == kept;
    }
  }

  /** A meta with a non-empty text (`if t:`). */
  predicate HasText(m: Meta) {
    m.text.Some? && m.text.value != ""
  }

  /** The texts `_rebuild_from_metas` collects: the non-empty ones, in order. */
  function Present(kept: seq<Meta>): seq<string>
    decreases |kept|
  {
    if kept == [] then []
    else
      var i := |kept| - 1;
      Present(kept[..i]) + (if HasText(kept[i]) then [kept[i].text.value] else [])
  }

  /**
   * The dense-mode check `len(texts) != len(kept_metas)` fails exactly when some kept meta has
   * no text; when it passes, the collected texts are the metas' texts, one per meta.
   */
  lemma {:induction false} PresentAll(kept: seq<Meta>)
    ensures |Present(kept)| <= |kept|
    ensures |Present(kept)| == |kept| <==> forall j :: 0 <= j < |kept| ==> HasText(kept[j])
    ensures |Present(kept)| == |kept| ==>
      forall j :: 0 <= j < |kept| ==> Present(kept)[j] == kept[j].text.value
    decreases |kept|
  {
    if kept != [] {
      var i := |kept| - 1;
      PresentAll(kept[..i]);
      assert forall j :: 0 <= j < i ==> kept[..i][j] == kept[j];
    }
  }

  /** `[m.get('text', '') for m in kept_metas]` */
  function CorpusOf(kept: seq<Meta>): (ts: seq<string>)
    ensures |ts| == |kept|
  {
    seq(|kept|, j requires 0 <= j < |kept| => kept[j].text.GetOr(""))
  }

  // ---------------------------------------------------------------------------
  // remove_by_ids, remove_by_source
  // ---------------------------------------------------------------------------

  /** The metas whose ids are not in `ids`, in id order. */
  function KeptByIds(metas: seq<Meta>, ids: set<int>): seq<Meta>
    decreases |metas|
  {
    if metas == [] then []
    else
      var i := |metas| - 1;
      KeptByIds(metas[..i], ids) + (if i in ids then [] else [metas[i]])
  }

  /** The ids below `n` that are in `ids`. */
  function Removed(n: nat, ids: set<int>): set<int> {
    set id | 0 <= id < n && id in ids
  }

  /** Removing by ids drops as many metas as there are existing ids in the set. */
  lemma {:induction false} KeptByIdsCount(metas: seq<Meta>, ids: set<int>)
    ensures |KeptByIds(metas, ids)| + |Removed(|metas|, ids)| == |metas|
    decreases |metas|
  {
    if metas != [] {
      var i := |metas| - 1;
      KeptByIdsCount(metas[..i], ids);
      if i in ids {
        assert Removed(|metas|, ids) == Removed(i, ids) + {i};
      } else {
        assert Removed(|metas|, ids) == Removed(i, ids);
      }
    }
  }

  /** Removing by ids keeps every meta whose id is not in the set, and invents none. */
  lemma {:induction false} KeptByIdsMembers(metas: seq<Meta>, ids: set<int>)
    ensures forall id :: 0 <= id < |metas| && id !in ids ==> metas[id] in KeptByIds(metas, ids)
    ensures forall x :: x in KeptByIds(metas, ids) ==> x in metas
    decreases |metas|
  {
    if metas != [] {
      var i := |metas| - 1;
      var prefix := metas[..i];
      KeptByIdsMembers(prefix, ids);
      assert metas == prefix + [metas[i]];
      assert forall id :: 0 <= id < i ==> prefix[id] == metas[id];
    }
  }

  /** `(v or {}).get('source') == source` */
  predicate FromSource(m: Meta, source: string) {
    m.source == Some(source)
  }

  /** The metas not from `source`, in order. */
  function KeptBySource(metas: seq<Meta>, source: string): seq<Meta>
    decreases |metas|
  {
    if metas == [] then []
    else
      var i := |metas| - 1;
      KeptBySource(metas[..i], source) + (if FromSource(metas[i], source) then [] else [metas[i]])
  }

  /** How many metas are from `source`. */
  function CountSource(metas: seq<Meta>, source: string): nat
    decreases |metas|
  {
    if metas == [] then 0
    else
      var i := |metas| - 1;
      CountSource(metas[..i], source) + (if FromSource(metas[i], source) then 1 else 0)
  }

  /** Removing by source drops as many metas as came from that source. */
  lemma {:induction false} KeptBySourceCount(metas: seq<Meta>, source: string)
    ensures |KeptBySource(metas, source)| + CountSource(metas, source) == |metas|
    decreases |metas|
  {
    if metas != [] {
      KeptBySourceCount(metas[..|metas| - 1], source);
    }
  }

  /** Removing by source keeps exactly the metas from other sources. */
  lemma {:induction false} KeptBySourceMembers(metas: seq<Meta>, source: string)
    ensures var kept := KeptBySource(metas, source);
      && (forall x :: x in kept ==> x in metas && !FromSource(x, source))
      && (forall j :: 0 <= j < |metas| && !FromSource(metas[j], source) ==> metas[j] in kept)
    decreases |metas|
  {
    if metas != [] {
      var i := |metas| - 1;
      var prefix := metas[..i];
      KeptBySourceMembers(prefix, source);
      assert metas == prefix + [metas[i]];
      assert forall j :: 0 <= j < i ==> prefix[j] == metas[j];
    }
  }

  // ---------------------------------------------------------------------------
  // get_metas, query
  // ---------------------------------------------------------------------------

  /** A listed meta: `{"id": idx, **meta}`. */
  datatype Listed = Listed(id: nat, meta: Meta)

  /** Every stored meta with its id, by ascending id. */
  function Listing(metas: seq<Meta>): (ls: seq<Listed>)
    ensures |ls| == |metas|
    ensures forall j :: 0 <= j < |metas| ==> ls[j] == Listed(j, metas[j])
  {
    seq(|metas|, j requires 0 <= j < |metas| => Listed(j, metas[j]))
  }

  /**
   * The meta a search hit at row `idx` reports: the stored one if `str(idx)` is a key. The FAISS
   * path (`get(str(idx)) or get(idx)`) reports an empty meta as none.
   */
  function Lookup(m: map<string, Entry>, idx: nat, faiss: bool): Option<Meta> {
    var k := Key(idx);
    if k in m && m[k].Stored? then
      (if faiss && m[k].meta == EmptyMeta then None else Some(m[k].meta))
    else None
  }
}
