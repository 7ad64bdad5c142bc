/**
 * The records the retrieval pipeline passes around: a chunk's metadata dictionary and one
 * search hit. Only the keys the pipeline reads are modelled; an absent key is `None`.
 */
module Records {
  import opened Wrappers

  /** A metadata dictionary with its `source`, `chunk` and `text` keys. */
  datatype Meta = Meta(source: Option<string>, chunk: Option<int>, text: Option<string>)

  /** The empty dictionary `{}` (falsy in the source). */
  const EmptyMeta := Meta(None, None, None)

  /** One search result: the raw distance and the metadata stored for that row, if any. */
  datatype Hit = Hit(score: real, meta: Option<Meta>)

  /** `(r.get('meta') or {}).get('text', '')`: the hit's chunk text, or `""`. */
  function TextOf(h: Hit): string {
    match h.meta
    case Some(m) => m.text.GetOr("")
    case None => ""
  }
}
