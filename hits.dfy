/** A search hit: the dictionary that the vector store returns for one point and that
    the chat layer tags with its collection. */
module Hits {
  import opened Wrappers
  import opened Seqs

  /** One `key: value` entry of a hit other than the four keys the prompt formats itself. */
  datatype Field = Field(key: string, value: string)

  /** A hit. `score`, `kind`, `text` and `components` are the keys the prompt template
      names (a missing `components` and an empty one read the same); `others` holds every
      other key, in insertion order (`url`, then `collection`). */
  datatype Hit = Hit(
    score: Option<real>,
    kind: Option<string>,
    text: Option<string>,
    components: seq<string>,
    others: seq<Field>)

  /** The keys that `others` never holds. */
  predicate Reserved(key: string)
  {
    key == "kind" || key == "text" || key == "score" || key == "components"
  }

  /** The other keys, in dictionary order. */
  function Keys(fs: seq<Field>): seq<string>
  {
    if fs == [] then [] else [fs[0].key] + Keys(fs[1..])
  }

  /** A dictionary: no key twice, and none of the reserved keys among `others`. */
  predicate WellFormed(h: Hit)
  {
    && (forall k :: k in Keys(h.others) ==> !Reserved(k))
    && NoDuplicates(Keys(h.others))
  }

  /** `d.get(key)` on the other keys. */
  function Lookup(fs: seq<Field>, key: string): Option<string>
  {
    if fs == [] then None
    else if fs[0].key == key then Some(fs[0].value)
    else Lookup(fs[1..], key)
  }

  /** `d[key] = value`: the key now maps to the value and every other key keeps its value. */
  function SetField(fs: seq<Field>, key: string, value: string): (r: seq<Field>)
    ensures Lookup(r, key) == Some(value)
    ensures forall k :: k != key ==> Lookup(r, k) == Lookup(fs, k)
  {
    if fs == [] then [Field(key, value)]
    else if fs[0].key == key then [Field(key, value)] + fs[1..]
    else [fs[0]] + SetField(fs[1..], key, value)
  }

  /** An existing key keeps its place, a new key goes last. */
  lemma {:induction false} SetFieldKeys(fs: seq<Field>, key: string, value: string)
    ensures Keys(SetField(fs, key, value)) == if key in Keys(fs) then Keys(fs) else Keys(fs) + [key]
  {
    if fs != [] && fs[0].key != key {
      var rest := SetField(fs[1..], key, value);
      SetFieldKeys(fs[1..], key, value);
      assert ([fs[0]] + rest)[1..] == rest;
      AppendAssoc([fs[0].key], Keys(fs[1..]), [key]);
    } else if fs != [] {
      assert ([Field(key, value)] + fs[1..])[1..] == fs[1..];
    }
  }

  /** The sort key `x.get('score', 0)`. */
  function SortKey(h: Hit): real
  {
    h.score.GetOr(0.0)
  }

  /** `result.get('url')`. */
  function Url(h: Hit): Option<string>
  {
    Lookup(h.others, "url")
  }

  /** `r['collection'] = collection`. */
  function Tag(h: Hit, collection: string): (r: Hit)
    ensures Lookup(r.others, "collection") == Some(collection)
    ensures Url(r) == Url(h)
    ensures r.(others := h.others) == h
  {
    h.(others := SetField(h.others, "collection", collection))
  }

  lemma TagKeepsWellFormed(h: Hit, collection: string)
    requires WellFormed(h)
    ensures WellFormed(Tag(h, collection))
  {
    SetFieldKeys(h.others, "collection", collection);
    if "collection" !in Keys(h.others) {
      NoDuplicatesSnoc(Keys(h.others), "collection");
    }
  }
}
