/**
  The search gate and the visibility predicate of the module browser.

  The fuzzy scorer the browser calls is not part of this model: it is the
  parameter `fuzzy`, applied to the lower-cased search text and the lower-cased
  query. Nothing is assumed of it except where a lemma says so explicitly.
 */
module Filter {
  import opened Strings
  import opened Catalog

  /** A fuzzy scorer: (lower-cased text, lower-cased query) to a score; a score
      above zero is a match. */
  type Scorer = (string, string) -> real

  /** The one property a sensible fuzzy scorer has: a non-empty query that
      occurs literally in the text scores above zero. */
  ghost predicate HonorsSubstrings(fuzzy: Scorer) {
    forall text, q :: q != [] && IsSubstring(q, text) ==> fuzzy(text, q) > 0.0
  }

  /** The relevance of model `m` for the query `search`. */
  function ModelScore(m: Model, search: string, fuzzy: Scorer): (r: real)
    ensures search == [] ==> r == 1.0
    ensures search != [] ==> r == fuzzy(Lowercase(SearchText(m)), Lowercase(search))
  {
    if search == [] then 1.0
    else fuzzy(Lowercase(SearchText(m)), Lowercase(search))
  }

  /** The scan over a model's tags for an exact match. */
  function HasTag(tags: seq<string>, tag: string): (found: bool)
    ensures found <==> tag in tags
    decreases |tags|
  {
    if |tags| == 0 then false
    else if tags[0] == tag then true
    else HasTag(tags[1..], tag)
  }

  /** A model is shown when it passes every active filter: the search gate,
      the exact brand and the tag. An empty filter is inactive. */
  function IsModelVisible(m: Model, search: string, brand: string, tag: string, fuzzy: Scorer): (r: bool)
    ensures r <==>
      && (search != [] ==> ModelScore(m, search, fuzzy) > 0.0)
      && (brand != [] ==> m.plugin.brand == brand)
      && (tag != [] ==> tag in m.tags)
  {
    if search != [] && ModelScore(m, search, fuzzy) <= 0.0 then false
    else if brand != [] && m.plugin.brand != brand then false
    else if tag != [] && !HasTag(m.tags, tag) then false
    else true
  }

  /** With no query, no brand and no tag every model is shown. */
  lemma NoFilterShowsAll(m: Model, fuzzy: Scorer)
    ensures ModelScore(m, "", fuzzy) == 1.0
    ensures IsModelVisible(m, "", "", "", fuzzy)
  {
  }

  /** Visibility under all three filters is visibility under the query alone
      and under brand and tag alone: the two passes of the facet computation
      together decide exactly what the one combined check decides. */
  lemma VisibleSplits(m: Model, search: string, brand: string, tag: string, fuzzy: Scorer)
    ensures IsModelVisible(m, search, brand, tag, fuzzy) <==>
      IsModelVisible(m, search, "", "", fuzzy) && IsModelVisible(m, "", brand, tag, fuzzy)
  {
  }

  /** A query that occurs literally (ignoring case) in a model's search text
      lets the model through, provided the scorer honours substrings. */
  lemma LiteralQueryMatches(m: Model, search: string, fuzzy: Scorer)
    requires HonorsSubstrings(fuzzy)
    requires search != []
    requires IsSubstring(Lowercase(search), Lowercase(SearchText(m)))
    ensures ModelScore(m, search, fuzzy) > 0.0
    ensures IsModelVisible(m, search, "", "", fuzzy)
  {
    assert Lowercase(search) != [];
  }

  /** Searching for a model's own brand, name, slug or one of its tags finds
      it, provided the scorer honours substrings. */
  lemma SearchForOwnPartMatches(m: Model, part: string, fuzzy: Scorer)
    requires HonorsSubstrings(fuzzy)
    requires part != []
    requires part == m.plugin.brand || part == m.name || part == m.slug || part in m.tags
    ensures IsModelVisible(m, part, "", "", fuzzy)
  {
    SearchTextParts(m);
    assert IsSubstring(part, SearchText(m));
    SubstringLowercase(part, SearchText(m));
    LiteralQueryMatches(m, part, fuzzy);
  }
}
