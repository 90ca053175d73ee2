/**
  The module browser as a state machine over (search, brand, tag), and the
  refresh that turns a state into what the browser shows: the sorted grid of
  models with a visibility flag each, the enabled flag of every brand and tag
  entry of the sidebar, and the three counters.
 */
module Browser {
  import opened Strings
  import opened Catalog
  import opened Filter
  import opened Facets
  import opened Favorites
  import opened Ranking

  /** An empty brand or tag means "no filter". */
  datatype State = State(search: string, brand: string, tag: string)

  /** What one refresh produces. `visible[i]` belongs to `children[i]`,
      `brandEnabled[i]` to the i-th brand entry, `tagEnabled[i]` to the i-th
      tag entry. */
  datatype Snapshot = Snapshot(
    children: seq<Model>,
    visible: seq<bool>,
    brandEnabled: seq<bool>,
    tagEnabled: seq<bool>,
    brandsLen: nat,
    tagsLen: nat,
    modelsLen: nat)

  // Transitions

  /** Clicking a brand entry: it deselects the brand when it is the selected
      one and selects it otherwise. Search and tag stay. */
  function ToggleBrand(st: State, text: string): (r: State)
    ensures r.search == st.search && r.tag == st.tag
    ensures st.brand == text ==> r.brand == []
    ensures st.brand != text ==> r.brand == text
  {
    if st.brand == text then st.(brand := "") else st.(brand := text)
  }

  /** Clicking a tag entry, symmetric to `ToggleBrand`. */
  function ToggleTag(st: State, text: string): (r: State)
    ensures r.search == st.search && r.brand == st.brand
    ensures st.tag == text ==> r.tag == []
    ensures st.tag != text ==> r.tag == text
  {
    if st.tag == text then st.(tag := "") else st.(tag := text)
  }

  /** Editing the search field stores the typed text with the whitespace at
      both ends removed and nothing else changed; brand and tag stay. By
      `Strings.TrimUnique` the second and third clauses alone determine the
      stored query, and by `Strings.TrimIdempotent` it is already trimmed. */
  function SetSearch(st: State, text: string): (r: State)
    ensures r.brand == st.brand && r.tag == st.tag
    ensures StripsOnlyEnds(r.search, text)
    ensures r.search == [] || (!IsSpace(r.search[0]) && !IsSpace(r.search[|r.search| - 1]))
    ensures r.search == [] <==> AllSpace(text)
    ensures r.search == Trim(text)
  {
    State(Trim(text), st.brand, st.tag)
  }

  /** Entering the stored query again changes nothing: the stored query is
      already trimmed. */
  lemma SetSearchTwice(st: State, text: string)
    ensures SetSearch(SetSearch(st, text), SetSearch(st, text).search) == SetSearch(st, text)
  {
    TrimIdempotent(text);
  }

  /** The reset button. */
  function Clear(st: State): (r: State)
    ensures r.search == [] && r.brand == [] && r.tag == []
  {
    State("", "", "")
  }

  /** Clicking a model: only its effect on the favourite table is modelled. */
  function SelectModel(scores: ScoreTable, m: Model): (r: ScoreTable)
    ensures r.Keys == scores.Keys + {KeyOf(m)}
    ensures ScoreOf(r, m) == 9.0 / 10.0 * ScoreOf(scores, m) + 1.0
    ensures forall other: Model :: KeyOf(other) != KeyOf(m) ==>
      ScoreOf(r, other) == 9.0 / 10.0 * ScoreOf(scores, other)
  {
    var r := StepFavoriteScore(scores, m.plugin.slug, m.slug);
    StepReadsThroughDefault(scores, m.plugin.slug, m.slug, KeyOf(m));
    assert forall other: Model :: KeyOf(other) != KeyOf(m) ==>
      ScoreOf(r, other) == 9.0 / 10.0 * ScoreOf(scores, other) by {
      forall other: Model | KeyOf(other) != KeyOf(m) {
        StepReadsThroughDefault(scores, m.plugin.slug, m.slug, KeyOf(other));
      }
    }
    r
  }

  // Toggle properties

  /** Clicking the same brand twice restores the state exactly when no other
      brand was selected before; from another brand it ends with none. */
  lemma ToggleBrandTwice(st: State, b: string)
    ensures ToggleBrand(ToggleBrand(st, b), b) == st <==> (st.brand == [] || st.brand == b)
    ensures st.brand != b ==> ToggleBrand(ToggleBrand(st, b), b).brand == []
  {
  }

  /** Clicking the same tag twice, symmetric to `ToggleBrandTwice`. */
  lemma ToggleTagTwice(st: State, t: string)
    ensures ToggleTag(ToggleTag(st, t), t) == st <==> (st.tag == [] || st.tag == t)
    ensures st.tag != t ==> ToggleTag(ToggleTag(st, t), t).tag == []
  {
  }

  /** A non-empty brand entry is highlighted after a click exactly when it was
      not highlighted before. */
  lemma ToggleBrandFlipsActive(st: State, b: string)
    requires b != []
    ensures (ToggleBrand(st, b).brand == b) <==> (st.brand != b)
  {
  }

  // Refresh

  /** Recomputes the grid order, visibility, facet flags and counters. */
  function Refresh(st: State, children: seq<Model>, brandItems: seq<string>, tagItems: seq<string>,
                   scores: ScoreTable, fuzzy: Scorer): (r: Snapshot)
    ensures multiset(r.children) == multiset(children)
    ensures Sorted(scores, r.children)
    ensures |r.visible| == |r.children|
    ensures forall i :: 0 <= i < |r.children| ==>
      (r.visible[i] <==> IsModelVisible(r.children[i], st.search, st.brand, st.tag, fuzzy))
    ensures |r.brandEnabled| == |brandItems|
    ensures forall i :: 0 <= i < |brandItems| ==>
      (r.brandEnabled[i] <==> exists m :: m in children && IsModelVisible(m, st.search, brandItems[i], st.tag, fuzzy))
    ensures |r.tagEnabled| == |tagItems|
    ensures forall i :: 0 <= i < |tagItems| ==>
      (r.tagEnabled[i] <==> exists m :: m in children && IsModelVisible(m, st.search, st.brand, tagItems[i], fuzzy))
    ensures r.brandsLen == |SetPositions(r.brandEnabled)|
    ensures r.tagsLen == |SetPositions(r.tagEnabled)|
    ensures r.modelsLen == |SetPositions(r.visible)|
  {
    var sorted := Sort(scores, children);
    PermutationKeepsMembers(sorted, children);
    var visible := seq(|sorted|, i requires 0 <= i < |sorted| =>
      IsModelVisible(sorted[i], st.search, st.brand, st.tag, fuzzy));
    var brandEnabled := BrandFacets(sorted, st.search, st.tag, brandItems, fuzzy);
    var tagEnabled := TagFacets(sorted, st.search, st.brand, tagItems, fuzzy);
    Snapshot(sorted, visible, brandEnabled, tagEnabled,
             CountTrue(brandEnabled), CountTrue(tagEnabled), CountTrue(visible))
  }

  /** Refreshing twice in a row without a change in between shows the same. */
  lemma RefreshIdempotent(st: State, children: seq<Model>, brandItems: seq<string>, tagItems: seq<string>,
                          scores: ScoreTable, fuzzy: Scorer)
    ensures
      var r := Refresh(st, children, brandItems, tagItems, scores, fuzzy);
      Refresh(st, r.children, brandItems, tagItems, scores, fuzzy) == r
  {
    var r := Refresh(st, children, brandItems, tagItems, scores, fuzzy);
    SortSortedIsIdentity(scores, r.children);
  }

  /** While some model is visible, the entries of the selected brand and the
      selected tag are enabled in the sidebar. */
  lemma SelectedFacetsStayEnabled(st: State, children: seq<Model>, brandItems: seq<string>, tagItems: seq<string>,
                                  scores: ScoreTable, fuzzy: Scorer, m: Model)
    requires m in children && IsModelVisible(m, st.search, st.brand, st.tag, fuzzy)
    ensures
      var r := Refresh(st, children, brandItems, tagItems, scores, fuzzy);
      && (forall j :: 0 <= j < |brandItems| && brandItems[j] == st.brand ==> r.brandEnabled[j])
      && (forall j :: 0 <= j < |tagItems| && tagItems[j] == st.tag ==> r.tagEnabled[j])
  {
  }

  /** The module counter is zero exactly when nothing is visible. */
  lemma ModelCountZeroIffNoneVisible(st: State, children: seq<Model>, brandItems: seq<string>, tagItems: seq<string>,
                                     scores: ScoreTable, fuzzy: Scorer)
    ensures
      var r := Refresh(st, children, brandItems, tagItems, scores, fuzzy);
      r.modelsLen == 0 <==> forall m :: m in children ==> !IsModelVisible(m, st.search, st.brand, st.tag, fuzzy)
  {
    var r := Refresh(st, children, brandItems, tagItems, scores, fuzzy);
    CountTrueZeroIff(r.visible);
    PermutationKeepsMembers(r.children, children);
    assert r.modelsLen == 0 <==> forall i :: 0 <= i < |r.children| ==> !r.visible[i];
  }

  /** After a reset every model is visible and counted. */
  lemma ClearShowsAll(st: State, children: seq<Model>, brandItems: seq<string>, tagItems: seq<string>,
                      scores: ScoreTable, fuzzy: Scorer)
    ensures
      var r := Refresh(Clear(st), children, brandItems, tagItems, scores, fuzzy);
      && (forall i :: 0 <= i < |r.visible| ==> r.visible[i])
      && r.modelsLen == |children|
  {
    var r := Refresh(Clear(st), children, brandItems, tagItems, scores, fuzzy);
    forall i | 0 <= i < |r.visible|
      ensures r.visible[i]
    {
      NoFilterShowsAll(r.children[i], fuzzy);
    }
    CountTrueFullIff(r.visible);
    assert r.modelsLen == CountTrue(r.visible);
    assert |r.children| == |multiset(children)|;
  }
}
