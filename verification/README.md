# Module browser: filtering, facets, ranking and popularity

A Dafny model of the logic inside VCV Rack's module browser
(`src/app/ModuleBrowser.cpp`). The browser shows every model (module) of
every installed plugin as a grid, lets the user narrow it with a free-text
search, a single brand and a single tag, greys out the brand and tag entries
that would leave nothing to show, counts what remains, and orders the grid by
a decaying "favourite" score that grows each time a model is picked.

The model is functional: plugins and models are immutable datatypes, the
browser state `(search, brand, tag)` is a value, every click is a function
from state to state, and one refresh is a function from state, catalogue and
favourite table to a snapshot (sorted grid, visibility flags, facet flags,
counters). The favourite table is an explicit `map<(string, string), real>`
instead of a global setting.

Modules (one file each):

- `Strings` (`strings.dfy`): ASCII lower-casing, trimming, substring
  containment, and the lexicographic order of `std::string` with its
  strict-total-order lemmas.
- `Catalog` (`catalog.dfy`): `Plugin`, `Model`, and the text a query is
  matched against.
- `Filter` (`filter.dfy`): `modelScore` and `isModelVisible`.
- `Facets` (`facets.dfy`): the query-only prefilter, `hasModel`, the brand
  and tag enabled flags, and the counters.
- `Favorites` (`favorites.dfy`): `get_default` and `stepFavoriteScore`.
- `Ranking` (`ranking.dfy`): the grid comparator and a stable sort.
- `Browser` (`browser.dfy`): brand/tag toggles, search update, reset, model
  selection, and `refresh`.
- `Scenarios` (`scenarios.dfy`): two small catalogues worked through by hand.

External collaborators become parameters. The fuzzy scorer
(`string::fuzzyScore`) is the function parameter `fuzzy`. Nothing is assumed
about it, except in the two lemmas that require `HonorsSubstrings`: a
non-empty query occurring literally in the text scores above zero.

## Model

| member | source | states |
|---|---|---|
| `Catalog.SearchTextParts` | src/app/ModuleBrowser.cpp:37-46 | the searchable text starts with the brand, is never empty, and contains the name, the slug and every tag as contiguous pieces |
| `Filter.ModelScore` | src/app/ModuleBrowser.cpp:34-49 | an empty query scores 1; a non-empty one is the scorer's verdict on the lower-cased searchable text and the lower-cased query |
| `Filter.HasTag` | src/app/ModuleBrowser.cpp:66-76 | the scan over a model's tags finds the tag exactly when it is one of them |
| `Filter.IsModelVisible` | src/app/ModuleBrowser.cpp:51-79 | visible iff the score is positive when a query is set, the brand matches exactly when a brand is set, and the tag is among the model's tags when a tag is set |
| `Filter.NoFilterShowsAll` | src/app/ModuleBrowser.cpp:35-36 | with no query, brand or tag the score is 1 and every model is visible |
| `Filter.VisibleSplits` | src/app/ModuleBrowser.cpp:498-512 | visibility under all filters is visibility under the query alone AND under brand and tag alone, which is what the two-pass facet check relies on |
| `Filter.LiteralQueryMatches` | src/app/ModuleBrowser.cpp:37-47 | with a scorer that honours substrings, a query occurring literally (ignoring case) in the searchable text lets the model through |
| `Filter.SearchForOwnPartMatches` | src/app/ModuleBrowser.cpp:37-47 | with such a scorer, searching for a model's own brand, name, slug or one of its tags shows that model |
| `Facets.Prefilter` | src/app/ModuleBrowser.cpp:497-504 | keeps exactly the models that pass the query alone, never more than the input |
| `Facets.HasModel` | src/app/ModuleBrowser.cpp:506-512 | true iff some prefiltered model has the given brand and tag (an empty value does not constrain) |
| `Facets.FacetAvailable` | src/app/ModuleBrowser.cpp:497-512 | the two-pass check answers whether some catalogue model would be visible under the current query with that brand and tag |
| `Facets.VisibleWithinPrefilter` | src/app/ModuleBrowser.cpp:498-504 | every model visible under the full filter is in the query-only prefilter |
| `Facets.BrandFacets` | src/app/ModuleBrowser.cpp:514-522 | a brand entry is enabled iff some model is visible under the query, that brand and the current tag |
| `Facets.TagFacets` | src/app/ModuleBrowser.cpp:525-532 | a tag entry is enabled iff some model is visible under the query, the current brand and that tag |
| `Facets.CountTrue` | src/app/ModuleBrowser.cpp:515-522 | the counter loop's result is the number of positions whose flag is set |
| `Facets.CountTrueZeroIff` | src/app/ModuleBrowser.cpp:535-541 | a counter is zero iff no flag is set |
| `Facets.CountTrueFullIff` | src/app/ModuleBrowser.cpp:535-541 | a counter equals the number of entries iff every flag is set |
| `Favorites.GetDefault` | src/app/ModuleBrowser.cpp:92-98 | the stored value when the key is present, the default otherwise |
| `Favorites.StepFavoriteScore` | src/app/ModuleBrowser.cpp:81-89 | the keys grow by exactly the selected one; every other key becomes 0.9 of its old value; the selected key becomes 0.9 of its old value plus 1, or 1 when it was absent |
| `Favorites.StepKeepsNonNegative` | src/app/ModuleBrowser.cpp:81-89 | non-negative scores stay non-negative, and the selected key ends at 1 or more |
| `Favorites.StepReadsThroughDefault` | src/app/ModuleBrowser.cpp:81-89 | read with default 0, every other key decays to 0.9 and the selected one to 0.9 plus 1 |
| `Strings.LexLessTransitive` | src/app/ModuleBrowser.cpp:469-472 | string less-than is transitive |
| `Strings.LexLessTotal` | src/app/ModuleBrowser.cpp:469-472 | two different strings are ordered one way or the other |
| `Strings.Trim` | src/app/ModuleBrowser.cpp:627 | the result is the typed text with only whitespace removed, and only at the two ends; neither end of the result is whitespace; it is empty iff the text is all whitespace |
| `Strings.TrimUnique` | src/app/ModuleBrowser.cpp:627 | any text obtained by stripping whitespace from the ends until neither end is whitespace is the trimmed text, so the clauses above determine it |
| `Strings.TrimIdempotent` | src/app/ModuleBrowser.cpp:627 | trimming a trimmed text changes nothing |
| `Ranking.BeforeIsStrictWeakOrder` | src/app/ModuleBrowser.cpp:460-473 | the comparator is irreflexive, asymmetric and transitive, and its ties are exactly equal score, plugin name and model name |
| `Ranking.SortedPairwise` | src/app/ModuleBrowser.cpp:460-473 | in a sorted grid no later model goes before an earlier one |
| `Ranking.Insert` | src/app/ModuleBrowser.cpp:460-473 | inserting into a sorted grid adds exactly that model and keeps the grid sorted |
| `Ranking.Sort` | src/app/ModuleBrowser.cpp:460-473 | the sorted grid is a permutation of the input and no model goes before its predecessor |
| `Ranking.SortSortedIsIdentity` | src/app/ModuleBrowser.cpp:460-473 | re-sorting an already sorted grid moves nothing |
| `Ranking.StepKeepsOthersOrder` | src/app/ModuleBrowser.cpp:81-89 | picking a model leaves the relative order of every two other models unchanged |
| `Ranking.StepPromotesSelected` | src/app/ModuleBrowser.cpp:81-89 | a picked model moves ahead of every other model whose score was not higher |
| `Browser.ToggleBrand` | src/app/ModuleBrowser.cpp:595-602 | clicking the selected brand clears it, clicking another sets it; search and tag are unchanged |
| `Browser.ToggleTag` | src/app/ModuleBrowser.cpp:610-617 | clicking the selected tag clears it, clicking another sets it; search and brand are unchanged |
| `Browser.SetSearch` | src/app/ModuleBrowser.cpp:625-629 | the stored query is the typed text with whitespace removed at the two ends and nowhere else, neither of its ends is whitespace (together these fix it, by `Strings.TrimUnique`), it is empty iff the text is all whitespace; brand and tag are unchanged |
| `Browser.SetSearchTwice` | src/app/ModuleBrowser.cpp:625-629 | entering the stored query again leaves the state as it is |
| `Browser.Clear` | src/app/ModuleBrowser.cpp:544-550 | reset empties query, brand and tag |
| `Browser.SelectModel` | src/app/ModuleBrowser.cpp:589-590 | picking a model adds its key; its score becomes 0.9 of the old one plus 1, and every other model's score becomes 0.9 of its old one |
| `Browser.ToggleBrandTwice` | src/app/ModuleBrowser.cpp:595-602 | clicking the same brand twice restores the state iff no other brand was selected before; from another brand it ends with none |
| `Browser.ToggleTagTwice` | src/app/ModuleBrowser.cpp:610-617 | the same for tags |
| `Browser.ToggleBrandFlipsActive` | src/app/ModuleBrowser.cpp:595-608 | a non-empty brand entry is highlighted after a click iff it was not before |
| `Browser.Refresh` | src/app/ModuleBrowser.cpp:447-542 | the grid is a sorted permutation of its previous order; each visibility flag is the model's visibility; each brand and tag flag says whether selecting it would leave a model visible; the three counters count the set flags |
| `Browser.RefreshIdempotent` | src/app/ModuleBrowser.cpp:447-542 | refreshing twice with nothing changed in between gives the same snapshot |
| `Browser.SelectedFacetsStayEnabled` | src/app/ModuleBrowser.cpp:506-530 | while a model is visible, the entries of the selected brand and the selected tag are enabled |
| `Browser.ModelCountZeroIffNoneVisible` | src/app/ModuleBrowser.cpp:535-541 | the module counter is zero iff no catalogue model is visible |
| `Browser.ClearShowsAll` | src/app/ModuleBrowser.cpp:544-550 | after a reset every model is visible and the module counter is the catalogue size |
| `Scenarios.TagFilterScenario` | src/app/ModuleBrowser.cpp:498-533 | Acme Filter, Acme VCO and Beta Filter2 with tag "filter": both filters are visible, the VCO is not, both brands and both tags are enabled |
| `Scenarios.BrandDisabledScenario` | src/app/ModuleBrowser.cpp:514-522 | plugins A, B, C with tags tag1, tag2 and both: with tag1 selected brand B is disabled, A and C are enabled |

## Left out

- Widgets, layout, drawing, tooltips, preview framebuffers, scroll offsets, key and mouse handling: no logic to specify.
- Module instantiation, `addModuleAtMouse`, hiding the overlay and the history entry when a model is clicked (`ModelBox::onButton`). These are foreign side effects; only the favourite-score step is modelled, as `Browser.SelectModel`.
- `string::fuzzyScore` is not part of this model. It is the parameter `fuzzy`, so its ranking behaviour (earlier or more contiguous matches scoring higher) is not modelled.
- `string::lowercase` is not part of this model. It is modelled as C-locale `tolower` per character (only `A`-`Z` change).
- `string::trim` is not part of this model. It is modelled as stripping space, newline, carriage return and tab from both ends.
- Building the brand list with a case-insensitive `std::set` (deduplication and ordering) and the tag list from the allowed tags: both lists are inputs to `Browser.Refresh`.
- The per-model score map computed while a query is active: it is discarded, and the relevance sort that would use it is commented out.
- Persistence of the favourite table: it is passed in and returned.
- Favorites.StepFavoriteScore: scores are reals and the decay factor is exactly 9/10. Single-precision rounding, and hence the float comparison the comparator does, is not modelled.
- Ranking.Sort: stability is not stated as a general lemma. The sort is an insertion sort that keeps equal models in input order, like the list sort it models. Only its consequence for refreshes is proved, in `Ranking.SortSortedIsIdentity`.
- Strings are sequences of code points. Byte-wise `std::string` comparison of UTF-8 orders strings the same way, so the byte encoding itself is not modelled.
- In `refresh` the source sets visibility flags before sorting and carries them with the widgets. The model sorts first and then computes each flag from its model; the flags are the same because visibility depends only on the model.

## Behaviour worth knowing

- Toggling the same brand (or tag) twice restores the previous selection only when no brand, or that same brand, was selected before. From another selected brand X, clicking Y twice ends with no brand. `Browser.ToggleBrandTwice` states the exact condition.
- The three counters are the number of enabled brand entries, the number of enabled tag entries and the number of visible models. No count of publishers is computed.
- Tag entries are checked against the current brand only, never against the current tag, so with tag "filter" selected in the Acme/Beta catalogue the entry "oscillator" stays enabled. `Scenarios.TagFilterScenario` proves this.
