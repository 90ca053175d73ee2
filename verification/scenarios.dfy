/**
  Concrete catalogues run through the visibility and facet computations,
  checking facet availability on small examples whose outcome can be read
  off by hand. The fuzzy scorer is left arbitrary: the query is empty
  throughout.
 */
module Scenarios {
  import opened Catalog
  import opened Filter
  import opened Facets

  const Acme := Plugin("acme", "Acme", "Acme")
  const Beta := Plugin("beta", "Beta", "Beta")
  const AcmeFilter := Model(Acme, "acme-filter", "Filter", ["filter"])
  const AcmeVco := Model(Acme, "acme-vco", "VCO", ["oscillator"])
  const BetaFilter := Model(Beta, "beta-filter2", "Filter2", ["filter"])

  /** Only the oscillator lacks the "filter" tag. With the tag "filter"
      selected both filters are shown, both brands stay enabled, and
      "oscillator" stays enabled because the tag list ignores the current
      tag. */
  lemma TagFilterScenario(fuzzy: Scorer)
    ensures IsModelVisible(AcmeFilter, "", "", "filter", fuzzy)
    ensures IsModelVisible(BetaFilter, "", "", "filter", fuzzy)
    ensures !IsModelVisible(AcmeVco, "", "", "filter", fuzzy)
    ensures BrandFacets([AcmeFilter, AcmeVco, BetaFilter], "", "filter", ["Acme", "Beta"], fuzzy) == [true, true]
    ensures TagFacets([AcmeFilter, AcmeVco, BetaFilter], "", "", ["filter", "oscillator"], fuzzy) == [true, true]
  {
    var models := [AcmeFilter, AcmeVco, BetaFilter];
    assert AcmeFilter in models && AcmeVco in models && BetaFilter in models;
    assert IsModelVisible(AcmeFilter, "", "Acme", "filter", fuzzy);
    assert IsModelVisible(BetaFilter, "", "Beta", "filter", fuzzy);
    assert IsModelVisible(AcmeVco, "", "", "oscillator", fuzzy);
  }

  const PluginA := Model(Plugin("a", "A", "A"), "a", "A", ["tag1"])
  const PluginB := Model(Plugin("b", "B", "B"), "b", "B", ["tag2"])
  const PluginC := Model(Plugin("c", "C", "C"), "c", "C", ["tag1", "tag2"])

  /** Plugins A, B and C carrying tag1, tag2 and both: with "tag1" selected,
      brand B has nothing left to show and is disabled, A and C stay enabled. */
  lemma BrandDisabledScenario(fuzzy: Scorer)
    ensures BrandFacets([PluginA, PluginB, PluginC], "", "tag1", ["A", "B", "C"], fuzzy) == [true, false, true]
  {
    var models := [PluginA, PluginB, PluginC];
    var flags := BrandFacets(models, "", "tag1", ["A", "B", "C"], fuzzy);
    assert PluginA in models && PluginC in models;
    assert IsModelVisible(PluginA, "", "A", "tag1", fuzzy);
    assert IsModelVisible(PluginC, "", "C", "tag1", fuzzy);
    assert !flags[1] by {
      forall m | m in models
        ensures !IsModelVisible(m, "", "B", "tag1", fuzzy)
      {
        assert m == PluginA || m == PluginB || m == PluginC;
      }
    }
  }
}
