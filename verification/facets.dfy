/**
  Facet availability: which brand and tag entries of the sidebar stay
  selectable, and the counters shown above each list.

  The browser first keeps the models that pass the query alone, then asks for
  every brand entry whether one of those models also has that brand and the
  current tag, and for every tag entry whether one of them also has that tag
  and the current brand.
 */
module Facets {
  import opened Catalog
  import opened Filter

  /** The models that pass the search query alone, in catalogue order. */
  function Prefilter(models: seq<Model>, search: string, fuzzy: Scorer): (r: seq<Model>)
    ensures |r| <= |models|
    ensures forall m :: m in r <==> m in models && IsModelVisible(m, search, "", "", fuzzy)
    decreases |models|
  {
    if |models| == 0 then []
    else
      assert models == [models[0]] + models[1..];
      (if IsModelVisible(models[0], search, "", "", fuzzy) then [models[0]] else [])
        + Prefilter(models[1..], search, fuzzy)
  }

  /** Whether some model of `filtered` has the given brand and tag (an empty
      value does not constrain). */
  function HasModel(filtered: seq<Model>, brand: string, tag: string, fuzzy: Scorer): (r: bool)
    ensures r <==> exists m :: m in filtered && IsModelVisible(m, "", brand, tag, fuzzy)
    decreases |filtered|
  {
    if |filtered| == 0 then false
    else if IsModelVisible(filtered[0], "", brand, tag, fuzzy) then true
    else
      assert filtered == [filtered[0]] + filtered[1..];
      HasModel(filtered[1..], brand, tag, fuzzy)
  }

  /** The two-pass check answers exactly the question the facet asks: would
      some model of the catalogue be visible with this brand and tag under the
      current query? */
  lemma {:induction false} FacetAvailable(models: seq<Model>, search: string, fuzzy: Scorer)
    ensures forall brand, tag :: HasModel(Prefilter(models, search, fuzzy), brand, tag, fuzzy) <==>
      exists m :: m in models && IsModelVisible(m, search, brand, tag, fuzzy)
  {
    var filtered := Prefilter(models, search, fuzzy);
    forall brand, tag
      ensures HasModel(filtered, brand, tag, fuzzy) <==>
        exists m :: m in models && IsModelVisible(m, search, brand, tag, fuzzy)
    {
      if HasModel(filtered, brand, tag, fuzzy) {
        var m :| m in filtered && IsModelVisible(m, "", brand, tag, fuzzy);
        VisibleSplits(m, search, brand, tag, fuzzy);
      }
      if exists m :: m in models && IsModelVisible(m, search, brand, tag, fuzzy) {
        var m :| m in models && IsModelVisible(m, search, brand, tag, fuzzy);
        VisibleSplits(m, search, brand, tag, fuzzy);
        assert m in filtered;
      }
    }
  }

  /** Everything visible under the full filter survives the query prefilter. */
  lemma VisibleWithinPrefilter(models: seq<Model>, search: string, brand: string, tag: string, fuzzy: Scorer)
    ensures forall m :: m in models && IsModelVisible(m, search, brand, tag, fuzzy) ==>
      m in Prefilter(models, search, fuzzy)
  {
  }

  /** Enabled flag of every brand entry, given the current tag. */
  function BrandFacets(models: seq<Model>, search: string, tag: string, brandItems: seq<string>, fuzzy: Scorer): (flags: seq<bool>)
    ensures |flags| == |brandItems|
    ensures forall i :: 0 <= i < |brandItems| ==>
      (flags[i] <==> exists m :: m in models && IsModelVisible(m, search, brandItems[i], tag, fuzzy))
  {
    var filtered := Prefilter(models, search, fuzzy);
    FacetAvailable(models, search, fuzzy);
    seq(|brandItems|, i requires 0 <= i < |brandItems| => HasModel(filtered, brandItems[i], tag, fuzzy))
  }

  /** Enabled flag of every tag entry, given the current brand. */
  function TagFacets(models: seq<Model>, search: string, brand: string, tagItems: seq<string>, fuzzy: Scorer): (flags: seq<bool>)
    ensures |flags| == |tagItems|
    ensures forall i :: 0 <= i < |tagItems| ==>
      (flags[i] <==> exists m :: m in models && IsModelVisible(m, search, brand, tagItems[i], fuzzy))
  {
    var filtered := Prefilter(models, search, fuzzy);
    FacetAvailable(models, search, fuzzy);
    seq(|tagItems|, i requires 0 <= i < |tagItems| => HasModel(filtered, brand, tagItems[i], fuzzy))
  }

  /** The positions of a flag list that are set. */
  function SetPositions(flags: seq<bool>): set<int> {
    set i | 0 <= i < |flags| && flags[i]
  }

  /** The counter loop: one increment per set flag, in order. */
  function CountTrue(flags: seq<bool>): (n: nat)
    ensures n == |SetPositions(flags)|
    ensures n <= |flags|
    decreases |flags|
  {
    if |flags| == 0 then 0
    else
      var k := |flags| - 1;
      var prefix := flags[..k];
      var n := CountTrue(prefix);
      assert SetPositions(flags) == SetPositions(prefix) + (if flags[k] then {k} else {});
      n + (if flags[k] then 1 else 0)
  }

  /** The counter is zero exactly when no flag is set. */
  lemma CountTrueZeroIff(flags: seq<bool>)
    ensures CountTrue(flags) == 0 <==> forall i :: 0 <= i < |flags| ==> !flags[i]
  {
    if CountTrue(flags) == 0 {
      assert SetPositions(flags) == {};
    } else {
      var i :| i in SetPositions(flags);
    }
  }

  /** The counter reaches the number of entries exactly when every flag is
      set. */
  lemma {:induction false} CountTrueFullIff(flags: seq<bool>)
    ensures CountTrue(flags) == |flags| <==> forall i :: 0 <= i < |flags| ==> flags[i]
    decreases |flags|
  {
    if |flags| > 0 {
      var k := |flags| - 1;
      CountTrueFullIff(flags[..k]);
      assert forall i :: 0 <= i < k ==> flags[..k][i] == flags[i];
    }
  }
}
