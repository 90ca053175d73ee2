/**
  The catalogue the browser shows: plugins and the models (modules) they
  provide. A model refers to its plugin; since plugins never change while the
  browser is open, the model carries the plugin record by value.
 */
module Catalog {
  import opened Strings

  datatype Plugin = Plugin(slug: string, name: string, brand: string)

  /** `tags` keeps the order in which the plugin declared them. */
  datatype Model = Model(plugin: Plugin, slug: string, name: string, tags: seq<string>)

  /** Each tag preceded by a single space, in declaration order. */
  function TagWords(tags: seq<string>): string {
    if |tags| == 0 then "" else " " + tags[0] + TagWords(tags[1..])
  }

  /** The text a search query is matched against: brand, name, slug and then
      every tag, separated by single spaces. */
  function SearchText(m: Model): string {
    m.plugin.brand + " " + m.name + " " + m.slug + TagWords(m.tags)
  }

  lemma {:induction false} TagWordsContainTags(tags: seq<string>, t: string)
    requires t in tags
    ensures IsSubstring(t, TagWords(tags))
    decreases |tags|
  {
    if tags[0] == t {
      SubstringOfSelf(t);
      SubstringWiden(t, " ", t, TagWords(tags[1..]));
      assert " " + t + TagWords(tags[1..]) == TagWords(tags);
    } else {
      assert t in tags[1..];
      TagWordsContainTags(tags[1..], t);
      SubstringWiden(t, " " + tags[0], TagWords(tags[1..]), "");
      assert " " + tags[0] + TagWords(tags[1..]) + "" == TagWords(tags);
    }
  }

  /** The search text starts with the brand, is never empty, and contains the
      name, the slug and every tag as contiguous pieces. */
  lemma SearchTextParts(m: Model)
    ensures m.plugin.brand <= SearchText(m)
    ensures |SearchText(m)| >= 2
    ensures IsSubstring(m.plugin.brand, SearchText(m))
    ensures IsSubstring(m.name, SearchText(m))
    ensures IsSubstring(m.slug, SearchText(m))
    ensures forall t :: t in m.tags ==> IsSubstring(t, SearchText(m))
  {
    SearchTextBrand(m);
    SearchTextName(m);
    SearchTextSlug(m);
    forall t | t in m.tags
      ensures IsSubstring(t, SearchText(m))
    {
      SearchTextTag(m, t);
    }
  }

  lemma SearchTextBrand(m: Model)
    ensures m.plugin.brand <= SearchText(m)
    ensures |SearchText(m)| >= 2
    ensures IsSubstring(m.plugin.brand, SearchText(m))
  {
    var b, rest := m.plugin.brand, " " + m.name + " " + m.slug + TagWords(m.tags);
    assert SearchText(m) == b + rest;
    assert b <= SearchText(m)[0..];
  }

  lemma SearchTextName(m: Model)
    ensures IsSubstring(m.name, SearchText(m))
  {
    var x, n, y := m.plugin.brand + " ", m.name, " " + m.slug + TagWords(m.tags);
    assert SearchText(m) == x + n + y;
    SubstringOfSelf(n);
    SubstringWiden(n, x, n, y);
  }

  lemma SearchTextSlug(m: Model)
    ensures IsSubstring(m.slug, SearchText(m))
  {
    var x, sl, y := m.plugin.brand + " " + m.name + " ", m.slug, TagWords(m.tags);
    assert SearchText(m) == x + sl + y;
    SubstringOfSelf(sl);
    SubstringWiden(sl, x, sl, y);
  }

  lemma SearchTextTag(m: Model, t: string)
    requires t in m.tags
    ensures IsSubstring(t, SearchText(m))
  {
    var x, w := m.plugin.brand + " " + m.name + " " + m.slug, TagWords(m.tags);
    assert SearchText(m) == x + w + "";
    TagWordsContainTags(m.tags, t);
    SubstringWiden(t, x, w, "");
  }
}
