/** The product catalog of `catalog.json` and the emotion-based recommendation filter
    (app.py:59-60). The detected emotion comes from an external face classifier and is an input. */
module Catalog {
  import opened Strings

  datatype CatalogItem = CatalogItem(emotion: string, name: string, image: string, link: string, category: string)

  predicate Suits(item: CatalogItem, emotion: string) {
    SameIgnoringCase(item.emotion, emotion)
  }

  /** The catalog items whose emotion equals the detected one ignoring case, in catalog order. */
  function Recommendations(catalog: seq<CatalogItem>, emotion: string): (r: seq<CatalogItem>)
    ensures |r| <= |catalog|
    ensures forall x :: x in r ==> x in catalog && Suits(x, emotion)
    ensures forall i :: 0 <= i < |catalog| && Suits(catalog[i], emotion) ==> catalog[i] in r
  {
    if catalog == [] then []
    else (if Suits(catalog[0], emotion) then [catalog[0]] else []) + Recommendations(catalog[1..], emotion)
  }

  /** Recommending from two stretches of the catalog gives the two results one after the other,
      so catalog order is kept. */
  lemma {:induction false} RecommendationsAppend(a: seq<CatalogItem>, b: seq<CatalogItem>, emotion: string)
    ensures Recommendations(a + b, emotion) == Recommendations(a, emotion) + Recommendations(b, emotion)
    decreases |a|
  {
    if a == [] {
      assert a + b == b;
    } else {
      assert (a + b)[0] == a[0];
      assert (a + b)[1..] == a[1..] + b;
      RecommendationsAppend(a[1..], b, emotion);
    }
  }

  /** Extending the catalog by one item extends the recommendations by that item exactly when it
      suits the emotion. */
  lemma RecommendationsSnoc(catalog: seq<CatalogItem>, i: nat, emotion: string)
    requires i < |catalog|
    ensures Recommendations(catalog[..i + 1], emotion)
            == Recommendations(catalog[..i], emotion) + (if Suits(catalog[i], emotion) then [catalog[i]] else [])
  {
    RecommendationsAppend(catalog[..i], [catalog[i]], emotion);
    assert catalog[..i + 1] == catalog[..i] + [catalog[i]];
    assert Recommendations([catalog[i]], emotion) == if Suits(catalog[i], emotion) then [catalog[i]] else [];
  }

  /** The casing of the detected emotion does not matter. */
  lemma {:induction false} RecommendationsIgnoreCase(catalog: seq<CatalogItem>, e1: string, e2: string)
    requires SameIgnoringCase(e1, e2)
    ensures Recommendations(catalog, e1) == Recommendations(catalog, e2)
    decreases |catalog|
  {
    if catalog != [] {
      RecommendationsIgnoreCase(catalog[1..], e1, e2);
    }
  }
}
