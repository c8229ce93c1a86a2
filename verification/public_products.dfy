/** The public "Our Products" page. */
module PublicProducts {
  import opened Wrappers
  import opened ProductRank
  import ProductOrderManager

  /** One product card linking to its detail page. */
  datatype Card = Card(href: string, image_url: string, name: string, brand: string)

  datatype Page = ErrorPage(text: string) | Listing(cards: seq<Card>)

  function CardOf(p: Product): Card {
    Card("/products/" + p.id, p.image_url, p.name, p.brand)
  }

  /** The products behind the cards, in display order. */
  function DisplayOrder(ps: seq<Product>): (r: seq<Product>)
    ensures multiset(r) == multiset(ps) && Sorted(r)
  {
    SortProducts(ps)
  }

  /** A failed query shows a message and sorts nothing; otherwise one card per
      product, in display order. */
  function Render(fetched: Result<seq<Product>>): (r: Page)
    ensures fetched.Err? <==> r.ErrorPage?
    ensures fetched.Err? ==> r.text == "Error loading products"
    ensures fetched.Ok? ==>
      var shown := DisplayOrder(fetched.value);
      && |shown| == |fetched.value|
      && |r.cards| == |shown|
      && forall k :: 0 <= k < |shown| ==> r.cards[k] == CardOf(shown[k])
  {
    match fetched
    case Err(_) => ErrorPage("Error loading products")
    case Ok(ps) =>
      var shown := DisplayOrder(ps);
      assert |shown| == |multiset(shown)| == |multiset(ps)| == |ps|;
      Listing(seq(|shown|, k requires 0 <= k < |shown| => CardOf(shown[k])))
  }

  /** With ranks numbered 1..N, the public page shows the saved arrangement,
      whatever order the rows come back in. */
  lemma ShowsSavedOrder(saved: seq<Product>, fetched: seq<Product>)
    requires ProductOrderManager.NumberedInSequence(saved)
    requires multiset(fetched) == multiset(saved)
    ensures DisplayOrder(fetched) == saved
  {
    ProductOrderManager.NumberedIsSortedWithoutTies(saved);
    SortedPermutationUnique(saved, DisplayOrder(fetched));
  }
}
