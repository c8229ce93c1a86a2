/** The admin product list page: the new-product template, loading and sorting,
    deleting, and the editing/tab state. */
module AdminProducts {
  import opened Wrappers
  import opened ProductRank
  import ProductOrderManager

  datatype Tab = ProductsTab | OrderTab

  datatype AdminState = AdminState(
    products: seq<Product>,
    editing: Option<Product>,
    isAddingNew: bool,
    activeTab: Tab)

  /** The blank product "Add Product" opens the form with. */
  function EmptyProduct(): (p: Product)
    ensures p.id == "" && p.gallery_images == [] && p.in_stock && p.order == Some(0)
    ensures p.name == "" && p.description == "" && p.brand == "" && p.category == "" && p.image_url == ""
    ensures !HasRank(p)
  {
    Product("", "", "", "", "", None, "", [], true, Some(0))
  }

  /** A fresh product sorts after every ranked product, like a product with no rank. */
  lemma EmptyProductSortsAfterRanked(q: Product)
    requires HasRank(q)
    ensures Compare(q, EmptyProduct()) < 0 && Compare(EmptyProduct(), q) > 0
  {
  }

  /** The page's load, and the reload after a save: sorted rows, or the list
      unchanged when the query fails. Unlike the order manager, no rank is filled in. */
  function LoadProducts(st: AdminState, fetched: Result<seq<Product>>): (r: AdminState)
    ensures fetched.Err? ==> r == st
    ensures fetched.Ok? ==> multiset(r.products) == multiset(fetched.value) && Sorted(r.products)
    ensures r.editing == st.editing && r.isAddingNew == st.isAddingNew && r.activeTab == st.activeTab
  {
    match fetched
    case Err(_) => st
    case Ok(data) => st.(products := SortProducts(data))
  }

  /** With ranks numbered 1..N stored, the admin list shows the arrangement saved in
      the order manager, whatever order the rows come back in. */
  lemma LoadShowsSavedOrder(st: AdminState, saved: seq<Product>, fetched: seq<Product>)
    requires ProductOrderManager.NumberedInSequence(saved)
    requires multiset(fetched) == multiset(saved)
    ensures LoadProducts(st, Ok(fetched)).products == saved
  {
    ProductOrderManager.NumberedIsSortedWithoutTies(saved);
    SortedPermutationUnique(saved, SortProducts(fetched));
  }

  function HandleAddProduct(st: AdminState): (r: AdminState)
    ensures r.editing == Some(EmptyProduct()) && r.isAddingNew
    ensures r.products == st.products && r.activeTab == st.activeTab
  {
    st.(editing := Some(EmptyProduct()), isAddingNew := true)
  }

  function HandleEdit(st: AdminState, p: Product): (r: AdminState)
    ensures r.editing == Some(p)
    ensures r.products == st.products && r.isAddingNew == st.isAddingNew && r.activeTab == st.activeTab
  {
    st.(editing := Some(p))
  }

  /** `products.filter(p => p.id !== id)`. */
  function RemoveId(ps: seq<Product>, id: string): (r: seq<Product>)
    ensures forall p :: p in r <==> p in ps && p.id != id
    ensures |r| <= |ps|
    ensures (forall k :: 0 <= k < |ps| ==> ps[k].id != id) ==> r == ps
  {
    if ps == [] then []
    else
      assert ps == [ps[0]] + ps[1..];
      (if ps[0].id == id then [] else [ps[0]]) + RemoveId(ps[1..], id)
  }

  /** The products that stay keep their relative order: filtering a list is
      filtering its two halves and joining them. */
  lemma {:induction false} RemoveIdKeepsOrder(a: seq<Product>, b: seq<Product>, id: string)
    ensures RemoveId(a + b, id) == RemoveId(a, id) + RemoveId(b, id)
  {
    if a == [] {
      assert a + b == b;
    } else {
      assert (a + b)[1..] == a[1..] + b;
      RemoveIdKeepsOrder(a[1..], b, id);
    }
  }

  /** Delete: nothing happens unless the operator confirms and the table delete
      succeeds; then every product with that id leaves the list. */
  function HandleDelete(st: AdminState, id: string, confirmed: bool, deleted: Result<()>): (r: AdminState)
    ensures !confirmed || deleted.Err? ==> r == st
    ensures confirmed && deleted.Ok? ==> r.products == RemoveId(st.products, id)
    ensures r.editing == st.editing && r.isAddingNew == st.isAddingNew && r.activeTab == st.activeTab
  {
    if !confirmed then st
    else match deleted
      case Err(_) => st
      case Ok(_) => st.(products := RemoveId(st.products, id))
  }

  /** After the form saves: close it and reload. */
  function HandleSaved(st: AdminState, fetched: Result<seq<Product>>): (r: AdminState)
    ensures r.editing.None? && !r.isAddingNew && r.activeTab == st.activeTab
    ensures fetched.Err? ==> r.products == st.products
    ensures fetched.Ok? ==> multiset(r.products) == multiset(fetched.value) && Sorted(r.products)
  {
    LoadProducts(st.(editing := None, isAddingNew := false), fetched)
  }

  function HandleCancel(st: AdminState): (r: AdminState)
    ensures r.editing.None? && !r.isAddingNew
    ensures r.products == st.products && r.activeTab == st.activeTab
  {
    st.(editing := None, isAddingNew := false)
  }

  /** Switching tabs always abandons the open form. */
  function HandleTabChange(st: AdminState, tab: Tab): (r: AdminState)
    ensures r.activeTab == tab && r.editing.None? && !r.isAddingNew
    ensures r.products == st.products
  {
    st.(activeTab := tab, editing := None, isAddingNew := false)
  }
}
