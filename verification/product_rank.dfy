/** The product display order shared by the admin order manager, the admin product
    list and the public product page: products with a truthy rank first, by rank,
    then the rest by id. */
module ProductRank {
  import opened Wrappers
  import JsText

  /** A row of the `products` table. `order` is the display rank, absent when the
      column is null. */
  datatype Product = Product(
    id: string,
    name: string,
    brand: string,
    category: string,
    description: string,
    price: Option<real>,
    image_url: string,
    gallery_images: seq<string>,
    in_stock: bool,
    order: Option<int>)

  /** JavaScript truthiness of the rank: null, undefined and 0 are all "no rank". */
  predicate HasRank(p: Product) {
    p.order.Some? && p.order.value != 0
  }

  /** The comparator passed to `Array.prototype.sort`. */
  function Compare(a: Product, b: Product): (r: int)
    ensures HasRank(a) && HasRank(b) ==> r == a.order.value - b.order.value
    ensures HasRank(a) && !HasRank(b) ==> r < 0
    ensures !HasRank(a) && HasRank(b) ==> r > 0
    ensures !HasRank(a) && !HasRank(b) ==> (r < 0 <==> JsText.LexCompare(a.id, b.id) < 0)
    ensures !HasRank(a) && !HasRank(b) ==> (r == 0 <==> a.id == b.id)
  {
    JsText.LexCompareZeroIff(a.id, b.id);
    if HasRank(a) && HasRank(b) then a.order.value - b.order.value
    else if HasRank(a) && !HasRank(b) then -1
    else if !HasRank(a) && HasRank(b) then 1
    else JsText.LexCompare(a.id, b.id)
  }

  /** `a` may come before `b` in the sorted list. */
  predicate Le(a: Product, b: Product) {
    Compare(a, b) <= 0
  }

  lemma CompareAntisymmetric(a: Product, b: Product)
    ensures Compare(a, b) == -Compare(b, a)
  {
    JsText.LexCompareAntisymmetric(a.id, b.id);
  }

  /** The comparator is a total preorder, so `sort` is well defined on it. */
  lemma LeReflexive(a: Product)
    ensures Le(a, a)
  {
  }

  lemma LeTotal(a: Product, b: Product)
    ensures Le(a, b) || Le(b, a)
  {
    CompareAntisymmetric(a, b);
  }

  lemma LeTransitive(a: Product, b: Product, c: Product)
    requires Le(a, b) && Le(b, c)
    ensures Le(a, c)
  {
    if !HasRank(a) && !HasRank(b) && !HasRank(c) {
      JsText.LexCompareTransitive(a.id, b.id, c.id);
    }
  }

  /** A rank of 0 and a missing rank are indistinguishable to the comparator. */
  lemma ZeroRankIsNoRank(a: Product, b: Product)
    ensures Compare(a.(order := Some(0)), b) == Compare(a.(order := None), b)
    ensures Compare(b, a.(order := Some(0))) == Compare(b, a.(order := None))
  {
  }

  /** Every list in which no product would sort before an earlier one. */
  predicate Sorted(s: seq<Product>) {
    forall i, j :: 0 <= i < j < |s| ==> Le(s[i], s[j])
  }

  /** Puts x before the first element it may precede. */
  function InsertSorted(x: Product, s: seq<Product>): (r: seq<Product>)
    requires Sorted(s)
    ensures multiset(r) == multiset(s) + multiset{x}
    ensures Sorted(r)
  {
    if s == [] then [x]
    else if Le(x, s[0]) then
      assert forall k :: 0 <= k < |s| ==> Le(x, s[k]) by {
        forall k | 0 <= k < |s| ensures Le(x, s[k]) {
          if k > 0 { LeTransitive(x, s[0], s[k]); }
        }
      }
      [x] + s
    else
      LeTotal(x, s[0]);
      var t := InsertSorted(x, s[1..]);
      assert s == [s[0]] + s[1..];
      assert forall k :: 0 <= k < |t| ==> Le(s[0], t[k]) by {
        forall k | 0 <= k < |t| ensures Le(s[0], t[k]) {
          assert t[k] in multiset(t);
          if t[k] != x {
            assert t[k] in multiset(s[1..]);
            var m :| 0 <= m < |s[1..]| && s[1..][m] == t[k];
            assert Le(s[0], s[m + 1]);
          }
        }
      }
      [s[0]] + t
  }

  /** The stable sort the runtime performs with `Compare`. */
  function SortProducts(s: seq<Product>): (r: seq<Product>)
    ensures multiset(r) == multiset(s)
    ensures Sorted(r)
  {
    if s == [] then []
    else
      assert s == [s[0]] + s[1..];
      InsertSorted(s[0], SortProducts(s[1..]))
  }

  /** No two entries of the list tie under the comparator. */
  predicate NoTies(s: seq<Product>) {
    forall i, j :: 0 <= i < |s| && 0 <= j < |s| && i != j ==> Compare(s[i], s[j]) != 0
  }

  /** Two sorted arrangements of the same products without ties are the same list:
      the comparator alone decides the display order. */
  lemma {:induction false} SortedPermutationUnique(a: seq<Product>, b: seq<Product>)
    requires Sorted(a) && Sorted(b) && NoTies(a)
    requires multiset(a) == multiset(b)
    ensures a == b
  {
    assert |a| == |multiset(a)| == |multiset(b)| == |b|;
    if a != [] {
      HeadsAgree(a, b);
      assert a == [a[0]] + a[1..] && b == [b[0]] + b[1..];
      assert multiset(a) == multiset{a[0]} + multiset(a[1..]);
      assert multiset(b) == multiset{b[0]} + multiset(b[1..]);
      assert multiset(a[1..]) == multiset(a) - multiset{a[0]};
      assert multiset(b[1..]) == multiset(b) - multiset{b[0]};
      SortedPermutationUnique(a[1..], b[1..]);
    }
  }

  lemma HeadsAgree(a: seq<Product>, b: seq<Product>)
    requires Sorted(a) && Sorted(b) && NoTies(a)
    requires multiset(a) == multiset(b) && a != []
    ensures b != [] && a[0] == b[0]
  {
    assert a[0] in multiset(b);
    var k :| 0 <= k < |b| && b[k] == a[0];
    assert b[0] in multiset(a);
    var m :| 0 <= m < |a| && a[m] == b[0];
    var le1 := Le(a[0], a[m]);
    var le2 := k == 0 || Le(b[0], b[k]);
    assert le1 && le2;
    CompareAntisymmetric(a[0], a[m]);
    assert Compare(a[0], a[m]) == 0;
    assert m == 0;
  }
}
