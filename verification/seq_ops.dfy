/** List operations shared by the admin editors: swapping neighbours, dropping an
    index with `filter`, inserting at a position, and dnd-kit's `arrayMove`. */
module SeqOps {

  /** Exchanges the elements at positions i and j (a destructuring swap). */
  function Swap<T>(s: seq<T>, i: nat, j: nat): (r: seq<T>)
    requires i < |s| && j < |s|
    ensures |r| == |s|
    ensures r[i] == s[j] && r[j] == s[i]
    ensures forall k :: 0 <= k < |s| && k != i && k != j ==> r[k] == s[k]
  {
    s[i := s[j]][j := s[i]]
  }

  lemma SwapPermutes<T>(s: seq<T>, i: nat, j: nat)
    requires i < |s| && j < |s|
    ensures multiset(Swap(s, i, j)) == multiset(s)
  {
    var t := s[i := s[j]];
    assert multiset(t) == multiset(s) - multiset{s[i]} + multiset{s[j]};
    assert Swap(s, i, j) == t[j := s[i]];
  }

  /** `s.filter((_, idx) => idx !== i)` where the element at the head of `s` has
      index `base`: the literal reading of the source's removal. */
  function FilterIndexFrom<T>(s: seq<T>, i: int, base: int): (r: seq<T>)
    ensures base <= i < base + |s| ==> r == s[..i - base] + s[i - base + 1..]
    ensures !(base <= i < base + |s|) ==> r == s
    decreases |s|
  {
    if s == [] then []
    else
      var rest := FilterIndexFrom(s[1..], i, base + 1);
      if base == i then rest else [s[0]] + rest
  }

  /** Removes index i; any other i (negative, or past the end) removes nothing. */
  function RemoveIndex<T>(s: seq<T>, i: int): (r: seq<T>)
    ensures 0 <= i < |s| ==> |r| == |s| - 1
    ensures 0 <= i < |s| ==> forall k :: 0 <= k < i ==> r[k] == s[k]
    ensures 0 <= i < |s| ==> forall k :: i <= k < |r| ==> r[k] == s[k + 1]
    ensures !(0 <= i < |s|) ==> r == s
  {
    FilterIndexFrom(s, i, 0)
  }

  lemma RemoveIndexMultiset<T>(s: seq<T>, i: nat)
    requires i < |s|
    ensures multiset(RemoveIndex(s, i)) == multiset(s) - multiset{s[i]}
  {
    assert s == s[..i] + [s[i]] + s[i + 1..];
  }

  /** Inserts x so that it ends up at position k. */
  function InsertAt<T>(s: seq<T>, k: nat, x: T): (r: seq<T>)
    requires k <= |s|
    ensures |r| == |s| + 1
    ensures r[k] == x
    ensures forall j :: 0 <= j < k ==> r[j] == s[j]
    ensures forall j :: k < j < |r| ==> r[j] == s[j - 1]
  {
    s[..k] + [x] + s[k..]
  }

  /** dnd-kit's `arrayMove(s, from, to)`: take the element out of `from` and put it
      back so that it sits at `to`. */
  function ArrayMove<T>(s: seq<T>, from: nat, to: nat): (r: seq<T>)
    requires from < |s| && to < |s|
    ensures |r| == |s|
    ensures r[to] == s[from]
    ensures RemoveIndex(r, to) == RemoveIndex(s, from)
    ensures forall k :: 0 <= k < |s| && k < from && k < to ==> r[k] == s[k]
    ensures forall k :: 0 <= k < |s| && k > from && k > to ==> r[k] == s[k]
    ensures from <= to ==> forall k :: from <= k < to ==> r[k] == s[k + 1]
    ensures to <= from ==> forall k :: to < k <= from ==> r[k] == s[k - 1]
  {
    InsertAt(RemoveIndex(s, from), to, s[from])
  }

  lemma ArrayMovePermutes<T>(s: seq<T>, from: nat, to: nat)
    requires from < |s| && to < |s|
    ensures multiset(ArrayMove(s, from, to)) == multiset(s)
  {
    var t := RemoveIndex(s, from);
    RemoveIndexMultiset(s, from);
    InsertAtMultiset(t, to, s[from]);
    assert multiset(s) == multiset(t) + multiset{s[from]} by {
      assert s[from] in multiset(s);
    }
  }

  lemma InsertAtMultiset<T>(t: seq<T>, k: nat, x: T)
    requires k <= |t|
    ensures multiset(InsertAt(t, k, x)) == multiset(t) + multiset{x}
  {
    var a, b := t[..k], t[k..];
    assert InsertAt(t, k, x) == a + [x] + b;
    assert t == a + b;
    calc {
      multiset(a + [x] + b);
      multiset(a + [x]) + multiset(b);
      multiset(a) + multiset{x} + multiset(b);
    }
  }
}
