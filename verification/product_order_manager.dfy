/** The admin "Product Order Manager": loads products, lets the operator move them
    with arrow buttons or drag-and-drop, renumbers ranks 1..N after every move, and
    saves one rank update per product. */
module ProductOrderManager {
  import opened Wrappers
  import opened ProductRank
  import SeqOps

  datatype Direction = Up | Down

  datatype ManagerState = ManagerState(
    products: seq<Product>,
    loading: bool,
    saving: bool,
    hasChanges: bool)

  /** One `update({ order }).eq("id", id)` call. */
  datatype OrderUpdate = OrderUpdate(id: string, order: Option<int>)

  /** What the batch of updates came back with: one error slot per call, or a
      rejection of the whole batch. */
  datatype BatchOutcome = Settled(errors: seq<Option<string>>) | Rejected(message: string)

  datatype SaveReport = SaveReport(state: ManagerState, requests: seq<OrderUpdate>, notifyParent: bool)

  function Initial(): (st: ManagerState)
    ensures st.products == [] && st.loading && !st.saving && !st.hasChanges
  {
    ManagerState([], true, false, false)
  }

  /** A product with its rank erased, to compare everything else about it. */
  function Unranked(p: Product): Product {
    p.(order := None)
  }

  function Ids(ps: seq<Product>): (r: seq<string>)
    ensures |r| == |ps| && forall k :: 0 <= k < |ps| ==> r[k] == ps[k].id
  {
    seq(|ps|, k requires 0 <= k < |ps| => ps[k].id)
  }

  function StripRanks(ps: seq<Product>): (r: seq<Product>)
    ensures |r| == |ps| && forall k :: 0 <= k < |ps| ==> r[k] == Unranked(ps[k])
  {
    seq(|ps|, k requires 0 <= k < |ps| => Unranked(ps[k]))
  }

  /** Ranks are exactly the 1-based positions. */
  predicate NumberedInSequence(ps: seq<Product>) {
    forall k :: 0 <= k < |ps| ==> ps[k].order == Some(k + 1)
  }

  /** The fetch-time fill-in: a product without a rank gets its 1-based fetch
      position; a present rank, including 0, is kept. */
  function FillOrder(ps: seq<Product>): (r: seq<Product>)
    ensures |r| == |ps|
    ensures forall k :: 0 <= k < |ps| && ps[k].order.Some? ==> r[k] == ps[k]
    ensures forall k :: 0 <= k < |ps| && ps[k].order.None? ==>
      r[k].order == Some(k + 1) && Unranked(r[k]) == Unranked(ps[k])
  {
    seq(|ps|, k requires 0 <= k < |ps| =>
      ps[k].(order := Some(ps[k].order.GetOr(k + 1))))
  }

  /** Every item's rank becomes its 1-based position; nothing else changes. */
  function Renumber(ps: seq<Product>): (r: seq<Product>)
    ensures |r| == |ps| && NumberedInSequence(r)
    ensures StripRanks(r) == StripRanks(ps)
  {
    seq(|ps|, k requires 0 <= k < |ps| => ps[k].(order := Some(k + 1)))
  }

  /** `findIndex` by id: the first position holding `id`. */
  function FindIndex(ps: seq<Product>, id: string): (r: Option<nat>)
    ensures r.Some? ==> r.value < |ps| && ps[r.value].id == id
    ensures r.Some? ==> forall k :: 0 <= k < r.value ==> ps[k].id != id
    ensures r.None? ==> forall k :: 0 <= k < |ps| ==> ps[k].id != id
  {
    if ps == [] then None
    else if ps[0].id == id then Some(0)
    else match FindIndex(ps[1..], id)
      case None => None
      case Some(i) => Some(i + 1)
  }

  /** Loading the table: on an error the list stays as it was; otherwise ranks are
      filled in and the list is sorted for display. */
  function FetchProducts(st: ManagerState, fetched: Result<seq<Product>>): (r: ManagerState)
    ensures !r.loading && r.saving == st.saving && r.hasChanges == st.hasChanges
    ensures fetched.Err? ==> r.products == st.products
    ensures fetched.Ok? ==> multiset(r.products) == multiset(FillOrder(fetched.value))
    ensures fetched.Ok? ==> Sorted(r.products)
    ensures fetched.Ok? ==> forall k :: 0 <= k < |r.products| ==> r.products[k].order.Some?
  {
    match fetched
    case Err(_) => st.(loading := false)
    case Ok(data) =>
      var filled := FillOrder(data);
      var sorted := SortProducts(filled);
      assert forall k :: 0 <= k < |sorted| ==> sorted[k].order.Some? by {
        forall k | 0 <= k < |sorted| ensures sorted[k].order.Some? {
          assert sorted[k] in multiset(filled);
        }
      }
      st.(products := sorted, loading := false)
  }

  /** The up/down arrow buttons. */
  function MoveProduct(st: ManagerState, id: string, dir: Direction): (r: ManagerState)
    ensures FindIndex(st.products, id).None? ==> r == st
    ensures FindIndex(st.products, id).Some? ==>
      var i := FindIndex(st.products, id).value;
      var j := if dir == Up then i - 1 else i + 1;
      if 0 <= j < |st.products| then
        && |r.products| == |st.products|
        && NumberedInSequence(r.products)
        && Unranked(r.products[i]) == Unranked(st.products[j])
        && Unranked(r.products[j]) == Unranked(st.products[i])
        && (forall k :: 0 <= k < |st.products| && k != i && k != j ==>
              Unranked(r.products[k]) == Unranked(st.products[k]))
        && r.hasChanges
        && r.loading == st.loading && r.saving == st.saving
      else r == st
  {
    match FindIndex(st.products, id)
    case None => st
    case Some(i) =>
      var j := if dir == Up then i - 1 else i + 1;
      if j < 0 || j >= |st.products| then st
      else
        var moved := Renumber(SeqOps.Swap(st.products, i, j as nat));
        assert forall k :: 0 <= k < |moved| ==> Unranked(moved[k]) == StripRanks(moved)[k];
        st.(products := moved, hasChanges := true)
  }

  /** Whether the arrow buttons of the item at `index` are enabled. */
  function CanMoveUp(index: nat, length: nat): (b: bool)
    ensures index < length ==> (b <==> 0 <= index - 1 < length)
  {
    index > 0
  }

  function CanMoveDown(index: nat, length: nat): (b: bool)
    ensures index < length ==> (b <==> 0 <= index + 1 < length)
  {
    index < length - 1
  }

  predicate UniqueIds(ps: seq<Product>) {
    forall i, j :: 0 <= i < j < |ps| ==> ps[i].id != ps[j].id
  }

  /** The enabled buttons are exactly the moves that change the list. */
  lemma MoveGatedByButtons(st: ManagerState, index: nat)
    requires UniqueIds(st.products) && index < |st.products|
    ensures MoveProduct(st, st.products[index].id, Up) != st <==> CanMoveUp(index, |st.products|)
    ensures MoveProduct(st, st.products[index].id, Down) != st <==> CanMoveDown(index, |st.products|)
  {
    var ps := st.products;
    var id := ps[index].id;
    assert FindIndex(ps, id) == Some(index);
    if index > 0 {
      var r := MoveProduct(st, id, Up);
      assert Unranked(r.products[index]).id == ps[index - 1].id != id;
    }
    if index < |ps| - 1 {
      var r := MoveProduct(st, id, Down);
      assert Unranked(r.products[index]).id == ps[index + 1].id != id;
    }
  }

  /** Drag-and-drop: `active` is dropped on `over`. */
  function DragEnd(st: ManagerState, active: string, over: string): (r: ManagerState)
    requires active == over || (FindIndex(st.products, active).Some? && FindIndex(st.products, over).Some?)
    ensures active == over ==> r == st
    ensures active != over ==>
      var i := FindIndex(st.products, active).value;
      var j := FindIndex(st.products, over).value;
      && StripRanks(r.products) == SeqOps.ArrayMove(StripRanks(st.products), i, j)
      && r.products[j].id == active
      && NumberedInSequence(r.products)
      && r.hasChanges
      && r.loading == st.loading && r.saving == st.saving
  {
    if active == over then st
    else
      var i := FindIndex(st.products, active).value;
      var j := FindIndex(st.products, over).value;
      var moved := SeqOps.ArrayMove(st.products, i, j);
      var renumbered := Renumber(moved);
      StripRanksArrayMove(st.products, i, j);
      assert renumbered[j].id == StripRanks(renumbered)[j].id;
      st.(products := renumbered, hasChanges := true)
  }

  /** Erasing ranks commutes with moving an element. */
  lemma StripRanksArrayMove(ps: seq<Product>, i: nat, j: nat)
    requires i < |ps| && j < |ps|
    ensures StripRanks(SeqOps.ArrayMove(ps, i, j)) == SeqOps.ArrayMove(StripRanks(ps), i, j)
  {
    var moved := SeqOps.ArrayMove(ps, i, j);
    var a := SeqOps.ArrayMove(StripRanks(ps), i, j);
    forall k | 0 <= k < |moved| ensures StripRanks(moved)[k] == a[k] {
      if k == j {
      } else if k < i && k < j {
      } else if k > i && k > j {
      } else if i <= j {
        assert moved[k] == ps[k + 1];
      } else {
        assert moved[k] == ps[k - 1];
      }
    }
  }

  /** The calls "Save Order" issues: one per product, its current rank under its id. */
  function OrderRequests(ps: seq<Product>): (r: seq<OrderUpdate>)
    ensures |r| == |ps|
    ensures forall k :: 0 <= k < |ps| ==> r[k].id == ps[k].id && r[k].order == ps[k].order
  {
    seq(|ps|, k requires 0 <= k < |ps| => OrderUpdate(ps[k].id, ps[k].order))
  }

  predicate AllSucceeded(outcome: BatchOutcome) {
    outcome.Settled? && forall k :: 0 <= k < |outcome.errors| ==> outcome.errors[k].None?
  }

  /** "Save Order": the unsaved-changes flag is cleared, and the parent told, only
      when no single update reported an error. */
  function SaveOrder(st: ManagerState, outcome: BatchOutcome): (r: SaveReport)
    requires outcome.Settled? ==> |outcome.errors| == |st.products|
    ensures r.requests == OrderRequests(st.products)
    ensures r.state.products == st.products && !r.state.saving
    ensures r.state.loading == st.loading
    ensures r.notifyParent <==> AllSucceeded(outcome)
    ensures r.state.hasChanges == (st.hasChanges && !AllSucceeded(outcome))
  {
    var requests := OrderRequests(st.products);
    var ok := AllSucceeded(outcome);
    SaveReport(
      st.(saving := false, hasChanges := if ok then false else st.hasChanges),
      requests,
      ok)
  }

  /** "Reset": reload from the table and forget unsaved changes. */
  function ResetOrder(st: ManagerState, fetched: Result<seq<Product>>): (r: ManagerState)
    ensures !r.hasChanges && !r.loading
    ensures fetched.Err? ==> r.products == st.products
    ensures fetched.Ok? ==> multiset(r.products) == multiset(FillOrder(fetched.value)) && Sorted(r.products)
  {
    FetchProducts(st, fetched).(hasChanges := false)
  }

  /** A list numbered 1..N is already in display order, with no ties. */
  lemma NumberedIsSortedWithoutTies(ps: seq<Product>)
    requires NumberedInSequence(ps)
    ensures Sorted(ps) && NoTies(ps)
  {
    forall i, j | 0 <= i < |ps| && 0 <= j < |ps|
      ensures Compare(ps[i], ps[j]) == i - j
    {
      assert HasRank(ps[i]) && HasRank(ps[j]);
    }
  }

  /** Once the renumbered ranks are stored, reloading them, in whatever order the
      table returns the rows, shows the list exactly as it was arranged. */
  lemma ReloadRestoresSavedOrder(st: ManagerState, saved: seq<Product>, fetched: seq<Product>)
    requires NumberedInSequence(saved)
    requires multiset(fetched) == multiset(saved)
    ensures FetchProducts(st, Ok(fetched)).products == saved
  {
    forall k | 0 <= k < |fetched| ensures fetched[k].order.Some? {
      assert fetched[k] in multiset(saved);
    }
    assert FillOrder(fetched) == fetched;
    NumberedIsSortedWithoutTies(saved);
    SortedPermutationUnique(saved, SortProducts(fetched));
  }
}
