/** The "values" block of the about page: one card per value, in a grid whose
    column class depends on how many values there are. */
module ValueSection {

  datatype ValueCard = ValueCard(title: string, description: string)

  /** `columnCount`. */
  function ColumnClass(count: nat): (cls: string)
    ensures ColumnsOf(cls) == if count == 1 || count == 2 then count else 3
  {
    if count == 1 then "grid-cols-1"
    else if count == 2 then "md:grid-cols-2"
    else "md:grid-cols-3"
  }

  /** How many columns a class lays out on a wide screen. */
  function ColumnsOf(cls: string): nat {
    if cls == "grid-cols-1" then 1
    else if cls == "md:grid-cols-2" then 2
    else if cls == "md:grid-cols-3" then 3
    else 1
  }

  /** One or two values get that many columns; every other count, including none,
      gets three. */
  lemma ColumnsForCount(count: nat)
    ensures count == 1 || count == 2 ==> ColumnsOf(ColumnClass(count)) == count
    ensures count != 1 && count != 2 ==> ColumnsOf(ColumnClass(count)) == 3
    ensures ColumnClass(count) in {"grid-cols-1", "md:grid-cols-2", "md:grid-cols-3"}
  {
  }

  /** A card as the grid renders it: the React key is the value's position. */
  datatype RenderedCard = RenderedCard(key: nat, title: string, description: string)

  /** `values.map((val, index) => <ValueCard key={index} {...val} />)`: one card per
      value, same order, same text, keyed by position. */
  function Cards(values: seq<ValueCard>): (cards: seq<RenderedCard>)
    ensures |cards| == |values|
    ensures forall k :: 0 <= k < |values| ==>
      cards[k].key == k && cards[k].title == values[k].title && cards[k].description == values[k].description
  {
    seq(|values|, k requires 0 <= k < |values| => RenderedCard(k, values[k].title, values[k].description))
  }
}
