/** The admin "About" page: sections loaded into a map keyed by section name,
    edited field by field, and saved one row at a time. */
module AdminAbout {
  import opened Wrappers
  import opened JsRecord

  datatype ValueItem = ValueItem(title: string, description: string)

  /** A column value of an `about_sections` row. */
  datatype Value = Str(text: string) | Null | Items(items: seq<ValueItem>)

  /** A row: the columns it carries, in order (`id`, `section`, `title`, ...). */
  type Section = Rec<Value>

  /** The page's `sections` object, keyed by section name. */
  type Sections = Rec<Section>

  datatype ItemField = ItemTitle | ItemDescription

  /** One `update(rest).eq("id", id)` call. */
  datatype SectionUpdate = SectionUpdate(id: Option<Value>, payload: Section)

  predicate HasSectionName(row: Section) {
    Get(row, "section").Some? && Get(row, "section").value.Str?
  }

  /** Every row has its `section` column set, as the table requires. */
  predicate AllNamed(rows: seq<Section>) {
    forall i :: 0 <= i < |rows| ==> HasSectionName(rows[i])
  }

  function SectionName(row: Section): string
    requires HasSectionName(row)
  {
    Get(row, "section").value.text
  }

  /** The position of the last row named `name`. */
  function LastIndexOf(rows: seq<Section>, name: string): (r: Option<nat>)
    requires AllNamed(rows)
    ensures r.None? <==> forall i :: 0 <= i < |rows| ==> SectionName(rows[i]) != name
    ensures r.Some? ==> r.value < |rows| && SectionName(rows[r.value]) == name
    ensures r.Some? ==> forall i :: r.value < i < |rows| ==> SectionName(rows[i]) != name
  {
    if rows == [] then None
    else if SectionName(rows[|rows| - 1]) == name then Some(|rows| - 1)
    else
      PrefixNamed(rows);
      LastIndexOf(rows[..|rows| - 1], name)
  }

  lemma PrefixNamed(rows: seq<Section>)
    requires rows != [] && AllNamed(rows)
    ensures AllNamed(rows[..|rows| - 1])
  {
    var p := rows[..|rows| - 1];
    forall i | 0 <= i < |p| ensures HasSectionName(p[i]) {
      assert p[i] == rows[i];
    }
  }

  /** `data.forEach(s => { sectionMap[s.section] = s })`. */
  function BuildSectionMap(rows: seq<Section>): (m: Sections)
    requires AllNamed(rows)
    ensures UniqueKeys(m)
  {
    if rows == [] then []
    else
      var last := rows[|rows| - 1];
      PrefixNamed(rows);
      var m := BuildSectionMap(rows[..|rows| - 1]);
      SetUnique(m, SectionName(last), last);
      Set(m, SectionName(last), last)
  }

  /** With repeated section names the later row wins; a name no row has is absent. */
  lemma {:induction false} SectionMapLastWins(rows: seq<Section>, name: string)
    requires AllNamed(rows)
    ensures LastIndexOf(rows, name).None? ==> Get(BuildSectionMap(rows), name).None?
    ensures LastIndexOf(rows, name).Some? ==>
      Get(BuildSectionMap(rows), name) == Some(rows[LastIndexOf(rows, name).value])
  {
    if rows != [] {
      var prefix := rows[..|rows| - 1];
      var last := rows[|rows| - 1];
      PrefixNamed(rows);
      SectionMapLastWins(prefix, name);
      var m := BuildSectionMap(prefix);
      assert BuildSectionMap(rows) == Set(m, SectionName(last), last);
      SetGet(m, SectionName(last), last);
      if SectionName(last) != name {
        var idx := LastIndexOf(prefix, name);
        assert LastIndexOf(rows, name) == idx;
        assert Get(BuildSectionMap(rows), name) == Get(m, name);
        if idx.Some? {
          assert prefix[idx.value] == rows[idx.value];
        }
      }
    }
  }

  /** Loading the page: a failed query leaves the map empty. */
  function FetchSections(fetched: Result<seq<Section>>): (m: Sections)
    requires fetched.Ok? ==> AllNamed(fetched.value)
    ensures fetched.Err? ==> m == []
    ensures fetched.Ok? ==> UniqueKeys(m)
  {
    match fetched
    case Err(_) => []
    case Ok(rows) => BuildSectionMap(rows)
  }

  /** `handleChange(section, field, value)`: only that field of that section changes;
      a section not in the map yet is created holding just the field. */
  function HandleChange(sections: Sections, section: string, field: string, value: Value): (r: Sections)
    ensures Get(r, section).Some?
    ensures Get(Get(r, section).value, field) == Some(value)
    ensures forall f :: f != field ==>
      Get(Get(r, section).value, f) == (if Get(sections, section).Some? then Get(Get(sections, section).value, f) else None)
    ensures forall s :: s != section ==> Get(r, s) == Get(sections, s)
    ensures section in Keys(sections) ==> Keys(r) == Keys(sections)
    ensures section !in Keys(sections) ==> Keys(r) == Keys(sections) + [section]
  {
    var inner := Set(Get(sections, section).GetOr([]), field, value);
    SetGet(Get(sections, section).GetOr([]), field, value);
    SetGet(sections, section, inner);
    Set(sections, section, inner)
  }

  function SetItemField(item: ValueItem, field: ItemField, value: string): (r: ValueItem)
    ensures field == ItemTitle ==> r.title == value && r.description == item.description
    ensures field == ItemDescription ==> r.description == value && r.title == item.title
  {
    match field
    case ItemTitle => item.(title := value)
    case ItemDescription => item.(description := value)
  }

  /** `handleValueItemChange(index, field, value)`. The source throws when there is
      no `values` section, when its item list is not an array, or when `index` is
      not a position of it; those are the Err cases. */
  function HandleValueItemChange(sections: Sections, index: int, field: ItemField, value: string): (r: Result<Sections>)
    ensures r.Ok? ==>
      && Get(sections, "values").Some? && Get(r.value, "values").Some?
      && var before := Get(Get(sections, "values").value, "value_items");
      var after := Get(Get(r.value, "values").value, "value_items");
      && before.Some? && before.value.Items? && after.Some? && after.value.Items?
      && 0 <= index < |before.value.items|
      && |after.value.items| == |before.value.items|
      && after.value.items[index] == SetItemField(before.value.items[index], field, value)
      && (forall k :: 0 <= k < |before.value.items| && k != index ==>
            after.value.items[k] == before.value.items[k])
      && (forall s :: s != "values" ==> Get(r.value, s) == Get(sections, s))
    ensures r.Err? <==>
      || Get(sections, "values").None?
      || var v := Get(Get(sections, "values").value, "value_items");
         (v.Some? && v.value.Str?) || !(0 <= index < |ItemsOf(v)|)
  {
    match Get(sections, "values")
    case None => Err("Cannot read properties of undefined")
    case Some(values) =>
      var v := Get(values, "value_items");
      if v.Some? && v.value.Str? then Err("Cannot create property on string")
      else
        var items := ItemsOf(v);
        if index < 0 || index >= |items| then Err("Cannot set properties of undefined")
        else
          var updated := items[index := SetItemField(items[index], field, value)];
          Ok(HandleChange(sections, "values", "value_items", Items(updated)))
  }

  /** `value_items ?? []` for a list or a missing/null value. */
  function ItemsOf(v: Option<Value>): seq<ValueItem> {
    if v.Some? && v.value.Items? then v.value.items else []
  }

  /** The call made for one section: its `id` selects the row, every other column is the payload. */
  function UpdateFor(section: Section): (u: SectionUpdate)
    ensures u.id == Get(section, "id")
    ensures Get(u.payload, "id").None?
    ensures forall k :: k != "id" ==> Get(u.payload, k) == Get(section, k)
  {
    SectionUpdate(Get(section, "id"), Delete(section, "id"))
  }

  function Updates(sections: Sections): (us: seq<SectionUpdate>)
    ensures |us| == |sections| && forall k :: 0 <= k < |sections| ==> us[k] == UpdateFor(sections[k].val)
  {
    seq(|sections|, k requires 0 <= k < |sections| => UpdateFor(sections[k].val))
  }

  /** The first position whose reply is an error. */
  function FirstFailure(replies: seq<Result<()>>): (r: Option<nat>)
    ensures r.None? <==> forall k :: 0 <= k < |replies| ==> replies[k].Ok?
    ensures r.Some? ==> r.value < |replies| && replies[r.value].Err?
    ensures r.Some? ==> forall k :: 0 <= k < r.value ==> replies[k].Ok?
  {
    if replies == [] then None
    else if replies[0].Err? then Some(0)
    else match FirstFailure(replies[1..])
      case None => None
      case Some(i) => Some(i + 1)
  }

  /** "Save": sections are written in the map's order and the loop stops at the first
      error; replies[k] is what the k-th write would get back. `saved` ("Saved
      successfully!") holds exactly when every write succeeded. */
  method HandleSave(sections: Sections, replies: seq<Result<()>>) returns (attempted: seq<SectionUpdate>, saved: bool)
    requires |replies| == |sections|
    ensures saved <==> FirstFailure(replies).None?
    ensures saved ==> attempted == Updates(sections)
    ensures !saved ==> attempted == Updates(sections)[..FirstFailure(replies).value + 1]
  {
    var all := Updates(sections);
    attempted := [];
    var k := 0;
    while k < |sections|
      invariant 0 <= k <= |sections|
      invariant attempted == all[..k]
      invariant forall j :: 0 <= j < k ==> replies[j].Ok?
    {
      attempted := attempted + [UpdateFor(sections[k].val)];
      if replies[k].Err? {
        assert FirstFailure(replies) == Some(k) by {
          FirstFailureAt(replies, k);
        }
        saved := false;
        return;
      }
      k := k + 1;
    }
    saved := true;
  }

  lemma {:induction false} FirstFailureAt(replies: seq<Result<()>>, k: nat)
    requires k < |replies| && replies[k].Err?
    requires forall j :: 0 <= j < k ==> replies[j].Ok?
    ensures FirstFailure(replies) == Some(k)
  {
    if k > 0 {
      FirstFailureAt(replies[1..], k - 1);
    }
  }
}
