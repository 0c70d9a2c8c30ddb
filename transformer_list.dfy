/**
 * The transformer list page: the whole list comes from the server and is
 * paged on the client, ten rows at a time, with one button per page when
 * there is more than one; and the form's submit, which creates a transformer
 * or, while one is being edited, sends the edited record merged with the
 * form's values.
 */
module TransformerList {
  import opened Wrappers
  import opened Beans
  import Paging

  const ItemsPerPage: nat := 10

  /** What the list query returned: an array of records, or anything else. */
  datatype Data = Rows(items: seq<Record>) | NotAnArray

  /** The list shown: the array, or an empty list for anything else. */
  function FullList(data: Data): (r: seq<Record>)
    ensures data.NotAnArray? ==> r == []
    ensures data.Rows? ==> r == data.items
  {
    match data
    case Rows(items) => items
    case NotAnArray => []
  }

  /** Where page `currentPage` (counted from 1) starts. */
  function Offset(currentPage: nat): (r: nat)
    requires currentPage >= 1
    ensures r + ItemsPerPage == currentPage * ItemsPerPage
  {
    (currentPage - 1) * ItemsPerPage
  }

  /** `Math.ceil(totalRecords / 10)`. */
  function TotalPages(totalRecords: nat): (r: nat)
    ensures r * ItemsPerPage >= totalRecords
    ensures r == 0 || (r - 1) * ItemsPerPage < totalRecords
  {
    if totalRecords % ItemsPerPage == 0 then totalRecords / ItemsPerPage else totalRecords / ItemsPerPage + 1
  }

  /** The page count is the least number of pages of ten that hold every record. */
  lemma TotalPagesIsCeiling(totalRecords: nat)
    ensures TotalPages(totalRecords) == Paging.PageCount(totalRecords, ItemsPerPage)
    ensures TotalPages(totalRecords) * ItemsPerPage >= totalRecords
    ensures TotalPages(totalRecords) == 0 || (TotalPages(totalRecords) - 1) * ItemsPerPage < totalRecords
  {
  }

  /** `xs.slice(start, end)` for non-negative bounds: both are clamped to the length. */
  function Slice<T>(xs: seq<T>, start: nat, end: nat): (r: seq<T>)
    ensures |r| <= |xs|
    ensures start <= end ==> |r| <= end - start
    ensures forall i :: 0 <= i < |r| ==> start + i < |xs| && r[i] == xs[start + i]
  {
    var s := if start < |xs| then start else |xs|;
    var e := if end < s then s else if end < |xs| then end else |xs|;
    xs[s..e]
  }

  /** The rows shown on page `currentPage`. */
  function Visible(fullList: seq<Record>, currentPage: nat): (r: seq<Record>)
    requires currentPage >= 1
    ensures |r| <= ItemsPerPage
  {
    var offset := Offset(currentPage);
    Slice(fullList, offset, offset + ItemsPerPage)
  }

  /** Page `currentPage` shows exactly the server-side page `currentPage - 1` of ten rows. */
  lemma VisibleIsPage(fullList: seq<Record>, currentPage: nat)
    requires currentPage >= 1
    ensures Visible(fullList, currentPage) == Paging.PageOf(fullList, currentPage - 1, ItemsPerPage)
  {
    var offset := Offset(currentPage);
    var a := Visible(fullList, currentPage);
    var b := Paging.PageOf(fullList, currentPage - 1, ItemsPerPage);
    assert |a| == |b|;
    assert forall i :: 0 <= i < |a| ==> a[i] == b[i];
  }

  /** Pages 1 to `count` shown one after the other. */
  function Shown(fullList: seq<Record>, count: nat): seq<Record>
  {
    if count == 0 then [] else Shown(fullList, count - 1) + Visible(fullList, count)
  }

  lemma {:induction false} ShownIsPages(fullList: seq<Record>, count: nat)
    ensures Shown(fullList, count) == Paging.Pages(fullList, ItemsPerPage, count)
  {
    if count > 0 {
      ShownIsPages(fullList, count - 1);
      VisibleIsPage(fullList, count);
    }
  }

  /** Reading pages 1 to `TotalPages` in order gives back the whole list, each row once. */
  lemma AllPagesShowTheList(fullList: seq<Record>)
    ensures Shown(fullList, TotalPages(|fullList|)) == fullList
  {
    TotalPagesIsCeiling(|fullList|);
    ShownIsPages(fullList, TotalPages(|fullList|));
    Paging.AllPagesReproduceList(fullList, ItemsPerPage);
  }

  /** The page buttons are drawn when there is more than one page. */
  predicate ShowButtons(totalPages: nat) { totalPages > 1 }

  /** Buttons appear exactly when there are more than ten rows; data that is not an array shows none. */
  lemma ButtonsIffMoreThanOnePage(data: Data)
    ensures ShowButtons(TotalPages(|FullList(data)|)) <==> |FullList(data)| > ItemsPerPage
    ensures data.NotAnArray? ==> TotalPages(|FullList(data)|) == 0 && Visible(FullList(data), 1) == []
  {
  }

  // ---------------------------------------------------------------- submit

  /**
   * The form's values: a key the form holds with the value `undefined` (a
   * field left empty) maps to None.
   */
  type FormValues = map<string, Option<Value>>

  /** A stored record as the form sees it: every key defined. */
  function Defined(rec: Record): (r: FormValues)
    ensures r.Keys == rec.Keys && forall k :: k in rec ==> r[k] == Some(rec[k])
  {
    map k | k in rec :: Some(rec[k])
  }

  /** What the form's submit sends. */
  datatype Request = Create(values: FormValues) | Update(record: FormValues)

  /**
   * `{ ...editItem, ...values }`: every field of both, the form's entry where
   * both have one, even when the form's entry is `undefined`.
   */
  function Merge(editItem: Record, values: FormValues): (r: FormValues)
    ensures r.Keys == editItem.Keys + values.Keys
    ensures forall k :: k in values ==> r[k] == values[k]
    ensures forall k :: k in editItem && k !in values ==> r[k] == Some(editItem[k])
  {
    Defined(editItem) + values
  }

  /**
   * `handleSubmit`: while a transformer is being edited, an update of it with
   * the form's values laid over it; otherwise a create with the values.
   */
  function Submit(editItem: Option<Record>, values: FormValues): (r: Request)
    ensures r.Create? <==> editItem.None?
    ensures r.Create? ==> r.values == values
    ensures r.Update? ==> r.record == Merge(editItem.value, values)
  {
    if editItem.Some? then Update(Defined(editItem.value) + values) else Create(values)
  }

  /**
   * An edit keeps the id, which the form does not carry; a field the form
   * holds as `undefined` is sent as `undefined`, whatever the record held.
   */
  lemma EditKeepsId(editItem: Record, values: FormValues, k: string)
    requires "id" in editItem && "id" !in values
    requires k in editItem && k in values && values[k].None?
    ensures var r := Submit(Some(editItem), values).record;
      "id" in r && r["id"] == Some(editItem["id"]) && r[k].None?
  {
  }
}
