/**
 * Paged, filtered listing as the transformer and inspection services perform
 * it: a defaulted page request, the rows matching the filter in id-descending
 * order, one page of them mapped to responses, and 1-based page metadata.
 */
module Paging {
  import opened Wrappers
  import opened Text
  import opened Beans
  import opened Responses
  import opened FilterSpec
  import Repository

  function Min(a: int, b: int): int { if a <= b then a else b }

  /** The elements at positions `page*size` up to `(page+1)*size - 1` that exist. */
  function PageOf<T>(ordered: seq<T>, page: nat, size: nat): (r: seq<T>)
    requires size >= 1
    ensures |r| <= size
    ensures |r| == if page * size >= |ordered| then 0 else Min(size, |ordered| - page * size)
    ensures forall i :: 0 <= i < |r| ==> r[i] == ordered[page * size + i]
  {
    var n, start := |ordered|, page * size;
    ordered[Min(n, start)..Min(n, start + size)]
  }

  /** The first `count` pages, concatenated. */
  function Pages<T>(ordered: seq<T>, size: nat, count: nat): seq<T>
    requires size >= 1
  {
    if count == 0 then [] else Pages(ordered, size, count - 1) + PageOf(ordered, size := size, page := count - 1)
  }

  /** Number of pages needed for `n` items: the ceiling of `n / size`. */
  function PageCount(n: nat, size: nat): (r: nat)
    requires size >= 1
    ensures r * size >= n && (r == 0 || (r - 1) * size < n)
  {
    (n + size - 1) / size
  }

  /** Page `c + 1` starts one page size after page `c`. */
  lemma NextPageStart(c: nat, size: nat)
    ensures (c + 1) * size == c * size + size
  {
  }

  lemma {:induction false} PagesArePrefix<T>(ordered: seq<T>, size: nat, count: nat)
    requires size >= 1
    ensures Pages(ordered, size, count) == ordered[..Min(|ordered|, count * size)]
  {
    if count > 0 {
      var c := count - 1;
      PagesArePrefix(ordered, size, c);
      NextPageStart(c, size);
      AppendPage(ordered, Pages(ordered, size, c), PageOf(ordered, c, size), c * size, size);
    }
  }

  /** The items before `start`, followed by the page from `start`, are the items before its end. */
  lemma AppendPage<T>(ordered: seq<T>, before: seq<T>, page: seq<T>, start: nat, size: nat)
    requires before == ordered[..Min(|ordered|, start)]
    requires page == ordered[Min(|ordered|, start)..Min(|ordered|, start + size)]
    ensures before + page == ordered[..Min(|ordered|, start + size)]
  {
  }

  /** Reading every page in order gives back the whole list, each item once. */
  lemma AllPagesReproduceList<T>(ordered: seq<T>, size: nat)
    requires size >= 1
    ensures Pages(ordered, size, PageCount(|ordered|, size)) == ordered
  {
    PagesArePrefix(ordered, size, PageCount(|ordered|, size));
    assert ordered[..|ordered|] == ordered;
  }

  /** 25 items, pages of 10: the third page (index 2) holds the last 5. */
  lemma PageExample(ordered: seq<int>)
    requires |ordered| == 25
    ensures PageOf(ordered, 2, 10) == ordered[20..25] && |PageOf(ordered, 2, 10)| == 5
  {
  }

  function Reverse<T>(s: seq<T>): (r: seq<T>)
    ensures |r| == |s|
    ensures forall i :: 0 <= i < |s| ==> r[i] == s[|s| - 1 - i]
  {
    if s == [] then [] else Reverse(s[1..]) + [s[0]]
  }

  /** A table in ascending id order, reversed, is in strictly descending id order. */
  lemma ReverseDescending(rows: seq<Record>)
    requires Repository.Ascending(rows)
    ensures forall i, j :: 0 <= i < j < |rows| ==>
      Repository.IdOf(Reverse(rows)[i]) > Repository.IdOf(Reverse(rows)[j])
  {
  }

  // ---------------------------------------------------------------- the listing

  datatype FilterRequest = FilterRequest(filterValues: Option<seq<Criterion>>, offset: Option<int>, limit: Option<int>)

  /** `PageRequest.of` with the service defaults: page 0 and size 10. */
  function PageRequestOf(offset: Option<int>, limit: Option<int>): (r: Result<(nat, nat), string>)
    ensures r.Ok? <==> offset.GetOr(0) >= 0 && limit.GetOr(10) >= 1
    ensures r.Ok? ==> r.value.0 == offset.GetOr(0) && r.value.1 == limit.GetOr(10)
  {
    var page := if offset.Some? then offset.value else 0;
    var size := if limit.Some? then limit.value else 10;
    if page < 0 then Err(NegativePage)
    else if size < 1 then Err(EmptyPage)
    else Ok((page, size))
  }

  /** Java `int` arithmetic: a value wrapped into 32-bit two's complement. */
  function JavaInt(n: int): (r: int)
    ensures -0x8000_0000 <= r < 0x8000_0000
    ensures (r - n) % 0x1_0000_0000 == 0
    ensures -0x8000_0000 <= n < 0x8000_0000 ==> r == n
  {
    (n + 0x8000_0000) % 0x1_0000_0000 - 0x8000_0000
  }

  /** The reported page number, `getNumber() + 1` in `int` arithmetic. */
  function PageNumber(page: nat): (r: string)
    ensures page < 0x7fff_ffff ==> r == NatToString(page + 1)
    ensures page == 0x7fff_ffff ==> r == "-" + NatToString(0x8000_0000)
  {
    IntToString(JavaInt(page + 1))
  }

  const NegativePage: string := "Page index must not be less than zero"
  const EmptyPage: string := "Page size must not be less than one"

  /** A stored value as the query compares it: strings as they are, numbers in decimal. */
  function RowOf(rec: Record): Row
  {
    map k | k in rec && (rec[k].VString? || rec[k].VLong? || rec[k].VInteger?) ::
      match rec[k]
      case VString(s) => s
      case VLong(n) => IntToString(n)
      case VInteger(n) => IntToString(n)
  }

  /** The rows a specification selects, in id-descending order. */
  function Selected(rows: seq<Record>, ps: seq<Predicate>): seq<Record>
  {
    Reverse(Repository.Where(rows, r => Matches(ps, RowOf(r))))
  }

  /** The failure reply of a listing: internal server error and no data. */
  function ListingFailed<T>(): ApiResponse<T>
  {
    Respond(InternalServerError, None)
  }

  /**
   * One page of the rows matching the filter, each mapped to the response class,
   * with total, page number and element count. Any failure (a page request out
   * of range, a specification that throws, a response class the mapper cannot
   * construct) yields the internal-server-error reply instead of an exception.
   */
  function Listing(rows: seq<Record>, req: FilterRequest, attributes: seq<string>, checked: bool,
                   entityFields: seq<Field>, responseClass: ClassDecl): ApiResponse<seq<Record>>
  {
    var pr := PageRequestOf(req.offset, req.limit);
    var spec := Specification(req.filterValues, attributes, checked);
    if pr.Err? || spec.Err? then ListingFailed()
    else
      var matching := Selected(rows, spec.value);
      var content := PageOf(matching, pr.value.0, pr.value.1);
      if content != [] && !responseClass.hasNoArgConstructor then ListingFailed()
      else
        var mapped := seq(|content|, i requires 0 <= i < |content| => MapOf(entityFields, content[i], responseClass));
        ApiResponse("2000", Some("Operation Successful"), Some(mapped),
          Some(PageDetail(NatToString(|matching|), PageNumber(pr.value.0), NatToString(|content|))))
  }

  /**
   * What a successful listing promises: code "2000", the page holds the matches
   * at positions `offset*limit` onwards in id-descending order, and the metadata
   * carries the total, the 1-based page number (wrapping to a negative number
   * for the largest page index, as `int` addition does) and the page size.
   */
  lemma ListingSucceeds(rows: seq<Record>, req: FilterRequest, attributes: seq<string>, checked: bool,
                        entityFields: seq<Field>, responseClass: ClassDecl)
    requires PageRequestOf(req.offset, req.limit).Ok?
    requires Specification(req.filterValues, attributes, checked).Ok?
    requires responseClass.hasNoArgConstructor
    ensures var r := Listing(rows, req, attributes, checked, entityFields, responseClass);
      var page := req.offset.GetOr(0);
      var size := req.limit.GetOr(10);
      var matching := Selected(rows, Specification(req.filterValues, attributes, checked).value);
      r.code == "2000" && r.description == Some("Operation Successful")
      && r.data.Some? && |r.data.value| == |PageOf(matching, page, size)|
      && (forall i :: 0 <= i < |r.data.value| ==>
            r.data.value[i] == MapOf(entityFields, PageOf(matching, page, size)[i], responseClass))
      && r.page == Some(PageDetail(NatToString(|matching|), PageNumber(page), NatToString(|r.data.value|)))
  {
    var pr := PageRequestOf(req.offset, req.limit);
    assert pr.value == (req.offset.GetOr(0), req.limit.GetOr(10));
  }

  /** Any failure is reported in the reply, never thrown, and carries no data. */
  lemma ListingFailures(rows: seq<Record>, req: FilterRequest, attributes: seq<string>, checked: bool,
                        entityFields: seq<Field>, responseClass: ClassDecl)
    requires PageRequestOf(req.offset, req.limit).Err? || Specification(req.filterValues, attributes, checked).Err?
    ensures var r := Listing(rows, req, attributes, checked, entityFields, responseClass);
      r.code == "5000" && r.description == Some("Internal Server Error") && r.data.None? && r.page.None?
  {
  }

  /** Without offset and limit the first ten matches are listed, newest id first. */
  lemma ListingDefaults(rows: seq<Record>, fv: Option<seq<Criterion>>, attributes: seq<string>, checked: bool,
                        entityFields: seq<Field>, responseClass: ClassDecl)
    requires Specification(fv, attributes, checked).Ok?
    requires responseClass.hasNoArgConstructor
    ensures var r := Listing(rows, FilterRequest(fv, None, None), attributes, checked, entityFields, responseClass);
      var matching := Selected(rows, Specification(fv, attributes, checked).value);
      r.data.Some? && |r.data.value| == Min(10, |matching|) && r.page.value.pageNumber == "1"
  {
    assert NatToString(1) == "1";
  }
}
