/** `paginate`: one page of a list, as a Python slice, with the size of the
    whole list. */
module Pagination {

  datatype Page<T> = Page(items: seq<T>, total: nat, limit: int, offset: int)

  const DefaultLimit := 50
  const DefaultOffset := 0

  /** A slice bound: a negative one counts from the end, then the bound is
      clipped to `0..n`. */
  function SliceBound(i: int, n: nat): (r: nat)
    ensures r <= n
    ensures 0 <= i ==> r == if i <= n then i else n
  {
    if i < 0 then (if i + n < 0 then 0 else i + n)
    else if i > n then n
    else i
  }

  /** `s[start:stop]`. */
  function Slice<T>(s: seq<T>, start: int, stop: int): seq<T> {
    var a := SliceBound(start, |s|);
    var b := SliceBound(stop, |s|);
    if a < b then s[a..b] else []
  }

  /** `paginate(items, limit, offset)`. */
  function Paginate<T>(items: seq<T>, limit: int, offset: int): (r: Page<T>)
    ensures r.total == |items| && r.limit == limit && r.offset == offset
    ensures 0 <= offset && 0 <= limit ==>
              && |r.items| == (if offset + limit <= |items| then limit
                               else if offset <= |items| then |items| - offset else 0)
              && forall k :: 0 <= k < |r.items| ==> r.items[k] == items[offset + k]
  {
    Page(Slice(items, offset, offset + limit), |items|, limit, offset)
  }

  /** The page the endpoints serve when the caller gives no bounds: the
      first 50 items. */
  lemma DefaultPage<T>(items: seq<T>)
    ensures Paginate(items, DefaultLimit, DefaultOffset).items
            == if |items| <= DefaultLimit then items else items[..DefaultLimit]
  {
    var r := Paginate(items, DefaultLimit, DefaultOffset).items;
    if |items| <= DefaultLimit {
      assert r == items;
    } else {
      assert r == items[..DefaultLimit];
    }
  }

  /** The items of the pages from `offset` on, each `limit` long. */
  function PagesFrom<T>(items: seq<T>, limit: nat, offset: nat): seq<T>
    requires limit > 0
    decreases |items| - offset
  {
    if offset >= |items| then [] else Paginate(items, limit, offset).items + PagesFrom(items, limit, offset + limit)
  }

  /** Paging through a list from `offset` on yields each remaining item
      once, in order: the pages tile the list. */
  lemma {:induction false} PagesTile<T>(items: seq<T>, limit: nat, offset: nat)
    requires limit > 0 && offset <= |items|
    ensures PagesFrom(items, limit, offset) == items[offset..]
    decreases |items| - offset
  {
    if offset < |items| {
      var page := Paginate(items, limit, offset).items;
      if offset + limit <= |items| {
        PagesTile(items, limit, offset + limit);
        assert page == items[offset..offset + limit];
        assert items[offset..] == items[offset..offset + limit] + items[offset + limit..];
      } else {
        assert page == items[offset..];
      }
    }
  }
}
