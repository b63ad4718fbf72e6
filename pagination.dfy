/** The offset pagination loop of the payment handlers: fetch a page at the
    current offset, stop on an error or an empty page, otherwise append it,
    advance the offset by the page size, and stop once the total cap is
    reached, truncating to it. The upstream call is a function of the
    offset. */
module Pagination {

  import opened Wrappers
  import opened Seqs

  /** One upstream response: its items and the total count it reports. */
  datatype Page<T> = Page(items: seq<T>, count: int)

  /** The outcome of the loop started at `offset` with `acc` already
      gathered and `count` the last reported total. */
  function Paginate<T>(fetch: int -> Result<Page<T>>, limit: int, cap: nat, offset: int, acc: seq<T>, count: int): Result<Page<T>>
    decreases cap - |acc|
  {
    if |acc| >= cap then Ok(Page(acc, count))
    else match fetch(offset)
      case Err(e) => Err(e)
      case Ok(page) =>
        if page.items == [] then Ok(Page(acc, page.count))
        else
          var all := acc + page.items;
          if |all| >= cap then Ok(Page(all[..cap], page.count))
          else Paginate(fetch, limit, cap, offset + limit, all, page.count)
  }

  /** The offset of the n-th fetch after one at `offset`. */
  function OffsetOf(offset: int, limit: int, n: nat): int
    decreases n
  {
    if n == 0 then offset else OffsetOf(offset + limit, limit, n - 1)
  }

  lemma {:induction false} OffsetOfLinear(offset: int, limit: int, n: nat)
    ensures OffsetOf(offset, limit, n) == offset + n * limit
    decreases n
  {
    if n > 0 {
      OffsetOfLinear(offset + limit, limit, n - 1);
    }
  }

  /** The items of the page at `offset` (none if the fetch failed). */
  function ItemsAt<T>(fetch: int -> Result<Page<T>>, offset: int): seq<T> {
    if fetch(offset).Ok? then fetch(offset).value.items else []
  }

  /** The items of n consecutive pages from `offset`. */
  function Pages<T>(fetch: int -> Result<Page<T>>, offset: int, limit: int, n: nat): (r: seq<seq<T>>)
    ensures |r| == n
    decreases n
  {
    if n == 0 then [] else [ItemsAt(fetch, offset)] + Pages(fetch, offset + limit, limit, n - 1)
  }

  /** The first n fetches from `offset` all return a non-empty page. */
  ghost predicate FullPages<T>(fetch: int -> Result<Page<T>>, offset: int, limit: int, n: nat) {
    forall i: nat :: i < n ==> fetch(OffsetOf(offset, limit, i)).Ok? && fetch(OffsetOf(offset, limit, i)).value.items != []
  }

  lemma FullPagesCons<T>(fetch: int -> Result<Page<T>>, offset: int, limit: int, n: nat)
    requires fetch(offset).Ok? && fetch(offset).value.items != []
    requires FullPages(fetch, offset + limit, limit, n)
    ensures FullPages(fetch, offset, limit, n + 1)
  {
    forall i: nat | i < n + 1
      ensures fetch(OffsetOf(offset, limit, i)).Ok? && fetch(OffsetOf(offset, limit, i)).value.items != []
    {
      if i > 0 {
        assert OffsetOf(offset, limit, i) == OffsetOf(offset + limit, limit, i - 1);
      }
    }
  }

  /** The loop's outcome `r` after n full pages from `offset`: what was
      gathered plus those n pages either reached the cap on the n-th page
      (and is cut to it, with that page's count), or stays below the cap and
      the next fetch returned an empty page (whose count is reported) or
      failed (whose error is returned). */
  ghost predicate ShapeAt<T>(fetch: int -> Result<Page<T>>, limit: int, cap: nat, offset: int, acc: seq<T>, r: Result<Page<T>>, n: nat) {
    FullPages(fetch, offset, limit, n)
    && var got := acc + Concat(Pages(fetch, offset, limit, n));
    var next := fetch(OffsetOf(offset, limit, n));
    (n > 0 && |acc + Concat(Pages(fetch, offset, limit, n - 1))| < cap && |got| >= cap
       && r == Ok(Page(got[..cap], fetch(OffsetOf(offset, limit, n - 1)).value.count)))
    || (|got| < cap && next.Ok? && next.value.items == [] && r == Ok(Page(got, next.value.count)))
    || (|got| < cap && next.Err? && r == Err(next.msg))
  }

  lemma PagesCons<T>(fetch: int -> Result<Page<T>>, offset: int, limit: int, acc: seq<T>, m: nat)
    requires fetch(offset).Ok?
    ensures acc + Concat(Pages(fetch, offset, limit, m + 1))
         == (acc + fetch(offset).value.items) + Concat(Pages(fetch, offset + limit, limit, m))
    ensures OffsetOf(offset, limit, m + 1) == OffsetOf(offset + limit, limit, m)
  {
    ConcatCons(fetch(offset).value.items, Pages(fetch, offset + limit, limit, m));
  }

  lemma ShapeStep<T>(fetch: int -> Result<Page<T>>, limit: int, cap: nat, offset: int, acc: seq<T>, r: Result<Page<T>>, m: nat)
    requires fetch(offset).Ok? && fetch(offset).value.items != []
    requires |acc| < cap
    requires ShapeAt(fetch, limit, cap, offset + limit, acc + fetch(offset).value.items, r, m)
    ensures ShapeAt(fetch, limit, cap, offset, acc, r, m + 1)
  {
    var all := acc + fetch(offset).value.items;
    FullPagesCons(fetch, offset, limit, m);
    PagesCons(fetch, offset, limit, acc, m);
    if m > 0 {
      PagesCons(fetch, offset, limit, acc, m - 1);
    } else {
      assert acc + Concat(Pages(fetch, offset, limit, 0)) == acc;
    }
  }

  /** What the loop returns: for some number n of full pages, `ShapeAt`. */
  lemma {:induction false} PaginateShape<T>(fetch: int -> Result<Page<T>>, limit: int, cap: nat, offset: int, acc: seq<T>, count: int)
    requires |acc| < cap
    ensures exists n: nat :: ShapeAt(fetch, limit, cap, offset, acc, Paginate(fetch, limit, cap, offset, acc, count), n)
    decreases cap - |acc|
  {
    var r := Paginate(fetch, limit, cap, offset, acc, count);
    if fetch(offset).Err? || fetch(offset).value.items == [] {
      assert acc + Concat(Pages(fetch, offset, limit, 0)) == acc;
      assert ShapeAt(fetch, limit, cap, offset, acc, r, 0);
    } else {
      var page := fetch(offset).value;
      var all := acc + page.items;
      if |all| < cap {
        PaginateShape(fetch, limit, cap, offset + limit, all, page.count);
        var m: nat :| ShapeAt(fetch, limit, cap, offset + limit, all, r, m);
        ShapeStep(fetch, limit, cap, offset, acc, r, m);
      } else {
        PagesCons(fetch, offset, limit, acc, 0);
        assert all + Concat(Pages(fetch, offset + limit, limit, 0)) == all;
        assert acc + Concat(Pages(fetch, offset, limit, 0)) == acc;
        assert OffsetOf(offset, limit, 0) == offset;
        FullPagesCons(fetch, offset, limit, 0);
        assert ShapeAt(fetch, limit, cap, offset, acc, r, 1);
      }
    }
  }

  /** From offset 0 with nothing gathered: the result is a prefix of n
      consecutive full pages at offsets 0, limit, 2·limit, ..., holds at
      most `cap` entries, and either holds exactly `cap` or is all n pages
      followed by an empty one. */
  lemma PaginatePrefix<T>(fetch: int -> Result<Page<T>>, limit: int, cap: nat)
    requires cap > 0
    ensures var r := Paginate(fetch, limit, cap, 0, [], 0);
            r.Ok? ==> exists n: nat ::
              FullPages(fetch, 0, limit, n)
              && r.value.items <= Concat(Pages(fetch, 0, limit, n))
              && |r.value.items| <= cap
              && (|r.value.items| == cap
                  || (fetch(n * limit).Ok? && fetch(n * limit).value.items == []
                      && r.value.items == Concat(Pages(fetch, 0, limit, n))))
  {
    var r := Paginate(fetch, limit, cap, 0, [], 0);
    PaginateShape(fetch, limit, cap, 0, [], 0);
    var n: nat :| ShapeAt(fetch, limit, cap, 0, [], r, n);
    OffsetOfLinear(0, limit, n);
    assert [] + Concat(Pages(fetch, 0, limit, n)) == Concat(Pages(fetch, 0, limit, n));
  }

  /** The loop never gathers more than the cap. */
  lemma PaginateBound<T>(fetch: int -> Result<Page<T>>, limit: int, cap: nat, offset: int, acc: seq<T>, count: int)
    requires |acc| <= cap
    ensures var r := Paginate(fetch, limit, cap, offset, acc, count); r.Ok? ==> |r.value.items| <= cap
    decreases cap - |acc|
  {
    if |acc| < cap && fetch(offset).Ok? && fetch(offset).value.items != [] && |acc + fetch(offset).value.items| < cap {
      PaginateBound(fetch, limit, cap, offset + limit, acc + fetch(offset).value.items, fetch(offset).value.count);
    }
  }

  /** The loop itself, from offset 0 with nothing gathered. */
  method FetchAllPages<T>(fetch: int -> Result<Page<T>>, limit: int, cap: nat) returns (r: Result<Page<T>>)
    ensures r == Paginate(fetch, limit, cap, 0, [], 0)
  {
    var all: seq<T> := [];
    var offset := 0;
    var count := 0;
    while |all| < cap
      invariant Paginate(fetch, limit, cap, offset, all, count) == Paginate(fetch, limit, cap, 0, [], 0)
      decreases cap - |all|
    {
      var fetched := fetch(offset);
      if fetched.Err? {
        return Err(fetched.msg);
      }
      count := fetched.value.count;
      if fetched.value.items == [] {
        return Ok(Page(all, count));
      }
      all := all + fetched.value.items;
      offset := offset + limit;
      if |all| >= cap {
        all := all[..cap];
        return Ok(Page(all, count));
      }
    }
    return Ok(Page(all, count));
  }
}
