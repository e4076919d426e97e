/**
 * Page arithmetic shared by the two product listings: the cursor window a
 * `skip`/`limit` pair selects, and `Math.ceil(total / limit)` for the page count.
 */
module Pagination {
  import opened Base

  /** The store refuses a cursor with a negative skip. */
  datatype StoreError = NegativeSkip

  function Abs(x: int): nat {
    if x < 0 then -x else x
  }

  function Min(a: int, b: int): int {
    if a <= b then a else b
  }

  /** How many items remain after skipping `skip` of `n`. */
  function Remaining(n: nat, skip: nat): nat {
    if skip <= n then n - skip else 0
  }

  /**
   * `w` is the window `.skip(skip).limit(limit)` cuts from `items`: the items from
   * position `skip` on, in order, as many as |limit| allows (all of them for limit 0).
   */
  ghost predicate IsWindow<T>(w: seq<T>, items: seq<T>, skip: int, limit: int) {
    && skip >= 0
    && (forall k :: 0 <= k < |w| ==> skip + k < |items| && w[k] == items[skip + k])
    && |w| == if limit == 0 then Remaining(|items|, skip) else Min(Abs(limit), Remaining(|items|, skip))
  }

  /**
   * A cursor's `.skip(skip).limit(limit)`: the items from position `skip` on, at most
   * |limit| of them; a limit of 0 means no limit and a negative limit acts as its magnitude.
   */
  function Window<T>(items: seq<T>, skip: int, limit: int): (r: Result<seq<T>, StoreError>)
    ensures r.Err? <==> skip < 0
    ensures r.Ok? ==> forall k :: 0 <= k < |r.value| ==> skip + k < |items| && r.value[k] == items[skip + k]
    ensures r.Ok? && limit == 0 ==> |r.value| == Remaining(|items|, skip)
    ensures r.Ok? && limit != 0 ==> |r.value| == Min(Abs(limit), Remaining(|items|, skip))
    ensures r.Ok? ==> IsWindow(r.value, items, skip, limit)
  {
    if skip < 0 then Err(NegativeSkip)
    else
      var rest := if skip <= |items| then items[skip..] else [];
      if limit == 0 || |rest| <= Abs(limit) then Ok(rest) else Ok(rest[..Abs(limit)])
  }

  /**
   * `Math.ceil(total / limit)`. A limit of 0 gives Infinity or NaN, which a JSON reply
   * carries as null; that is `None` here.
   */
  function TotalPages(total: nat, limit: int): (r: Option<int>)
    ensures r.None? <==> limit == 0
    ensures limit > 0 ==> r.Some? && r.value >= 0
  {
    if limit == 0 then None
    else if limit > 0 then Some((total + limit - 1) / limit)
    else Some(-(total / -limit))
  }

  /** The window is determined by the list, the skip and the limit. */
  lemma IsWindowUnique<T>(w1: seq<T>, w2: seq<T>, items: seq<T>, skip: int, limit: int)
    requires IsWindow(w1, items, skip, limit) && IsWindow(w2, items, skip, limit)
    ensures w1 == w2
  {
    assert |w1| == |w2|;
    forall k | 0 <= k < |w1| ensures w1[k] == w2[k] {
      assert skip + k < |items| && w1[k] == items[skip + k] && w2[k] == items[skip + k];
    }
  }

  /** The first `n` pages of `items`, one after the other. */
  function FirstPages<T>(items: seq<T>, limit: int, n: nat): seq<T> {
    if n == 0 then []
    else match Window(items, (n - 1) * limit, limit)
      case Ok(w) => FirstPages(items, limit, n - 1) + w
      case Err(_) => FirstPages(items, limit, n - 1)
  }

  // ---------------------------------------------------------------- lemmas

  lemma MulMonotone(a: int, b: int, c: int)
    requires a <= b && c > 0
    ensures a * c <= b * c
  {
  }

  lemma RealDivBounds(x: real, a: real, b: real)
    requires b > 0.0
    ensures x >= a / b <==> x * b >= a
    ensures a / b > x <==> a > x * b
  {
    assert (a / b) * b == a;
  }

  lemma PositiveCeiling(total: nat, limit: int)
    requires limit > 0
    ensures var n := TotalPages(total, limit).value;
      && (n as real) >= (total as real) / (limit as real)
      && (total as real) / (limit as real) > (n - 1) as real
  {
    var n := TotalPages(total, limit).value;
    TotalPagesBounds(total, limit);
    assert (n as real) * (limit as real) == (n * limit) as real;
    assert ((n - 1) as real) * (limit as real) == ((n - 1) * limit) as real;
    RealDivBounds(n as real, total as real, limit as real);
    RealDivBounds((n - 1) as real, total as real, limit as real);
  }

  lemma FloorDivBounds(total: nat, m: int)
    requires m > 0
    ensures (total / m) * m <= total < (total / m + 1) * m
  {
    var f := total / m;
    assert total == f * m + total % m;
    assert (f + 1) * m == f * m + m;
  }

  lemma RealNegate(a: real, m: real)
    requires m > 0.0
    ensures a / (-m) == -(a / m)
  {
  }

  lemma IntProductAsReal(x: int, y: int)
    ensures (x as real) * (y as real) == (x * y) as real
  {
  }

  lemma NegativeCeiling(total: nat, limit: int)
    requires limit < 0
    ensures var n := TotalPages(total, limit).value;
      && (n as real) >= (total as real) / (limit as real)
      && (total as real) / (limit as real) > (n - 1) as real
  {
    var m := -limit;
    var f := total / m;
    var n := TotalPages(total, limit).value;
    assert n == -f;
    FloorDivBounds(total, m);
    IntProductAsReal(f, m);
    IntProductAsReal(f + 1, m);
    var t, mr := total as real, m as real;
    RealDivBounds(f as real, t, mr);
    RealDivBounds((f + 1) as real, t, mr);
    assert f as real <= t / mr < (f + 1) as real;
    RealNegate(t, mr);
    assert limit as real == -mr;
  }

  /** The page count is the ceiling of total / limit, for either sign of the limit. */
  lemma TotalPagesIsCeiling(total: nat, limit: int)
    requires limit != 0
    ensures var n := TotalPages(total, limit).value;
      && (n as real) >= (total as real) / (limit as real)
      && (total as real) / (limit as real) > (n - 1) as real
  {
    if limit > 0 {
      PositiveCeiling(total, limit);
    } else {
      NegativeCeiling(total, limit);
    }
  }

  /** With a positive limit the pages cover the total: enough pages, and no page wholly past the end. */
  lemma TotalPagesBounds(total: nat, limit: int)
    requires limit > 0
    ensures TotalPages(total, limit).value * limit >= total
    ensures total > 0 ==> (TotalPages(total, limit).value - 1) * limit < total
    ensures total == 0 <==> TotalPages(total, limit).value == 0
  {
    var n := TotalPages(total, limit).value;
    var d := total + limit - 1;
    assert d == n * limit + d % limit;
  }

  /** A page holds at most `limit` items. */
  lemma PageAtMostLimit<T>(items: seq<T>, page: int, limit: int)
    requires page >= 1 && limit > 0
    ensures Window(items, (page - 1) * limit, limit).Ok?
    ensures |Window(items, (page - 1) * limit, limit).value| <= limit
  {
    assert (page - 1) * limit >= 0;
  }

  /** Every page before the last is full. */
  lemma InnerPagesFull<T>(items: seq<T>, page: int, limit: int)
    requires limit > 0 && 1 <= page < TotalPages(|items|, limit).value
    ensures |Window(items, (page - 1) * limit, limit).value| == limit
  {
    TotalPagesBounds(|items|, limit);
    var n := TotalPages(|items|, limit).value;
    var skip := (page - 1) * limit;
    MulMonotone(0, page - 1, limit);
    MulMonotone(page, n - 1, limit);
    assert skip + limit == page * limit;
    assert skip + limit < |items|;
  }

  /** A page past the last one is empty. */
  lemma PageBeyondLastEmpty<T>(items: seq<T>, page: int, limit: int)
    requires limit > 0 && page > TotalPages(|items|, limit).value
    ensures Window(items, (page - 1) * limit, limit) == Ok([])
  {
    TotalPagesBounds(|items|, limit);
    var n := TotalPages(|items|, limit).value;
    MulMonotone(n, page - 1, limit);
  }

  /** Position `r < limit` of the window starting at `skip` holds item `skip + r`, when the list is that long. */
  lemma ItemInWindow<T>(items: seq<T>, skip: int, limit: int, r: int)
    requires skip >= 0 && 0 <= r < limit && skip + r < |items|
    ensures Window(items, skip, limit).Ok?
    ensures r < |Window(items, skip, limit).value|
    ensures Window(items, skip, limit).value[r] == items[skip + r]
  {
  }

  /** The page holding item `i` is no later than the last page. */
  lemma PageOfItemExists(total: nat, limit: int, i: int)
    requires limit > 0 && 0 <= i < total
    ensures i / limit + 1 <= TotalPages(total, limit).value
  {
    var n := TotalPages(total, limit).value;
    assert (i / limit) * limit <= i by {
      FloorDivBounds(i, limit);
    }
    assert n * limit >= total by {
      TotalPagesBounds(total, limit);
    }
    if i / limit >= n {
      MulMonotone(n, i / limit, limit);
      assert false;
    }
  }

  /** Euclidean division of a non-negative index by a positive page size. */
  lemma DivSplit(i: int, limit: int)
    requires i >= 0 && limit > 0
    ensures i / limit >= 0 && 0 <= i % limit < limit
  {
    FloorDivBounds(i, limit);
    if i / limit < 0 {
      MulMonotone(i / limit, -1, limit);
    }
  }

  /** Item `i` of the list sits at position `i % limit` of page `n = i / limit + 1`, a page that exists. */
  lemma ItemOnPage<T>(items: seq<T>, limit: int, i: int, n: int)
    requires limit > 0 && 0 <= i < |items| && n == i / limit + 1
    ensures Window(items, (n - 1) * limit, limit).Ok?
    ensures n <= TotalPages(|items|, limit).value
    ensures i % limit < |Window(items, (n - 1) * limit, limit).value|
    ensures Window(items, (n - 1) * limit, limit).value[i % limit] == items[i]
  {
    var skip, r := (n - 1) * limit, i % limit;
    assert skip >= 0 && 0 <= r < limit && skip + r == i by {
      MulMonotone(0, i / limit, limit);
    }
    ItemInWindow(items, skip, limit, r);
    PageOfItemExists(|items|, limit, i);
  }

  lemma {:induction false} FirstPagesPrefix<T>(items: seq<T>, limit: int, n: nat)
    requires limit > 0
    ensures FirstPages(items, limit, n) == items[..Min(n * limit, |items|)]
  {
    if n > 0 {
      FirstPagesPrefix(items, limit, n - 1);
      var skip := (n - 1) * limit;
      assert skip >= 0;
      assert skip + limit == n * limit;
      var w := Window(items, skip, limit).value;
      var a := Min(skip, |items|);
      var b := Min(n * limit, |items|);
      assert |w| == b - a;
      assert items[..b] == items[..a] + w by {
        forall k | 0 <= k < b ensures items[..b][k] == (items[..a] + w)[k] {
          if k >= a { assert w[k - a] == items[skip + (k - a)]; }
        }
      }
    }
  }

  /** Reading pages 1 to totalPages in turn returns every item exactly once, in order. */
  lemma PagesCoverAll<T>(items: seq<T>, limit: int)
    requires limit > 0
    ensures FirstPages(items, limit, TotalPages(|items|, limit).value) == items
  {
    TotalPagesBounds(|items|, limit);
    FirstPagesPrefix(items, limit, TotalPages(|items|, limit).value);
  }
}
