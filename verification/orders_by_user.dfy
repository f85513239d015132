/** `getOrdersByUser`: one page of a buyer's orders and the number of pages.
    The database does the filtering, sorting, skipping and limiting; the model
    takes the orders in the order the `createdAt`-descending sort yields. */
module OrdersByUser {
  import opened Results
  import opened Orders
  import opened Text

  /** A page size; zero is left out (see the README). */
  type Limit = n: nat | n > 0 witness 1

  /** The page size when the caller gives none. */
  const DefaultLimit: Limit := 3

  datatype Page = Page(data: seq<Order>, totalPages: nat)

  /** Mongoose cannot cast a user id that is not an object id, and the
      database refuses a negative skip. */
  datatype PageError = InvalidUserId(input: string) | NegativeSkip(skip: int)

  /** The page size in force: the caller's, or 3 when the caller gives none. */
  function LimitOrDefault(limit: Option<Limit>): (l: Limit)
    ensures limit.None? ==> l == DefaultLimit
    ensures limit.Some? ==> l == limit.value
  {
    if limit.Some? then limit.value else DefaultLimit
  }

  /** How many orders precede the 1-based `page`: never negative from page 1 on. */
  function SkipAmount(page: int, limit: Limit): (skip: int)
    ensures skip >= 0 <==> page >= 1
  {
    (page - 1) * limit
  }

  /** `Math.ceil(n / d)`: the fewest pages of `d` that hold `n` items. */
  function CeilDiv(n: nat, d: Limit): (q: nat)
    ensures q * d >= n
    ensures (q - 1) * d < n
  {
    var q := (n + d - 1) / d;
    var rem := (n + d - 1) % d;
    assert n + d - 1 == q * d + rem;
    assert (q - 1) * d == q * d - d;
    q
  }

  /** The two bounds determine the page count: it is the only such number. */
  lemma CeilDivUnique(n: nat, d: Limit, q: nat)
    requires q * d >= n && (q - 1) * d < n
    ensures q == CeilDiv(n, d)
  {
    var c := CeilDiv(n, d);
    if q < c {
      MulMonotone(q, c - 1, d);
    } else if q > c {
      MulMonotone(c, q - 1, d);
    }
  }

  lemma MulMonotone(a: int, b: int, d: nat)
    requires a <= b
    ensures a * d <= b * d
  {
    assert b * d - a * d == (b - a) * d;
  }

  /** The `{ buyer: userId }` condition, with `userId` already cast to the canonical id `buyer`. */
  function OrdersOf(orders: seq<Order>, buyer: ObjectId): (mine: seq<Order>)
    ensures |mine| <= |orders|
    ensures forall k :: 0 <= k < |mine| ==> mine[k].buyer == buyer && mine[k] in orders
    ensures forall o :: o in orders && o.buyer == buyer ==> o in mine
  {
    if |orders| == 0 then []
    else (if orders[0].buyer == buyer then [orders[0]] else []) + OrdersOf(orders[1..], buyer)
  }

  /** Selecting the user's orders keeps their order: selecting from a
      concatenation is concatenating the selections. */
  lemma {:induction false} OrdersOfDistributes(a: seq<Order>, b: seq<Order>, buyer: ObjectId)
    ensures OrdersOf(a + b, buyer) == OrdersOf(a, buyer) + OrdersOf(b, buyer)
    decreases |a|
  {
    if |a| == 0 {
      assert a + b == b;
    } else {
      assert (a + b)[1..] == a[1..] + b;
      OrdersOfDistributes(a[1..], b, buyer);
    }
  }

  /** Newest first, as the `createdAt`-descending sort leaves the orders. */
  predicate NewestFirst(s: seq<Order>) {
    forall i, j :: 0 <= i < j < |s| ==> s[i].createdAt >= s[j].createdAt
  }

  /** Selecting the user's orders from a newest-first list leaves them newest first. */
  lemma {:induction false} OrdersOfKeepsNewestFirst(orders: seq<Order>, buyer: ObjectId)
    requires NewestFirst(orders)
    ensures NewestFirst(OrdersOf(orders, buyer))
    decreases |orders|
  {
    if |orders| > 0 {
      var rest := OrdersOf(orders[1..], buyer);
      OrdersOfKeepsNewestFirst(orders[1..], buyer);
      if orders[0].buyer == buyer {
        var mine := [orders[0]] + rest;
        forall i, j | 0 <= i < j < |mine|
          ensures mine[i].createdAt >= mine[j].createdAt
        {
          if i == 0 {
            assert mine[j] in orders[1..];
          }
        }
      }
    }
  }

  /** `.skip(skip).limit(limit)`. */
  function Window(items: seq<Order>, skip: nat, limit: Limit): (w: seq<Order>)
    ensures |w| <= limit
    ensures skip < |items| <==> |w| > 0
    ensures forall k :: 0 <= k < |w| ==> skip + k < |items| && w[k] == items[skip + k]
    ensures skip + limit <= |items| ==> |w| == limit
  {
    if skip >= |items| then []
    else if skip + limit <= |items| then items[skip..skip + limit]
    else items[skip..]
  }

  /** `getOrdersByUser`: page `page` (from 1) of the buyer's orders, `limit`
      to a page (3 by default), and the page count. */
  function GetOrdersByUser(orders: seq<Order>, userId: string, limit: Option<Limit>, page: int): (r: Result<Page, PageError>)
    ensures r.Err? <==> !IsObjectIdHex(userId) || page < 1
    ensures !IsObjectIdHex(userId) ==> r == Err(InvalidUserId(userId))
    ensures r.Ok? ==> |r.value.data| <= LimitOrDefault(limit)
    ensures r.Ok? ==> forall k :: 0 <= k < |r.value.data| ==>
              r.value.data[k].buyer == Lower(userId)
              && SkipAmount(page, LimitOrDefault(limit)) + k < |OrdersOf(orders, Lower(userId))|
              && r.value.data[k] == OrdersOf(orders, Lower(userId))[SkipAmount(page, LimitOrDefault(limit)) + k]
    ensures r.Ok? ==> r.value.totalPages * LimitOrDefault(limit) >= |OrdersOf(orders, Lower(userId))|
    ensures r.Ok? ==> (r.value.totalPages - 1) * LimitOrDefault(limit) < |OrdersOf(orders, Lower(userId))|
    ensures r.Ok? ==> (|r.value.data| > 0 <==> page <= r.value.totalPages)
  {
    var l := LimitOrDefault(limit);
    var skip := SkipAmount(page, l);
    match ParseObjectId(userId)
    case None => Err(InvalidUserId(userId))
    case Some(buyer) =>
      if skip < 0 then Err(NegativeSkip(skip))
      else
      var mine := OrdersOf(orders, buyer);
      var total := CeilDiv(|mine|, l);
      PageInRangeIff(|mine|, l, page, total);
      Ok(Page(Window(mine, skip, l), total))
  }

  /** The user id is cast before the query runs: an id in upper-case hex
      selects the same page as its canonical lower-case form. */
  lemma UserIdCaseIgnored(orders: seq<Order>, userId: string, limit: Option<Limit>, page: int)
    requires IsObjectIdHex(userId)
    ensures GetOrdersByUser(orders, userId, limit, page) == GetOrdersByUser(orders, Lower(userId), limit, page)
  {
    LowerIdempotent(userId);
    assert IsObjectIdHex(Lower(userId));
  }

  /** A page holds something exactly when its number is at most the page count. */
  lemma PageInRangeIff(n: nat, l: Limit, page: int, total: nat)
    requires page >= 1 && total == CeilDiv(n, l)
    ensures SkipAmount(page, l) < n <==> page <= total
  {
    if page <= total {
      MulMonotone(page - 1, total - 1, l);
    } else {
      MulMonotone(total, page - 1, l);
    }
  }

  /** With the default limit, page 2 skips three orders and shows the next three at most. */
  lemma DefaultSecondPage(orders: seq<Order>, userId: string)
    requires IsObjectIdHex(userId)
    ensures SkipAmount(2, LimitOrDefault(None)) == 3
    ensures var r := GetOrdersByUser(orders, userId, None, 2);
            r.Ok? && |r.value.data| <= 3
            && forall k :: 0 <= k < |r.value.data| ==> r.value.data[k] == OrdersOf(orders, Lower(userId))[3 + k]
  {
  }

  /** A window of a newest-first list is newest first. */
  lemma WindowNewestFirst(items: seq<Order>, skip: nat, l: Limit)
    requires NewestFirst(items)
    ensures NewestFirst(Window(items, skip, l))
  {
    var w := Window(items, skip, l);
    forall i, j | 0 <= i < j < |w|
      ensures w[i].createdAt >= w[j].createdAt
    {
      assert w[i] == items[skip + i] && w[j] == items[skip + j];
    }
  }

  /** Every page of a newest-first order list is newest first. */
  lemma PageNewestFirst(orders: seq<Order>, userId: string, limit: Option<Limit>, page: int)
    requires IsObjectIdHex(userId) && page >= 1 && NewestFirst(orders)
    ensures NewestFirst(GetOrdersByUser(orders, userId, limit, page).value.data)
  {
    OrdersOfKeepsNewestFirst(orders, Lower(userId));
    PageIsWindow(orders, userId, limit, page);
    WindowNewestFirst(OrdersOf(orders, Lower(userId)), SkipAmount(page, LimitOrDefault(limit)), LimitOrDefault(limit));
  }

  /** The data of pages `page` to `last`, one after the other. */
  function PagesFrom(orders: seq<Order>, userId: string, limit: Option<Limit>, page: int, last: int): seq<Order>
    requires IsObjectIdHex(userId) && page >= 1
    decreases last + 1 - page
  {
    if page > last then []
    else GetOrdersByUser(orders, userId, limit, page).value.data + PagesFrom(orders, userId, limit, page + 1, last)
  }

  /** The windows of pages `page` to `last` over `items`, one after the other. */
  function Windows(items: seq<Order>, l: Limit, page: int, last: int): seq<Order>
    requires page >= 1
    decreases last + 1 - page
  {
    if page > last then [] else Window(items, SkipAmount(page, l), l) + Windows(items, l, page + 1, last)
  }

  /** The windows from `page` to the last page cover every item from the page's first on. */
  lemma {:induction false} WindowsCoverRest(items: seq<Order>, l: Limit, page: int)
    requires page >= 1 && SkipAmount(page, l) <= |items|
    ensures Windows(items, l, page, CeilDiv(|items|, l)) == items[SkipAmount(page, l)..]
    decreases |items| - SkipAmount(page, l)
  {
    var n, total, skip := |items|, CeilDiv(|items|, l), SkipAmount(page, l);
    PageInRangeIff(n, l, page, total);
    if page <= total {
      assert SkipAmount(page + 1, l) == skip + l;
      if skip + l <= n {
        WindowsCoverRest(items, l, page + 1);
        assert Window(items, skip, l) == items[skip..skip + l];
        assert items[skip..] == items[skip..skip + l] + items[skip + l..];
      } else {
        PageInRangeIff(n, l, page + 1, total);
        assert Window(items, skip, l) == items[skip..];
        assert Windows(items, l, page + 1, total) == [];
      }
    }
  }

  /** A page's data is the window at its skip over the buyer's orders. */
  lemma PageIsWindow(orders: seq<Order>, userId: string, limit: Option<Limit>, page: int)
    requires IsObjectIdHex(userId) && page >= 1
    ensures GetOrdersByUser(orders, userId, limit, page).value.data
            == Window(OrdersOf(orders, Lower(userId)), SkipAmount(page, LimitOrDefault(limit)), LimitOrDefault(limit))
  {
  }

  /** Reading the pages one after another is reading the windows over the buyer's orders. */
  lemma {:induction false} PagesAreWindows(orders: seq<Order>, userId: string, limit: Option<Limit>, page: int, last: int)
    requires IsObjectIdHex(userId) && page >= 1
    ensures PagesFrom(orders, userId, limit, page, last)
            == Windows(OrdersOf(orders, Lower(userId)), LimitOrDefault(limit), page, last)
    decreases last + 1 - page
  {
    if page <= last {
      var mine, l := OrdersOf(orders, Lower(userId)), LimitOrDefault(limit);
      PageIsWindow(orders, userId, limit, page);
      PagesAreWindows(orders, userId, limit, page + 1, last);
      assert PagesFrom(orders, userId, limit, page, last)
          == GetOrdersByUser(orders, userId, limit, page).value.data + PagesFrom(orders, userId, limit, page + 1, last);
      assert Windows(mine, l, page, last) == Window(mine, SkipAmount(page, l), l) + Windows(mine, l, page + 1, last);
    }
  }

  /** Pages 1 to the page count, read one after another, are exactly the
      buyer's orders: no order is skipped or shown twice. */
  lemma PagesPartitionOrders(orders: seq<Order>, userId: string, limit: Option<Limit>)
    requires IsObjectIdHex(userId)
    ensures PagesFrom(orders, userId, limit, 1, GetOrdersByUser(orders, userId, limit, 1).value.totalPages)
            == OrdersOf(orders, Lower(userId))
  {
    var mine, l := OrdersOf(orders, Lower(userId)), LimitOrDefault(limit);
    PagesAreWindows(orders, userId, limit, 1, CeilDiv(|mine|, l));
    WindowsCoverRest(mine, l, 1);
  }
}
