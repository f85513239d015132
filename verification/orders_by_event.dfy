/** `getOrdersByEvent`: the aggregation that joins each order to its buyer and
    its event, projects a report row, and keeps the rows for one event whose
    buyer name matches a search string. Collections are maps from `_id`,
    which MongoDB keeps unique. */
module OrdersByEvent {
  import opened Results
  import opened Text
  import opened Orders

  datatype User = User(firstName: string, lastName: string)

  datatype Event = Event(title: string)

  /** One row of the report. */
  datatype OrderRow = OrderRow(
    id: ObjectId,
    totalAmount: string,
    createdAt: int,
    eventTitle: string,
    eventId: ObjectId,
    buyer: string)

  datatype QueryError = EventIdRequired | InvalidObjectId(input: string)

  /** The buyer's display name (`$concat` of first name, a space, last name). */
  function FullName(u: User): (name: string)
    ensures |name| == |u.firstName| + 1 + |u.lastName|
    ensures name[..|u.firstName|] == u.firstName && name[|u.firstName|] == ' '
    ensures name[|u.firstName| + 1..] == u.lastName
  {
    u.firstName + " " + u.lastName
  }

  /** The `$project` stage applied to an order joined with its buyer and event. */
  function Project(o: Order, buyer: User, event: Event): (row: OrderRow)
    ensures row.id == o.id && row.totalAmount == o.totalAmount && row.createdAt == o.createdAt
    ensures row.eventId == o.event && row.eventTitle == event.title
    ensures row.buyer == FullName(buyer)
  {
    OrderRow(o.id, o.totalAmount, o.createdAt, event.title, o.event, FullName(buyer))
  }

  /** Both references of the order resolve. */
  predicate Resolves(o: Order, users: map<ObjectId, User>, events: map<ObjectId, Event>) {
    o.buyer in users && o.event in events
  }

  /** The row an order contributes, if both its references resolve. */
  function RowOf(o: Order, users: map<ObjectId, User>, events: map<ObjectId, Event>): (rows: seq<OrderRow>)
    ensures |rows| <= 1
    ensures |rows| == 1 <==> Resolves(o, users, events)
  {
    if Resolves(o, users, events) then [Project(o, users[o.buyer], events[o.event])] else []
  }

  /** The two `$lookup`/`$unwind` pairs and `$project`: an order whose buyer or
      event is missing drops out, every other order gives one row. */
  function Join(orders: seq<Order>, users: map<ObjectId, User>, events: map<ObjectId, Event>): (rows: seq<OrderRow>)
    ensures |rows| <= |orders|
  {
    if |orders| == 0 then [] else RowOf(orders[0], users, events) + Join(orders[1..], users, events)
  }

  /** The row keeps the `$match` stage's two conditions. */
  predicate Keep(row: OrderRow, eventId: ObjectId, search: string)
    ensures Keep(row, eventId, search) <==>
              row.eventId == eventId && exists i: nat :: OccursAt(Lower(search), Lower(row.buyer), i)
  {
    row.eventId == eventId && MatchesIgnoreCase(row.buyer, search)
  }

  /** The `$match` stage. */
  function Match(rows: seq<OrderRow>, eventId: ObjectId, search: string): (kept: seq<OrderRow>)
    ensures |kept| <= |rows|
    ensures forall k :: 0 <= k < |kept| ==> Keep(kept[k], eventId, search)
  {
    if |rows| == 0 then []
    else (if Keep(rows[0], eventId, search) then [rows[0]] else []) + Match(rows[1..], eventId, search)
  }

  /** `getOrdersByEvent`: a missing event id or one that is not an object id
      is an error; otherwise the joined rows of that event whose buyer name
      matches the search. */
  function GetOrdersByEvent(
    orders: seq<Order>, users: map<ObjectId, User>, events: map<ObjectId, Event>,
    eventId: string, search: string): (r: Result<seq<OrderRow>, QueryError>)
    ensures eventId == "" ==> r == Err(EventIdRequired)
    ensures r.Err? <==> !IsObjectIdHex(eventId)
    ensures r.Ok? ==> |r.value| <= |orders|
    ensures r.Ok? ==> forall k :: 0 <= k < |r.value| ==>
              r.value[k].eventId == Lower(eventId) && MatchesIgnoreCase(r.value[k].buyer, search)
  {
    if eventId == "" then Err(EventIdRequired)
    else match ParseObjectId(eventId)
      case None => Err(InvalidObjectId(eventId))
      case Some(id) => Ok(Match(Join(orders, users, events), id, search))
  }

  /** `a` appears in `b` in order, possibly with gaps. */
  predicate IsSubsequence<T(==)>(a: seq<T>, b: seq<T>)
    decreases |b|
  {
    |a| == 0 || (|b| > 0 && ((a[0] == b[0] && IsSubsequence(a[1..], b[1..])) || IsSubsequence(a, b[1..])))
  }

  /** The join keeps the orders' order: joining a concatenation is concatenating the joins. */
  lemma {:induction false} JoinDistributes(a: seq<Order>, b: seq<Order>, users: map<ObjectId, User>, events: map<ObjectId, Event>)
    ensures Join(a + b, users, events) == Join(a, users, events) + Join(b, users, events)
    decreases |a|
  {
    if |a| == 0 {
      assert a + b == b;
    } else {
      assert (a + b)[1..] == a[1..] + b;
      JoinDistributes(a[1..], b, users, events);
    }
  }

  /** `$match` keeps an order-preserving subsequence of its input. */
  lemma {:induction false} MatchIsSubsequence(rows: seq<OrderRow>, eventId: ObjectId, search: string)
    ensures IsSubsequence(Match(rows, eventId, search), rows)
    decreases |rows|
  {
    if |rows| > 0 {
      var rest := Match(rows[1..], eventId, search);
      MatchIsSubsequence(rows[1..], eventId, search);
      if Keep(rows[0], eventId, search) {
        assert Match(rows, eventId, search) == [rows[0]] + rest;
        assert ([rows[0]] + rest)[1..] == rest;
      } else {
        assert Match(rows, eventId, search) == rest;
      }
    }
  }

  /** Every row of the join is the projection of some order in the input whose references resolve. */
  lemma {:induction false} JoinSound(orders: seq<Order>, users: map<ObjectId, User>, events: map<ObjectId, Event>, row: OrderRow)
    requires row in Join(orders, users, events)
    ensures exists o :: o in orders && Resolves(o, users, events) && row == Project(o, users[o.buyer], events[o.event])
    decreases |orders|
  {
    if row in RowOf(orders[0], users, events) {
      assert orders[0] in orders;
    } else {
      JoinSound(orders[1..], users, events, row);
      var o :| o in orders[1..] && Resolves(o, users, events) && row == Project(o, users[o.buyer], events[o.event]);
      assert o in orders;
    }
  }

  /** Every order whose references resolve contributes its projection to the join. */
  lemma {:induction false} JoinComplete(orders: seq<Order>, users: map<ObjectId, User>, events: map<ObjectId, Event>, o: Order)
    requires o in orders && Resolves(o, users, events)
    ensures Project(o, users[o.buyer], events[o.event]) in Join(orders, users, events)
    decreases |orders|
  {
    if orders[0] != o {
      assert o in orders[1..];
      JoinComplete(orders[1..], users, events, o);
    }
  }

  /** A row survives `$match` exactly when it is in the input and keeps both conditions. */
  lemma {:induction false} MatchMembership(rows: seq<OrderRow>, eventId: ObjectId, search: string, row: OrderRow)
    ensures row in Match(rows, eventId, search) <==> row in rows && Keep(row, eventId, search)
    decreases |rows|
  {
    if |rows| > 0 {
      MatchMembership(rows[1..], eventId, search, row);
      assert rows == [rows[0]] + rows[1..];
    }
  }

  /** Soundness: each reported row projects an input order that resolves, is
      for the requested event, and whose buyer's full name matches the search. */
  lemma ReportedRowsComeFromOrders(
    orders: seq<Order>, users: map<ObjectId, User>, events: map<ObjectId, Event>,
    eventId: string, search: string, row: OrderRow)
    requires GetOrdersByEvent(orders, users, events, eventId, search).Ok?
    requires row in GetOrdersByEvent(orders, users, events, eventId, search).value
    ensures exists o :: o in orders && Resolves(o, users, events) && o.event == Lower(eventId)
              && MatchesIgnoreCase(FullName(users[o.buyer]), search)
              && row == Project(o, users[o.buyer], events[o.event])
  {
    MatchMembership(Join(orders, users, events), Lower(eventId), search, row);
    JoinSound(orders, users, events, row);
  }

  /** Completeness: every input order that resolves, is for the requested event
      and whose buyer's full name matches the search is reported. */
  lemma MatchingOrdersReported(
    orders: seq<Order>, users: map<ObjectId, User>, events: map<ObjectId, Event>,
    eventId: string, search: string, o: Order)
    requires IsObjectIdHex(eventId)
    requires o in orders && Resolves(o, users, events) && o.event == Lower(eventId)
    requires MatchesIgnoreCase(FullName(users[o.buyer]), search)
    ensures Project(o, users[o.buyer], events[o.event]) in GetOrdersByEvent(orders, users, events, eventId, search).value
  {
    var row := Project(o, users[o.buyer], events[o.event]);
    JoinComplete(orders, users, events, o);
    MatchMembership(Join(orders, users, events), Lower(eventId), search, row);
  }

  /** Order preservation: the report is a subsequence of the joined rows, and
      the join lists rows in the orders' own order. */
  lemma ReportPreservesOrder(
    orders: seq<Order>, users: map<ObjectId, User>, events: map<ObjectId, Event>,
    eventId: string, search: string)
    requires IsObjectIdHex(eventId)
    ensures IsSubsequence(GetOrdersByEvent(orders, users, events, eventId, search).value, Join(orders, users, events))
  {
    MatchIsSubsequence(Join(orders, users, events), Lower(eventId), search);
  }

  /** An order whose buyer or event is missing contributes no row. */
  lemma UnresolvedOrderDropped(o: Order, users: map<ObjectId, User>, events: map<ObjectId, Event>)
    requires !Resolves(o, users, events)
    ensures Join([o], users, events) == []
  {
  }
}
