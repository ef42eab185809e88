/**
 * Orders: an array of order objects under the store key "orders", newest
 * first. A new order always starts out "cooking"; its status is then changed
 * in place, by id, to whatever value the caller passes.
 */
module Orders {
  import opened Wrappers
  import opened Records
  import opened KeyValueStore

  const Key: string := "orders"
  const Cooking: Json := Str("cooking")
  const Delivered: Json := Str("delivered")

  /** `Orders.get()`, which `getAllOrders()` returns unfiltered. */
  function Get(s: Store): seq<Json>
    reads s
  {
    s.Read(Key)
  }

  /**
   * The object `add(order)` builds: the caller's properties, then `id` from
   * the clock, `status` forced to "cooking", and the two time stamps.
   */
  function Placed(order: Json, now: int, createdAt: string, updatedAt: string): (r: Json)
    ensures r.Obj?
    ensures Field(r, "id") == Some(Num(now))
    ensures Field(r, "status") == Some(Cooking)
    ensures Field(r, "createdAt") == Some(Str(createdAt))
    ensures Field(r, "updatedAt") == Some(Str(updatedAt))
    ensures forall f :: f != "id" && f != "status" && f != "createdAt" && f != "updatedAt" ==>
      Field(r, f) == Field(order, f)
  {
    Obj(Spread(order)["id" := Num(now)]["status" := Cooking]["createdAt" := Str(createdAt)]["updatedAt" := Str(updatedAt)])
  }

  /** `order.status = status; order.updatedAt = ...` on the order at position k. */
  function StatusSet(orders: seq<Json>, k: int, status: Json, updatedAt: string): (r: seq<Json>)
    requires 0 <= k < |orders| && orders[k].Obj?
    ensures |r| == |orders|
    ensures Field(r[k], "status") == Some(status)
    ensures Field(r[k], "updatedAt") == Some(Str(updatedAt))
    ensures forall f :: f != "status" && f != "updatedAt" ==> Field(r[k], f) == Field(orders[k], f)
    ensures forall j | 0 <= j < |orders| && j != k :: r[j] == orders[j]
  {
    orders[k := Assign(Assign(orders[k], "status", status), "updatedAt", Str(updatedAt))]
  }

  /** `getActiveOrders()`: the orders whose status is not "delivered", in stored order. */
  function Active(orders: seq<Json>): (r: seq<Json>)
    ensures forall o :: o in r <==> o in orders && Field(o, "status") != Some(Delivered)
  {
    WithoutMembers(orders, "status", Delivered);
    Without(orders, "status", Delivered)
  }

  /** An order carries a numeric id. */
  predicate HasNumId(o: Json)
  {
    Field(o, "id").Some? && Field(o, "id").value.Num?
  }

  function IdOf(o: Json): int
    requires HasNumId(o)
  {
    Field(o, "id").value.n
  }

  /** Ids strictly decrease from the head: the list is newest first and no id repeats. */
  predicate NewestFirst(orders: seq<Json>)
  {
    && (forall i | 0 <= i < |orders| :: HasNumId(orders[i]))
    && (forall i, j | 0 <= i < j < |orders| :: IdOf(orders[j]) < IdOf(orders[i]))
  }

  // ---------------------------------------------------------------------------
  // Properties

  /**
   * When the clock reads later than the newest stored order, prepending the
   * new order keeps the list newest first; in particular the new id is
   * distinct from every earlier one.
   */
  lemma AddKeepsNewestFirst(orders: seq<Json>, order: Json, now: int, createdAt: string, updatedAt: string)
    requires NewestFirst(orders)
    requires orders != [] ==> IdOf(orders[0]) < now
    ensures NewestFirst([Placed(order, now, createdAt, updatedAt)] + orders)
    ensures forall o | o in orders :: Field(o, "id") != Field(Placed(order, now, createdAt, updatedAt), "id")
  {
    var p := Placed(order, now, createdAt, updatedAt);
    var r := [p] + orders;
    assert forall i | 1 <= i < |r| :: r[i] == orders[i - 1];
    assert forall i | 0 <= i < |orders| :: IdOf(orders[i]) < now by {
      forall i | 0 <= i < |orders| ensures IdOf(orders[i]) < now {
        if i > 0 {
          assert IdOf(orders[i]) < IdOf(orders[0]);
        }
      }
    }
  }

  /** A status update leaves every id where it was, so the list stays newest first. */
  lemma StatusSetKeepsNewestFirst(orders: seq<Json>, k: int, status: Json, updatedAt: string)
    requires 0 <= k < |orders| && orders[k].Obj?
    requires NewestFirst(orders)
    ensures NewestFirst(StatusSet(orders, k, status, updatedAt))
  {
    var r := StatusSet(orders, k, status, updatedAt);
    assert Field(r[k], "id") == Field(orders[k], "id");
    assert forall i | 0 <= i < |r| :: Field(r[i], "id") == Field(orders[i], "id");
  }

  /** A freshly placed order is active, so it heads the active list as well. */
  lemma ActiveAfterAdd(orders: seq<Json>, order: Json, now: int, createdAt: string, updatedAt: string)
    ensures var p := Placed(order, now, createdAt, updatedAt);
      Active([p] + orders) == [p] + Active(orders)
  {
    var p := Placed(order, now, createdAt, updatedAt);
    WithoutAppend([p], orders, "status", Delivered);
  }

  /** Filtering for active orders keeps their relative order: it distributes over concatenation. */
  lemma ActiveConcat(a: seq<Json>, b: seq<Json>)
    ensures Active(a + b) == Active(a) + Active(b)
  {
    WithoutAppend(a, b, "status", Delivered);
  }

  /** With no delivered order, every order is active. */
  lemma NoneDelivered(orders: seq<Json>)
    requires forall i | 0 <= i < |orders| :: Field(orders[i], "status") != Some(Delivered)
    ensures Active(orders) == orders
  {
    WithoutNothing(orders, "status", Delivered);
  }

  // ---------------------------------------------------------------------------
  // The manager's operations on the store

  /** `add(order)`: prepend the placed order and return it. */
  method Add(s: Store, order: Json, now: int, createdAt: string, updatedAt: string) returns (newOrder: Json)
    modifies s
    ensures newOrder == Placed(order, now, createdAt, updatedAt)
    ensures Get(s) == [newOrder] + old(Get(s))
    ensures Get(s)[0] == newOrder && Get(s)[1..] == old(Get(s))
    ensures s.data == old(s.data)[Key := Get(s)]
  {
    var orders := Get(s);
    newOrder := Placed(order, now, createdAt, updatedAt);
    orders := [newOrder] + orders;
    s.Write(Key, orders);
  }

  /**
   * `updateStatus(orderId, status)`: the first order with that id gets the
   * new status and time stamp and is returned; with no such order nothing is
   * written and nothing is returned.
   */
  method UpdateStatus(s: Store, orderId: Json, status: Json, updatedAt: string) returns (order: Option<Json>)
    modifies s
    ensures var k := FindIndex(old(Get(s)), "id", Some(orderId));
      k < 0 ==> order == None && s.data == old(s.data)
    ensures var k := FindIndex(old(Get(s)), "id", Some(orderId));
      k >= 0 ==>
        && old(Get(s))[k].Obj?
        && Get(s) == StatusSet(old(Get(s)), k, status, updatedAt)
        && order == Some(Get(s)[k])
        && s.data == old(s.data)[Key := Get(s)]
  {
    var orders := Get(s);
    var k := FindIndex(orders, "id", Some(orderId));
    if k >= 0 {
      orders := orders[k := Assign(Assign(orders[k], "status", status), "updatedAt", Str(updatedAt))];
      s.Write(Key, orders);
      order := Some(orders[k]);
    } else {
      order := None;
    }
  }
}
