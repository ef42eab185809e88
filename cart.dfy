/**
 * The shopping cart: an array of item objects under the store key "cart",
 * kept unique by `id`. Re-adding an item bumps its quantity, a quantity
 * update to zero or below removes it, and the `.cart-badge` element shows the
 * total quantity after every change.
 */
module Cart {
  import opened Wrappers
  import opened Records
  import opened KeyValueStore
  import opened Dom

  const Key: string := "cart"

  /** `Cart.get()` */
  function Get(s: Store): seq<Json>
    reads s
  {
    s.Read(Key)
  }

  /** An item whose `quantity` is a number, so that `quantity += 1` and the count are numeric. */
  predicate IsItem(v: Json)
  {
    v.Obj? && "quantity" in v.fields && v.fields["quantity"].Num?
  }

  function Quantity(v: Json): int
    requires IsItem(v)
  {
    v.fields["quantity"].n
  }

  predicate HasPrice(v: Json)
  {
    v.Obj? && "price" in v.fields && v.fields["price"].Num?
  }

  function Price(v: Json): int
    requires HasPrice(v)
  {
    v.fields["price"].n
  }

  /** Every item has a numeric quantity. */
  predicate Counted(c: seq<Json>)
  {
    forall x | x in c :: IsItem(x)
  }

  /** Every item has a numeric price. */
  predicate Priced(c: seq<Json>)
  {
    forall x | x in c :: HasPrice(x)
  }

  /** The cart invariant on quantities: every item is in the cart at least once. */
  predicate Positive(c: seq<Json>)
  {
    forall x | x in c :: IsItem(x) && Quantity(x) >= 1
  }

  /** No two items share an `id`. */
  predicate DistinctIds(c: seq<Json>)
  {
    forall i, j | 0 <= i < j < |c| :: Field(c[i], "id") != Field(c[j], "id")
  }

  /** `getCount`: `reduce((count, item) => count + item.quantity, 0)`. */
  function Count(c: seq<Json>): (n: int)
    requires Counted(c)
    ensures (forall x | x in c :: Quantity(x) >= 0) ==> n >= 0
  {
    if c == [] then 0 else Count(c[..|c| - 1]) + Quantity(c[|c| - 1])
  }

  /** `getTotal`: `reduce((total, item) => total + item.price * item.quantity, 0)`. */
  function Total(c: seq<Json>): (t: int)
    requires Counted(c) && Priced(c)
    ensures (forall x | x in c :: Quantity(x) >= 0 && Price(x) >= 0) ==> t >= 0
  {
    if c == [] then 0 else Total(c[..|c| - 1]) + Price(c[|c| - 1]) * Quantity(c[|c| - 1])
  }

  /** The cart that `add(item)` stores and returns. */
  function AddItem(c: seq<Json>, item: Json): (r: seq<Json>)
    requires Counted(c)
    ensures Counted(r)
    ensures var k := FindIndex(c, "id", Field(item, "id"));
      if k >= 0 then
        && |r| == |c|
        && Quantity(r[k]) == Quantity(c[k]) + 1
        && (forall f :: f != "quantity" ==> Field(r[k], f) == Field(c[k], f))
        && (forall j | 0 <= j < |c| && j != k :: r[j] == c[j])
      else
        && |r| == |c| + 1
        && r[..|c|] == c
        && Quantity(r[|c|]) == 1
        && (forall f :: f != "quantity" ==> Field(r[|c|], f) == Field(item, f))
  {
    var k := FindIndex(c, "id", Field(item, "id"));
    if k >= 0 then
      c[k := Assign(c[k], "quantity", Num(Quantity(c[k]) + 1))]
    else
      c + [Obj(Spread(item)["quantity" := Num(1)])]
  }

  /** The cart that `remove(itemId)` stores and returns. */
  function RemoveItem(c: seq<Json>, id: Json): (r: seq<Json>)
    ensures forall x :: x in r <==> x in c && Field(x, "id") != Some(id)
  {
    WithoutMembers(c, "id", id);
    Without(c, "id", id)
  }

  /** `item.quantity = quantity` on the item at position k. */
  function SetQuantity(c: seq<Json>, k: int, q: int): (r: seq<Json>)
    requires Counted(c) && 0 <= k < |c|
    ensures Counted(r) && |r| == |c|
    ensures Quantity(r[k]) == q
    ensures forall f :: f != "quantity" ==> Field(r[k], f) == Field(c[k], f)
    ensures forall j | 0 <= j < |c| && j != k :: r[j] == c[j]
  {
    assert c[k] in c;
    var r := c[k := Assign(c[k], "quantity", Num(q))];
    assert forall x | x in r :: x == r[k] || x in c;
    r
  }

  // ---------------------------------------------------------------------------
  // Sums

  lemma CountAppend(c: seq<Json>, x: Json)
    requires Counted(c) && IsItem(x)
    ensures Counted(c + [x]) && Count(c + [x]) == Count(c) + Quantity(x)
  {
    assert (c + [x])[..|c|] == c;
  }

  /** Replacing one item changes the count by the difference of the two quantities. */
  lemma {:induction false} CountUpdate(c: seq<Json>, k: int, x: Json)
    requires Counted(c) && 0 <= k < |c| && IsItem(x)
    ensures Counted(c[k := x])
    ensures Count(c[k := x]) == Count(c) - Quantity(c[k]) + Quantity(x)
  {
    var m := |c| - 1;
    assert forall y | y in c[k := x] :: y == x || y in c;
    if k < m {
      assert c[k := x][..m] == c[..m][k := x];
      CountUpdate(c[..m], k, x);
    } else {
      assert c[k := x][..m] == c[..m];
    }
  }

  /** Replacing one item changes the total by the difference of the two line amounts. */
  lemma {:induction false} TotalUpdate(c: seq<Json>, k: int, x: Json)
    requires Counted(c) && Priced(c) && 0 <= k < |c| && IsItem(x) && HasPrice(x)
    ensures Counted(c[k := x]) && Priced(c[k := x])
    ensures Total(c[k := x]) == Total(c) - Price(c[k]) * Quantity(c[k]) + Price(x) * Quantity(x)
  {
    var m := |c| - 1;
    assert forall y | y in c[k := x] :: y == x || y in c;
    if k < m {
      assert c[k := x][..m] == c[..m][k := x];
      TotalUpdate(c[..m], k, x);
    } else {
      assert c[k := x][..m] == c[..m];
    }
  }

  /** Both sums split over a concatenation. */
  lemma {:induction false} SumsConcat(a: seq<Json>, b: seq<Json>)
    requires Counted(a) && Counted(b)
    ensures Counted(a + b) && Count(a + b) == Count(a) + Count(b)
    ensures Priced(a) && Priced(b) ==> Priced(a + b) && Total(a + b) == Total(a) + Total(b)
  {
    if b != [] {
      var m := |b| - 1;
      assert (a + b)[..|a + b| - 1] == a + b[..m];
      SumsConcat(a, b[..m]);
    } else {
      assert a + b == a;
    }
  }

  /** With every quantity at least 1, the count is at least the number of items. */
  lemma {:induction false} CountAtLeastSize(c: seq<Json>)
    requires Positive(c)
    ensures Counted(c) && Count(c) >= |c|
  {
    if c != [] {
      CountAtLeastSize(c[..|c| - 1]);
    }
  }

  /** `getTotal` and `getCount` of an empty cart are 0. */
  lemma EmptySums()
    ensures Count([]) == 0 && Total([]) == 0
  {
  }

  // ---------------------------------------------------------------------------
  // add

  /** Every `add` grows the count by exactly one, whether it bumps or appends. */
  lemma AddCount(c: seq<Json>, item: Json)
    requires Counted(c)
    ensures Count(AddItem(c, item)) == Count(c) + 1
  {
    var k := FindIndex(c, "id", Field(item, "id"));
    var r := AddItem(c, item);
    if k >= 0 {
      assert r == c[k := r[k]];
      CountUpdate(c, k, r[k]);
    } else {
      assert r == c + [r[|c|]];
      CountAppend(c, r[|c|]);
    }
  }

  /**
   * `add` raises the total by the price of the item bumped, or by the
   * price of the new item when it is appended.
   */
  lemma AddTotal(c: seq<Json>, item: Json)
    requires Counted(c) && Priced(c)
    requires FindIndex(c, "id", Field(item, "id")) < 0 ==> HasPrice(item)
    ensures Priced(AddItem(c, item))
    ensures var k := FindIndex(c, "id", Field(item, "id"));
      Total(AddItem(c, item)) == Total(c) + (if k >= 0 then Price(c[k]) else Price(item))
  {
    var k := FindIndex(c, "id", Field(item, "id"));
    var r := AddItem(c, item);
    if k >= 0 {
      BumpTotal(c, k, r[k]);
      assert r == c[k := r[k]];
    } else {
      AppendTotal(c, item, r[|c|]);
      assert r == c + [r[|c|]];
    }
  }

  lemma BumpTotal(c: seq<Json>, k: int, x: Json)
    requires Counted(c) && Priced(c) && 0 <= k < |c| && IsItem(x)
    requires Field(x, "price") == Field(c[k], "price") && Quantity(x) == Quantity(c[k]) + 1
    ensures Priced(c[k := x]) && Total(c[k := x]) == Total(c) + Price(c[k])
  {
    assert c[k] in c;
    TotalUpdate(c, k, x);
  }

  lemma AppendTotal(c: seq<Json>, item: Json, x: Json)
    requires Counted(c) && Priced(c) && HasPrice(item) && IsItem(x)
    requires Field(x, "price") == Field(item, "price") && Quantity(x) == 1
    ensures Priced(c + [x]) && Total(c + [x]) == Total(c) + Price(item)
  {
    SumsConcat(c, [x]);
  }

  /** `add` keeps ids pairwise distinct and every quantity at least 1. */
  lemma AddKeepsInvariant(c: seq<Json>, item: Json)
    requires Counted(c) && DistinctIds(c)
    ensures DistinctIds(AddItem(c, item))
    ensures Positive(c) ==> Positive(AddItem(c, item))
  {
    var k := FindIndex(c, "id", Field(item, "id"));
    var r := AddItem(c, item);
    if k >= 0 {
      assert Field(r[k], "id") == Field(c[k], "id");
      assert forall i | 0 <= i < |r| :: Field(r[i], "id") == Field(c[i], "id");
      assert forall x | x in r :: x == r[k] || x in c;
    } else {
      assert Field(r[|c|], "id") == Field(item, "id");
      assert forall i | 0 <= i < |c| :: r[i] == c[i];
    }
  }

  /** Adding the items one after another, as a sequence of `add` calls does. */
  function AddAll(c: seq<Json>, items: seq<Json>): (r: seq<Json>)
    requires Counted(c)
    ensures Counted(r)
    decreases |items|
  {
    if items == [] then c else AddAll(AddItem(c, items[0]), items[1..])
  }

  /**
   * After any sequence of `add` calls, repeated ids included, the count has
   * grown by the number of calls and ids are still pairwise distinct.
   */
  lemma {:induction false} AddAllCount(c: seq<Json>, items: seq<Json>)
    requires Counted(c) && DistinctIds(c)
    ensures Count(AddAll(c, items)) == Count(c) + |items|
    ensures DistinctIds(AddAll(c, items))
    decreases |items|
  {
    if items != [] {
      AddCount(c, items[0]);
      AddKeepsInvariant(c, items[0]);
      AddAllCount(AddItem(c, items[0]), items[1..]);
    }
  }

  // ---------------------------------------------------------------------------
  // remove and updateQuantity

  /** `remove(id)` on a cart without that id leaves it as it was. */
  lemma RemoveAbsent(c: seq<Json>, id: Json)
    requires FindIndex(c, "id", Some(id)) < 0
    ensures RemoveItem(c, id) == c
  {
    WithoutNothing(c, "id", id);
  }

  /**
   * In a cart with distinct ids, `remove(id)` takes out exactly the item
   * with that id and keeps the others in their order, and the count and
   * total drop by that item's share.
   */
  lemma RemovePresent(c: seq<Json>, id: Json)
    requires DistinctIds(c)
    requires FindIndex(c, "id", Some(id)) >= 0
    ensures var k := FindIndex(c, "id", Some(id));
      RemoveItem(c, id) == c[..k] + c[k + 1..]
    ensures var k := FindIndex(c, "id", Some(id));
      Counted(c) ==> Counted(RemoveItem(c, id)) && Count(RemoveItem(c, id)) == Count(c) - Quantity(c[k])
    ensures var k := FindIndex(c, "id", Some(id));
      Counted(c) && Priced(c) ==>
        (Priced(RemoveItem(c, id)) && Total(RemoveItem(c, id)) == Total(c) - Price(c[k]) * Quantity(c[k]))
  {
    var k := FindIndex(c, "id", Some(id));
    WithoutOnly(c, "id", id, k);
    if Counted(c) {
      assert c == c[..k] + [c[k]] + c[k + 1..];
      SumsConcat(c[..k], [c[k]]);
      SumsConcat(c[..k] + [c[k]], c[k + 1..]);
      SumsConcat(c[..k], c[k + 1..]);
      assert Count([c[k]]) == Quantity(c[k]);
    }
  }

  /** `remove` keeps ids distinct and quantities positive. */
  lemma {:induction false} RemoveKeepsInvariant(c: seq<Json>, id: Json)
    requires DistinctIds(c)
    ensures DistinctIds(RemoveItem(c, id))
    ensures Positive(c) ==> Positive(RemoveItem(c, id))
  {
    var k := FindIndex(c, "id", Some(id));
    if k < 0 {
      RemoveAbsent(c, id);
    } else {
      RemovePresent(c, id);
      SpliceKeepsDistinct(c, k);
    }
  }

  lemma SpliceKeepsDistinct(c: seq<Json>, k: int)
    requires DistinctIds(c) && 0 <= k < |c|
    ensures DistinctIds(c[..k] + c[k + 1..])
  {
    var r := c[..k] + c[k + 1..];
    forall i, j | 0 <= i < j < |r|
      ensures Field(r[i], "id") != Field(r[j], "id")
    {
      var i', j' := if i < k then i else i + 1, if j < k then j else j + 1;
      assert r[i] == c[i'] && r[j] == c[j'];
    }
  }

  /** Setting a positive quantity keeps ids distinct and quantities positive. */
  lemma SetQuantityKeepsInvariant(c: seq<Json>, k: int, q: int)
    requires Counted(c) && 0 <= k < |c| && DistinctIds(c)
    ensures DistinctIds(SetQuantity(c, k, q))
    ensures Positive(c) && q >= 1 ==> Positive(SetQuantity(c, k, q))
  {
    var r := SetQuantity(c, k, q);
    assert Field(r[k], "id") == Field(c[k], "id");
    assert forall i | 0 <= i < |r| :: Field(r[i], "id") == Field(c[i], "id");
    assert forall x | x in r :: x == r[k] || x in c;
  }

  /** The badge is shown exactly when the cart holds an item. */
  lemma BadgeShownIffNonEmpty(c: seq<Json>)
    requires Positive(c)
    ensures Counted(c) && (BadgeFor(Count(c)).shown <==> c != [])
  {
    CountAtLeastSize(c);
  }

  /** Two `add`s of the same 250-paise pizza: one line, count 2, total 500. */
  lemma PizzaScenario()
    ensures var pizza := Obj(map["id" := Num(1), "name" := Str("Pizza"), "price" := Num(250), "quantity" := Num(1)]);
      var once := AddItem([], pizza);
      var twice := AddItem(once, pizza);
      && Priced(once) && Total(once) == 250 && Count(once) == 1
      && Priced(twice) && Total(twice) == 500 && Count(twice) == 2 && |twice| == 1
  {
    var pizza := Obj(map["id" := Num(1), "name" := Str("Pizza"), "price" := Num(250), "quantity" := Num(1)]);
    AddTotal([], pizza);
    AddCount([], pizza);
    var once := AddItem([], pizza);
    assert Field(once[0], "id") == Field(pizza, "id");
    assert FindIndex(once, "id", Field(pizza, "id")) == 0;
    AddTotal(once, pizza);
    AddCount(once, pizza);
  }

  // ---------------------------------------------------------------------------
  // The manager's operations on the store

  /** `updateBadge`: the `.cart-badge` element, when present, shows the count. */
  method UpdateBadge(s: Store, d: Page)
    requires Counted(Get(s))
    modifies d`cartBadge
    ensures d.cartBadge == Refreshed(old(d.cartBadge), Count(Get(s)))
  {
    if d.cartBadge.Some? {
      var count := Count(Get(s));
      d.cartBadge := Some(BadgeFor(count));
    }
  }

  /** `add(item)`: bump the quantity of the item with the same id, or append a copy with quantity 1. */
  method Add(s: Store, d: Page, item: Json) returns (cart: seq<Json>)
    requires Counted(Get(s))
    modifies s, d`cartBadge
    ensures cart == AddItem(old(Get(s)), item)
    ensures s.data == old(s.data)[Key := cart]
    ensures d.cartBadge == Refreshed(old(d.cartBadge), Count(cart))
  {
    cart := Get(s);
    var k := FindIndex(cart, "id", Field(item, "id"));
    if k >= 0 {
      cart := cart[k := Assign(cart[k], "quantity", Num(Quantity(cart[k]) + 1))];
    } else {
      cart := cart + [Obj(Spread(item)["quantity" := Num(1)])];
    }
    s.Write(Key, cart);
    UpdateBadge(s, d);
  }

  /** `remove(itemId)`: drop every item with that id. */
  method Remove(s: Store, d: Page, itemId: Json) returns (filtered: seq<Json>)
    requires Counted(Get(s))
    modifies s, d`cartBadge
    ensures filtered == RemoveItem(old(Get(s)), itemId)
    ensures s.data == old(s.data)[Key := filtered]
    ensures d.cartBadge == Refreshed(old(d.cartBadge), Count(filtered))
  {
    var cart := Get(s);
    filtered := RemoveItem(cart, itemId);
    s.Write(Key, filtered);
    UpdateBadge(s, d);
  }

  /**
   * `updateQuantity(itemId, quantity)`: for an id in the cart, a quantity
   * of 0 or less is `remove(itemId)` and any other quantity replaces that
   * item's quantity; for an id not in the cart nothing is written at all.
   */
  method UpdateQuantity(s: Store, d: Page, itemId: Json, quantity: int) returns (cart: seq<Json>)
    requires Counted(Get(s))
    modifies s, d`cartBadge
    ensures var k := FindIndex(old(Get(s)), "id", Some(itemId));
      k < 0 ==> cart == old(Get(s)) && s.data == old(s.data) && d.cartBadge == old(d.cartBadge)
    ensures var k := FindIndex(old(Get(s)), "id", Some(itemId));
      k >= 0 && quantity <= 0 ==> cart == RemoveItem(old(Get(s)), itemId)
    ensures var k := FindIndex(old(Get(s)), "id", Some(itemId));
      k >= 0 && quantity > 0 ==> cart == SetQuantity(old(Get(s)), k, quantity)
    ensures FindIndex(old(Get(s)), "id", Some(itemId)) >= 0 ==>
      && s.data == old(s.data)[Key := cart]
      && Counted(cart)
      && d.cartBadge == Refreshed(old(d.cartBadge), Count(cart))
  {
    cart := Get(s);
    var k := FindIndex(cart, "id", Some(itemId));
    if k >= 0 {
      if quantity <= 0 {
        cart := Remove(s, d, itemId);
        return;
      }
      cart := cart[k := Assign(cart[k], "quantity", Num(quantity))];
      s.Write(Key, cart);
      UpdateBadge(s, d);
    }
  }

  /** `clear()`: the cart key is removed, so the cart reads as empty, and the badge hides. */
  method Clear(s: Store, d: Page)
    modifies s, d`cartBadge
    ensures s.data == old(s.data) - {Key}
    ensures Get(s) == []
    ensures d.cartBadge == Refreshed(old(d.cartBadge), 0)
  {
    s.Delete(Key);
    UpdateBadge(s, d);
  }
}
