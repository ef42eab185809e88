/**
 * Saved restaurants and saved dishes: two arrays of bare ids, under the
 * store keys "saved-restaurants" and "saved-dishes", with set semantics.
 * Both managers run the same code on their own key, so one module models
 * both, selected by `IdList`.
 */
module SavedIds {
  import opened Records
  import opened KeyValueStore

  datatype IdList = Restaurants | Dishes

  function Key(l: IdList): string
  {
    match l
    case Restaurants => "saved-restaurants"
    case Dishes => "saved-dishes"
  }

  /** `SavedRestaurants.get()` / `SavedDishes.get()` */
  function Get(s: Store, l: IdList): seq<Json>
    reads s
  {
    s.Read(Key(l))
  }

  /** `isSaved(id)`: `get().includes(id)`. */
  function IsSaved(s: Store, l: IdList, id: Json): bool
    reads s
  {
    id in Get(s, l)
  }

  /** The list `add(id)` leaves: unchanged if id is already there, else id appended. */
  function Added(xs: seq<Json>, id: Json): (r: seq<Json>)
    ensures |r| == if id in xs then |xs| else |xs| + 1
    ensures r[..|xs|] == xs
    ensures forall y :: y in r <==> y in xs || y == id
  {
    if id in xs then xs else xs + [id]
  }

  /** The list `remove(id)` leaves: `filter(x => x !== id)`. */
  function Removed(xs: seq<Json>, id: Json): (r: seq<Json>)
    ensures |r| <= |xs|
  {
    if xs == [] then [] else (if xs[0] == id then [] else [xs[0]]) + Removed(xs[1..], id)
  }

  predicate NoDup(xs: seq<Json>)
  {
    forall i, j | 0 <= i < j < |xs| :: xs[i] != xs[j]
  }

  // ---------------------------------------------------------------------------
  // Properties

  /** `remove` keeps exactly the other ids. */
  lemma {:induction false} RemovedMembers(xs: seq<Json>, id: Json)
    ensures forall y :: y in Removed(xs, id) <==> y in xs && y != id
  {
    if xs != [] {
      assert xs == [xs[0]] + xs[1..];
      RemovedMembers(xs[1..], id);
    }
  }

  /** `remove` keeps the surviving ids in their order: it distributes over concatenation. */
  lemma {:induction false} RemovedConcat(a: seq<Json>, b: seq<Json>, id: Json)
    ensures Removed(a + b, id) == Removed(a, id) + Removed(b, id)
  {
    if a == [] {
      assert a + b == b;
    } else {
      assert (a + b)[1..] == a[1..] + b;
      RemovedConcat(a[1..], b, id);
    }
  }

  /** `add` is idempotent, and adding an id already saved changes nothing. */
  lemma AddIdempotent(xs: seq<Json>, id: Json)
    ensures id in xs ==> Added(xs, id) == xs
    ensures Added(Added(xs, id), id) == Added(xs, id)
  {
  }

  /** `isSaved(id)` holds after `add(id)` and fails after `remove(id)`; other ids are untouched. */
  lemma SavedAfterAddRemove(xs: seq<Json>, id: Json)
    ensures id in Added(xs, id)
    ensures id !in Removed(xs, id)
    ensures forall y :: y != id ==> (y in Added(xs, id) <==> y in xs) && (y in Removed(xs, id) <==> y in xs)
  {
    RemovedMembers(xs, id);
  }

  /** `add` never introduces a duplicate. */
  lemma AddedNoDup(xs: seq<Json>, id: Json)
    requires NoDup(xs)
    ensures NoDup(Added(xs, id))
  {
    if id !in xs {
      var r := xs + [id];
      assert forall i | 0 <= i < |xs| :: r[i] == xs[i];
    }
  }

  /** `remove` never introduces a duplicate. */
  lemma {:induction false} RemovedNoDup(xs: seq<Json>, id: Json)
    requires NoDup(xs)
    ensures NoDup(Removed(xs, id))
  {
    if xs != [] {
      var tail := Removed(xs[1..], id);
      RemovedNoDup(xs[1..], id);
      RemovedMembers(xs[1..], id);
      assert xs[0] !in xs[1..] by {
        forall j | 0 <= j < |xs| - 1 ensures xs[1..][j] != xs[0] {
          assert xs[1..][j] == xs[j + 1];
        }
      }
      if xs[0] != id {
        var r := [xs[0]] + tail;
        forall i, j | 0 <= i < j < |r| ensures r[i] != r[j] {
          if i == 0 {
            assert r[j] == tail[j - 1] && tail[j - 1] in tail;
          } else {
            assert r[i] == tail[i - 1] && r[j] == tail[j - 1];
          }
        }
      } else {
        assert Removed(xs, id) == [] + tail;
      }
    }
  }

  /** A call of `add` or `remove` on one of the lists. */
  datatype Op = Save(id: Json) | Unsave(id: Json)

  /** The list left by applying the calls in order. */
  function Replay(xs: seq<Json>, ops: seq<Op>): seq<Json>
    decreases |ops|
  {
    if ops == [] then xs
    else
      var next := match ops[0]
        case Save(id) => Added(xs, id)
        case Unsave(id) => Removed(xs, id);
      Replay(next, ops[1..])
  }

  /** A list built by `add` and `remove` alone never holds a duplicate. */
  lemma {:induction false} ReplayNoDup(xs: seq<Json>, ops: seq<Op>)
    requires NoDup(xs)
    ensures NoDup(Replay(xs, ops))
    decreases |ops|
  {
    if ops != [] {
      match ops[0]
      case Save(id) =>
        AddedNoDup(xs, id);
        ReplayNoDup(Added(xs, id), ops[1..]);
      case Unsave(id) =>
        RemovedNoDup(xs, id);
        ReplayNoDup(Removed(xs, id), ops[1..]);
    }
  }

  /** Saving "r1" twice from an empty list leaves exactly one "r1". */
  lemma SaveTwiceScenario()
    ensures Replay([], [Save(Str("r1")), Save(Str("r1"))]) == [Str("r1")]
  {
    assert Added([], Str("r1")) == [Str("r1")];
    assert Replay([Str("r1")], [Save(Str("r1"))]) == Replay([Str("r1")], []);
  }

  // ---------------------------------------------------------------------------
  // The managers' operations on the store

  /** `add(id)`: append id if it is not saved yet; a saved id causes no write at all. */
  method Add(s: Store, l: IdList, id: Json) returns (saved: seq<Json>)
    modifies s
    ensures saved == Added(old(Get(s, l)), id)
    ensures id in old(Get(s, l)) ==> s.data == old(s.data)
    ensures id !in old(Get(s, l)) ==> s.data == old(s.data)[Key(l) := saved]
    ensures IsSaved(s, l, id)
  {
    saved := Get(s, l);
    if id !in saved {
      saved := saved + [id];
      s.Write(Key(l), saved);
    }
  }

  /** `remove(id)`: keep every other id, in order, and write the list back. */
  method Remove(s: Store, l: IdList, id: Json) returns (filtered: seq<Json>)
    modifies s
    ensures filtered == Removed(old(Get(s, l)), id)
    ensures s.data == old(s.data)[Key(l) := filtered]
    ensures !IsSaved(s, l, id)
  {
    var saved := Get(s, l);
    filtered := Removed(saved, id);
    RemovedMembers(saved, id);
    s.Write(Key(l), filtered);
  }
}
