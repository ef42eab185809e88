/**
 * The JSON values the application keeps in its local key-value store, and the
 * few JavaScript idioms over them that every manager uses: property read,
 * object spread, property assignment, `findIndex` by a property and `filter`
 * on a property.
 *
 * Numbers are integers: prices and totals in paise, clock readings in
 * milliseconds.
 */
module Records {
  import opened Wrappers

  datatype Json =
    | Null
    | Bool(b: bool)
    | Num(n: int)
    | Str(s: string)
    | Arr(elems: seq<Json>)
    | Obj(fields: map<string, Json>)

  /** `v.k`: `None` stands for `undefined` (a missing property, or a non-object). */
  function Field(v: Json, k: string): Option<Json>
  {
    if v.Obj? && k in v.fields then Some(v.fields[k]) else None
  }

  /** The own properties that `{...v}` copies. */
  function Spread(v: Json): map<string, Json>
  {
    if v.Obj? then v.fields else map[]
  }

  /** `v.k = x` on an object: property k is now x and every other property is as before. */
  function Assign(v: Json, k: string, x: Json): (r: Json)
    requires v.Obj?
    ensures r.Obj? && Field(r, k) == Some(x)
    ensures forall f :: f != k ==> Field(r, f) == Field(v, f)
  {
    Obj(v.fields[k := x])
  }

  /**
   * `xs.findIndex(x => x.k === v)`: the first position whose property k is v,
   * or -1 when there is none.
   */
  function FindIndex(xs: seq<Json>, k: string, v: Option<Json>): (i: int)
    ensures -1 <= i < |xs|
    ensures 0 <= i ==> Field(xs[i], k) == v
    ensures forall j | 0 <= j < |xs| && (i < 0 || j < i) :: Field(xs[j], k) != v
  {
    if xs == [] then -1
    else if Field(xs[0], k) == v then 0
    else
      var i := FindIndex(xs[1..], k, v);
      if i < 0 then -1 else i + 1
  }

  /** `xs.filter(x => x.k !== v)`. */
  function Without(xs: seq<Json>, k: string, v: Json): (r: seq<Json>)
    ensures |r| <= |xs|
  {
    if xs == [] then []
    else
      (if Field(xs[0], k) == Some(v) then [] else [xs[0]]) + Without(xs[1..], k, v)
  }

  /** What `filter` keeps: exactly the elements of xs whose property k is not v. */
  lemma {:induction false} WithoutMembers(xs: seq<Json>, k: string, v: Json)
    ensures forall x :: x in Without(xs, k, v) <==> x in xs && Field(x, k) != Some(v)
  {
    if xs != [] {
      assert xs == [xs[0]] + xs[1..];
      WithoutMembers(xs[1..], k, v);
    }
  }

  /** Filtering distributes over concatenation, so it keeps the survivors in their order. */
  lemma {:induction false} WithoutAppend(a: seq<Json>, b: seq<Json>, k: string, v: Json)
    ensures Without(a + b, k, v) == Without(a, k, v) + Without(b, k, v)
  {
    if a == [] {
      assert a + b == b;
    } else {
      assert (a + b)[1..] == a[1..] + b;
      WithoutAppend(a[1..], b, k, v);
    }
  }

  /** Filtering a sequence in which nothing matches changes nothing. */
  lemma {:induction false} WithoutNothing(xs: seq<Json>, k: string, v: Json)
    requires forall j | 0 <= j < |xs| :: Field(xs[j], k) != Some(v)
    ensures Without(xs, k, v) == xs
  {
    if xs != [] {
      WithoutNothing(xs[1..], k, v);
    }
  }

  /** When exactly one element matches, filtering splices out just that element. */
  lemma WithoutOnly(xs: seq<Json>, k: string, v: Json, i: int)
    requires 0 <= i < |xs| && Field(xs[i], k) == Some(v)
    requires forall j | 0 <= j < |xs| && j != i :: Field(xs[j], k) != Some(v)
    ensures Without(xs, k, v) == xs[..i] + xs[i + 1..]
  {
    var pre, post := xs[..i], xs[i + 1..];
    assert xs == pre + ([xs[i]] + post);
    WithoutMiddle(pre, xs[i], post, k, v);
  }

  lemma WithoutMiddle(pre: seq<Json>, x: Json, post: seq<Json>, k: string, v: Json)
    requires Field(x, k) == Some(v)
    requires forall j | 0 <= j < |pre| :: Field(pre[j], k) != Some(v)
    requires forall j | 0 <= j < |post| :: Field(post[j], k) != Some(v)
    ensures Without(pre + ([x] + post), k, v) == pre + post
  {
    WithoutNothing(pre, k, v);
    WithoutAppend(pre, [x] + post, k, v);
    WithoutHead(x, post, k, v);
  }

  lemma WithoutHead(x: Json, post: seq<Json>, k: string, v: Json)
    requires Field(x, k) == Some(v)
    requires forall j | 0 <= j < |post| :: Field(post[j], k) != Some(v)
    ensures Without([x] + post, k, v) == post
  {
    WithoutNothing(post, k, v);
    WithoutAppend([x], post, k, v);
    assert Without([x], k, v) == [];
  }
}
