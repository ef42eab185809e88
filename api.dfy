/**
 * The simulated write endpoints of the API helper. `post` and `put` do not
 * touch the network: they treat the URL as a store key holding an array of
 * records, as a stand-in for a backend.
 */
module Api {
  import opened Wrappers
  import opened Records
  import opened KeyValueStore

  const NotFound: string := "Item not found"

  /** The record `post(url, data)` stores: the caller's properties with `id` from the clock. */
  function Posted(data: Json, now: int): (r: Json)
    ensures r.Obj?
    ensures Field(r, "id") == Some(Num(now))
    ensures forall f :: f != "id" ==> Field(r, f) == Field(data, f)
  {
    Obj(Spread(data)["id" := Num(now)])
  }

  /** `{...existing, ...data}`: a shallow merge in which the supplied properties win. */
  function Merged(existing: Json, data: Json): (r: Json)
    ensures r.Obj?
    ensures forall f :: Field(r, f) == (if Field(data, f).Some? then Field(data, f) else Field(existing, f))
  {
    Obj(Spread(existing) + Spread(data))
  }

  /** Merging the same properties twice is the same as merging them once. */
  lemma MergeIdempotent(existing: Json, data: Json)
    ensures Merged(Merged(existing, data), data) == Merged(existing, data)
  {
    var once := Merged(existing, data);
    assert Spread(once) + Spread(data) == Spread(once);
  }

  /**
   * A `put` rewrites the record at the position of the first matching id and
   * that record keeps the id, so a second `put` with the same id finds the
   * same record again.
   */
  lemma PutFindsSameRecord(xs: seq<Json>, data: Json)
    requires FindIndex(xs, "id", Field(data, "id")) >= 0
    ensures var k := FindIndex(xs, "id", Field(data, "id"));
      FindIndex(xs[k := Merged(xs[k], data)], "id", Field(data, "id")) == k
  {
    var k := FindIndex(xs, "id", Field(data, "id"));
    var ys := xs[k := Merged(xs[k], data)];
    FindIndexPrefix(xs, ys, k, Field(data, "id"));
  }

  /** FindIndex only looks at the prefix up to the first match. */
  lemma {:induction false} FindIndexPrefix(xs: seq<Json>, ys: seq<Json>, k: int, v: Option<Json>)
    requires 0 <= k < |xs| == |ys|
    requires forall j | 0 <= j < k :: ys[j] == xs[j]
    requires FindIndex(xs, "id", v) == k && Field(ys[k], "id") == v
    ensures FindIndex(ys, "id", v) == k
  {
    if k > 0 {
      FindIndexPrefix(xs[1..], ys[1..], k - 1, v);
    }
  }

  /** `post(url, data)`: append exactly one record carrying the clock id, and return it. */
  method Post(s: Store, url: string, data: Json, now: int) returns (newData: Json)
    modifies s
    ensures newData == Posted(data, now)
    ensures s.Read(url) == old(s.Read(url)) + [newData]
    ensures s.data == old(s.data)[url := s.Read(url)]
  {
    var existing := s.Read(url);
    newData := Posted(data, now);
    existing := existing + [newData];
    s.Write(url, existing);
  }

  /**
   * `put(url, data)`: merge data into the first record whose id is `data.id`
   * and return the merged record; with no such record, fail with
   * "Item not found" and write nothing.
   */
  method Put(s: Store, url: string, data: Json) returns (result: Result<Json, string>)
    modifies s
    ensures var k := FindIndex(old(s.Read(url)), "id", Field(data, "id"));
      k < 0 ==> result == Failure(NotFound) && s.data == old(s.data)
    ensures var k := FindIndex(old(s.Read(url)), "id", Field(data, "id"));
      k >= 0 ==>
        && result == Success(Merged(old(s.Read(url))[k], data))
        && s.Read(url) == old(s.Read(url))[k := result.value]
        && s.data == old(s.data)[url := s.Read(url)]
  {
    var existing := s.Read(url);
    var index := FindIndex(existing, "id", Field(data, "id"));
    if index != -1 {
      existing := existing[index := Merged(existing[index], data)];
      s.Write(url, existing);
      return Success(existing[index]);
    }
    return Failure(NotFound);
  }
}
