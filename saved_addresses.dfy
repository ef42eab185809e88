/**
 * Saved addresses: an array of address objects under the store key
 * "saved-addresses". Adding appends a copy stamped with an id and a creation
 * time; removing filters an id out.
 */
module SavedAddresses {
  import opened Wrappers
  import opened Records
  import opened KeyValueStore

  const Key: string := "saved-addresses"

  /** `SavedAddresses.get()` */
  function Get(s: Store): seq<Json>
    reads s
  {
    s.Read(Key)
  }

  /** The object `add(address)` builds: the caller's properties, then `id` and `createdAt`. */
  function Stamped(address: Json, now: int, createdAt: string): (r: Json)
    ensures r.Obj?
    ensures Field(r, "id") == Some(Num(now))
    ensures Field(r, "createdAt") == Some(Str(createdAt))
    ensures forall f :: f != "id" && f != "createdAt" ==> Field(r, f) == Field(address, f)
  {
    Obj(Spread(address)["id" := Num(now)]["createdAt" := Str(createdAt)])
  }

  /** `add(address)`: append exactly one stamped record and return it. */
  method Add(s: Store, address: Json, now: int, createdAt: string) returns (newAddress: Json)
    modifies s
    ensures newAddress == Stamped(address, now, createdAt)
    ensures Get(s) == old(Get(s)) + [newAddress]
    ensures s.data == old(s.data)[Key := Get(s)]
  {
    var addresses := Get(s);
    newAddress := Stamped(address, now, createdAt);
    addresses := addresses + [newAddress];
    s.Write(Key, addresses);
  }

  /** `remove(addressId)`: keep exactly the addresses with another id, in their order. */
  method Remove(s: Store, addressId: Json) returns (filtered: seq<Json>)
    modifies s
    ensures filtered == Without(old(Get(s)), "id", addressId)
    ensures forall a :: a in filtered <==> a in old(Get(s)) && Field(a, "id") != Some(addressId)
    ensures s.data == old(s.data)[Key := filtered]
  {
    var addresses := Get(s);
    filtered := Without(addresses, "id", addressId);
    WithoutMembers(addresses, "id", addressId);
    s.Write(Key, filtered);
  }
}
