/**
 * The browser's local key-value store as the managers use it: every key the
 * application writes holds a JSON array, and a key that was never written
 * (or was removed) reads as the empty array, which is what
 * `JSON.parse(localStorage.getItem(key) || '[]')` gives.
 */
module KeyValueStore {
  import opened Records

  class Store {
    var data: map<string, seq<Json>>

    constructor ()
      ensures data == map[]
    {
      data := map[];
    }

    /** The array stored under key, or the empty array when the key is missing. */
    function Read(key: string): seq<Json>
      reads this
    {
      if key in data then data[key] else []
    }

    /** `localStorage.setItem(key, JSON.stringify(v))`: replaces the whole array under key. */
    method Write(key: string, v: seq<Json>)
      modifies this
      ensures data == old(data)[key := v]
      ensures Read(key) == v
      ensures forall k :: k != key ==> Read(k) == old(Read(k))
    {
      data := data[key := v];
    }

    /** `localStorage.removeItem(key)`: the key is gone and reads as the empty array. */
    method Delete(key: string)
      modifies this
      ensures data == old(data) - {key}
      ensures Read(key) == []
      ensures forall k :: k != key ==> Read(k) == old(Read(k))
    {
      data := data - {key};
    }
  }
}
