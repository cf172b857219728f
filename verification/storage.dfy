/**
 * Persistent storage: a key-to-value map and the list of keys already
 * accessed in this run (the warm keys, after EIP-2929's cold/warm pricing).
 * Keys are i32; a value is a vector of u32 limbs.
 */
module Storages {
  import opened Words

  predicate NoDuplicates<T(==)>(s: seq<T>)
  {
    forall i, j :: 0 <= i < j < |s| ==> s[i] != s[j]
  }

  class Storage {
    var data: map<I32, seq<U32>>
    /** The warm keys, in order of first access. */
    var cache: seq<I32>

    ghost predicate Valid()
      reads this
    {
      NoDuplicates(cache)
    }

    constructor ()
      ensures Valid() && data == map[] && cache == []
    {
      data := map[];
      cache := [];
    }

    /**
     * Reads `key`, returning whether the access was warm and the value
     * (`[0]` for an absent key), and marks the key warm. A key that is warm
     * but absent still reads as cold.
     */
    method Load(key: I32) returns (warm: bool, value: seq<U32>)
      requires Valid()
      modifies this`cache
      ensures Valid()
      ensures cache == if key in old(cache) then old(cache) else old(cache) + [key]
      ensures warm <==> key in old(cache) && key in data
      ensures value == if key in data then data[key] else [0]
    {
      var warmAccess := key in cache;
      if !warmAccess {
        cache := cache + [key];
      }
      if key in data {
        return warmAccess, data[key];
      }
      return false, [0];
    }

    /** Inserts or overwrites `key`; the warm keys are not touched. */
    method Store(key: I32, value: seq<U32>)
      modifies this`data
      ensures data == old(data)[key := value]
    {
      data := data[key := value];
    }
  }

  /**
   * On a fresh storage: the first load of a key is cold and reads [0]; after
   * storing `value`, a second load is warm and reads `value`.
   */
  method StoreThenLoad(key: I32, value: seq<U32>)
    returns (firstWarm: bool, first: seq<U32>, secondWarm: bool, second: seq<U32>)
    ensures !firstWarm && first == [0]
    ensures secondWarm && second == value
  {
    var s := new Storage();
    firstWarm, first := s.Load(key);
    s.Store(key, value);
    secondWarm, second := s.Load(key);
  }
}
