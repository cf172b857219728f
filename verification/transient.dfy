/**
 * Transient storage (in the spirit of EIP-1153): the same key-to-value map
 * as persistent storage, with no warm-key list and a `clear` that empties it.
 */
module Transients {
  import opened Words

  class Transient {
    var data: map<I32, seq<Word>>

    constructor ()
      ensures data == map[]
    {
      data := map[];
    }

    /**
     * Reads `key`: a present key reads as warm with its value, an absent key
     * as cold with `[0]`. Nothing changes.
     */
    method Load(key: I32) returns (warm: bool, value: seq<Word>)
      ensures warm <==> key in data
      ensures value == if key in data then data[key] else [0]
    {
      if key in data {
        return true, data[key];
      }
      return false, [0];
    }

    /** Inserts or overwrites `key`. */
    method Store(key: I32, value: seq<Word>)
      modifies this
      ensures data == old(data)[key := value]
    {
      data := data[key := value];
    }

    /** Forgets every key. */
    method Clear()
      modifies this
      ensures data == map[]
    {
      data := map[];
    }
  }

  /**
   * On a fresh transient storage: a stored value reads back, another key
   * still reads [0], and after `clear` the stored key reads [0] again.
   */
  method StoreLoadClear(key: I32, other: I32, value: seq<Word>)
    returns (stored: seq<Word>, untouched: seq<Word>, cleared: seq<Word>)
    requires key != other
    ensures stored == value && untouched == [0] && cleared == [0]
  {
    var t := new Transient();
    t.Store(key, value);
    var _, v1 := t.Load(key);
    var _, v2 := t.Load(other);
    t.Clear();
    var _, v3 := t.Load(key);
    stored, untouched, cleared := v1, v2, v3;
  }
}
