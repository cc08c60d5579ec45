/** The browser's `localStorage`: a flat map from key to text, updated in place. */
module Storage {
  import opened Wrappers
  import opened JsonModel

  /** `localStorage.getItem(key)` on a snapshot of the cells: `null` when the key is absent. */
  function Lookup(items: map<string, Item>, key: string): Option<Item> {
    if key in items then Some(items[key]) else None
  }

  /** Two snapshots that answer every `getItem` alike are the same snapshot. */
  lemma LookupExtensional(a: map<string, Item>, b: map<string, Item>)
    requires forall k :: Lookup(a, k) == Lookup(b, k)
    ensures a == b
  {
    assert forall k :: k in a <==> Lookup(a, k).Some?;
    assert forall k :: k in b <==> Lookup(b, k).Some?;
  }

  class LocalStorage {
    var items: map<string, Item>

    constructor ()
      ensures items == map[]
    {
      items := map[];
    }

    function GetItem(key: string): Option<Item>
      reads this
    {
      Lookup(items, key)
    }

    method SetItem(key: string, value: Item)
      modifies this
      ensures items == old(items)[key := value]
    {
      items := items[key := value];
    }

    method RemoveItem(key: string)
      modifies this
      ensures items == old(items) - {key}
    {
      items := items - {key};
    }
  }
}
