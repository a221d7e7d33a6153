/** `AbstractLootTarget`: the loot objects collected for a target, an
    append-only list the target owns. */
module LootTargets {
  import opened LootObjects

  class AbstractLootTarget {
    var lootObjects: seq<Entry>

    constructor ()
      ensures lootObjects == []
    {
      lootObjects := [];
    }

    /** `add(lootObjects)`: every given object is appended, in the given
        order, behind the ones already held, which stay where they are. */
    method Add(objects: seq<Entry>)
      modifies this`lootObjects
      ensures lootObjects == old(lootObjects) + objects
      ensures |lootObjects| == |old(lootObjects)| + |objects|
      ensures lootObjects[..|old(lootObjects)|] == old(lootObjects)
      ensures objects == [] ==> lootObjects == old(lootObjects)
    {
      lootObjects := lootObjects + objects;
    }

    /** `lootObjects()`: the owned list itself, so every earlier `add`
        shows in it. */
    function LootObjects(): seq<Entry>
      reads this
    {
      lootObjects
    }
  }
}
