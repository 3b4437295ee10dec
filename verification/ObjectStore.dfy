/** The device's three commandable objects, filled once and updated in place. */
module ObjectStore {
  import opened Prelude
  import opened Encoding
  import opened Commands

  type Objects = map<ObjectId, Object>

  const OBJECT_IDS: set<ObjectId> :=
    {ObjectId(ANALOG_OUTPUT, 1), ObjectId(ANALOG_VALUE, 1), ObjectId(LIGHTING_OUTPUT, 1)}

  class Store {
    const objects: map<ObjectId, ObjectState>

    /** Each object under its own identifier, and no storage shared. */
    ghost predicate Valid()
    {
      && objects.Keys == OBJECT_IDS
      && (forall id | id in objects :: objects[id].Valid() && objects[id].id == id)
      && (forall i, j | i in objects && j in objects && i != j ::
            objects[i] != objects[j] && objects[i].priorityArray != objects[j].priorityArray)
    }

    ghost function Footprint(): set<object>
    {
      (set o: ObjectState | o in objects.Values :: o as object)
      + (set o: ObjectState | o in objects.Values :: o.priorityArray as object)
    }

    ghost function View(): Objects
      requires Valid()
      reads Footprint()
    {
      map id | id in objects :: objects[id].View()
    }

    constructor ()
      ensures Valid() && fresh(Footprint())
      ensures View() == map id | id in OBJECT_IDS :: MakeObject(id)
    {
      var ao := new ObjectState(ObjectId(ANALOG_OUTPUT, 1));
      var av := new ObjectState(ObjectId(ANALOG_VALUE, 1));
      var lo := new ObjectState(ObjectId(LIGHTING_OUTPUT, 1));
      objects := map[ao.id := ao, av.id := av, lo.id := lo];
    }

    method Change(id: ObjectId, change: Change)
      requires Valid() && id in objects
      modifies objects[id], objects[id].priorityArray
      ensures View() == old(View())[id := Changed(old(View())[id], change)]
    {
      var state := objects[id];
      state.Apply(change);
      assert forall other | other in objects && other != id :: objects[other].View() == old(objects[other].View());
    }
  }
}
