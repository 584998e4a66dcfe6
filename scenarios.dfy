/**
 * Whole calls on the object manager, composed: hiding and then unhiding a list of
 * objects, and what UnhideAllMapObjects does to a manager holding two hidden objects.
 */
module Scenarios {
  import opened Engine
  import opened CommunityFramework

  /**
   * Hiding a list of objects none of which is registered, and then unhiding the list
   * HideMapObjects returned, unhides exactly the objects hidden, gives every object
   * its position, flags and event mask back, leaves the manager's collections as they
   * were, and asks twice for the same path-graph updates.
   */
  method HideThenUnhide(manager: ObjectManager, world: World, objects: seq<WorldObject?>, updatePathGraph: bool)
    returns (hidden: seq<WorldObject>, unhidden: seq<WorldObject>)
    requires manager.Valid()
    requires forall o: WorldObject :: o in objects ==> o in world.states
    requires forall o: WorldObject :: o in objects ==> !manager.IsObjectRegistered(o)
    modifies manager, world
    ensures manager.Valid()
    ensures unhidden == hidden
    ensures forall o :: o in hidden ==> o in objects && o in old(world.states)
    ensures world.states == old(world.states)
    ensures manager.registered == old(manager.registered)
    ensures manager.registeredArray == old(manager.registeredArray)
    ensures manager.pathgraphRequests ==
      old(manager.pathgraphRequests) + HideRequests(hidden, old(world.states), updatePathGraph) + HideRequests(hidden, old(world.states), updatePathGraph)
  {
    ghost var registered0 := manager.registered;
    ghost var array0 := manager.registeredArray;
    ghost var states0 := world.states;
    ghost var hidden0 := manager.HiddenSet();
    hidden := manager.HideMapObjects(objects, world, updatePathGraph);
    ghost var states1 := world.states;
    ghost var array1 := manager.registeredArray;
    ghost var log1 := manager.pathgraphRequests;
    HideSelectionSpec(objects, hidden0);
    forall o | o in hidden
      ensures o in manager.HiddenSet() && o in states0 && o in world.states
    {
      HideAllHidden(registered0, hidden, states0, o);
    }
    ghost var hidden1 := manager.HiddenSet();
    unhidden := manager.UnhideMapObjects(hidden, world, updatePathGraph);
    UnhideSelectionOfHidden(hidden, hidden1);
    HideThenUnhideStates(registered0, hidden, states0);
    HideAllThenRemove(registered0, hidden, states0);
    UnhideRequestsOfLowered(hidden, states0, states1, updatePathGraph);
    NewlyRegisteredSpec(hidden, registered0);
    assert array1 == array0 + NewlyRegistered(hidden, registered0);
    forall o | o in hidden
      ensures o !in array0
    {
      assert o !in registered0;
    }
    RemovedAppended(array0, NewlyRegistered(hidden, registered0), hidden);
  }

  /**
   * Unregistering the first of three registered objects moves the last one into its
   * place: the array `[a, b, c]` becomes `[c, b]`.
   */
  lemma UnregisterFirstOfThree(a: WorldObject, b: WorldObject, c: WorldObject)
    requires a != b && a != c && b != c
    ensures Removed([a, b, c], a) == [c, b]
  {
    IndexOfFirst([a, b, c], a, 0);
  }

  /** Hiding two distinct map objects on an empty manager registers and hides both. */
  lemma HideTwo(a: WorldObject, b: WorldObject, states: map<WorldObject, ObjectState>)
    requires a != b && a in states && b in states
    requires IsMapObject(a) && IsMapObject(b)
    ensures HideSelection([a, b], {}) == [a, b]
    ensures HideAll(map[], [a, b], states).Keys == {a, b}
    ensures HiddenIn(HideAll(map[], [a, b], states)) == {a, b}
  {
    HideSelectionStep([], a, {});
    HideSelectionStep([a], b, {});
    assert [] + [a] == [a] && [a] + [b] == [a, b];
    HideStep(map[], [], states, a, false);
    HideStep(map[], [a], states, b, false);
  }

  /** HideMapObjects on two distinct map objects and an empty manager hides both. */
  method HideBoth(manager: ObjectManager, world: World, a: WorldObject, b: WorldObject, updatePathGraph: bool)
    requires manager.Valid() && manager.registered == map[]
    requires a != b && a in world.states && b in world.states
    requires IsMapObject(a) && IsMapObject(b)
    modifies manager, world
    ensures manager.Valid()
    ensures manager.registered.Keys == {a, b} && manager.HiddenSet() == {a, b}
    ensures world.states.Keys == old(world.states.Keys)
  {
    HideTwo(a, b, world.states);
    assert manager.HiddenSet() == {};
    var hidden := manager.HideMapObjects([a, b], world, updatePathGraph);
  }

  /**
   * UnhideAllMapObjects after hiding two map objects on an empty manager unhides one
   * of them and leaves the other hidden, where it should have unhidden both.
   */
  method UnhideAllLeavesOneOfTwo(manager: ObjectManager, world: World, a: WorldObject, b: WorldObject, updatePathGraph: bool)
    returns (unhidden: seq<WorldObject>, stillHidden: seq<WorldObject>)
    requires manager.Valid() && manager.registered == map[]
    requires a != b && a in world.states && b in world.states
    requires IsMapObject(a) && IsMapObject(b)
    modifies manager, world
    ensures |unhidden| == 1
    ensures stillHidden != []
  {
    HideBoth(manager, world, a, b, updatePathGraph);
    assert |manager.registered| == |{a, b}| == 2;
    ghost var hidden1 := manager.HiddenSet();
    ghost var visited;
    unhidden, visited := manager.UnhideAllMapObjects(world, updatePathGraph);
    assert |visited| == 1;
    UnhideSelectionOfHidden(visited, hidden1);
    assert |manager.registered.Keys| == 1;
    ghost var left :| left in manager.registered.Keys;
    stillHidden := manager.GetHiddenMapObjects();
    assert left in manager.HiddenSet();
  }

  /**
   * The corrected UnhideAllHiddenMapObjects in the same situation unhides both objects
   * and leaves none hidden.
   */
  method UnhideAllHiddenUnhidesBoth(manager: ObjectManager, world: World, a: WorldObject, b: WorldObject, updatePathGraph: bool)
    returns (unhidden: seq<WorldObject>, stillHidden: seq<WorldObject>)
    requires manager.Valid() && manager.registered == map[]
    requires a != b && a in world.states && b in world.states
    requires IsMapObject(a) && IsMapObject(b)
    modifies manager, world
    ensures |unhidden| == 2
    ensures stillHidden == []
  {
    HideBoth(manager, world, a, b, updatePathGraph);
    TwoListed(manager.registeredArray, manager.registered, a, b);
    unhidden := manager.UnhideAllHiddenMapObjects(world, updatePathGraph);
    stillHidden := manager.GetHiddenMapObjects();
    DistinctBound(stillHidden, manager.HiddenSet());
  }

  /** With exactly two objects hidden, walking the array lists two objects. */
  lemma TwoListed(order: seq<WorldObject>, m: map<WorldObject, ObjectLink>, a: WorldObject, b: WorldObject)
    requires Consistent(m, order)
    requires a != b && HiddenIn(m) == {a, b}
    ensures |HiddenObjectsOf(order, m)| == 2
  {
    HiddenObjectsDistinct(order, m);
    var listed := HiddenObjectsOf(order, m);
    forall o
      ensures o in listed <==> o == a || o == b
    {
      HiddenObjectsMembership(order, m, o);
      assert o in HiddenIn(m) <==> o in m && m[o].hidden;
    }
    DistinctPair(listed, a, b);
  }

  /** A list without repetitions holding exactly two distinct objects has length two. */
  lemma DistinctPair(s: seq<WorldObject>, a: WorldObject, b: WorldObject)
    requires a != b && Distinct(s)
    requires forall o :: o in s <==> o == a || o == b
    ensures |s| == 2
  {
    DistinctBound(s, {a, b});
    assert a in s && b in s;
    var i :| 0 <= i < |s| && s[i] == a;
    var j :| 0 <= j < |s| && s[j] == b;
    assert i != j;
  }
}
