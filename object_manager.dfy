/**
 * The registry of CF_ObjectManager: which world objects are registered, the state
 * captured for each of them when it was registered, and which of them are hidden.
 * A hidden object is not destroyed: its flags and event mask are cleared and it is
 * parked 10000 units lower on every axis, and unhiding it reverses exactly that.
 */
module CommunityFramework {
  import opened Engine

  /** How far a hidden object is moved on each axis. */
  const HideObjectAxisOffset: int := 10000

  /** Where unhiding puts an object back: every axis moved up by the offset. */
  function Raised(p: Vec): Vec
  {
    Shift(p, HideObjectAxisOffset)
  }

  /** Where hiding puts an object; raising it again gives the original position back. */
  function Lowered(p: Vec): (r: Vec)
    ensures Raised(r) == p
    ensures r != p
  {
    Shift(p, -HideObjectAxisOffset)
  }

  /** The region of a path-graph update: the box of half-width `radius` centred on `center`. */
  function PaddedRegion(center: Vec, radius: nat): (r: Region)
    ensures Shift(r.lo, radius) == center && Shift(r.hi, -(radius as int)) == center
  {
    Region(Shift(center, -(radius as int)), Shift(center, radius))
  }

  /**
   * The path-graph update one hide or unhide of `o` at position `at` requests: none
   * unless the caller asked for updates and the object can affect the path graph.
   */
  function PathgraphRequest(o: WorldObject, at: Vec, updatePathGraph: bool): (r: seq<Region>)
    ensures |r| <= 1
    ensures r != [] <==> updatePathGraph && o.affectsPathgraph
    ensures r != [] ==> r[0] == PaddedRegion(at, o.clippingRadius)
  {
    if updatePathGraph && o.affectsPathgraph then [PaddedRegion(at, o.clippingRadius)] else []
  }

  /**
   * IsMapObject: a non-null object that is baked map geometry, that is, placed in the
   * map without a config class (empty config type and script type exactly `Object`),
   * or a kind of "House", a tree or a bush.
   */
  function IsMapObject(obj: WorldObject?): (r: bool)
    ensures r ==> obj != null
    ensures obj != null && (obj.house || obj.tree || obj.bush) ==> r
    ensures obj != null && !obj.house && !obj.tree && !obj.bush ==> (r <==> obj.configType == "" && obj.plainObject)
  {
    if obj == null then false
    else (obj.configType == "" && obj.plainObject) || obj.house || obj.tree || obj.bush
  }

  /** The non-null objects of an input list. */
  function NonNull(objects: seq<WorldObject?>): set<WorldObject>
  {
    set o: WorldObject | o in objects
  }

  /** No element occurs twice. */
  ghost predicate Distinct<T>(s: seq<T>)
  {
    forall i, j :: 0 <= i < j < |s| ==> s[i] != s[j]
  }

  /** Storing twice under the same key keeps the second value only. */
  lemma UpdateTwice<K, V>(m: map<K, V>, k: K, v: V, w: V)
    ensures m[k := v][k := w] == m[k := w]
  {
  }

  /** Appending an element that is not there yet keeps a list free of repetitions. */
  lemma DistinctAppend<T>(s: seq<T>, x: T)
    requires Distinct(s) && x !in s
    ensures Distinct(s + [x])
  {
  }

  /** A list without repetitions drawn from a set is no longer than the set is large. */
  lemma {:induction false} DistinctBound(s: seq<WorldObject>, elements: set<WorldObject>)
    requires Distinct(s)
    requires forall o :: o in s ==> o in elements
    ensures |s| <= |elements|
  {
    if s != [] {
      var last := s[|s| - 1];
      var init := s[..|s| - 1];
      assert s == init + [last];
      assert last !in init;
      DistinctBound(init, elements - {last});
    }
  }

  lemma AppendAssoc<T>(a: seq<T>, b: seq<T>, c: seq<T>)
    ensures a + b + c == a + (b + c)
  {
  }

  //
  // Which inputs a batch call hides or unhides. Each single-object call succeeds or
  // fails on the state left by the calls before it: an input repeated later in the
  // list is skipped the second time.
  //

  /**
   * The objects HideMapObjects returns for `objects` when `hidden` is the set of hidden
   * objects beforehand: a map object not hidden beforehand and not hidden earlier in the
   * batch is hidden and kept; anything else (null, not a map object, already hidden) is
   * skipped.
   */
  function HideSelection(objects: seq<WorldObject?>, hidden: set<WorldObject>): (r: seq<WorldObject>)
    ensures |r| <= |objects|
    ensures forall o :: o in r ==> o in objects
  {
    if objects == [] then []
    else
      var previous := HideSelection(objects[..|objects| - 1], hidden);
      var o := objects[|objects| - 1];
      if IsMapObject(o) && o !in hidden && o !in previous then previous + [o] else previous
  }

  /**
   * The objects UnhideMapObjects returns for `objects` when `hidden` is the set of
   * hidden objects beforehand: a hidden object not unhidden earlier in the batch is
   * unhidden and kept; anything else is skipped.
   */
  function UnhideSelection(objects: seq<WorldObject?>, hidden: set<WorldObject>): (r: seq<WorldObject>)
    ensures |r| <= |objects|
    ensures forall o :: o in r ==> o in objects
  {
    if objects == [] then []
    else
      var previous := UnhideSelection(objects[..|objects| - 1], hidden);
      var o := objects[|objects| - 1];
      if o != null && o in hidden && o !in previous then previous + [o] else previous
  }

  /** A batch hide hides each map object of the list that was not hidden yet, once. */
  lemma {:induction false} HideSelectionSpec(objects: seq<WorldObject?>, hidden: set<WorldObject>)
    ensures forall o :: o in HideSelection(objects, hidden) <==> o in objects && IsMapObject(o) && o !in hidden
    ensures Distinct(HideSelection(objects, hidden))
  {
    if objects != [] {
      var init := objects[..|objects| - 1];
      HideSelectionSpec(init, hidden);
      assert objects == init + [objects[|objects| - 1]];
    }
  }

  /** A batch unhide unhides each hidden object of the list, once. */
  lemma {:induction false} UnhideSelectionSpec(objects: seq<WorldObject?>, hidden: set<WorldObject>)
    ensures forall o :: o in UnhideSelection(objects, hidden) <==> o in objects && o in hidden
    ensures Distinct(UnhideSelection(objects, hidden))
  {
    if objects != [] {
      var init := objects[..|objects| - 1];
      UnhideSelectionSpec(init, hidden);
      assert objects == init + [objects[|objects| - 1]];
    }
  }

  /** One step of a batch hide over a list of inputs: the outcome for `objects + [o]`. */
  lemma HideSelectionStep(objects: seq<WorldObject?>, o: WorldObject?, hidden: set<WorldObject>)
    ensures HideSelection(objects + [o], hidden) ==
      var previous := HideSelection(objects, hidden);
      if IsMapObject(o) && o !in hidden && o !in previous then previous + [o] else previous
  {
    assert (objects + [o])[..|objects|] == objects;
  }

  /** One step of a batch unhide over a list of inputs: the outcome for `objects + [o]`. */
  lemma UnhideSelectionStep(objects: seq<WorldObject?>, o: WorldObject?, hidden: set<WorldObject>)
    ensures UnhideSelection(objects + [o], hidden) ==
      var previous := UnhideSelection(objects, hidden);
      if o != null && o in hidden && o !in previous then previous + [o] else previous
  {
    assert (objects + [o])[..|objects|] == objects;
  }

  /** Unhiding a list of distinct hidden objects unhides all of them, in list order. */
  lemma {:induction false} UnhideSelectionOfHidden(objects: seq<WorldObject>, hidden: set<WorldObject>)
    requires Distinct(objects)
    requires forall o :: o in objects ==> o in hidden
    ensures UnhideSelection(objects, hidden) == objects
  {
    if objects != [] {
      var init := objects[..|objects| - 1];
      var o := objects[|objects| - 1];
      assert Distinct(init);
      UnhideSelectionOfHidden(init, hidden);
      assert o !in init;
      assert init + [o] == objects;
    }
  }

  //
  // The registry as values. The source keeps one link record per registered object and
  // refers to it from both a map (object to link) and an array of links; the only field
  // changed after creation, `hidden`, is changed through that shared reference and so
  // is seen from both. Here the record is kept once, as the map's value, and the array
  // lists the registered objects: element i of the source's array is the link
  // registered[registeredArray[i]]. Registering appends; unregistering moves the last
  // element into the gap, so the array is not in registration order.
  //

  /**
   * CF_ObjectManager_ObjectLink: the flags and event mask the object had when it was
   * registered, and whether the manager has hidden it. The object the link points to
   * is the key it is stored under.
   */
  datatype ObjectLink = ObjectLink(flags: Bits, eventMask: Bits, hidden: bool)

  datatype Option<T> = None | Some(value: T)

  /** The map and the array describe the same registrations, each object once. */
  ghost predicate Consistent(m: map<WorldObject, ObjectLink>, a: seq<WorldObject>)
  {
    && (forall i :: 0 <= i < |a| ==> a[i] in m)
    && (forall o :: o in m ==> o in a)
    && Distinct(a)
  }

  /** Appending a new object to the array and mapping it keeps the two consistent. */
  lemma ConsistentAppend(m: map<WorldObject, ObjectLink>, a: seq<WorldObject>, o: WorldObject, link: ObjectLink)
    requires Consistent(m, a) && o !in m
    ensures Consistent(m[o := link], a + [o])
  {
    assert o !in a;
  }

  /** Removing an object from the map, and its link from the array, keeps the two consistent. */
  lemma ConsistentRemove(m: map<WorldObject, ObjectLink>, a: seq<WorldObject>, obj: WorldObject?)
    requires Consistent(m, a)
    ensures Consistent(m - {obj}, Removed(a, obj))
  {
    RemovedSpec(a, obj);
  }

  /** The number of registrations is the length of the array. */
  lemma {:induction false} ConsistentCount(m: map<WorldObject, ObjectLink>, a: seq<WorldObject>)
    requires Consistent(m, a)
    ensures |m| == |a|
    decreases |a|
  {
    if a == [] {
      assert m.Keys == {};
    } else {
      ConsistentRemove(m, a, a[0]);
      ConsistentCount(m - {a[0]}, Removed(a, a[0]));
    }
  }

  /** The objects whose link is marked hidden. */
  ghost function HiddenIn(m: map<WorldObject, ObjectLink>): set<WorldObject>
  {
    set o | o in m && m[o].hidden
  }

  /** Dropping registrations drops those objects from the hidden ones and nothing else. */
  lemma HiddenInRemove(m: map<WorldObject, ObjectLink>, gone: set<WorldObject?>)
    ensures HiddenIn(m - gone) == HiddenIn(m) - gone
  {
  }

  /** Storing a link adds the object to the hidden ones or drops it from them, as the link says. */
  lemma HiddenInUpdate(m: map<WorldObject, ObjectLink>, obj: WorldObject, link: ObjectLink)
    ensures HiddenIn(m[obj := link]) == if link.hidden then HiddenIn(m) + {obj} else HiddenIn(m) - {obj}
  {
  }

  /** Removing a registration takes one off the count. */
  lemma RemoveCount(m: map<WorldObject, ObjectLink>, o: WorldObject)
    requires o in m
    ensures |m - {o}| == |m| - 1
  {
    assert (m - {o}).Keys == m.Keys - {o};
  }

  //
  // What hiding and unhiding do to one object.
  //

  /** The link RegisterObject creates: the object's current flags and event mask, not hidden. */
  function Captured(s: ObjectState): (r: ObjectLink)
    ensures !r.hidden
    ensures r.flags <= s.flags && r.eventMask <= s.eventMask
  {
    ObjectLink(s.flags, s.eventMask, false)
  }

  /** The link of a hidden object: its existing registration, or one capturing `s`, marked hidden. */
  function HiddenLink(m: map<WorldObject, ObjectLink>, o: WorldObject, s: ObjectState): ObjectLink
  {
    (if o in m then m[o] else Captured(s)).(hidden := true)
  }

  /** A hidden object: the link's flags and event mask cleared, moved down by the offset. */
  function HiddenState(s: ObjectState, link: ObjectLink): (r: ObjectState)
    ensures Raised(r.pos) == s.pos
    ensures r.flags <= s.flags && r.flags !! link.flags
    ensures r.eventMask <= s.eventMask && r.eventMask !! link.eventMask
  {
    ObjectState(Lowered(s.pos), ClearBits(s.flags, link.flags), ClearBits(s.eventMask, link.eventMask))
  }

  /** An unhidden object: moved up by the offset, the link's flags and event mask set again. */
  function RestoredState(s: ObjectState, link: ObjectLink): (r: ObjectState)
    ensures Lowered(r.pos) == s.pos
    ensures s.flags <= r.flags && link.flags <= r.flags
    ensures s.eventMask <= r.eventMask && link.eventMask <= r.eventMask
  {
    ObjectState(Raised(s.pos), SetBits(s.flags, link.flags), SetBits(s.eventMask, link.eventMask))
  }

  /**
   * Unhiding with the link hiding captured gives back the object's state before it was
   * hidden: its position, flags and event mask.
   */
  lemma HideRestoreRoundTrip(s: ObjectState)
    ensures RestoredState(HiddenState(s, Captured(s)), Captured(s)) == s
  {
    RestoreCapturedBits(s.flags, s.flags);
    RestoreCapturedBits(s.eventMask, s.eventMask);
  }

  /**
   * More generally, unhiding restores the state whenever every flag and event bit of
   * the link was still on when the object was hidden.
   */
  lemma HideRestoreWithLink(s: ObjectState, link: ObjectLink)
    requires link.flags <= s.flags && link.eventMask <= s.eventMask
    ensures RestoredState(HiddenState(s, link), link) == s
  {
    RestoreCapturedBits(s.flags, link.flags);
    RestoreCapturedBits(s.eventMask, link.eventMask);
  }

  //
  // The effect of a batch hide, as functions of the state before it: `m` is the map
  // and `states` the objects' states before the batch, `objects` the objects hidden.
  //

  /** The map after HideMapObject registered `o` (whose state was `s`) and marked it hidden. */
  function MarkHidden(m: map<WorldObject, ObjectLink>, o: WorldObject, s: ObjectState): map<WorldObject, ObjectLink>
  {
    m[o := HiddenLink(m, o, s)]
  }

  /** The map after `objects` were hidden in order. */
  function HideAll(m: map<WorldObject, ObjectLink>, objects: seq<WorldObject>, states: map<WorldObject, ObjectState>): map<WorldObject, ObjectLink>
    requires forall o :: o in objects ==> o in states
  {
    if objects == [] then m
    else
      var last := objects[|objects| - 1];
      MarkHidden(HideAll(m, objects[..|objects| - 1], states), last, states[last])
  }

  /** Hiding registers exactly the hidden objects in addition to the registered ones. */
  lemma {:induction false} HideAllKeys(m: map<WorldObject, ObjectLink>, objects: seq<WorldObject>, states: map<WorldObject, ObjectState>, o: WorldObject)
    requires forall o :: o in objects ==> o in states
    ensures o in HideAll(m, objects, states) <==> o in m || o in objects
  {
    if objects != [] {
      var init := objects[..|objects| - 1];
      HideAllKeys(m, init, states, o);
      assert objects == init + [objects[|objects| - 1]];
    }
  }

  /** After hiding, the hidden objects are the ones hidden before plus the ones just hidden. */
  lemma {:induction false} HideAllHidden(m: map<WorldObject, ObjectLink>, objects: seq<WorldObject>, states: map<WorldObject, ObjectState>, o: WorldObject)
    requires forall o :: o in objects ==> o in states
    ensures o in HiddenIn(HideAll(m, objects, states)) <==> o in HiddenIn(m) || o in objects
  {
    if objects != [] {
      var init := objects[..|objects| - 1];
      var last := objects[|objects| - 1];
      var before := HideAll(m, init, states);
      HideAllHidden(m, init, states, o);
      HiddenInUpdate(before, last, HiddenLink(before, last, states[last]));
      assert objects == init + [last];
    }
  }

  /**
   * The link of an object after hiding: untouched if it was not hidden; if it was, its
   * registered link marked hidden, or when it was not registered the flags and event
   * mask it had before, marked hidden.
   */
  lemma {:induction false} HideAllLink(m: map<WorldObject, ObjectLink>, objects: seq<WorldObject>, states: map<WorldObject, ObjectState>, o: WorldObject)
    requires forall o :: o in objects ==> o in states
    requires o in m || o in objects
    ensures o in HideAll(m, objects, states)
    ensures o !in objects ==> HideAll(m, objects, states)[o] == m[o]
    ensures o in objects ==> HideAll(m, objects, states)[o] == HiddenLink(m, o, states[o])
  {
    HideAllKeys(m, objects, states, o);
    if objects != [] {
      var init := objects[..|objects| - 1];
      var last := objects[|objects| - 1];
      assert objects == init + [last];
      HideAllKeys(m, init, states, o);
      if o != last || o in init || o in m {
        HideAllLink(m, init, states, o);
      }
    }
  }

  /** The objects of `objects` that `m` does not register yet, in order: what hiding appends. */
  function NewlyRegistered(objects: seq<WorldObject>, m: map<WorldObject, ObjectLink>): (r: seq<WorldObject>)
    ensures forall o :: o in r ==> o in objects
  {
    if objects == [] then []
    else
      var last := objects[|objects| - 1];
      NewlyRegistered(objects[..|objects| - 1], m) + (if last in m then [] else [last])
  }

  /** Hiding appends to the array exactly the hidden objects that were not registered. */
  lemma {:induction false} NewlyRegisteredSpec(objects: seq<WorldObject>, m: map<WorldObject, ObjectLink>)
    ensures forall o :: o in NewlyRegistered(objects, m) <==> o in objects && o !in m
  {
    if objects != [] {
      var init := objects[..|objects| - 1];
      NewlyRegisteredSpec(init, m);
      assert objects == init + [objects[|objects| - 1]];
    }
  }

  /** The path-graph updates hiding `objects` requests, each around the object's position before. */
  function HideRequests(objects: seq<WorldObject>, states: map<WorldObject, ObjectState>, updatePathGraph: bool): seq<Region>
    requires forall o :: o in objects ==> o in states
  {
    if objects == [] then []
    else
      var last := objects[|objects| - 1];
      HideRequests(objects[..|objects| - 1], states, updatePathGraph) + PathgraphRequest(last, states[last].pos, updatePathGraph)
  }

  /** The objects' states once `objects` are hidden: the hidden ones changed, the others not. */
  function HiddenStates(m: map<WorldObject, ObjectLink>, objects: seq<WorldObject>, states: map<WorldObject, ObjectState>): map<WorldObject, ObjectState>
  {
    map o | o in states :: if o in objects then HiddenState(states[o], HiddenLink(m, o, states[o])) else states[o]
  }

  /** Hiding one more object extends each fold by that object's step. */
  lemma HideStep(m: map<WorldObject, ObjectLink>, objects: seq<WorldObject>, states: map<WorldObject, ObjectState>, o: WorldObject, updatePathGraph: bool)
    requires forall o :: o in objects ==> o in states
    requires o in states
    ensures HideAll(m, objects + [o], states) == MarkHidden(HideAll(m, objects, states), o, states[o])
    ensures NewlyRegistered(objects + [o], m) == NewlyRegistered(objects, m) + (if o in m then [] else [o])
    ensures HideRequests(objects + [o], states, updatePathGraph) == HideRequests(objects, states, updatePathGraph) + PathgraphRequest(o, states[o].pos, updatePathGraph)
  {
    assert (objects + [o])[..|objects|] == objects;
  }

  /** Hiding one more object changes its own state only. */
  lemma HiddenStatesStep(m: map<WorldObject, ObjectLink>, objects: seq<WorldObject>, states: map<WorldObject, ObjectState>, o: WorldObject)
    requires o in states
    ensures HiddenStates(m, objects + [o], states) == HiddenStates(m, objects, states)[o := HiddenState(states[o], HiddenLink(m, o, states[o]))]
  {
    var after := HiddenStates(m, objects + [o], states);
    var step := HiddenStates(m, objects, states)[o := HiddenState(states[o], HiddenLink(m, o, states[o]))];
    assert after.Keys == step.Keys;
    forall x | x in after
      ensures after[x] == step[x]
    {
      assert x in objects + [o] <==> x in objects || x == o;
    }
  }

  /** Hiding nothing changes no state. */
  lemma HiddenStatesNone(m: map<WorldObject, ObjectLink>, states: map<WorldObject, ObjectState>)
    ensures HiddenStates(m, [], states) == states
  {
  }

  //
  // The effect of a batch unhide, as functions of the state before it.
  //

  /** The map after each of `objects` was unregistered in order. */
  function UnregisterAll(m: map<WorldObject, ObjectLink>, objects: seq<WorldObject?>): map<WorldObject, ObjectLink>
  {
    if objects == [] then m
    else UnregisterAll(m, objects[..|objects| - 1]) - {objects[|objects| - 1]}
  }

  /** Unregistering in order keeps exactly the registrations of the objects not listed, unchanged. */
  lemma {:induction false} UnregisterAllLookup(m: map<WorldObject, ObjectLink>, objects: seq<WorldObject?>, o: WorldObject)
    ensures o in UnregisterAll(m, objects) <==> o in m && o !in objects
    ensures o in UnregisterAll(m, objects) ==> UnregisterAll(m, objects)[o] == m[o]
  {
    if objects != [] {
      var init := objects[..|objects| - 1];
      UnregisterAllLookup(m, init, o);
      assert objects == init + [objects[|objects| - 1]];
    }
  }

  /** Unregistering in order is removing the non-null listed objects from the map. */
  lemma UnregisterAllIs(m: map<WorldObject, ObjectLink>, objects: seq<WorldObject?>)
    ensures UnregisterAll(m, objects) == m - NonNull(objects)
  {
    forall o: WorldObject ensures o in UnregisterAll(m, objects) <==> o in m - NonNull(objects) {
      UnregisterAllLookup(m, objects, o);
    }
    forall o | o in UnregisterAll(m, objects) ensures o in m && UnregisterAll(m, objects)[o] == m[o] {
      UnregisterAllLookup(m, objects, o);
    }
  }

  /** The path-graph updates unhiding `objects` requests, each around the object's restored position. */
  function UnhideRequests(objects: seq<WorldObject>, states: map<WorldObject, ObjectState>, updatePathGraph: bool): seq<Region>
    requires forall o :: o in objects ==> o in states
  {
    if objects == [] then []
    else
      var last := objects[|objects| - 1];
      UnhideRequests(objects[..|objects| - 1], states, updatePathGraph) + PathgraphRequest(last, Raised(states[last].pos), updatePathGraph)
  }

  /** The objects' states once the registered `objects` are unhidden with their links in `m`. */
  function RestoredStates(m: map<WorldObject, ObjectLink>, objects: seq<WorldObject>, states: map<WorldObject, ObjectState>): map<WorldObject, ObjectState>
  {
    map o | o in states :: if o in objects && o in m then RestoredState(states[o], m[o]) else states[o]
  }

  /** Unhiding one more object extends the request log by its request. */
  lemma UnhideStep(objects: seq<WorldObject>, states: map<WorldObject, ObjectState>, o: WorldObject, updatePathGraph: bool)
    requires forall o :: o in objects ==> o in states
    requires o in states
    ensures UnhideRequests(objects + [o], states, updatePathGraph) == UnhideRequests(objects, states, updatePathGraph) + PathgraphRequest(o, Raised(states[o].pos), updatePathGraph)
  {
    assert (objects + [o])[..|objects|] == objects;
  }

  /** Unhiding one more registered object changes its own state only. */
  lemma RestoredStatesStep(m: map<WorldObject, ObjectLink>, objects: seq<WorldObject>, states: map<WorldObject, ObjectState>, o: WorldObject)
    requires o in states && o in m
    ensures RestoredStates(m, objects + [o], states) == RestoredStates(m, objects, states)[o := RestoredState(states[o], m[o])]
  {
    var after := RestoredStates(m, objects + [o], states);
    var step := RestoredStates(m, objects, states)[o := RestoredState(states[o], m[o])];
    assert after.Keys == step.Keys;
    forall x | x in after
      ensures after[x] == step[x]
    {
      assert x in objects + [o] <==> x in objects || x == o;
    }
  }

  /** Unhiding nothing changes no state. */
  lemma RestoredStatesNone(m: map<WorldObject, ObjectLink>, states: map<WorldObject, ObjectState>)
    ensures RestoredStates(m, [], states) == states
  {
  }

  /**
   * Hiding a list of objects and then unhiding the same list, in the same order, gives
   * every object back the state it had before the hide: each link was captured from the
   * object (or, for an object registered earlier, the caller guarantees that its link's
   * bits were still on).
   */
  lemma HideThenUnhideStates(m: map<WorldObject, ObjectLink>, objects: seq<WorldObject>, states: map<WorldObject, ObjectState>)
    requires forall o :: o in objects ==> o in states
    requires forall o :: o in objects && o in m ==> m[o].flags <= states[o].flags && m[o].eventMask <= states[o].eventMask
    ensures RestoredStates(HideAll(m, objects, states), objects, HiddenStates(m, objects, states)) == states
  {
    var hiddenMap := HideAll(m, objects, states);
    var restored := RestoredStates(hiddenMap, objects, HiddenStates(m, objects, states));
    forall o | o in restored
      ensures restored[o] == states[o]
    {
      if o in objects {
        HideAllLink(m, objects, states, o);
        HideRestoreWithLink(states[o], HiddenLink(m, o, states[o]));
      }
    }
  }

  /**
   * The path-graph updates unhiding asks for after a hide are the ones the hide asked
   * for: each object is raised back to where it was hidden from.
   */
  lemma {:induction false} UnhideRequestsOfLowered(objects: seq<WorldObject>, states: map<WorldObject, ObjectState>, lowered: map<WorldObject, ObjectState>, updatePathGraph: bool)
    requires forall o :: o in objects ==> o in states && o in lowered && lowered[o].pos == Lowered(states[o].pos)
    ensures UnhideRequests(objects, lowered, updatePathGraph) == HideRequests(objects, states, updatePathGraph)
  {
    if objects != [] {
      var init := objects[..|objects| - 1];
      assert forall o :: o in init ==> o in objects;
      UnhideRequestsOfLowered(init, states, lowered, updatePathGraph);
    }
  }

  /** Hiding objects that were not registered and then unregistering them gives the map back. */
  lemma HideAllThenRemove(m: map<WorldObject, ObjectLink>, objects: seq<WorldObject>, states: map<WorldObject, ObjectState>)
    requires forall o :: o in objects ==> o in states && o !in m
    ensures HideAll(m, objects, states) - NonNull(objects) == m
  {
    var after := HideAll(m, objects, states) - NonNull(objects);
    forall o: WorldObject
      ensures o in after <==> o in m
    {
      HideAllKeys(m, objects, states, o);
    }
    forall o | o in m
      ensures after[o] == m[o]
    {
      HideAllLink(m, objects, states, o);
    }
  }

  //
  // Walking the array.
  //

  /** The objects of `order` whose link is marked hidden, in array order. */
  function HiddenObjectsOf(order: seq<WorldObject>, m: map<WorldObject, ObjectLink>): (r: seq<WorldObject>)
    requires forall o :: o in order ==> o in m
    ensures |r| <= |order|
    ensures forall o :: o in r ==> o in order && m[o].hidden
  {
    if order == [] then []
    else
      var last := order[|order| - 1];
      HiddenObjectsOf(order[..|order| - 1], m) + (if m[last].hidden then [last] else [])
  }

  /** An object is listed as hidden exactly when it is in the array and its link is hidden. */
  lemma {:induction false} HiddenObjectsMembership(order: seq<WorldObject>, m: map<WorldObject, ObjectLink>, o: WorldObject)
    requires forall o :: o in order ==> o in m
    ensures o in HiddenObjectsOf(order, m) <==> o in order && m[o].hidden
  {
    if order != [] {
      var init := order[..|order| - 1];
      HiddenObjectsMembership(init, m, o);
      assert order == init + [order[|order| - 1]];
    }
  }

  /** No object is listed twice. */
  lemma {:induction false} HiddenObjectsDistinct(order: seq<WorldObject>, m: map<WorldObject, ObjectLink>)
    requires forall o :: o in order ==> o in m
    requires Distinct(order)
    ensures Distinct(HiddenObjectsOf(order, m))
  {
    if order != [] {
      var init := order[..|order| - 1];
      var last := order[|order| - 1];
      HiddenObjectsDistinct(init, m);
      assert last !in init;
      HiddenObjectsMembership(init, m, last);
    }
  }

  /** One more array element: it is listed as hidden after the others exactly when its link is. */
  lemma HiddenObjectsStep(order: seq<WorldObject>, m: map<WorldObject, ObjectLink>, i: nat)
    requires forall o :: o in order ==> o in m
    requires i < |order|
    ensures HiddenObjectsOf(order[..i + 1], m) == HiddenObjectsOf(order[..i], m) + (if m[order[i]].hidden then [order[i]] else [])
  {
    assert order[..i + 1][..i] == order[..i];
  }

  //
  // The engine's array operations on the registry's array. `Find` gives the first index
  // holding an element; `Remove(idx)` does not keep the order of the rest: it moves the
  // last element into the gap and shrinks the array by one.
  //

  /** The first index of `a` holding `obj`. */
  function IndexOf(a: seq<WorldObject>, obj: WorldObject?): (i: nat)
    requires obj in a
    ensures i < |a| && a[i] == obj && obj !in a[..i]
  {
    if a[0] == obj then 0
    else
      var i := 1 + IndexOf(a[1..], obj);
      assert a[..i] == [a[0]] + a[1..][..i - 1];
      i
  }

  /** Only the first index holding `obj` has no `obj` before it. */
  lemma IndexOfFirst(a: seq<WorldObject>, obj: WorldObject?, i: nat)
    requires i < |a| && a[i] == obj && obj !in a[..i]
    ensures IndexOf(a, obj) == i
  {
  }

  /**
   * The engine's `array.Remove(k)`: the elements before k stay where they are, the last
   * element moves to position k, and the array is one shorter.
   */
  function SwapRemoved(a: seq<WorldObject>, k: nat): (r: seq<WorldObject>)
    requires k < |a|
    ensures |r| == |a| - 1
    ensures forall i :: 0 <= i < |r| ==> r[i] == a[if i == k then |a| - 1 else i]
  {
    if k == |a| - 1 then a[..k] else a[..k] + [a[|a| - 1]] + a[k + 1..|a| - 1]
  }

  /** In a list without repetitions, removing at k keeps every other element, each once. */
  lemma SwapRemovedSpec(a: seq<WorldObject>, k: nat)
    requires k < |a| && Distinct(a)
    ensures Distinct(SwapRemoved(a, k))
    ensures forall o: WorldObject :: o in SwapRemoved(a, k) <==> o in a && o != a[k]
  {
    var r := SwapRemoved(a, k);
    forall o | o in a && o != a[k]
      ensures o in r
    {
      var j :| 0 <= j < |a| && a[j] == o;
      if j == |a| - 1 {
        assert r[k] == o;
      } else {
        assert r[j] == o;
      }
    }
  }

  /**
   * `Find` the object's link and, when it is there, `Remove` at that index: the array is
   * then one shorter and keeps its elements before that index; otherwise it is unchanged.
   */
  function Removed(a: seq<WorldObject>, obj: WorldObject?): (r: seq<WorldObject>)
    ensures forall o :: o in r ==> o in a
    ensures obj !in a ==> r == a
    ensures obj in a ==> |r| == |a| - 1 && r[..IndexOf(a, obj)] == a[..IndexOf(a, obj)]
  {
    if obj in a then SwapRemoved(a, IndexOf(a, obj)) else a
  }

  /** In a list without repetitions, removing an object keeps exactly the others, each once. */
  lemma RemovedSpec(a: seq<WorldObject>, obj: WorldObject?)
    requires Distinct(a)
    ensures Distinct(Removed(a, obj))
    ensures forall o: WorldObject :: o in Removed(a, obj) <==> o in a && o != obj
  {
    if obj in a {
      SwapRemovedSpec(a, IndexOf(a, obj));
    }
  }

  /** Removing an object that is not in the front part works on the rest only. */
  lemma RemovedPrefix(p: seq<WorldObject>, s: seq<WorldObject>, obj: WorldObject?)
    requires obj !in p
    ensures Removed(p + s, obj) == p + Removed(s, obj)
  {
    if obj in s {
      var j := IndexOf(s, obj);
      assert (p + s)[..|p| + j] == p + s[..j];
      IndexOfFirst(p + s, obj, |p| + j);
      var left := SwapRemoved(p + s, |p| + j);
      var right := p + SwapRemoved(s, j);
      assert |left| == |right|;
      forall i | 0 <= i < |left|
        ensures left[i] == right[i]
      {
        if i >= |p| {
          assert right[i] == SwapRemoved(s, j)[i - |p|];
        }
      }
    } else {
      assert obj !in p + s;
    }
  }

  /** `a` after each of `gone` was removed in turn, as the unhiding loops remove them. */
  function RemovedAll(a: seq<WorldObject>, gone: seq<WorldObject?>): (r: seq<WorldObject>)
    ensures |r| <= |a|
    ensures forall o :: o in r ==> o in a
  {
    if gone == [] then a
    else Removed(RemovedAll(a, gone[..|gone| - 1]), gone[|gone| - 1])
  }

  /** In a list without repetitions, removing a list of objects keeps exactly the others, each once. */
  lemma {:induction false} RemovedAllSpec(a: seq<WorldObject>, gone: seq<WorldObject?>)
    requires Distinct(a)
    ensures Distinct(RemovedAll(a, gone))
    ensures forall o: WorldObject :: o in RemovedAll(a, gone) <==> o in a && o !in gone
  {
    if gone != [] {
      var init := gone[..|gone| - 1];
      RemovedAllSpec(a, init);
      RemovedSpec(RemovedAll(a, init), gone[|gone| - 1]);
      assert gone == init + [gone[|gone| - 1]];
    }
  }

  /** Removing objects none of which is in the array changes nothing. */
  lemma {:induction false} RemovedAllDisjoint(a: seq<WorldObject>, gone: seq<WorldObject?>)
    requires forall o :: o in gone ==> o !in a
    ensures RemovedAll(a, gone) == a
  {
    if gone != [] {
      var init := gone[..|gone| - 1];
      assert forall o :: o in init ==> o in gone;
      RemovedAllDisjoint(a, init);
    }
  }

  /** Removing every object of a list without repetitions leaves it empty. */
  lemma RemovedAllCovered(a: seq<WorldObject>, gone: seq<WorldObject?>)
    requires Distinct(a)
    requires forall o :: o in a ==> o in gone
    ensures RemovedAll(a, gone) == []
  {
    RemovedAllSpec(a, gone);
    DistinctBound(RemovedAll(a, gone), {});
  }

  /** Removing objects none of which is in the front part works on the rest only. */
  lemma {:induction false} RemovedAllPrefix(p: seq<WorldObject>, s: seq<WorldObject>, gone: seq<WorldObject?>)
    requires forall o :: o in gone ==> o !in p
    ensures RemovedAll(p + s, gone) == p + RemovedAll(s, gone)
  {
    if gone != [] {
      var init := gone[..|gone| - 1];
      var last := gone[|gone| - 1];
      assert forall o :: o in init ==> o in gone;
      RemovedAllPrefix(p, s, init);
      RemovedPrefix(p, RemovedAll(s, init), last);
    }
  }

  /**
   * Removing objects that were all appended after `front`, and that cover what was
   * appended, gives `front` back.
   */
  lemma RemovedAppended(front: seq<WorldObject>, appended: seq<WorldObject>, gone: seq<WorldObject?>)
    requires Distinct(front + appended)
    requires forall o :: o in gone ==> o !in front
    requires forall o :: o in appended ==> o in gone
    ensures RemovedAll(front + appended, gone) == front
  {
    assert Distinct(appended) by {
      forall i, j | 0 <= i < j < |appended|
        ensures appended[i] != appended[j]
      {
        assert appended[i] == (front + appended)[|front| + i];
        assert appended[j] == (front + appended)[|front| + j];
      }
    }
    RemovedAllPrefix(front, appended, gone);
    RemovedAllCovered(appended, gone);
    assert front + [] == front;
  }

  /** The engine's `array.Find`: the first index holding `obj`, or -1. */
  method Find(a: seq<WorldObject>, obj: WorldObject) returns (idx: int)
    ensures idx == -1 <==> obj !in a
    ensures idx != -1 ==> obj in a && idx == IndexOf(a, obj)
  {
    idx := 0;
    while idx < |a|
      invariant 0 <= idx <= |a|
      invariant obj !in a[..idx]
    {
      if a[idx] == obj {
        IndexOfFirst(a, obj, idx);
        return;
      }
      idx := idx + 1;
    }
    assert a[..idx] == a;
    idx := -1;
  }

  /**
   * The search areas of the radius calls: the objects the engine finds around the
   * centre within the radius, in a vertical cylinder (`GetObjectsAtPosition`) or, when
   * the height is limited, in a sphere (`GetObjectsAtPosition3D`).
   */
  function FoundObjects(limitHeight: bool, inCylinder: seq<WorldObject?>, inSphere: seq<WorldObject?>): (r: seq<WorldObject?>)
    ensures limitHeight ==> r == inSphere
    ensures !limitHeight ==> r == inCylinder
  {
    if limitHeight then inSphere else inCylinder
  }

  /**
   * CF_ObjectManager. The source's members are static; the single instance of this
   * class stands for that static state. The path-graph updates the manager asks the
   * game for are recorded, in order, in the ghost log `pathgraphRequests`.
   */
  class ObjectManager {
    var registered: map<WorldObject, ObjectLink>
    var registeredArray: seq<WorldObject>
    ghost var pathgraphRequests: seq<Region>

    ghost predicate Valid()
      reads this
    {
      Consistent(registered, registeredArray)
    }

    /** The objects currently hidden. */
    ghost function HiddenSet(): set<WorldObject>
      reads this
    {
      HiddenIn(registered)
    }

    /** Both collections start empty. */
    constructor ()
      ensures Valid()
      ensures registered == map[] && registeredArray == [] && pathgraphRequests == []
    {
      registered := map[];
      registeredArray := [];
      pathgraphRequests := [];
    }

    /** IsObjectRegistered: the object is in the map, and so in the array. */
    function IsObjectRegistered(obj: WorldObject?): (r: bool)
      requires Valid()
      reads this
      ensures r <==> obj in registeredArray
    {
      obj != null && obj in registered
    }

    /** The map's `m[object]`: the link of a registered object, nothing otherwise. */
    function Lookup(obj: WorldObject?): (r: Option<ObjectLink>)
      requires Valid()
      reads this
      ensures r.Some? <==> obj in registeredArray
      ensures r.Some? ==> obj != null && obj in registered && r.value == registered[obj]
    {
      if obj != null && obj in registered then Some(registered[obj]) else None
    }

    /** IsMapObjectHidden: registered and marked hidden. */
    function IsMapObjectHidden(obj: WorldObject?): (r: bool)
      requires Valid()
      reads this
      ensures r ==> IsObjectRegistered(obj)
      ensures r <==> obj in HiddenSet()
    {
      var link := Lookup(obj);
      link.Some? && link.value.hidden
    }

    /**
     * RegisterObject: the existing link of a registered object; otherwise a new link
     * capturing the object's current flags and event mask, not hidden, appended to the
     * array and stored in the map.
     */
    method RegisterObject(obj: WorldObject, world: World) returns (link: ObjectLink)
      requires Valid()
      requires obj in world.states
      modifies this
      ensures Valid()
      ensures pathgraphRequests == old(pathgraphRequests)
      ensures obj in registered && link == registered[obj]
      ensures HiddenSet() == old(HiddenSet())
      ensures old(obj in registered) ==> registered == old(registered) && registeredArray == old(registeredArray)
      ensures old(obj !in registered) ==>
        && link == Captured(world.states[obj])
        && registered == old(registered)[obj := link]
        && registeredArray == old(registeredArray) + [obj]
    {
      var existing := Lookup(obj);
      if existing.Some? {
        return existing.value;
      }
      link := ObjectLink(world.states[obj].flags, world.states[obj].eventMask, false);
      ConsistentAppend(registered, registeredArray, obj, link);
      HiddenInUpdate(registered, obj, link);
      registeredArray := registeredArray + [obj];
      registered := registered[obj := link];
    }

    /**
     * _UnregisterObject: drops the object from the map and from the array and returns
     * the link it had; for an unregistered object returns nothing and changes nothing.
     */
    method UnregisterObjectInternal(obj: WorldObject?) returns (link: Option<ObjectLink>)
      requires Valid()
      modifies this
      ensures Valid()
      ensures pathgraphRequests == old(pathgraphRequests)
      ensures link == old(Lookup(obj))
      ensures !IsObjectRegistered(obj)
      ensures registered == old(registered) - {obj}
      ensures registeredArray == Removed(old(registeredArray), obj)
      ensures HiddenSet() == old(HiddenSet()) - {obj}
    {
      link := Lookup(obj);
      HiddenInRemove(registered, {obj});
      if link.None? {
        assert registered - {obj} == registered;
        return;
      }
      var idx := Find(registeredArray, obj);
      ConsistentRemove(registered, registeredArray, obj);
      registered := registered - {obj};
      if idx != -1 {
        registeredArray := SwapRemoved(registeredArray, idx);
      }
    }

    /** UnregisterObject: as _UnregisterObject, without returning the link. */
    method UnregisterObject(obj: WorldObject?)
      requires Valid()
      modifies this
      ensures Valid()
      ensures pathgraphRequests == old(pathgraphRequests)
      ensures !IsObjectRegistered(obj)
      ensures registered == old(registered) - {obj}
      ensures registeredArray == Removed(old(registeredArray), obj)
      ensures HiddenSet() == old(HiddenSet()) - {obj}
    {
      var _ := UnregisterObjectInternal(obj);
    }

    /**
     * HideMapObject: succeeds exactly for a map object that is not hidden yet. It then
     * registers the object (keeping an existing registration and its captured state),
     * marks the link hidden, clears the captured flags and event mask on the object,
     * lowers it by the offset, and asks for a path-graph update around its original
     * position. On failure nothing changes.
     */
    method HideMapObject(obj: WorldObject?, world: World, updatePathGraph: bool) returns (r: WorldObject?)
      requires Valid()
      requires obj != null ==> obj in world.states
      modifies this, world
      ensures Valid()
      ensures r != null <==> old(IsMapObject(obj) && !IsMapObjectHidden(obj))
      ensures r != null ==> r == obj
      ensures r == null ==> registered == old(registered) && registeredArray == old(registeredArray)
      ensures r == null ==> world.states == old(world.states) && pathgraphRequests == old(pathgraphRequests)
      ensures r != null ==> registered == MarkHidden(old(registered), obj, old(world.states[obj]))
      ensures r != null ==> HiddenSet() == old(HiddenSet()) + {obj}
      ensures r != null ==> registeredArray == if old(obj in registered) then old(registeredArray) else old(registeredArray) + [obj]
      ensures r != null ==> world.states == old(world.states)[obj := HiddenState(old(world.states[obj]), registered[obj])]
      ensures r != null ==> pathgraphRequests == old(pathgraphRequests) + PathgraphRequest(obj, old(world.states[obj].pos), updatePathGraph)
    {
      if !IsMapObject(obj) || IsMapObjectHidden(obj) {
        return null;
      }
      var originalPosition := world.states[obj].pos;
      ghost var registered0 := registered;
      ghost var state0 := world.states[obj];
      var link := RegisterObject(obj, world);
      link := link.(hidden := true);
      assert link == HiddenLink(registered0, obj, state0);
      if obj !in registered0 {
        UpdateTwice(registered0, obj, Captured(state0), link);
      }
      HiddenInUpdate(registered, obj, link);
      registered := registered[obj := link];
      assert registered == MarkHidden(registered0, obj, state0);
      ghost var states0 := world.states;
      world.ClearFlags(obj, link.flags);
      ghost var states1 := world.states;
      world.ClearEventMask(obj, link.eventMask);
      ghost var states2 := world.states;
      world.SetPosition(obj, Lowered(world.states[obj].pos));
      UpdateTwice(states0, obj, states1[obj], states2[obj]);
      UpdateTwice(states0, obj, states2[obj], world.states[obj]);
      if updatePathGraph && obj.affectsPathgraph {
        pathgraphRequests := pathgraphRequests + [PaddedRegion(originalPosition, obj.clippingRadius)];
      }
      r := obj;
    }

    /**
     * UnhideMapObject: unregisters the object whatever its state, then, if its link was
     * marked hidden, raises it by the offset, sets the captured flags and event mask
     * again, and asks for a path-graph update around its restored position. It succeeds
     * exactly for a hidden object.
     */
    method UnhideMapObject(obj: WorldObject?, world: World, updatePathGraph: bool) returns (r: WorldObject?)
      requires Valid()
      requires obj != null ==> obj in world.states
      modifies this, world
      ensures Valid()
      ensures r != null <==> old(IsMapObjectHidden(obj))
      ensures r != null ==> r == obj
      ensures registered == old(registered) - {obj}
      ensures registeredArray == Removed(old(registeredArray), obj)
      ensures HiddenSet() == old(HiddenSet()) - {obj}
      ensures r == null ==> world.states == old(world.states) && pathgraphRequests == old(pathgraphRequests)
      ensures r != null ==> world.states == old(world.states)[obj := RestoredState(old(world.states[obj]), old(registered[obj]))]
      ensures r != null ==> pathgraphRequests == old(pathgraphRequests) + PathgraphRequest(obj, Raised(old(world.states[obj].pos)), updatePathGraph)
    {
      var link := UnregisterObjectInternal(obj);
      if link.None? || !link.value.hidden {
        return null;
      }
      ghost var states0 := world.states;
      world.SetPosition(obj, Raised(world.states[obj].pos));
      ghost var states1 := world.states;
      world.SetFlags(obj, link.value.flags);
      ghost var states2 := world.states;
      world.SetEventMask(obj, link.value.eventMask);
      UpdateTwice(states0, obj, states1[obj], states2[obj]);
      UpdateTwice(states0, obj, states2[obj], world.states[obj]);
      if updatePathGraph && obj.affectsPathgraph {
        pathgraphRequests := pathgraphRequests + [PaddedRegion(world.states[obj].pos, obj.clippingRadius)];
      }
      r := obj;
    }

    /**
     * One step of the hiding loop: hides `obj` after the objects `done` have been
     * processed on a manager whose links were `registered0`, and keeps the loop's
     * account of the collections, the world and the request log up to date.
     */
    method HideNext(obj: WorldObject?, world: World, updatePathGraph: bool, hidden: seq<WorldObject>,
                    ghost done: seq<WorldObject?>, ghost registered0: map<WorldObject, ObjectLink>, ghost array0: seq<WorldObject>,
                    ghost states0: map<WorldObject, ObjectState>, ghost log0: seq<Region>) returns (next: seq<WorldObject>)
      requires Valid()
      requires obj != null ==> obj in world.states && obj in states0
      requires forall o :: o in hidden ==> o in states0
      requires hidden == HideSelection(done, HiddenIn(registered0))
      requires registered == HideAll(registered0, hidden, states0)
      requires registeredArray == array0 + NewlyRegistered(hidden, registered0)
      requires world.states == HiddenStates(registered0, hidden, states0)
      requires pathgraphRequests == log0 + HideRequests(hidden, states0, updatePathGraph)
      modifies this, world
      ensures Valid()
      ensures forall o :: o in next ==> o in hidden || o == obj
      ensures forall o :: o in next ==> o in states0
      ensures next == HideSelection(done + [obj], HiddenIn(registered0))
      ensures registered == HideAll(registered0, next, states0)
      ensures registeredArray == array0 + NewlyRegistered(next, registered0)
      ensures world.states == HiddenStates(registered0, next, states0)
      ensures pathgraphRequests == log0 + HideRequests(next, states0, updatePathGraph)
    {
      ghost var hidden0 := HiddenIn(registered0);
      HideSelectionStep(done, obj, hidden0);
      if obj != null {
        HideAllKeys(registered0, hidden, states0, obj);
        HideAllHidden(registered0, hidden, states0, obj);
        assert IsMapObjectHidden(obj) <==> obj in hidden0 || obj in hidden;
      }
      var r := HideMapObject(obj, world, updatePathGraph);
      assert r != null <==> IsMapObject(obj) && obj !in hidden0 && obj !in hidden;
      next := hidden;
      if r != null {
        if obj in registered0 {
          HideAllLink(registered0, hidden, states0, obj);
        }
        HideStep(registered0, hidden, states0, obj, updatePathGraph);
        HiddenStatesStep(registered0, hidden, states0, obj);
        AppendAssoc(array0, NewlyRegistered(hidden, registered0), if obj in registered0 then [] else [obj]);
        AppendAssoc(log0, HideRequests(hidden, states0, updatePathGraph), PathgraphRequest(obj, states0[obj].pos, updatePathGraph));
        next := hidden + [r];
      }
    }

    /**
     * HideMapObjects: calls HideMapObject on each input in turn and returns, in input
     * order, the objects it hid.
     */
    method HideMapObjects(objects: seq<WorldObject?>, world: World, updatePathGraph: bool) returns (hidden: seq<WorldObject>)
      requires Valid()
      requires forall o: WorldObject :: o in objects ==> o in world.states
      modifies this, world
      ensures Valid()
      ensures hidden == HideSelection(objects, old(HiddenSet()))
      ensures forall o :: o in hidden ==> o in objects
      ensures registered == HideAll(old(registered), hidden, old(world.states))
      ensures registeredArray == old(registeredArray) + NewlyRegistered(hidden, old(registered))
      ensures world.states == HiddenStates(old(registered), hidden, old(world.states))
      ensures pathgraphRequests == old(pathgraphRequests) + HideRequests(hidden, old(world.states), updatePathGraph)
    {
      ghost var states0 := world.states;
      ghost var hidden0 := HiddenSet();
      ghost var registered0 := registered;
      HiddenStatesNone(registered0, states0);
      hidden := [];
      var i := 0;
      while i < |objects|
        invariant 0 <= i <= |objects|
        invariant Valid()
        invariant hidden == HideSelection(objects[..i], hidden0)
        invariant forall o :: o in hidden ==> o in objects && o in states0
        invariant registered == HideAll(registered0, hidden, states0)
        invariant registeredArray == old(registeredArray) + NewlyRegistered(hidden, registered0)
        invariant world.states == HiddenStates(registered0, hidden, states0)
        invariant pathgraphRequests == old(pathgraphRequests) + HideRequests(hidden, states0, updatePathGraph)
      {
        var obj := objects[i];
        assert objects[..i + 1] == objects[..i] + [obj];
        hidden := HideNext(obj, world, updatePathGraph, hidden, objects[..i], registered0, old(registeredArray), states0, old(pathgraphRequests));
        i := i + 1;
      }
      assert objects[..i] == objects;
    }
    /**
     * HideMapObjectsInRadius: hides, as HideMapObjects does, the objects the engine finds
     * around the centre within the radius.
     */
    method HideMapObjectsInRadius(inCylinder: seq<WorldObject?>, inSphere: seq<WorldObject?>, limitHeight: bool, world: World, updatePathGraph: bool) returns (hidden: seq<WorldObject>)
      requires Valid()
      requires forall o: WorldObject :: o in FoundObjects(limitHeight, inCylinder, inSphere) ==> o in world.states
      modifies this, world
      ensures Valid()
      ensures hidden == HideSelection(FoundObjects(limitHeight, inCylinder, inSphere), old(HiddenSet()))
      ensures forall o :: o in hidden ==> o in old(world.states)
      ensures registered == HideAll(old(registered), hidden, old(world.states))
      ensures registeredArray == old(registeredArray) + NewlyRegistered(hidden, old(registered))
      ensures world.states == HiddenStates(old(registered), hidden, old(world.states))
      ensures pathgraphRequests == old(pathgraphRequests) + HideRequests(hidden, old(world.states), updatePathGraph)
    {
      var objects := if limitHeight then inSphere else inCylinder;
      hidden := HideMapObjects(objects, world, updatePathGraph);
    }

    /**
     * One step of the unhiding loops: unhides `obj` after the objects `done` have been
     * unhidden from a manager whose links were `registered0`, and keeps the loops'
     * account of the collections, the world and the request log up to date.
     */
    method UnhideNext(obj: WorldObject?, world: World, updatePathGraph: bool, unhidden: seq<WorldObject>,
                      ghost done: seq<WorldObject?>, ghost registered0: map<WorldObject, ObjectLink>, ghost array0: seq<WorldObject>,
                      ghost states0: map<WorldObject, ObjectState>, ghost log0: seq<Region>) returns (next: seq<WorldObject>)
      requires Valid()
      requires obj != null ==> obj in world.states && obj in states0
      requires forall o :: o in unhidden ==> o in registered0 && o in states0
      requires registered == UnregisterAll(registered0, done)
      requires registeredArray == RemovedAll(array0, done)
      requires unhidden == UnhideSelection(done, HiddenIn(registered0))
      requires world.states == RestoredStates(registered0, unhidden, states0)
      requires pathgraphRequests == log0 + UnhideRequests(unhidden, states0, updatePathGraph)
      modifies this, world
      ensures Valid()
      ensures obj != null ==> registered == old(registered) - {obj}
      ensures forall o :: o in next ==> o in registered0 && o in states0
      ensures registered == UnregisterAll(registered0, done + [obj])
      ensures registeredArray == RemovedAll(array0, done + [obj])
      ensures next == UnhideSelection(done + [obj], HiddenIn(registered0))
      ensures world.states == RestoredStates(registered0, next, states0)
      ensures pathgraphRequests == log0 + UnhideRequests(next, states0, updatePathGraph)
    {
      ghost var hidden0 := HiddenIn(registered0);
      assert (done + [obj])[..|done|] == done;
      UnhideSelectionStep(done, obj, hidden0);
      UnhideSelectionSpec(done, hidden0);
      if obj != null {
        UnregisterAllLookup(registered0, done, obj);
        assert IsMapObjectHidden(obj) <==> obj in hidden0 && obj !in done;
      }
      var r := UnhideMapObject(obj, world, updatePathGraph);
      next := unhidden;
      if r != null {
        assert obj !in unhidden;
        UnhideStep(unhidden, states0, obj, updatePathGraph);
        RestoredStatesStep(registered0, unhidden, states0, obj);
        AppendAssoc(log0, UnhideRequests(unhidden, states0, updatePathGraph), PathgraphRequest(obj, Raised(states0[obj].pos), updatePathGraph));
        next := unhidden + [r];
      }
    }

    /**
     * UnhideMapObjects: calls UnhideMapObject on each input in turn and returns, in input
     * order, the objects it unhid. Every listed object ends up unregistered, hidden or not.
     */
    method UnhideMapObjects(objects: seq<WorldObject?>, world: World, updatePathGraph: bool) returns (unhidden: seq<WorldObject>)
      requires Valid()
      requires forall o: WorldObject :: o in objects ==> o in world.states
      modifies this, world
      ensures Valid()
      ensures unhidden == UnhideSelection(objects, old(HiddenSet()))
      ensures forall o :: o in unhidden ==> o in objects && o in old(registered)
      ensures registered == old(registered) - NonNull(objects)
      ensures registeredArray == RemovedAll(old(registeredArray), objects)
      ensures HiddenSet() == old(HiddenSet()) - NonNull(objects)
      ensures world.states == RestoredStates(old(registered), unhidden, old(world.states))
      ensures pathgraphRequests == old(pathgraphRequests) + UnhideRequests(unhidden, old(world.states), updatePathGraph)
    {
      ghost var states0 := world.states;
      ghost var hidden0 := HiddenSet();
      ghost var registered0 := registered;
      RestoredStatesNone(registered0, states0);
      unhidden := [];
      var i := 0;
      while i < |objects|
        invariant 0 <= i <= |objects|
        invariant Valid()
        invariant unhidden == UnhideSelection(objects[..i], hidden0)
        invariant forall o :: o in unhidden ==> o in objects && o in registered0 && o in states0
        invariant registered == UnregisterAll(registered0, objects[..i])
        invariant registeredArray == RemovedAll(old(registeredArray), objects[..i])
        invariant world.states == RestoredStates(registered0, unhidden, states0)
        invariant pathgraphRequests == old(pathgraphRequests) + UnhideRequests(unhidden, states0, updatePathGraph)
      {
        var obj := objects[i];
        assert objects[..i + 1] == objects[..i] + [obj];
        unhidden := UnhideNext(obj, world, updatePathGraph, unhidden, objects[..i], registered0, old(registeredArray), states0, old(pathgraphRequests));
        i := i + 1;
      }
      assert objects[..i] == objects;
      UnregisterAllIs(registered0, objects);
      HiddenInRemove(registered0, NonNull(objects));
    }

    /**
     * UnhideMapObjectsInRadius: unhides, as UnhideMapObjects does, the objects the engine
     * finds around the centre within the radius.
     */
    method UnhideMapObjectsInRadius(inCylinder: seq<WorldObject?>, inSphere: seq<WorldObject?>, limitHeight: bool, world: World, updatePathGraph: bool) returns (unhidden: seq<WorldObject>)
      requires Valid()
      requires forall o: WorldObject :: o in FoundObjects(limitHeight, inCylinder, inSphere) ==> o in world.states
      modifies this, world
      ensures Valid()
      ensures unhidden == UnhideSelection(FoundObjects(limitHeight, inCylinder, inSphere), old(HiddenSet()))
      ensures forall o :: o in unhidden ==> o in old(world.states)
      ensures registered == old(registered) - NonNull(FoundObjects(limitHeight, inCylinder, inSphere))
      ensures registeredArray == RemovedAll(old(registeredArray), FoundObjects(limitHeight, inCylinder, inSphere))
      ensures HiddenSet() == old(HiddenSet()) - NonNull(FoundObjects(limitHeight, inCylinder, inSphere))
      ensures world.states == RestoredStates(old(registered), unhidden, old(world.states))
      ensures pathgraphRequests == old(pathgraphRequests) + UnhideRequests(unhidden, old(world.states), updatePathGraph)
    {
      var objects := if limitHeight then inSphere else inCylinder;
      unhidden := UnhideMapObjects(objects, world, updatePathGraph);
    }

    /**
     * `m_RegisteredObjects.GetKey(n)`: the key at position n of the map's enumeration.
     * The enumeration order of the engine's map is not specified, so any registered
     * object may be the one returned.
     */
    method GetKey(n: nat) returns (key: WorldObject)
      requires n < |registered|
      ensures key in registered
    {
      assert registered.Keys != {};
      key :| key in registered;
    }

    /**
     * UnhideAllMapObjects as written: a counter runs up while it is below the number of
     * registrations, each step unhides (and so unregisters) the counter's key. The count
     * drops by one as the counter rises by one, so the loop visits only the first half,
     * rounded up, of the registrations, and the rest stay as they were. `visited` lists
     * the keys the loop took, in order.
     */
    method UnhideAllMapObjects(world: World, updatePathGraph: bool) returns (unhidden: seq<WorldObject>, ghost visited: seq<WorldObject>)
      requires Valid()
      requires forall o :: o in registered ==> o in world.states
      modifies this, world
      ensures Valid()
      ensures Distinct(visited) && forall o :: o in visited ==> o in old(registered)
      ensures |visited| == (|old(registered)| + 1) / 2
      ensures |registered| == |old(registered)| / 2
      ensures registered == old(registered) - NonNull(visited)
      ensures registeredArray == RemovedAll(old(registeredArray), visited)
      ensures unhidden == UnhideSelection(visited, old(HiddenSet()))
      ensures forall o :: o in unhidden ==> o in old(registered) && o in old(world.states)
      ensures forall o :: o in unhidden ==> o in old(HiddenSet()) && o !in registered
      ensures HiddenSet() == old(HiddenSet()) - NonNull(visited)
      ensures world.states == RestoredStates(old(registered), unhidden, old(world.states))
      ensures pathgraphRequests == old(pathgraphRequests) + UnhideRequests(unhidden, old(world.states), updatePathGraph)
      ensures old(HiddenSet()) == old(registered.Keys) ==> HiddenSet() == registered.Keys
    {
      ghost var states0 := world.states;
      ghost var hidden0 := HiddenSet();
      ghost var registered0 := registered;
      RestoredStatesNone(registered0, states0);
      unhidden := [];
      visited := [];
      var n := 0;
      while n < |registered|
        invariant Valid()
        invariant n == |visited|
        invariant |registered| + n == |registered0|
        invariant 2 * n <= |registered0| + 1
        invariant Distinct(visited)
        invariant forall o :: o in visited ==> o in registered0
        invariant forall o :: o in unhidden ==> o in registered0 && o in states0
        invariant registered == UnregisterAll(registered0, visited)
        invariant registeredArray == RemovedAll(old(registeredArray), visited)
        invariant unhidden == UnhideSelection(visited, hidden0)
        invariant world.states == RestoredStates(registered0, unhidden, states0)
        invariant pathgraphRequests == old(pathgraphRequests) + UnhideRequests(unhidden, states0, updatePathGraph)
        decreases |registered0| - 2 * n
      {
        var obj := GetKey(n);
        UnregisterAllLookup(registered0, visited, obj);
        RemoveCount(registered, obj);
        DistinctAppend(visited, obj);
        unhidden := UnhideNext(obj, world, updatePathGraph, unhidden, visited, registered0, old(registeredArray), states0, old(pathgraphRequests));
        visited := visited + [obj];
        n := n + 1;
      }
      UnregisterAllIs(registered0, visited);
      HiddenInRemove(registered0, NonNull(visited));
      UnhideSelectionSpec(visited, hidden0);
    }

    /**
     * GetHiddenMapObjects: walks the array and lists, in array order, the objects whose
     * link is marked hidden.
     */
    method GetHiddenMapObjects() returns (objects: seq<WorldObject>)
      requires Valid()
      ensures objects == HiddenObjectsOf(registeredArray, registered)
      ensures forall o :: o in objects <==> IsMapObjectHidden(o)
      ensures Distinct(objects)
    {
      objects := [];
      var i := 0;
      while i < |registeredArray|
        invariant 0 <= i <= |registeredArray|
        invariant objects == HiddenObjectsOf(registeredArray[..i], registered)
      {
        HiddenObjectsStep(registeredArray, registered, i);
        var link := registered[registeredArray[i]];
        if link.hidden {
          objects := objects + [registeredArray[i]];
        }
        i := i + 1;
      }
      assert registeredArray[..i] == registeredArray;
      forall o: WorldObject
        ensures o in objects <==> IsMapObjectHidden(o)
      {
        HiddenObjectsMembership(registeredArray, registered, o);
      }
      HiddenObjectsDistinct(registeredArray, registered);
    }

    /** GetRegisteredObjects: walks the array and lists every registered object, in array order. */
    method GetRegisteredObjects() returns (objects: seq<WorldObject>)
      requires Valid()
      ensures objects == registeredArray
      ensures forall o :: o in objects <==> IsObjectRegistered(o)
      ensures |objects| == |registered|
    {
      objects := [];
      var i := 0;
      while i < |registeredArray|
        invariant 0 <= i <= |registeredArray|
        invariant objects == registeredArray[..i]
      {
        objects := objects + [registeredArray[i]];
        i := i + 1;
      }
      assert registeredArray[..i] == registeredArray;
      ConsistentCount(registered, registeredArray);
    }

    /**
     * A corrected UnhideAllMapObjects: takes the list of hidden objects first and then
     * unhides that list, so that every hidden object is unhidden.
     */
    method UnhideAllHiddenMapObjects(world: World, updatePathGraph: bool) returns (unhidden: seq<WorldObject>)
      requires Valid()
      requires forall o :: o in registered ==> o in world.states
      modifies this, world
      ensures Valid()
      ensures unhidden == old(HiddenObjectsOf(registeredArray, registered))
      ensures forall o :: o in unhidden ==> o in old(registered) && o in old(world.states)
      ensures HiddenSet() == {}
      ensures registered == old(registered) - old(HiddenSet())
      ensures registeredArray == RemovedAll(old(registeredArray), unhidden)
      ensures forall o :: o in registeredArray <==> o in old(registeredArray) && o !in old(HiddenSet())
      ensures world.states == RestoredStates(old(registered), unhidden, old(world.states))
      ensures pathgraphRequests == old(pathgraphRequests) + UnhideRequests(unhidden, old(world.states), updatePathGraph)
    {
      var hidden := GetHiddenMapObjects();
      assert NonNull(hidden) == HiddenSet();
      UnhideSelectionOfHidden(hidden, HiddenSet());
      unhidden := UnhideMapObjects(hidden, world, updatePathGraph);
      RemovedAllSpec(old(registeredArray), hidden);
    }

    /** _Cleanup: empties the map and the array. */
    method Cleanup()
      modifies this
      ensures Valid()
      ensures registered == map[] && registeredArray == []
      ensures HiddenSet() == {}
      ensures pathgraphRequests == old(pathgraphRequests)
    {
      registered := map[];
      registeredArray := [];
    }
  }
}
