# CF_ObjectManager, modelled in Dafny

The DayZ Community Framework's `CF_ObjectManager` hides static map objects without
destroying them. Houses, trees, bushes and objects placed in the map without a config
class are all map objects here.

To hide an object, the manager first registers it. Registering keeps a link holding the
object's flags and event mask at that moment. Hiding then marks the link hidden, clears
those flags and event-mask bits on the object, and moves the object 10000 units down on
every axis. Unhiding unregisters the object. If its link was marked hidden, unhiding
moves the object back up and sets the captured bits again. Either operation may ask the
game to update the path graph around the object.

The manager keeps its registrations twice: in a map from object to link, and in an array
of the same links. A link (`CF_ObjectManager_ObjectLink`, ObjectManager.c lines 1-6) is
modelled by the datatype `CommunityFramework.ObjectLink`. Registering appends to the
array. Unregistering finds the link and calls the engine's `array.Remove(idx)`, which
moves the last element into the gap. So the array is not kept in registration order, and
`GetHiddenMapObjects` lists objects in the array's current order.

The project has three modules:

- `Engine` (`engine.dfy`): the part of the game engine the manager touches.
  - Integer positions and regions.
  - Flag words as sets of bit positions.
  - `WorldObject`: an engine object's fixed properties.
  - `World`: the table of every object's current position, flags and event mask, with
    the engine calls that change one entry.
- `CommunityFramework` (`object_manager.dfy`):
  - The class `ObjectManager`, holding the map, the array and a ghost log of the
    requested path-graph regions.
  - Its operations as methods.
  - Pure functions that state what a batch of hides or unhides does, and lemmas about
    them.
- `Scenarios` (`scenarios.dfy`): calls composed into whole scenarios.
  - Hiding and then unhiding a list restores everything.
  - `UnhideAllMapObjects` leaves one of two hidden objects hidden.
  - The corrected version unhides both.

The single invariant, `ObjectManager.Valid`, says that the map and the array describe the
same registrations, each object once. Every operation keeps it.

In the radius calls, `limitHeight` selects the engine's 3D query (a sphere); otherwise
they use the plain position query (a vertical cylinder).

## Model

| member | source | states |
|---|---|---|
| Engine.RestoreCapturedBits | JM/CF/Scripts/3_Game/CommunityFramework/ObjectManager/ObjectManager.c:225-226 | clearing bits that were all on and then setting them again gives the original word back |
| Engine.World.SetPosition | JM/CF/Scripts/3_Game/CommunityFramework/ObjectManager/ObjectManager.c:114-117 | writing a transform's translation changes that object's position and nothing else |
| Engine.World.ClearFlags | JM/CF/Scripts/3_Game/CommunityFramework/ObjectManager/ObjectManager.c:111 | clears the given flag bits of that object only |
| Engine.World.ClearEventMask | JM/CF/Scripts/3_Game/CommunityFramework/ObjectManager/ObjectManager.c:112 | clears the given event bits of that object only |
| Engine.World.SetFlags | JM/CF/Scripts/3_Game/CommunityFramework/ObjectManager/ObjectManager.c:225 | sets the given flag bits of that object only |
| Engine.World.SetEventMask | JM/CF/Scripts/3_Game/CommunityFramework/ObjectManager/ObjectManager.c:226 | sets the given event bits of that object only |
| CommunityFramework.Lowered | JM/CF/Scripts/3_Game/CommunityFramework/ObjectManager/ObjectManager.c:116 | moving down by the offset on each axis is undone by moving up by it, and always moves the object |
| CommunityFramework.PaddedRegion | JM/CF/Scripts/3_Game/CommunityFramework/ObjectManager/ObjectManager.c:122-125 | the update region is the box centred on the position, extending by the clipping radius on each side |
| CommunityFramework.PathgraphRequest | JM/CF/Scripts/3_Game/CommunityFramework/ObjectManager/ObjectManager.c:120-126 | a single call asks for an update exactly when the caller wants one and the object can affect the path graph, and then only for the padded box around the given position |
| CommunityFramework.IsMapObject | JM/CF/Scripts/3_Game/CommunityFramework/ObjectManager/ObjectManager.c:402-409 | null is never a map object; houses, trees and bushes always are; anything else is one exactly when it has no config type and its script type is plain `Object` |
| CommunityFramework.HideSelectionSpec | JM/CF/Scripts/3_Game/CommunityFramework/ObjectManager/ObjectManager.c:141-162 | a batch hide returns exactly the listed map objects that were not hidden before, each once |
| CommunityFramework.HideSelection | JM/CF/Scripts/3_Game/CommunityFramework/ObjectManager/ObjectManager.c:145-159 | the loop returns at most one object per input, and only inputs |
| CommunityFramework.UnhideSelectionSpec | JM/CF/Scripts/3_Game/CommunityFramework/ObjectManager/ObjectManager.c:254-268 | a batch unhide returns exactly the listed objects that were hidden before, each once |
| CommunityFramework.UnhideSelection | JM/CF/Scripts/3_Game/CommunityFramework/ObjectManager/ObjectManager.c:258-265 | the loop returns at most one object per input, and only inputs |
| CommunityFramework.UnhideSelectionOfHidden | JM/CF/Scripts/3_Game/CommunityFramework/ObjectManager/ObjectManager.c:254-268 | unhiding a repetition-free list of hidden objects unhides every one of them, in list order |
| CommunityFramework.ConsistentAppend | JM/CF/Scripts/3_Game/CommunityFramework/ObjectManager/ObjectManager.c:38-39 | inserting a new object into the array and into the map keeps the two in one-to-one correspondence |
| CommunityFramework.Captured | JM/CF/Scripts/3_Game/CommunityFramework/ObjectManager/ObjectManager.c:33-36 | a new link is not hidden, and every flag and event bit it holds is on in the object |
| CommunityFramework.HiddenState | JM/CF/Scripts/3_Game/CommunityFramework/ObjectManager/ObjectManager.c:109-117 | a hidden object sits one offset below its old position, none of the link's bits stay on, and no bit is newly set |
| CommunityFramework.RestoredState | JM/CF/Scripts/3_Game/CommunityFramework/ObjectManager/ObjectManager.c:220-226 | an unhidden object sits one offset above, every bit of the link is on, and no bit is lost |
| CommunityFramework.ConsistentRemove | JM/CF/Scripts/3_Game/CommunityFramework/ObjectManager/ObjectManager.c:58-61 | removing an object from the map, and its link from the array by find-and-remove, keeps the two in one-to-one correspondence |
| CommunityFramework.ConsistentCount | JM/CF/Scripts/3_Game/CommunityFramework/ObjectManager/ObjectManager.c:16-19 | in correspondence, the map's count equals the array's length |
| CommunityFramework.HideRestoreRoundTrip | JM/CF/Scripts/3_Game/CommunityFramework/ObjectManager/ObjectManager.c:220-226 | unhiding with the link that hiding captured gives back the position, flags and event mask the object had before hiding |
| CommunityFramework.HideRestoreWithLink | JM/CF/Scripts/3_Game/CommunityFramework/ObjectManager/ObjectManager.c:220-226 | the same holds for any link whose bits were all on when the object was hidden |
| CommunityFramework.HideAllKeys | JM/CF/Scripts/3_Game/CommunityFramework/ObjectManager/ObjectManager.c:141-162 | after a batch hide, the registered objects are the ones registered before plus the ones hidden |
| CommunityFramework.HideAllHidden | JM/CF/Scripts/3_Game/CommunityFramework/ObjectManager/ObjectManager.c:141-162 | after a batch hide, the hidden objects are the ones hidden before plus the ones just hidden |
| CommunityFramework.HideAllLink | JM/CF/Scripts/3_Game/CommunityFramework/ObjectManager/ObjectManager.c:27-31 | a hidden object keeps its earlier registration (flags not captured again), marked hidden; other links are untouched |
| CommunityFramework.NewlyRegisteredSpec | JM/CF/Scripts/3_Game/CommunityFramework/ObjectManager/ObjectManager.c:33-39 | a batch hide appends to the array exactly the hidden objects that were not registered before |
| CommunityFramework.HideThenUnhideStates | JM/CF/Scripts/3_Game/CommunityFramework/ObjectManager/ObjectManager.c:213-242 | hiding a list and unhiding it again gives every object its state from before the hide back |
| CommunityFramework.UnhideRequestsOfLowered | JM/CF/Scripts/3_Game/CommunityFramework/ObjectManager/ObjectManager.c:230-236 | unhiding after a hide asks for the same path-graph regions as the hide, since each object goes back to where it was hidden from |
| CommunityFramework.HideAllThenRemove | JM/CF/Scripts/3_Game/CommunityFramework/ObjectManager/ObjectManager.c:58 | hiding objects that were not registered and then unregistering them gives the map back |
| CommunityFramework.UnregisterAllLookup | JM/CF/Scripts/3_Game/CommunityFramework/ObjectManager/ObjectManager.c:254-268 | unregistering a list in order keeps exactly the registrations of the unlisted objects, with their links unchanged |
| CommunityFramework.UnregisterAllIs | JM/CF/Scripts/3_Game/CommunityFramework/ObjectManager/ObjectManager.c:254-268 | that is the map without the listed objects |
| CommunityFramework.HiddenObjectsMembership | JM/CF/Scripts/3_Game/CommunityFramework/ObjectManager/ObjectManager.c:333-342 | walking the array lists an object exactly when it is in the array and its link is hidden |
| CommunityFramework.HiddenObjectsDistinct | JM/CF/Scripts/3_Game/CommunityFramework/ObjectManager/ObjectManager.c:333-342 | no object is listed twice |
| CommunityFramework.HiddenObjectsOf | JM/CF/Scripts/3_Game/CommunityFramework/ObjectManager/ObjectManager.c:333-342 | the hidden list is no longer than the array, and everything on it is in the array with a hidden link |
| CommunityFramework.Removed | JM/CF/Scripts/3_Game/CommunityFramework/ObjectManager/ObjectManager.c:60-61 | find-and-remove of a present object makes the array one shorter and keeps the elements before the found index in place; an absent object leaves the array unchanged |
| CommunityFramework.IndexOf | JM/CF/Scripts/3_Game/CommunityFramework/ObjectManager/ObjectManager.c:60 | the index found holds the object, and no earlier index does |
| CommunityFramework.IndexOfFirst | JM/CF/Scripts/3_Game/CommunityFramework/ObjectManager/ObjectManager.c:60 | an index holding the object with none before it is the one found |
| CommunityFramework.SwapRemoved | JM/CF/Scripts/3_Game/CommunityFramework/ObjectManager/ObjectManager.c:61 | the engine's `Remove(k)`: one shorter; the last element now sits at k, and every other index keeps its element |
| CommunityFramework.SwapRemovedSpec | JM/CF/Scripts/3_Game/CommunityFramework/ObjectManager/ObjectManager.c:61 | in a list without repetitions, `Remove(k)` keeps exactly the other elements, each once |
| CommunityFramework.RemovedSpec | JM/CF/Scripts/3_Game/CommunityFramework/ObjectManager/ObjectManager.c:60-61 | in a list without repetitions, find-and-remove keeps exactly the elements other than the object, each once |
| CommunityFramework.RemovedPrefix | JM/CF/Scripts/3_Game/CommunityFramework/ObjectManager/ObjectManager.c:60-61 | find-and-remove of an object that is not in the front part changes only the back part |
| CommunityFramework.RemovedAll | JM/CF/Scripts/3_Game/CommunityFramework/ObjectManager/ObjectManager.c:254-268 | removing a list of objects in turn never lengthens the array and keeps only its own elements |
| CommunityFramework.RemovedAllSpec | JM/CF/Scripts/3_Game/CommunityFramework/ObjectManager/ObjectManager.c:254-268 | in a list without repetitions, removing a list of objects in turn keeps exactly the unlisted elements, each once |
| CommunityFramework.RemovedAllPrefix | JM/CF/Scripts/3_Game/CommunityFramework/ObjectManager/ObjectManager.c:254-268 | removing objects none of which is in the front part changes only the back part |
| CommunityFramework.RemovedAppended | JM/CF/Scripts/3_Game/CommunityFramework/ObjectManager/ObjectManager.c:254-268 | removing every object appended after a front part, and nothing from the front part, gives the front part back |
| CommunityFramework.RemovedAllDisjoint | JM/CF/Scripts/3_Game/CommunityFramework/ObjectManager/ObjectManager.c:61 | removing objects none of which is present changes nothing |
| CommunityFramework.RemovedAllCovered | JM/CF/Scripts/3_Game/CommunityFramework/ObjectManager/ObjectManager.c:61 | removing every object present empties the array |
| CommunityFramework.DistinctBound | JM/CF/Scripts/3_Game/CommunityFramework/ObjectManager/ObjectManager.c:333-342 | a list without repetitions drawn from a set is no longer than the set |
| CommunityFramework.Find | JM/CF/Scripts/3_Game/CommunityFramework/ObjectManager/ObjectManager.c:60 | the index is -1 exactly when the object is absent, and otherwise its first occurrence |
| CommunityFramework.FoundObjects | JM/CF/Scripts/3_Game/CommunityFramework/ObjectManager/ObjectManager.c:180-187 | with the height limited the sphere query is used, otherwise the cylinder query |
| CommunityFramework.ObjectManager.constructor | JM/CF/Scripts/3_Game/CommunityFramework/ObjectManager/ObjectManager.c:16-19 | both collections start empty, in correspondence |
| CommunityFramework.ObjectManager.IsObjectRegistered | JM/CF/Scripts/3_Game/CommunityFramework/ObjectManager/ObjectManager.c:388-391 | registered in the map exactly when present in the array |
| CommunityFramework.ObjectManager.Lookup | JM/CF/Scripts/3_Game/CommunityFramework/ObjectManager/ObjectManager.c:30 | a map lookup yields the object's link when it is registered and nothing otherwise |
| CommunityFramework.ObjectManager.IsMapObjectHidden | JM/CF/Scripts/3_Game/CommunityFramework/ObjectManager/ObjectManager.c:372-377 | hidden exactly when the link is marked hidden, and never for an unregistered object |
| CommunityFramework.ObjectManager.RegisterObject | JM/CF/Scripts/3_Game/CommunityFramework/ObjectManager/ObjectManager.c:27-42 | an existing registration is returned and nothing changes; otherwise a new unhidden link capturing the current flags and event mask is appended to the array and stored in the map |
| CommunityFramework.ObjectManager.UnregisterObjectInternal | JM/CF/Scripts/3_Game/CommunityFramework/ObjectManager/ObjectManager.c:51-64 | returns the object's link (nothing if unknown) and removes the object from the map and its link from the array by find-and-remove |
| CommunityFramework.ObjectManager.UnregisterObject | JM/CF/Scripts/3_Game/CommunityFramework/ObjectManager/ObjectManager.c:72-85 | the same removal, without returning the link |
| CommunityFramework.ObjectManager.HideMapObject | JM/CF/Scripts/3_Game/CommunityFramework/ObjectManager/ObjectManager.c:97-129 | succeeds exactly for a map object not yet hidden. On failure nothing changes. On success the object is registered and hidden, its captured bits are cleared, it is lowered by the offset, and at most one update is requested around its original position |
| CommunityFramework.ObjectManager.UnhideMapObject | JM/CF/Scripts/3_Game/CommunityFramework/ObjectManager/ObjectManager.c:213-242 | always unregisters the object and succeeds exactly when it was hidden. On success it raises the object, sets the captured bits again, and may request an update around the restored position |
| CommunityFramework.ObjectManager.HideNext | JM/CF/Scripts/3_Game/CommunityFramework/ObjectManager/ObjectManager.c:155-158 | one iteration of the hide loop extends the batch's outcome by that input |
| CommunityFramework.ObjectManager.HideMapObjects | JM/CF/Scripts/3_Game/CommunityFramework/ObjectManager/ObjectManager.c:141-162 | returns the successful inputs in input order. The collections, the objects' states and the update log end as the batch functions say |
| CommunityFramework.ObjectManager.HideMapObjectsInRadius | JM/CF/Scripts/3_Game/CommunityFramework/ObjectManager/ObjectManager.c:176-201 | the same, for the objects found in the cylinder or, with the height limited, in the sphere |
| CommunityFramework.ObjectManager.UnhideNext | JM/CF/Scripts/3_Game/CommunityFramework/ObjectManager/ObjectManager.c:261-264 | one iteration of the unhide loops extends the batch's outcome by that input |
| CommunityFramework.ObjectManager.UnhideMapObjects | JM/CF/Scripts/3_Game/CommunityFramework/ObjectManager/ObjectManager.c:254-268 | returns the previously hidden inputs in input order. Every listed object ends up unregistered, and states and the log end as the batch functions say |
| CommunityFramework.ObjectManager.UnhideMapObjectsInRadius | JM/CF/Scripts/3_Game/CommunityFramework/ObjectManager/ObjectManager.c:282-296 | the same as UnhideMapObjects, for the objects found in the cylinder or the sphere, including what the array becomes |
| CommunityFramework.ObjectManager.GetKey | JM/CF/Scripts/3_Game/CommunityFramework/ObjectManager/ObjectManager.c:313 | the key taken is a registered object |
| CommunityFramework.ObjectManager.UnhideAllMapObjects | JM/CF/Scripts/3_Game/CommunityFramework/ObjectManager/ObjectManager.c:307-323 | visits ⌈N/2⌉ distinct registrations and leaves ⌊N/2⌋. Each returned object was hidden before and is unregistered after. If every registered object was hidden, those left are still hidden |
| CommunityFramework.ObjectManager.GetHiddenMapObjects | JM/CF/Scripts/3_Game/CommunityFramework/ObjectManager/ObjectManager.c:333-342 | lists, in array order and each once, exactly the hidden objects |
| CommunityFramework.ObjectManager.GetRegisteredObjects | JM/CF/Scripts/3_Game/CommunityFramework/ObjectManager/ObjectManager.c:352-361 | lists the array's objects in the array's order: exactly the registered ones, as many as the map holds |
| CommunityFramework.ObjectManager.UnhideAllHiddenMapObjects | JM/CF/Scripts/3_Game/CommunityFramework/ObjectManager/ObjectManager.c:307-323 | corrected unhide-all: unhides every hidden object, in array order, leaving none hidden; the array keeps exactly the objects that were not hidden |
| CommunityFramework.ObjectManager.Cleanup | JM/CF/Scripts/3_Game/CommunityFramework/ObjectManager/ObjectManager.c:416-424 | both collections end empty, with nothing hidden |
| Scenarios.HideThenUnhide | JM/CF/Scripts/3_Game/CommunityFramework/ObjectManager/ObjectManager.c:254-268 | hide a list of unregistered objects, then unhide what was returned. The same objects come back, the world and both collections are as before, and the same path-graph updates are asked for twice |
| Scenarios.UnregisterFirstOfThree | JM/CF/Scripts/3_Game/CommunityFramework/ObjectManager/ObjectManager.c:60-61 | unregistering the first of three objects turns the array `[a, b, c]` into `[c, b]` |
| Scenarios.HideTwo | JM/CF/Scripts/3_Game/CommunityFramework/ObjectManager/ObjectManager.c:141-162 | hiding two distinct map objects on an empty manager hides and registers both |
| Scenarios.HideBoth | JM/CF/Scripts/3_Game/CommunityFramework/ObjectManager/ObjectManager.c:141-162 | the same through HideMapObjects |
| Scenarios.UnhideAllLeavesOneOfTwo | JM/CF/Scripts/3_Game/CommunityFramework/ObjectManager/ObjectManager.c:311-316 | with two hidden objects, UnhideAllMapObjects unhides one and the other stays hidden |
| Scenarios.UnhideAllHiddenUnhidesBoth | JM/CF/Scripts/3_Game/CommunityFramework/ObjectManager/ObjectManager.c:333-342 | in the same situation the corrected version unhides both and leaves nothing hidden |
| Scenarios.TwoListed | JM/CF/Scripts/3_Game/CommunityFramework/ObjectManager/ObjectManager.c:336-339 | with exactly two objects hidden, walking the array lists two |

## Left out

- Floating point. Positions are integer triples and the clipping radius is a natural number, so moving down by 10000 and up again is exact.
- The transform matrix. Only its translation row is modelled, as the object's position. `Object.Update()` has no modelled effect.
- Bit words. The 32-bit flag words are sets of bit positions below 32. `&~` and `|` become set difference and union, with nothing else of the word's arithmetic used.
- Shared links. The source's map and array both hold one link object, and `hidden` is written through that shared reference. Here the link is a value stored in the map, and the array lists the registered objects, element i standing for the link of the i-th object. Aliasing between the two containers is therefore not modelled, only its effect.
- Per-object fields. The engine's objects keep their own position, flags and event mask. Here they live in one `World` table keyed by object, and every engine call changes that object's entry only.
- World membership. The methods that touch an object's state require the object to have an entry in that table. The engine has no object without such state.
- Spatial queries. The engine's `GetObjectsAtPosition` and `GetObjectsAtPosition3D` are not modelled. The radius calls take their results as input lists.
- Path-graph recomputation. `UpdatePathgraphRegion` is recorded in a ghost log of requested regions, in order, and not carried out.
- Memory management. The effect of `delete` on links and on the containers is not modelled. `_Cleanup` empties both collections.
- The type taxonomy. The config type, script type, "House" inheritance, tree and bush tests are fixed boolean properties of each object, not computed from class hierarchies.
- MVCLayout.c is not part of this model (UI layout wiring).
- Null objects. `RegisterObject` takes a non-null object: in the source it is only called from `HideMapObject` after `IsMapObject` has rejected null, and a direct call with null would dereference it.
- Child objects. `ClearFlags` and `SetFlags` are called with `recursively = true`, which also changes the object's children. Children are not modelled; the flags of the object itself are.
- Default arguments. `updatePathGraph` (default true) and `limitHeight` (default false) are explicit parameters of every method.
- CommunityFramework.ObjectManager.GetKey: returns some registered key rather than the key at index n of the engine map's enumeration, because that order is not specified. The model therefore covers every possible order.
- CommunityFramework.ObjectManager.UnhideAllMapObjects: which registrations it visits is left open (it follows GetKey). The contract fixes how many it visits and what happens to them, not which ones.
- CommunityFramework.ObjectManager.HideMapObjectsInRadius: the source repeats the loop of HideMapObjects inline. The model calls HideMapObjects, which does the same.

## Findings

| source | as written | input that shows it | evidently intended | confidence | as-written member | corrected member |
|---|---|---|---|---|---|---|
| JM/CF/Scripts/3_Game/CommunityFramework/ObjectManager/ObjectManager.c:311-316 | the loop index rises while each unhide removes the current key, so only ⌈N/2⌉ of N registrations are visited | two hidden map objects on an otherwise empty manager: one is unhidden, the other stays hidden | unhide every hidden object | not executed; proved for every enumeration order | Scenarios.UnhideAllLeavesOneOfTwo | CommunityFramework.ObjectManager.UnhideAllHiddenMapObjects |
