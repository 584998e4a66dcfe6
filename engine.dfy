/**
 * The parts of the game engine that the object manager touches: positions,
 * path-graph regions, the flag and event-mask bit operations, the engine's objects
 * and the table of their current states. Float vectors become integer triples, so
 * that moving an object away and back again is exact.
 */
module Engine {

  /** A world position (the translation row of an object's transform). */
  datatype Vec = Vec(x: int, y: int, z: int)

  /** `p` moved by `d` along each of the three axes. */
  function Shift(p: Vec, d: int): Vec
  {
    Vec(p.x + d, p.y + d, p.z + d)
  }

  /** An axis-aligned box given by its minimum and maximum corners. */
  datatype Region = Region(lo: Vec, hi: Vec)

  /**
   * A 32-bit flag word (the engine's object flags and event masks are `int`s used as bit
   * sets), written as the set of the positions of its 1 bits. Bitwise and, or and not
   * on the word are intersection, union and complement on the positions.
   */
  type Bits = s: set<nat> | forall b :: b in s ==> b < 32

  /** The engine's `ClearFlags` / `ClearEventMask`: `bits & ~mask`. */
  function ClearBits(bits: Bits, mask: Bits): Bits
  {
    bits - mask
  }

  /** The engine's `SetFlags` / `SetEventMask`: `bits | mask`. */
  function SetBits(bits: Bits, mask: Bits): Bits
  {
    bits + mask
  }

  /**
   * When every bit of the mask was on (in particular when the mask was captured from
   * the word itself), setting again the bits that were cleared gives back the word.
   */
  lemma RestoreCapturedBits(bits: Bits, mask: Bits)
    requires mask <= bits
    ensures SetBits(ClearBits(bits, mask), mask) == bits
  {
  }

  /** The part of an object's state that the object manager reads and writes. */
  datatype ObjectState = ObjectState(pos: Vec, flags: Bits, eventMask: Bits)

  /**
   * The engine's `Object`, as an identity with the fixed properties the object manager
   * asks about: its config type name (empty for an object placed in the map editor
   * without a config class), whether its script type is exactly `Object`, whether it is
   * a kind of "House" (buildings, wrecks, wells and the like), a tree or a bush, whether
   * it can affect the path graph, and its clipping radius. Its changing state lives in
   * the `World`.
   */
  class WorldObject {
    const configType: string
    const plainObject: bool
    const house: bool
    const tree: bool
    const bush: bool
    const affectsPathgraph: bool
    const clippingRadius: nat

    constructor (configType: string, plainObject: bool, house: bool, tree: bool, bush: bool, affectsPathgraph: bool, clippingRadius: nat)
      ensures this.configType == configType && this.plainObject == plainObject
      ensures this.house == house && this.tree == tree && this.bush == bush
      ensures this.affectsPathgraph == affectsPathgraph && this.clippingRadius == clippingRadius
    {
      this.configType := configType;
      this.plainObject := plainObject;
      this.house := house;
      this.tree := tree;
      this.bush := bush;
      this.affectsPathgraph := affectsPathgraph;
      this.clippingRadius := clippingRadius;
    }
  }

  /**
   * The engine's objects as one table: the position, flags and event mask each object
   * currently has. The engine calls the object manager makes on an object are the
   * methods below; each changes that object's entry and no other.
   */
  class World {
    var states: map<WorldObject, ObjectState>

    constructor ()
      ensures states == map[]
    {
      states := map[];
    }

    /** `Object.SetTransform` with a new translation row. */
    method SetPosition(o: WorldObject, p: Vec)
      requires o in states
      modifies this
      ensures states == old(states)[o := old(states)[o].(pos := p)]
    {
      states := states[o := states[o].(pos := p)];
    }

    /** `Object.ClearFlags(mask, true)`. */
    method ClearFlags(o: WorldObject, mask: Bits)
      requires o in states
      modifies this
      ensures states == old(states)[o := old(states)[o].(flags := ClearBits(old(states)[o].flags, mask))]
    {
      states := states[o := states[o].(flags := ClearBits(states[o].flags, mask))];
    }

    /** `Object.ClearEventMask(mask)`. */
    method ClearEventMask(o: WorldObject, mask: Bits)
      requires o in states
      modifies this
      ensures states == old(states)[o := old(states)[o].(eventMask := ClearBits(old(states)[o].eventMask, mask))]
    {
      states := states[o := states[o].(eventMask := ClearBits(states[o].eventMask, mask))];
    }

    /** `Object.SetFlags(mask, true)`. */
    method SetFlags(o: WorldObject, mask: Bits)
      requires o in states
      modifies this
      ensures states == old(states)[o := old(states)[o].(flags := SetBits(old(states)[o].flags, mask))]
    {
      states := states[o := states[o].(flags := SetBits(states[o].flags, mask))];
    }

    /** `Object.SetEventMask(mask)`. */
    method SetEventMask(o: WorldObject, mask: Bits)
      requires o in states
      modifies this
      ensures states == old(states)[o := old(states)[o].(eventMask := SetBits(old(states)[o].eventMask, mask))]
    {
      states := states[o := states[o].(eventMask := SetBits(states[o].eventMask, mask))];
    }
  }
}
