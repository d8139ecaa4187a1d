/**
 * The append-only arena of src/compiler/ref_arena.rs. Storage is shared by
 * every clone of an `Arena` and by every `ArenaRef` into it (an `Rc` in the
 * source); here that storage is one object, so sharing is aliasing of a
 * Dafny reference. Nothing is ever removed, so an index never goes stale and
 * the generational counter of the underlying arena is not needed.
 */
module RefArena {
  class Arena<T> {
    /** The stored values, in insertion order. */
    var items: seq<T>

    /** `Arena::new`: nothing stored. */
    constructor ()
      ensures items == []
    {
      items := [];
    }

    /**
     * `insert`: the value goes at the end, every earlier value stays where it
     * was, and the returned ref reads back the value just inserted.
     */
    method Insert(t: T) returns (r: ArenaRef<T>)
      modifies this
      ensures items == old(items) + [t]
      ensures r.arena == this && r.idx == |old(items)| && r.Valid() && r.Get() == t
      ensures forall i :: 0 <= i < |old(items)| ==> items[i] == old(items)[i]
    {
      r := ArenaRef(|items|, this);
      items := items + [t];
    }
  }

  /** A position in a particular arena. */
  datatype ArenaRef<T> = ArenaRef(idx: nat, arena: Arena<T>)
  {
    /** The position exists in the arena; once true it stays true, since the arena only grows. */
    predicate Valid()
      reads arena
    {
      idx < |arena.items|
    }

    /** `get`: the value at this position. */
    function Get(): (t: T)
      reads arena
      requires Valid()
      ensures t in arena.items
    {
      arena.items[idx]
    }

    /**
     * A write through `get_mut`: the value at this position is replaced and
     * every other value of the arena is left alone.
     */
    method Put(t: T)
      requires Valid()
      modifies arena
      ensures Valid() && Get() == t
      ensures |arena.items| == |old(arena.items)|
      ensures forall i :: 0 <= i < |arena.items| && i != idx ==> arena.items[i] == old(arena.items)[i]
    {
      arena.items := arena.items[idx := t];
    }

    /** `clone`: the same position in the same (shared) arena. */
    function Clone(): (c: ArenaRef<T>)
      ensures c.idx == idx && c.arena == arena
    {
      ArenaRef(idx, arena)
    }
  }

  /**
   * Refs handed out earlier stay valid, and still read the same values,
   * after further inserts.
   */
  method InsertTwice<T>(a: T, b: T) returns (ra: ArenaRef<T>, rb: ArenaRef<T>, first: T, second: T)
    ensures ra.arena == rb.arena && ra.idx != rb.idx
    ensures first == a && second == b
  {
    var arena := new Arena<T>();
    ra := arena.Insert(a);
    rb := arena.Insert(b);
    first := ra.Get();
    second := rb.Get();
  }

  /** A clone reads what the original reads, also after a write through the original. */
  method CloneSeesWrites<T>(a: T, b: T) returns (seen: T)
    ensures seen == b
  {
    var arena := new Arena<T>();
    var r := arena.Insert(a);
    var c := r.Clone();
    r.Put(b);
    seen := c.Get();
  }
}
