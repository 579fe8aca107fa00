/** The process-wide state of code generation: `Identifier::mem_map` (name to
    memory slot), `Identifier::mem_loc` (next slot, starting at 1) and the
    function-static `labelCount` of `IfStmt::gencode`. They are never reset in
    the source; here each compilation starts from `Fresh()`. */
module Context {

  datatype Ctx = Ctx(memMap: map<string, nat>, memLoc: nat, labelCount: nat)

  /** The state at program start: no names, next slot 1, label 0. */
  function Fresh(): Ctx {
    Ctx(map[], 1, 0)
  }

  /** `if (mem_map.find(name) == mem_map.end()) mem_map[name] = mem_loc++;`
      as written in the Identifier constructor and in VarDecl and
      VarDeclAssign code generation. */
  function Alloc(c: Ctx, name: string): (r: Ctx)
    ensures name in r.memMap
  {
    if name in c.memMap then c
    else c.(memMap := c.memMap[name := c.memLoc], memLoc := c.memLoc + 1)
  }

  /** `mem_map[name]` through `operator[]`: a missing name is inserted with slot 0. */
  function Subscript(c: Ctx, name: string): (r: Ctx)
    ensures name in r.memMap
  {
    if name in c.memMap then c else c.(memMap := c.memMap[name := 0])
  }

  /** The slot table's invariant: every slot is below the counter, the
      counter is at least 1, the non-zero slots are pairwise distinct, and
      every slot from 1 up to the counter has been handed out. Together: the
      names with a non-zero slot are numbered 1, 2, 3, ... without gaps. */
  predicate WellSlotted(c: Ctx) {
    && c.memLoc >= 1
    && (forall n :: n in c.memMap ==> c.memMap[n] < c.memLoc)
    && (forall a, b :: a in c.memMap && b in c.memMap && a != b && c.memMap[a] != 0 ==> c.memMap[a] != c.memMap[b])
    && (forall k :: 1 <= k < c.memLoc ==> k in c.memMap.Values)
  }

  /** `d` is a later state of `c`: no name loses or changes its slot, and
      neither counter goes down. */
  predicate Extends(c: Ctx, d: Ctx) {
    && (forall n :: n in c.memMap ==> n in d.memMap && d.memMap[n] == c.memMap[n])
    && c.memLoc <= d.memLoc
    && c.labelCount <= d.labelCount
  }

  lemma ExtendsTransitive(c: Ctx, d: Ctx, e: Ctx)
    requires Extends(c, d) && Extends(d, e)
    ensures Extends(c, e)
  {
  }

  /** What building or generating an expression may do to the statics: add
      names (keeping the invariant) and leave the label counter alone. */
  predicate Grows(c: Ctx, d: Ctx) {
    Extends(c, d) && d.labelCount == c.labelCount && (WellSlotted(c) ==> WellSlotted(d))
  }

  lemma GrowsTransitive(c: Ctx, d: Ctx, e: Ctx)
    requires Grows(c, d) && Grows(d, e)
    ensures Grows(c, e)
  {
    ExtendsTransitive(c, d, e);
  }

  /** A fresh state satisfies the invariant. */
  lemma FreshWellSlotted()
    ensures WellSlotted(Fresh())
  {
  }

  /** A present name keeps its slot and nothing changes; an absent name gets
      the current counter value, which then goes up by one. The label counter
      is untouched either way. */
  lemma AllocGivesNextSlot(c: Ctx, name: string)
    ensures name in c.memMap ==> Alloc(c, name) == c
    ensures name !in c.memMap ==>
      && Alloc(c, name).memMap == c.memMap[name := c.memLoc]
      && Alloc(c, name).memMap[name] == c.memLoc
      && Alloc(c, name).memLoc == c.memLoc + 1
    ensures Alloc(c, name).labelCount == c.labelCount
    ensures Extends(c, Alloc(c, name))
  {
  }

  /** Allocation keeps the slots distinct and consecutive. */
  lemma AllocWellSlotted(c: Ctx, name: string)
    requires WellSlotted(c)
    ensures WellSlotted(Alloc(c, name))
  {
    if name !in c.memMap {
      var r := Alloc(c, name);
      forall k | 1 <= k < r.memLoc
        ensures k in r.memMap.Values
      {
        if k < c.memLoc {
          assert k in c.memMap.Values;
          var n :| n in c.memMap && c.memMap[n] == k;
          assert r.memMap[n] == k;
        } else {
          assert r.memMap[name] == k;
        }
      }
    }
  }

  /** `operator[]` on a name never seen gives it slot 0 without moving the
      counter; on a known name it changes nothing. */
  lemma SubscriptOfMissingName(c: Ctx, name: string)
    ensures name in c.memMap ==> Subscript(c, name) == c
    ensures name !in c.memMap ==>
      && Subscript(c, name).memMap == c.memMap[name := 0]
      && Subscript(c, name).memLoc == c.memLoc
    ensures Subscript(c, name).labelCount == c.labelCount
    ensures Extends(c, Subscript(c, name))
  {
  }

  /** Inserting a slot-0 name keeps the invariant. */
  lemma SubscriptWellSlotted(c: Ctx, name: string)
    requires WellSlotted(c)
    ensures WellSlotted(Subscript(c, name))
  {
    if name !in c.memMap {
      var r := Subscript(c, name);
      forall k | 1 <= k < r.memLoc
        ensures k in r.memMap.Values
      {
        assert k in c.memMap.Values;
        var n :| n in c.memMap && c.memMap[n] == k;
        assert r.memMap[n] == k;
      }
    }
  }

  /** Allocating names in order, as a run of the program does. */
  function AllocAll(c: Ctx, names: seq<string>): Ctx
    decreases |names|
  {
    if names == [] then c else AllocAll(Alloc(c, names[0]), names[1..])
  }

  /** Names that were absent and distinct receive the slots memLoc, memLoc+1,
      ... in the order they are allocated. */
  lemma {:induction false} AllocAllConsecutive(c: Ctx, names: seq<string>)
    requires forall i :: 0 <= i < |names| ==> names[i] !in c.memMap
    requires forall i, j :: 0 <= i < j < |names| ==> names[i] != names[j]
    ensures AllocAll(c, names).memLoc == c.memLoc + |names|
    ensures forall i :: 0 <= i < |names| ==>
      names[i] in AllocAll(c, names).memMap && AllocAll(c, names).memMap[names[i]] == c.memLoc + i
    decreases |names|
  {
    if names != [] {
      var c1 := Alloc(c, names[0]);
      AllocAllConsecutive(c1, names[1..]);
      forall i | 0 <= i < |names|
        ensures names[i] in AllocAll(c, names).memMap && AllocAll(c, names).memMap[names[i]] == c.memLoc + i
      {
        if i == 0 {
          AllocAllKeeps(c1, names[1..], names[0]);
        } else {
          assert names[1..][i - 1] == names[i];
        }
      }
    }
  }

  /** Allocating two lists of names in a row is allocating their concatenation. */
  lemma {:induction false} AllocAllAppend(c: Ctx, a: seq<string>, b: seq<string>)
    ensures AllocAll(c, a + b) == AllocAll(AllocAll(c, a), b)
    decreases |a|
  {
    if a == [] {
      assert a + b == b;
    } else {
      assert (a + b)[0] == a[0] && (a + b)[1..] == a[1..] + b;
      AllocAllAppend(Alloc(c, a[0]), a[1..], b);
    }
  }

  /** Allocation never changes the slot of a name that already has one. */
  lemma {:induction false} AllocAllKeeps(c: Ctx, names: seq<string>, n: string)
    requires n in c.memMap
    ensures n in AllocAll(c, names).memMap && AllocAll(c, names).memMap[n] == c.memMap[n]
    decreases |names|
  {
    if names != [] {
      AllocAllKeeps(Alloc(c, names[0]), names[1..], n);
    }
  }

  /** The statics themselves, updated in place. */
  class Statics {
    var memMap: map<string, nat>
    var memLoc: nat
    var labelCount: nat

    /** The state at program start. */
    constructor ()
      ensures State() == Fresh()
    {
      memMap := map[];
      memLoc := 1;
      labelCount := 0;
    }

    function State(): Ctx
      reads this
    {
      Ctx(memMap, memLoc, labelCount)
    }

    /** Gives `name` a slot if it has none. */
    method Allocate(name: string)
      modifies this
      ensures State() == Alloc(old(State()), name)
    {
      if name !in memMap {
        memMap := memMap[name := memLoc];
        memLoc := memLoc + 1;
      }
    }

    /** `mem_map[name]` through `operator[]`. */
    method Slot(name: string) returns (slot: nat)
      modifies this
      ensures State() == Subscript(old(State()), name) && slot == memMap[name]
    {
      if name !in memMap {
        memMap := memMap[name := 0];
      }
      slot := memMap[name];
    }

    /** `int id = labelCount++;` */
    method NextLabel() returns (id: nat)
      modifies this
      ensures id == old(labelCount)
      ensures State() == old(State()).(labelCount := id + 1)
    {
      id := labelCount;
      labelCount := labelCount + 1;
    }
  }
}
