/** The doubly linked list of slots of a channel (source/channel.c).

The list is a chain of heap objects linked both ways. `slots` is its reading as a sequence; each operation
is proved to do to the sequence what its name says, with every link of every slot in place afterwards. The
second half is about the message overhead each slot caches, which insertions do not recompute.
*/
module ChannelSlots {
  import opened Basics

  /** What the overhead computation looks at: the overhead of the slot's handler, if it has one, and the cached
      sum of the overheads to its left. */
  datatype Info = Info(handler: Option<Size>, upstream: Size)

  class Slot {
    var adjLeft: Slot?
    var adjRight: Slot?
    var handler: Option<Size>
    var upstreamOverhead: Size

    constructor ()
      ensures adjLeft == null && adjRight == null && handler == None && upstreamOverhead == 0
    {
      adjLeft, adjRight, handler, upstreamOverhead := null, null, None, 0;
    }
  }

  /** Position `i` of a chain: its neighbours are the ones before and after it, or none at the ends. */
  ghost predicate Linked(slots: seq<Slot>, i: int)
    requires 0 <= i < |slots|
    reads slots[i]
  {
    && slots[i].adjLeft == (if i == 0 then null else slots[i - 1])
    && slots[i].adjRight == (if i == |slots| - 1 then null else slots[i + 1])
  }

  ghost predicate Distinct(slots: seq<Slot>) {
    forall i, j :: 0 <= i < j < |slots| ==> slots[i] != slots[j]
  }

  ghost function Infos(slots: seq<Slot>): seq<Info>
    reads slots
  {
    seq(|slots|, i requires 0 <= i < |slots| reads slots => Info(slots[i].handler, slots[i].upstreamOverhead))
  }

  ghost predicate SameHandler(slots: seq<Slot>, infos: seq<Info>, k: int)
    requires 0 <= k < |slots| && k < |infos|
    reads slots[k]
  {
    slots[k].handler == infos[k].handler
  }

  ghost predicate Caches(slots: seq<Slot>, infos: seq<Info>, k: int)
    requires 0 <= k < |slots| && k < |infos|
    reads slots[k]
  {
    slots[k].upstreamOverhead == SumTo(infos, k)
  }

  class SlotChannel {
    var first: Slot?
    ghost var slots: seq<Slot>

    ghost predicate Valid()
      reads this, slots
    {
      && Distinct(slots)
      && first == (if slots == [] then null else slots[0])
      && (forall i :: 0 <= i < |slots| ==> Linked(slots, i))
    }

    constructor ()
      ensures Valid() && slots == []
    {
      first, slots := null, [];
    }

    /** aws_channel_slot_new: the first slot ever made becomes the head of the list. */
    method NewSlot() returns (slot: Slot)
      requires Valid()
      modifies this
      ensures Valid() && fresh(slot) && slot.handler == None
      ensures slots == if old(slots) == [] then [slot] else old(slots)
    {
      slot := new Slot();
      if first == null {
        first := slot;
        slots := [slot];
      }
    }

    method LinkRight(slot: Slot, toAdd: Slot, ghost i: nat)
      requires Valid() && i < |slots| && slots[i] == slot && toAdd !in slots
      modifies this`slots, slots, toAdd
      ensures Valid()
      ensures slots == old(slots)[..i + 1] + [toAdd] + old(slots)[i + 1..]
      ensures SameInfo(slots)
    {
      ghost var was := slots;
      assert Linked(was, i);
      toAdd.adjRight := slot.adjRight;
      if slot.adjRight != null {
        slot.adjRight.adjLeft := toAdd;
      }
      slot.adjRight := toAdd;
      toAdd.adjLeft := slot;
      slots := was[..i + 1] + [toAdd] + was[i + 1..];
      forall k | 0 <= k < |slots| ensures Linked(slots, k) {
        assert k != i + 1 ==> old(Linked(was, if k <= i then k else k - 1));
      }
    }

    method LinkLeft(slot: Slot, toAdd: Slot, ghost i: nat)
      requires Valid() && i < |slots| && slots[i] == slot && toAdd !in slots
      modifies this, slots, toAdd
      ensures Valid()
      ensures slots == old(slots)[..i] + [toAdd] + old(slots)[i..]
      ensures SameInfo(slots)
    {
      ghost var was := slots;
      assert Linked(was, i);
      toAdd.adjLeft := slot.adjLeft;
      if slot.adjLeft != null {
        slot.adjLeft.adjRight := toAdd;
      }
      slot.adjLeft := toAdd;
      toAdd.adjRight := slot;
      if slot == first {
        first := toAdd;
      }
      slots := was[..i] + [toAdd] + was[i..];
      forall k | 0 <= k < |slots| ensures Linked(slots, k) {
        assert k != i ==> old(Linked(was, if k < i then k else k - 1));
      }
    }

    /** aws_channel_slot_insert_right */
    method InsertRight(slot: Slot, toAdd: Slot, ghost i: nat)
      requires Valid() && i < |slots| && slots[i] == slot && toAdd !in slots
      modifies this`slots, slots, toAdd
      ensures Valid()
      ensures slots == old(slots)[..i + 1] + [toAdd] + old(slots)[i + 1..]
      ensures SameInfo(slots)
      ensures old(OverheadsRight(Infos(slots))) ==>
        (OverheadsRight(Infos(slots)) <==>
          old(InsertionSafe(Infos(slots)[..i + 1], Info(toAdd.handler, toAdd.upstreamOverhead), Infos(slots)[i + 1..])))
    {
      LinkRight(slot, toAdd, i);
      assert Infos(old(slots)) == old(Infos(slots));
      OverheadsAfterInserting(old(slots), i + 1, toAdd);
    }

    /** aws_channel_slot_insert_left */
    method InsertLeft(slot: Slot, toAdd: Slot, ghost i: nat)
      requires Valid() && i < |slots| && slots[i] == slot && toAdd !in slots
      modifies this, slots, toAdd
      ensures Valid()
      ensures slots == old(slots)[..i] + [toAdd] + old(slots)[i..]
      ensures SameInfo(slots)
      ensures old(OverheadsRight(Infos(slots))) ==>
        (OverheadsRight(Infos(slots)) <==>
          old(InsertionSafe(Infos(slots)[..i], Info(toAdd.handler, toAdd.upstreamOverhead), Infos(slots)[i..])))
    {
      LinkLeft(slot, toAdd, i);
      assert Infos(old(slots)) == old(Infos(slots));
      OverheadsAfterInserting(old(slots), i, toAdd);
    }

    /** Fails when there is no first slot, or the slot to add is already the first. */
    method InsertEnd(toAdd: Slot) returns (ok: bool)
      requires Valid() && (toAdd !in slots || toAdd == first)
      modifies this`slots, slots, toAdd
      ensures ok == (old(slots) != [] && old(first) != toAdd)
      ensures slots == if ok then old(slots) + [toAdd] else old(slots)
      ensures Valid() && SameInfo(slots)
      ensures ok && old(OverheadsRight(Infos(slots))) ==>
        (OverheadsRight(Infos(slots)) <==>
          old(InsertionSafe(Infos(slots), Info(toAdd.handler, toAdd.upstreamOverhead), [])))
      ensures !ok ==> Infos(slots) == old(Infos(slots))
    {
      if first == null || first == toAdd {
        return false;
      }
      var cur := first;
      ghost var i := 0;
      assert Linked(slots, 0);
      while cur.adjRight != null
        invariant 0 <= i < |slots| && slots[i] == cur && Linked(slots, i)
        decreases |slots| - i
      {
        cur := cur.adjRight;
        i := i + 1;
        assert Linked(slots, i);
      }
      InsertRight(cur, toAdd, i);
      assert old(slots)[..i + 1] == old(slots);
      assert old(Infos(slots)[..i + 1] == Infos(slots) && Infos(slots)[i + 1..] == []);
      ok := true;
    }

    /** aws_channel_slot_remove up to recomputing the overheads: a slot that was never inserted is left alone. */
    method Unlink(slot: Slot, ghost i: nat)
      requires Valid()
      requires if i < |slots| then slots[i] == slot else slot !in slots && slot.adjLeft == null && slot.adjRight == null
      modifies this, slots
      ensures slots == if i < |old(slots)| then old(slots)[..i] + old(slots)[i + 1..] else old(slots)
      ensures Valid() && SameInfo(slots)
    {
      ghost var was := slots;
      assert i < |was| ==> Linked(was, i);
      if slot.adjRight != null {
        slot.adjRight.adjLeft := slot.adjLeft;
        if slot == first {
          first := slot.adjRight;
        }
      }
      if slot.adjLeft != null {
        slot.adjLeft.adjRight := slot.adjRight;
      }
      if slot == first {
        first := null;
      }
      if i < |was| {
        slots := was[..i] + was[i + 1..];
        forall k | 0 <= k < |slots| ensures Linked(slots, k) {
          assert old(Linked(was, if k < i then k else k + 1));
        }
      }
    }

    /** aws_channel_slot_replace up to recomputing the overheads. */
    method Substitute(remove: Slot, newSlot: Slot, ghost i: nat)
      requires Valid() && i < |slots| && slots[i] == remove && newSlot !in slots
      modifies this, slots, newSlot
      ensures slots == old(slots)[i := newSlot]
      ensures Valid() && SameInfo(slots)
    {
      ghost var was := slots;
      assert Linked(was, i);
      newSlot.adjLeft := remove.adjLeft;
      if remove.adjLeft != null {
        remove.adjLeft.adjRight := newSlot;
      }
      newSlot.adjRight := remove.adjRight;
      if remove.adjRight != null {
        remove.adjRight.adjLeft := newSlot;
      }
      if remove == first {
        first := newSlot;
      }
      slots := was[i := newSlot];
      forall k | 0 <= k < |slots| ensures Linked(slots, k) {
        assert old(Linked(was, k));
      }
    }

    /** The loop of s_update_channel_slot_message_overheads. */
    method AssignOverheads(ghost infos: seq<Info>)
      requires Valid() && |infos| == |slots|
      requires forall k :: 0 <= k < |slots| ==> SameHandler(slots, infos, k)
      modifies slots`upstreamOverhead
      ensures forall k :: 0 <= k < |slots| ==> Caches(slots, infos, k)
    {
      ghost var i := 0;
      var overhead: Size := 0;
      var iter := first;
      while iter != null
        invariant 0 <= i <= |slots| && iter == (if i == |slots| then null else slots[i])
        invariant overhead == SumTo(infos, i)
        invariant forall k :: 0 <= k < i ==> Caches(slots, infos, k)
        decreases |slots| - i
      {
        assert old(Linked(slots, i)) && old(SameHandler(slots, infos, i));
        iter.upstreamOverhead := overhead;
        if iter.handler.Some? {
          overhead := AddWrap(overhead, iter.handler.value);
        }
        iter := iter.adjRight;
        i := i + 1;
      }
    }

    /** s_update_channel_slot_message_overheads */
    method UpdateOverheads()
      requires Valid()
      modifies slots`upstreamOverhead
      ensures Valid() && OverheadsRight(Infos(slots))
      ensures forall s :: s in slots ==> s.handler == old(s.handler)
    {
      ghost var infos := Infos(slots);
      AssignOverheads(infos);
      forall k | 0 <= k < |slots| ensures Linked(slots, k) {
        assert old(Linked(slots, k));
      }
      ghost var now := Infos(slots);
      forall k | 0 <= k < |slots| ensures now[k].upstream == SumTo(now, k) {
        assert Caches(slots, infos, k);
        SameHandlersSameSums(infos, now, k);
      }
    }

    method SetHandler(slot: Slot, overhead: Size)
      requires Valid() && slot in slots
      modifies slots
      ensures Valid() && slots == old(slots) && OverheadsRight(Infos(slots))
      ensures slot.handler == Some(overhead)
      ensures forall s :: s in slots && s != slot ==> s.handler == old(s.handler)
    {
      slot.handler := Some(overhead);
      assert forall i :: 0 <= i < |slots| ==> old(Linked(slots, i)) ==> Linked(slots, i);
      UpdateOverheads();
    }

    method Remove(slot: Slot, ghost i: nat)
      requires Valid()
      requires if i < |slots| then slots[i] == slot else slot !in slots && slot.adjLeft == null && slot.adjRight == null
      modifies this, slots
      ensures Valid() && OverheadsRight(Infos(slots))
      ensures slots == if i < |old(slots)| then old(slots)[..i] + old(slots)[i + 1..] else old(slots)
      ensures forall s :: s in slots ==> s in old(slots) && s.handler == old(s.handler)
    {
      Unlink(slot, i);
      UpdateOverheads();
    }

    method Replace(remove: Slot, newSlot: Slot, ghost i: nat)
      requires Valid() && i < |slots| && slots[i] == remove && newSlot !in slots
      modifies this, slots, newSlot
      ensures Valid() && OverheadsRight(Infos(slots))
      ensures slots == old(slots)[i := newSlot]
      ensures forall s :: s in slots ==> s.handler == old(s.handler)
    {
      Substitute(remove, newSlot, i);
      UpdateOverheads();
    }
  }

  twostate predicate SameInfo(slots: seq<Slot>)
    reads slots
  {
    forall s :: s in slots ==> s.handler == old(s.handler) && s.upstreamOverhead == old(s.upstreamOverhead)
  }

  // ----- The cached overheads -----

  function OverheadOf(x: Info): Size {
    if x.handler.Some? then x.handler.value else 0
  }

  /** The sum of the overheads of the handlers left of position `i`, as the machine adds them up. */
  function SumTo(infos: seq<Info>, i: nat): Size
    requires i <= |infos|
  {
    if i == 0 then 0 else AddWrap(SumTo(infos, i - 1), OverheadOf(infos[i - 1]))
  }

  ghost predicate RightAt(infos: seq<Info>, i: nat)
    requires i < |infos|
  {
    infos[i].handler.Some? ==> infos[i].upstream == SumTo(infos, i)
  }

  /** Every slot that holds a handler caches the sum of the overheads of the handlers to its left. */
  ghost predicate OverheadsRight(infos: seq<Info>) {
    forall i :: 0 <= i < |infos| ==> RightAt(infos, i)
  }

  lemma {:induction false} SameHandlersSameSums(a: seq<Info>, b: seq<Info>, i: nat)
    requires i <= |a| && i <= |b| && forall k :: 0 <= k < i ==> a[k].handler == b[k].handler
    ensures SumTo(a, i) == SumTo(b, i)
  {
    if i > 0 {
      SameHandlersSameSums(a, b, i - 1);
    }
  }

  /** Insertions recompute nothing. With the overheads right before, they are right afterwards exactly when
      the inserted slot has no handler yet, or already caches the right sum and shifts no handler behind it. */
  ghost predicate InsertionSafe(a: seq<Info>, x: Info, b: seq<Info>) {
    x.handler.Some? ==>
      && x.upstream == SumTo(a, |a|)
      && (x.handler.value == 0 || forall k :: 0 <= k < |b| ==> b[k].handler.None?)
  }

  lemma {:induction false} SumsAfterInsertion(a: seq<Info>, x: Info, b: seq<Info>, k: nat)
    requires k <= |b|
    ensures SumTo(a + [x] + b, |a| + 1 + k) == AddWrap(SumTo(a + b, |a| + k), OverheadOf(x))
  {
    var now := a + [x] + b;
    if k == 0 {
      SameHandlersSameSums(now, a + b, |a|);
      assert now[|a|] == x;
    } else {
      SumsAfterInsertion(a, x, b, k - 1);
      assert now[|a| + k] == (a + b)[|a| + k - 1];
    }
  }

  /** The slots left of the insertion see the same sums, and so does the inserted one. */
  lemma {:induction false} LeftOfInsertion(a: seq<Info>, x: Info, b: seq<Info>, i: nat)
    requires i <= |a|
    ensures SumTo(a + [x] + b, i) == SumTo(a, i) == SumTo(a + b, i)
  {
    SameHandlersSameSums(a + [x] + b, a, i);
    SameHandlersSameSums(a + b, a, i);
  }

  lemma {:induction false} RightOfInsertion(a: seq<Info>, x: Info, b: seq<Info>, k: nat)
    requires k < |b| && b[k].handler.Some? && OverheadsRight(a + b)
    ensures b[k].upstream == SumTo(a + [x] + b, |a| + 1 + k) <==> OverheadOf(x) == 0
  {
    SumsAfterInsertion(a, x, b, k);
    assert RightAt(a + b, |a| + k) && (a + b)[|a| + k] == b[k];
  }

  /** Which slots are right after the insertion: those on the left, the new one if it caches the right sum, and those
      with a handler on the right if nothing is added. */
  lemma {:induction false} RightAfterInsertion(a: seq<Info>, x: Info, b: seq<Info>, i: nat)
    requires OverheadsRight(a + b) && i < |a| + 1 + |b|
    ensures var now := a + [x] + b;
            RightAt(now, i) <==>
              if i < |a| then true
              else if i == |a| then x.handler.Some? ==> x.upstream == SumTo(a, |a|)
              else b[i - |a| - 1].handler.Some? ==> OverheadOf(x) == 0
  {
    var now := a + [x] + b;
    if i < |a| {
      LeftOfInsertion(a, x, b, i);
      assert RightAt(a + b, i) && now[i] == (a + b)[i];
    } else if i == |a| {
      LeftOfInsertion(a, x, b, i);
      assert now[i] == x;
    } else {
      var k := i - |a| - 1;
      assert now[i] == b[k];
      if b[k].handler.Some? {
        RightOfInsertion(a, x, b, k);
      }
    }
  }

  lemma {:induction false} OverheadsAfterInsertion(a: seq<Info>, x: Info, b: seq<Info>)
    requires OverheadsRight(a + b)
    ensures OverheadsRight(a + [x] + b) <==> InsertionSafe(a, x, b)
  {
    var now := a + [x] + b;
    if OverheadsRight(now) {
      assert RightAt(now, |a|);
      RightAfterInsertion(a, x, b, |a|);
      forall k | 0 <= k < |b| ensures b[k].handler.Some? ==> OverheadOf(x) == 0 {
        assert RightAt(now, |a| + 1 + k);
        RightAfterInsertion(a, x, b, |a| + 1 + k);
      }
    }
    if InsertionSafe(a, x, b) {
      forall i | 0 <= i < |now| ensures RightAt(now, i) {
        RightAfterInsertion(a, x, b, i);
      }
    }
  }

  /** The same for the list itself: what the caches say depends on the cached values alone. */
  lemma {:induction false} OverheadsAfterInserting(was: seq<Slot>, i: nat, added: Slot)
    requires i <= |was|
    ensures var now := was[..i] + [added] + was[i..];
      OverheadsRight(Infos(was)) ==>
        (OverheadsRight(Infos(now)) <==>
          InsertionSafe(Infos(was)[..i], Info(added.handler, added.upstreamOverhead), Infos(was)[i..]))
  {
    var a, x, b := Infos(was)[..i], Info(added.handler, added.upstreamOverhead), Infos(was)[i..];
    assert Infos(was) == a + b;
    assert Infos(was[..i] + [added] + was[i..]) == a + [x] + b;
    if OverheadsRight(Infos(was)) {
      OverheadsAfterInsertion(a, x, b);
    }
  }
}
