/** The host's handling of one SPE: ring context, open slot, slot and ack arrays, and the
    published atomic (src/spefifo.c). */
module SpeQueue {
  import opened Words
  import opened Indices
  import opened HostSide
  import opened Harvesting
  import opened Ring

  class Queue {
    const ring: RingContext
    const slots: array<Task>
    const acks: array<Ack>
    var isKicked: bool
    var entrySlot: nat
    var entryCount: nat
    var atomicState: nat
    var atomicCount: nat

    ghost const Repr: set<object> := {this, ring, slots, acks}

    ghost predicate Valid()
      reads this, ring
    {
      && ring.Valid()
      && slots.Length == acks.Length == ring.size
      && entrySlot < slots.Length
      && entryCount < TASK_WORDS && atomicCount < slots.Length
    }

    /** As fifoInit leaves it: an empty ring, nothing open, nothing published, no ack. */
    ghost predicate Fresh()
      reads this, ring, acks
    {
      && ring.front == 0 && ring.back == 0 && isKicked
      && atomicState == 0 && atomicCount == 0
      && forall i | 0 <= i < acks.Length :: acks[i].taskId == 0xC1EE_7000
    }

    ghost function View(): (h: Host)
      reads this, ring, slots, acks
      requires Valid()
      ensures h.Shape() && h.Size() == slots.Length && h.entryCount < TASK_WORDS && h.count < h.Size()
    {
      Host(ring.front, ring.back, isKicked, entrySlot, entryCount, atomicState, atomicCount, slots[..], acks[..])
    }

    lemma FreshIsEmpty()
      requires Valid() && Fresh()
      ensures !View().HasRemaining() && (View().HasFree() <==> slots.Length >= 2)
    {
    }

    /** allocate_fifo and the per-SPE part of fifoInit; slots start with whatever memory holds. */
    constructor (entries: Word)
      requires entries > 0
      ensures Valid() && fresh(Repr) && slots.Length == entries
      ensures Fresh()
    {
      slots := new Task[entries];
      acks := new Ack[entries];
      atomicCount := 0;
      atomicState := 0;
      isKicked := true;
      entrySlot, entryCount := 0, 0;
      ring := new RingContext(entries);
      new;
      var i := 0;
      while i < entries
        invariant 0 <= i <= entries
        invariant Valid() && fresh(Repr) && slots.Length == entries
        invariant ring.front == 0 && ring.back == 0 && isKicked && atomicState == 0 && atomicCount == 0
        invariant forall k | 0 <= k < i :: acks[k].Clear()
      {
        acks[i] := acks[i].(taskId := ACK_CLEAR);
        i := i + 1;
      }
    }

    /** Word `w` of the open slot is the next one: store it and count it. */
    method PutWord(w: nat, v: Word)
      requires Valid() && w == entryCount && w + 1 < TASK_WORDS
      modifies this`entryCount, slots
      ensures Valid() && entryCount == w + 1 && View() == old(View()).WriteNext(v)
    {
      slots[entrySlot] := slots[entrySlot][w := v];
      entryCount := entryCount + 1;
      assert slots[..] == old(slots[..])[entrySlot := old(slots[entrySlot])[w := v]];
    }

    /** fifoBegin, on the SPE that was selected. */
    method Begin(command: Word, handle: Word)
      requires Valid()
      modifies this, ring`front, slots
      ensures Valid() && View() == HostSide.Begin(old(View()), command, handle)
    {
      if !isKicked {
        ring.IncFront();
      }
      isKicked := false;
      entryCount := 0;
      entrySlot := ring.front;
      hide Host.WriteNext;
      PutWord(0, command);
      PutWord(1, handle);
    }

    /** The part of fifoRegisterProgram before its kick. */
    method Register(size: Word, high: Word, low: Word)
      requires Valid()
      modifies this, slots
      ensures Valid() && View() == OpenRegistration(old(View()), size, high, low)
    {
      isKicked := false;
      entryCount := 0;
      entrySlot := ring.front;
      hide Host.WriteNext;
      PutWord(0, REGISTER_PROGRAM);
      PutWord(1, size);
      PutWord(2, high);
      PutWord(3, low);
    }

    /** fifoAdd */
    method Add(arg: Word)
      requires Valid()
      modifies this`entryCount, slots
      ensures Valid() && View() == HostSide.Add(old(View()), arg)
    {
      if entryCount + 1 != TASK_WORDS {
        PutWord(entryCount, arg);
      }
    }

    /** send_front, with the reservation loop as one store */
    method SendFront()
      requires Valid()
      modifies this`atomicState, this`atomicCount
      ensures Valid() && View() == old(View()).SetState().SetCount()
    {
      var message := ring.front;
      if atomicState != 1 {
        atomicState := 1;
      }
      atomicCount := message;
    }

    /** fifoKick */
    method Kick()
      requires Valid()
      modifies this, ring`front
      ensures Valid() && View() == HostSide.Kick(old(View()))
    {
      SendFront();
      isKicked := true;
      ring.IncFront();
    }

    /** The inner loop of fifothread for one SPE, on acks that nothing else changes meanwhile. */
    method Harvest()
      requires Valid()
      modifies ring`back, acks
      ensures Valid() && View() == HarvestAll(old(View()))
    {
      while !acks[ring.back].Clear()
        invariant Valid() && HarvestAll(View()) == HarvestAll(old(View()))
        decreases Unclear(acks[..])
      {
        ghost var h := View();
        ClearingCounts(h.acks, h.back);
        acks[ring.back] := acks[ring.back].(taskId := ACK_CLEAR);
        assert acks[..] == h.ClearAck().acks;
        ring.IncBack();
        assert View() == h.ClearAck().AdvanceBack();
      }
    }
  }
}
