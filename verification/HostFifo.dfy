/** The host interface over all SPEs (src/spefifo.c). */
module HostFifo {
  import opened Words
  import opened Indices
  import opened HostSide
  import opened Harvesting
  import opened SlotBuilding
  import opened Selection
  import opened SpeQueue

  class Fifo {
    const queues: seq<Queue>
    var currentSpe: nat

    ghost const Repr: set<object>

    ghost predicate Valid()
      reads this, Repr
    {
      && currentSpe < |queues| && this !in Repr
      && (forall i | 0 <= i < |queues| :: queues[i].Repr <= Repr && queues[i].Valid())
      && (forall i, j | 0 <= i < j < |queues| :: queues[i].Repr !! queues[j].Repr)
    }

    /** Which rings have a free slot. */
    ghost function Free(): (r: seq<bool>)
      reads this, Repr
      requires Valid()
      ensures |r| == |queues| > currentSpe
    {
      seq(|queues|, i requires 0 <= i < |queues| && Valid() reads this, Repr => queues[i].View().HasFree())
    }

    /** fifoInit: one queue per SPE, each with as many slots of 128 bytes as fit `fifoSize`. All
        are empty, and free unless they have a single slot. */
    constructor (spes: nat, fifoSize: Word)
      requires spes > 0 && 128 <= fifoSize < 0x8000_0000
      ensures Valid() && fresh(Repr) && |queues| == spes && currentSpe == 0
      ensures forall i | 0 <= i < spes ::
                && queues[i].slots.Length * 128 <= fifoSize < queues[i].slots.Length * 128 + 128
                && queues[i].Fresh() && !queues[i].View().HasRemaining()
      ensures forall i | 0 <= i < spes :: Free()[i] <==> fifoSize >= 256
    {
      currentSpe := 0;
      var entries := SlotsIn(fifoSize);
      hide SlotsIn;
      var qs, repr := MakeQueues(spes, entries);
      queues := qs;
      Repr := repr;
      new;
      hide Queue.View, Queue.Fresh, Queue.Valid;
      forall k | 0 <= k < spes
        ensures !queues[k].View().HasRemaining() && (queues[k].View().HasFree() <==> entries >= 2)
      {
        queues[k].FreshIsEmpty();
      }
    }

    /** A task takes 4 bytes a word. */
    static function SlotsIn(fifoSize: Word): (r: Word)
      ensures r * 128 <= fifoSize < r * 128 + 128
    {
      fifoSize / (4 * TASK_WORDS)
    }

    /** The loop of fifoInit. */
    static method MakeQueues(spes: nat, entries: Word) returns (qs: seq<Queue>, ghost repr: set<object>)
      requires entries > 0
      ensures |qs| == spes && fresh(repr)
      ensures forall k | 0 <= k < spes :: qs[k].Repr <= repr && qs[k].Valid() && qs[k].Fresh()
      ensures forall k | 0 <= k < spes :: qs[k].slots.Length == entries
      ensures forall k, l | 0 <= k < l < spes :: qs[k].Repr !! qs[l].Repr
    {
      hide Queue.Valid, Queue.Fresh;
      qs, repr := [], {};
      var i := 0;
      while i < spes
        invariant 0 <= i <= spes && |qs| == i && fresh(repr)
        invariant forall k | 0 <= k < i :: qs[k].Repr <= repr && qs[k].Valid() && qs[k].Fresh()
        invariant forall k | 0 <= k < i :: qs[k].slots.Length == entries
        invariant forall k, l | 0 <= k < l < i :: qs[k].Repr !! qs[l].Repr
      {
        var q := new Queue(entries);
        qs := qs + [q];
        repr := repr + q.Repr;
        i := i + 1;
      }
    }

    method Advance()
      requires Valid()
      modifies this
      ensures Valid() && currentSpe == Increment(old(currentSpe), |queues|)
      ensures Free() == old(Free())
    {
      currentSpe := currentSpe + 1;
      if currentSpe >= |queues| {
        currentSpe := 0;
      }
    }

    method CurrentHasFree() returns (r: bool)
      requires Valid()
      ensures r == Free()[currentSpe]
    {
      r := queues[currentSpe].ring.HasFree();
    }

    /** selectfifo: it spins until some ring has a free slot. */
    method SelectFifo() returns (spe: nat)
      requires Valid() && true in Free()
      modifies this
      ensures Valid() && spe == currentSpe
      ensures Free() == old(Free()) && IsPick(old(currentSpe), Free(), spe)
    {
      hide Distance, Increment, Fifo.Valid, Fifo.Free;
      ghost var start, free := currentSpe, Free();
      Advance();
      DistanceOn(start, start, |free|);
      var hasFree := CurrentHasFree();
      while !hasFree
        invariant Valid() && Free() == free && currentSpe < |free| && hasFree == free[currentSpe]
        invariant forall r | 0 <= r < |free| && Distance(start, r, |free|) < Distance(start, currentSpe, |free|) ::
                    !free[r]
        decreases |free| - Distance(start, currentSpe, |free|)
      {
        DistanceOn(start, currentSpe, |free|);
        Advance();
        hasFree := CurrentHasFree();
      }
      spe := currentSpe;
    }

    /** fifoBegin */
    method Begin(command: Word, handle: Word) returns (spe: nat)
      requires Valid() && true in Free()
      modifies this, Repr
      ensures Valid() && spe == currentSpe && IsPick(old(currentSpe), old(Free()), spe)
      ensures queues[spe].View() == HostSide.Begin(old(queues[spe].View()), command, handle)
      ensures forall i | 0 <= i < |queues| && i != spe :: queues[i].View() == old(queues[i].View())
    {
      hide IsPick;
      spe := SelectFifo();
      queues[spe].Begin(command, handle);
    }

    /** fifoAdd */
    method Add(spe: nat, arg: Word)
      requires Valid() && spe < |queues|
      modifies Repr
      ensures Valid()
      ensures queues[spe].View() == HostSide.Add(old(queues[spe].View()), arg)
      ensures forall i | 0 <= i < |queues| && i != spe :: queues[i].View() == old(queues[i].View())
    {
      queues[spe].Add(arg);
    }

    /** fifoKick */
    method Kick(spe: nat)
      requires Valid() && spe < |queues|
      modifies Repr
      ensures Valid()
      ensures queues[spe].View() == HostSide.Kick(old(queues[spe].View()))
      ensures forall i | 0 <= i < |queues| && i != spe :: queues[i].View() == old(queues[i].View())
    {
      queues[spe].Kick();
    }

    /** fifoNoop */
    method Noop() returns (spe: nat)
      requires Valid() && true in Free()
      modifies this, Repr
      ensures Valid() && spe == currentSpe && IsPick(old(currentSpe), old(Free()), spe)
      ensures queues[spe].View() == HostSide.Kick(HostSide.Begin(old(queues[spe].View()), NOOP, HANDLE))
      ensures queues[spe].View().slots[queues[spe].View().count][..2] == [0x1337_C0DE, 0x1EE7_C0DE]
      ensures forall i | 0 <= i < |queues| && i != spe :: queues[i].View() == old(queues[i].View())
    {
      hide IsPick, HostSide.Begin;
      spe := Begin(NOOP, HANDLE);
      BeginBuilds(old(queues[spe].View()), NOOP, HANDLE);
      Kick(spe);
    }

    /** fifo_addition: the slot it publishes on the selected SPE packs the addition. */
    method Addition(adds: Word) returns (spe: nat)
      requires Valid() && true in Free()
      modifies this, Repr
      ensures Valid() && spe == currentSpe && IsPick(old(currentSpe), old(Free()), spe)
      ensures var h := AddAll(HostSide.Begin(old(queues[spe].View()), ADD, HANDLE), [adds, 1, 2]);
        && queues[spe].View() == HostSide.Kick(h)
        && IsAddition(queues[spe].View().slots[queues[spe].View().count], adds)
      ensures forall i | 0 <= i < |queues| && i != spe :: queues[i].View() == old(queues[i].View())
    {
      hide IsPick, IsAddition, HostSide.Begin, HostSide.Add, AddAll;
      spe := Begin(ADD, HANDLE);
      AdditionBuilds(old(queues[spe].View()), adds);
      Add(spe, adds);
      Add(spe, 0x01);
      Add(spe, 0x02);
      Kick(spe);
    }

    /** fifoIsEmpty, with nothing else running. */
    method IsEmpty() returns (res: bool)
      requires Valid()
      ensures res <==> forall i | 0 <= i < |queues| :: !queues[i].View().HasRemaining()
    {
      for i := 0 to |queues|
        invariant forall k | 0 <= k < i :: !queues[k].View().HasRemaining()
      {
        var remaining := queues[i].ring.HasRemaining();
        if remaining {
          assert queues[i].View().HasRemaining();
          return false;
        }
      }
      return true;
    }

    /** One pass of fifothread over all SPEs, with nothing else running. */
    method HarvestPass()
      requires Valid()
      modifies Repr
      ensures Valid()
      ensures forall i | 0 <= i < |queues| :: queues[i].View() == HarvestAll(old(queues[i].View()))
    {
      hide HarvestAll;
      for i := 0 to |queues|
        invariant Valid()
        invariant forall k | 0 <= k < i :: queues[k].View() == HarvestAll(old(queues[k].View()))
        invariant forall k | i <= k < |queues| :: queues[k].View() == old(queues[k].View())
      {
        queues[i].Harvest();
      }
    }

    /** fifoRegisterProgram: one registration on every SPE, of the program at the 64-bit address
        `addr`; the lower half of the address names the program. */
    method RegisterProgram(addr: nat, size: Word) returns (id: Word)
      requires Valid() && addr < 0x1_0000_0000_0000_0000
      modifies Repr
      ensures Valid()
      ensures id == addr % 0x1_0000_0000
      ensures forall i | 0 <= i < |queues| ::
                queues[i].View()
                == HostSide.Kick(OpenRegistration(old(queues[i].View()), size, addr / 0x1_0000_0000, id))
    {
      hide OpenRegistration, HostSide.Kick;
      var high: Word, low: Word := addr / 0x1_0000_0000, addr % 0x1_0000_0000;
      id := low;
      for spe := 0 to |queues|
        invariant Valid()
        invariant forall k | 0 <= k < spe ::
                    queues[k].View() == HostSide.Kick(OpenRegistration(old(queues[k].View()), size, high, low))
        invariant forall k | spe <= k < |queues| :: queues[k].View() == old(queues[k].View())
      {
        queues[spe].Register(size, high, low);
        Kick(spe);
      }
    }
  }
}
