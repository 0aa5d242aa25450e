/** The host's side of one SPE queue: the ring indices, the open slot, the published
    two-word atomic and the slot and ack arrays, with one function per memory write. */
module HostSide {
  import opened Words
  import opened Indices

  datatype Host = Host(
    front: nat, back: nat,
    isKicked: bool, entrySlot: nat, entryCount: nat,
    state: nat, count: nat,
    slots: seq<Task>, acks: seq<Ack>)
  {
    function Size(): nat { |slots| }

    predicate Shape()
    {
      && 0 < |slots| == |acks|
      && front < Size() && back < Size() && entrySlot < Size()
      && entryCount <= TASK_WORDS
    }

    predicate HasFree()
      requires Shape()
    {
      Increment(front, Size()) != back
    }

    /** Room for a second slot beyond the one that `HasFree` finds. */
    predicate HasTwoFree()
      requires Shape()
    {
      HasFree() && Increment(Increment(front, Size()), Size()) != back
    }

    predicate HasRemaining() { front != back }

    function AdvanceFront(): Host
      requires Shape()
    {
      this.(front := Increment(front, Size()))
    }

    function AdvanceBack(): Host
      requires Shape()
    {
      this.(back := Increment(back, Size()))
    }

    function OpenSlot(): Host
    {
      this.(isKicked := false, entrySlot := front, entryCount := 0)
    }

    function WriteNext(v: Word): Host
      requires Shape() && entryCount < TASK_WORDS
    {
      this.(slots := slots[entrySlot := slots[entrySlot][entryCount := v]], entryCount := entryCount + 1)
    }

    function SetState(): Host { this.(state := 1) }

    function SetCount(): Host { this.(count := front) }

    function SetKicked(): Host { this.(isKicked := true) }

    function ClearAck(): Host
      requires Shape()
    {
      this.(acks := acks[back := acks[back].(taskId := ACK_CLEAR)])
    }

    /** An ack put of the SPU reaching host memory. */
    function Land(slot: nat, ack: Ack): Host
      requires slot < |acks|
    {
      this.(acks := acks[slot := ack])
    }
  }

  /** `fifoBegin` on the selected SPE. */
  function Begin(h: Host, command: Word, handle: Word): (r: Host)
    requires h.Shape()
    ensures r.Shape() && r.Size() == h.Size()
    ensures !r.isKicked && r.entrySlot == r.front && r.entryCount == 2
  {
    var moved := if h.isKicked then h else h.AdvanceFront();
    moved.OpenSlot().WriteNext(command).WriteNext(handle)
  }

  /** `fifoAdd`: the last word of a slot is never written. */
  function Add(h: Host, arg: Word): (r: Host)
    requires h.Shape() && h.entryCount < TASK_WORDS
    ensures r.Shape() && r.Size() == h.Size() && h.entryCount <= r.entryCount < TASK_WORDS
    ensures r == h.(entryCount := r.entryCount, slots := r.slots)
  {
    if h.entryCount + 1 != TASK_WORDS then h.WriteNext(arg) else h
  }

  /** The slot that `fifoRegisterProgram` fills before its kick: no test for a free slot and
      none for a slot already open. */
  function OpenRegistration(h: Host, size: Word, high: Word, low: Word): (r: Host)
    requires h.Shape()
    ensures r.Shape() && r.Size() == h.Size()
    ensures !r.isKicked && r.entrySlot == r.front == h.front && r.entryCount == 4
  {
    h.OpenSlot().WriteNext(REGISTER_PROGRAM).WriteNext(size).WriteNext(high).WriteNext(low)
  }

  /** `fifoKick`: publish the front index, then move past it. */
  function Kick(h: Host): (r: Host)
    requires h.Shape()
    ensures r.Shape() && r.Size() == h.Size()
  {
    h.SetState().SetCount().SetKicked().AdvanceFront()
  }
}
