/** What a begin and a list of adds leave in the open slot. */
module SlotBuilding {
  import opened Words
  import opened Indices
  import opened HostSide

  function AddAll(h: Host, args: seq<Word>): (r: Host)
    requires h.Shape() && h.entryCount < TASK_WORDS
    ensures r.Shape() && r.Size() == h.Size() && r.entryCount < TASK_WORDS
    decreases |args|
  {
    if args == [] then h else AddAll(Add(h, args[0]), args[1..])
  }

  /** How many of `wanted` further words a slot with `count` words takes: its last word stays
      unused. */
  function Taken(count: nat, wanted: nat): nat
    requires count < TASK_WORDS
  {
    if wanted <= TASK_WORDS - 1 - count then wanted else TASK_WORDS - 1 - count
  }

  function Overwrite(t: Task, at: nat, words: seq<Word>): Task
    requires at + |words| <= TASK_WORDS
  {
    t[..at] + words + t[at + |words|..]
  }

  lemma OverwriteNext(t: Task, at: nat, word: Word, words: seq<Word>)
    requires at + 1 + |words| <= TASK_WORDS
    ensures Overwrite(t[at := word], at + 1, words) == Overwrite(t, at, [word] + words)
  {
  }

  lemma {:induction false} AddsFill(h: Host, args: seq<Word>)
    requires h.Shape() && h.entryCount < TASK_WORDS
    ensures var m := Taken(h.entryCount, |args|);
      AddAll(h, args) == h.(
        entryCount := h.entryCount + m,
        slots := h.slots[h.entrySlot := Overwrite(h.slots[h.entrySlot], h.entryCount, args[..m])])
    decreases |args|
  {
    var c, m, t := h.entryCount, Taken(h.entryCount, |args|), h.slots[h.entrySlot];
    if args == [] {
      assert Overwrite(t, c, args[..0]) == t;
    } else if m == 0 {
      AddsFill(h, args[1..]);
      assert args[..0] == args[1..][..0];
    } else {
      var next := Add(h, args[0]);
      AddsFill(next, args[1..]);
      assert args[..m] == [args[0]] + args[1..][..m - 1];
      OverwriteNext(t, c, args[0], args[1..][..m - 1]);
      hide Overwrite;
    }
  }

  lemma BeginBuilds(h: Host, command: Word, handle: Word)
    requires h.Shape()
    ensures var slot := OpenedSlot(h);
      Begin(h, command, handle) == h.(
        front := slot, isKicked := false, entrySlot := slot, entryCount := 2,
        slots := h.slots[slot := Overwrite(h.slots[slot], 0, [command, handle])])
  {
    var slot := if h.isKicked then h.front else Increment(h.front, h.Size());
    assert h.slots[slot][0 := command][1 := handle] == Overwrite(h.slots[slot], 0, [command, handle]);
  }

  function OpenedSlot(h: Host): nat
    requires h.Shape()
  {
    if h.isKicked then h.front else Increment(h.front, h.Size())
  }

  /** After a begin and any adds, the open slot holds the command, the handle and the arguments
      in order, as many as fit below its last word; the rest of the slot, every other slot and
      the ring are as the begin found or left them. */
  lemma BeginAndAddsBuild(h: Host, command: Word, handle: Word, args: seq<Word>)
    requires h.Shape()
    ensures var slot, m := OpenedSlot(h), Taken(2, |args|);
      AddAll(Begin(h, command, handle), args) == h.(
        front := slot, isKicked := false, entrySlot := slot, entryCount := 2 + m,
        slots := h.slots[slot := Overwrite(h.slots[slot], 0, [command, handle] + args[..m])])
  {
    hide Begin, AddAll, Overwrite;
    var slot, m, b := OpenedSlot(h), Taken(2, |args|), Begin(h, command, handle);
    var t, first := h.slots[slot], Overwrite(h.slots[slot], 0, [command, handle]);
    BeginBuilds(h, command, handle);
    assert b.Shape() && b.entryCount == 2 && b.entrySlot == slot && b.slots == h.slots[slot := first];
    hide *;
    AddsFill(b, args);
    OverwriteTwice(t, [command, handle], args[..m]);
    assert b.slots[slot] == first;
    UpdateTwice(h.slots, slot, first, Overwrite(first, 2, args[..m]));
  }

  /** What a slot holds when it is kicked, in numbers: 32 words, of which the last is never
      written; the command, the handle and up to 29 arguments. */
  predicate HoldsTask(t: Task, before: Task, command: Word, handle: Word, args: seq<Word>)
  {
    && |t| == |before| == 32
    && t == if |args| <= 29 then [command, handle] + args + before[2 + |args|..]
            else [command, handle] + args[..29] + [before[31]]
  }

  lemma SlotHoldsTask(h: Host, command: Word, handle: Word, args: seq<Word>)
    requires h.Shape()
    ensures var r := AddAll(Begin(h, command, handle), args);
      && r.front == r.entrySlot == OpenedSlot(h)
      && HoldsTask(r.slots[r.front], h.slots[r.front], command, handle, args)
  {
    BeginAndAddsBuild(h, command, handle, args);
    hide Begin, AddAll;
  }

  lemma UpdateTwice(s: seq<Task>, i: nat, a: Task, b: Task)
    requires i < |s|
    ensures s[i := a][i := b] == s[i := b]
  {
  }

  lemma OverwriteTwice(t: Task, a: seq<Word>, b: seq<Word>)
    requires |a| + |b| <= TASK_WORDS
    ensures Overwrite(Overwrite(t, 0, a), |a|, b) == Overwrite(t, 0, a + b)
  {
  }

  /** `fifo_addition(adds)` up to its kick. */
  lemma AdditionBuilds(h: Host, adds: Word)
    requires h.Shape()
    ensures var b := Begin(h, ADD, HANDLE);
      var r := AddAll(b, [adds, 1, 2]);
      && r == Add(Add(Add(b, adds), 1), 2)
      && IsAddition(r.slots[r.front], adds)
  {
    var b := Begin(h, ADD, HANDLE);
    AddsAre(b, [adds, 1, 2]);
  }

  lemma AddsAre(b: Host, args: seq<Word>)
    requires b.Shape() && b.entryCount < TASK_WORDS && |args| == 3
    ensures AddAll(b, args) == Add(Add(Add(b, args[0]), args[1]), args[2])
  {
    hide Add;
    var one := Add(b, args[0]);
    var two := Add(one, args[1]);
    assert AddAll(b, args) == AddAll(one, args[1..]);
    assert AddAll(one, args[1..]) == AddAll(two, args[2..]) by { assert args[1..][1..] == args[2..]; }
    assert AddAll(two, args[2..]) == AddAll(Add(two, args[2]), []) by { assert args[2..][1..] == []; }
  }
}
