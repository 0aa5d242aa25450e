/** Whole calls of the host interface as runs of the transition system. */
module HostRuns {
  import opened Words
  import opened Indices
  import opened HostSide
  import opened SpuSide
  import opened Protocol
  import opened Preservation
  import opened Runs
  import opened Delivery
  import opened SlotBuilding
  import opened Refinement

  /** `fifoBegin` on an SPE whose slot is open, with two slots free: the open slot is closed as
      it is, in sequence for the next kick. */
  lemma {:induction false} SecondBeginIsRun(cfg: Config, p: Point, command: Word, handle: Word) returns (q: Point)
    requires Inv(cfg, p.s, p.l) && p.s.producer == Filling && p.s.host.HasTwoFree()
    ensures Run(cfg, p, [Recheck, Reopen, Write(command), Write(handle)], q)
    ensures q == Point(p.s.(host := Begin(p.s.host, command, handle)),
                       p.l.(content := p.l.content + [p.s.host.slots[p.s.host.front]]))
  {
    hide Contexts, Transfers, Puts, Acks, History, SlotsStable, Counters;
    assert !p.s.host.isKicked;
    var a := Next(cfg, p, Recheck);
    var b := Next(cfg, a, Reopen);
    var c := Next(cfg, b, Write(command));
    q := Next(cfg, c, Write(handle));
    hide Inv, Enabled, Move, Record;
    RunFour(cfg, p, Recheck, a, Reopen, b, Write(command), c, Write(handle), q);
  }

  /** Any number of `fifoAdd` calls. */
  lemma {:induction false} AddsAreRun(cfg: Config, p: Point, args: seq<Word>) returns (steps: seq<Step>, q: Point)
    requires Inv(cfg, p.s, p.l) && p.s.producer == Filling
    ensures p.s.host.Shape() && p.s.host.entryCount < TASK_WORDS
    ensures Run(cfg, p, steps, q) && q == Point(p.s.(host := AddAll(p.s.host, args)), p.l)
    decreases |args|
  {
    OpenHasRoom(cfg, p);
    hide Inv, Run, Add;
    if args == [] {
      steps, q := [], p;
      EmptyRun(cfg, p);
    } else {
      var first, a := AddIsRun(cfg, p, args[0]);
      RunKeepsInv(cfg, p, first, a);
      var rest;
      rest, q := AddsAreRun(cfg, a, args[1..]);
      RunsCompose(cfg, p, first, a, rest, q);
      steps := first + rest;
    }
  }

  lemma EmptyRun(cfg: Config, p: Point)
    ensures Run(cfg, p, [], p)
  {
  }

  lemma OpenHasRoom(cfg: Config, p: Point)
    requires Inv(cfg, p.s, p.l) && p.s.producer == Filling
    ensures p.s.host.Shape() && p.s.host.entryCount < TASK_WORDS
  {
    hide Contexts, Transfers, Puts, Acks, History, SlotsStable, Counters;
  }

  /** Begin, adds and kick on an SPE with nothing open and a free slot: one publication, which
      holds the command, the handle and the arguments that fit. */
  lemma {:induction false} TaskIsRun(cfg: Config, p: Point, command: Word, handle: Word, args: seq<Word>)
    returns (steps: seq<Step>, q: Point)
    requires Inv(cfg, p.s, p.l) && p.s.producer == Idle && p.s.host.HasFree()
    ensures Run(cfg, p, steps, q)
    ensures q.s == p.s.(host := Kick(AddAll(Begin(p.s.host, command, handle), args)))
    ensures var words := [command, handle] + args[..Taken(2, |args|)];
      q.l == p.l.(content := p.l.content + [Overwrite(p.s.host.slots[p.s.host.front], 0, words)],
                  published := |p.l.content|)
    ensures HoldsTask(q.l.content[|p.l.content|], p.s.host.slots[p.s.host.front], command, handle, args)
  {
    hide Run, Begin, Kick, AddAll, Overwrite, Contexts, Transfers, Puts, Acks, History, SlotsStable, Counters;
    var a := BeginIsRun(cfg, p, command, handle);
    var opening := [Check, Open, Write(command), Write(handle)];
    RunKeepsInv(cfg, p, opening, a);
    var filling, b := AddsAreRun(cfg, a, args);
    RunKeepsInv(cfg, a, filling, b);
    q := KickIsRun(cfg, b);
    BeginAndAddsBuild(p.s.host, command, handle, args);
    SlotHoldsTask(p.s.host, command, handle, args);
    assert p.s.host.isKicked;
    hide Inv;
    RunsCompose(cfg, p, opening, a, filling, b);
    RunsCompose(cfg, p, opening + filling, b, [KickState, KickCount, KickFlag, KickFront], q);
    steps := opening + filling + [KickState, KickCount, KickFlag, KickFront];
  }

  /** `fifo_addition` is a run that adds one publication, and that publication packs the
      addition. */
  lemma {:induction false} AdditionIsRun(cfg: Config, p: Point, adds: Word) returns (steps: seq<Step>, q: Point)
    requires Reachable(cfg, p) && p.s.producer == Idle && LogShape(p.l) && p.s.host.Shape() && p.s.host.HasFree()
    ensures Run(cfg, p, steps, q) && Reachable(cfg, q) && LogShape(q.l)
    ensures q.s == p.s.(host := Kick(Add(Add(Add(Begin(p.s.host, ADD, HANDLE), adds), 1), 2)))
    ensures |Publications(q.l)| == |Publications(p.l)| + 1 && Publications(p.l) <= Publications(q.l)
    ensures IsAddition(Publications(q.l)[|Publications(p.l)|], adds)
  {
    hide Run, Reachable, Inv, Begin, Kick, Add, AddAll;
    ReachableInv(cfg, p);
    steps, q := TaskIsRun(cfg, p, ADD, HANDLE, [adds, 1, 2]);
    AdditionBuilds(p.s.host, adds);
    ReachableExtends(cfg, p, steps, q);
    ReachableCount(cfg, q);
  }
}
