/** Concrete runs: the queue starts, works, and shows where the code falls short of its promise. */
module Scenario {
  import opened Words
  import opened Indices
  import opened HostSide
  import opened SpuSide
  import opened Protocol
  import opened Preservation
  import opened Runs
  import opened Delivery
  import opened Timeline
  import opened SlotBuilding
  import opened Refinement
  import opened HostRuns
  import opened Draining
  import opened Occupancy

  // ----- one `fifoNoop` on a ring of two slots

  function StartConfig(mode: Addressing, boot: Task): Config { Config(2, mode, boot) }

  function BootContext(boot: Task): Context { Context(false, 0, boot, Ack(0, 0), {}, 0, NoPut) }

  /** A ring of two slots over memory that holds `boot` in every task buffer. */
  function StartPoint(boot: Task): Point
  {
    Point(State(Host(0, 0, true, 0, 0, 0, 0, [boot, boot], [Ack(ACK_CLEAR, 0), Ack(ACK_CLEAR, 0)]),
                Spu(1, 1, 1, 0, [BootContext(boot), BootContext(boot), BootContext(boot), BootContext(boot)]),
                Idle, Scanning, Polling),
          Log([boot], 0, 0, 0, [], [], [0, 0, 0, 0], [0, 0, 0, 0]))
  }

  lemma StartIsInit(mode: Addressing, boot: Task)
    ensures Init(StartConfig(mode, boot), StartPoint(boot).s, StartPoint(boot).l)
    ensures Reachable(StartConfig(mode, boot), StartPoint(boot))
  {
    assert Run(StartConfig(mode, boot), StartPoint(boot), [], StartPoint(boot));
  }

  function NoopTask(boot: Task): Task { boot[0 := NOOP][1 := HANDLE] }

  /** `fifoNoop` up to the write of `count` in its kick. */
  lemma {:induction false} NoopPublished(mode: Addressing, boot: Task) returns (q: Point)
    ensures Reachable(StartConfig(mode, boot), q) && AtEntry(q.s)
    ensures q.s.producer == Flagging && q.s.harvester == Scanning && q.s.host.back == 0
    ensures q.l.content == [boot, NoopTask(boot)] && q.l.published == 1 && q.l.harvested == []
  {
    var cfg, p := StartConfig(mode, boot), StartPoint(boot);
    StartIsInit(mode, boot);
    InitInv(cfg, p.s, p.l);
    var a := BeginIsRun(cfg, p, NOOP, HANDLE);
    ReachableExtends(cfg, p, [Check, Open, Write(NOOP), Write(HANDLE)], a);
    q := PublishIsRun(cfg, a);
  }

  /** `fifoKick` up to the write of `count`. */
  lemma {:induction false} PublishIsRun(cfg: Config, a: Point) returns (q: Point)
    requires Reachable(cfg, a) && a.s.producer == Filling
    ensures Reachable(cfg, q)
    ensures q.s == a.s.(producer := Flagging, host := a.s.host.SetState().SetCount())
    ensures a.s.host.Shape()
    ensures q.l == a.l.(content := a.l.content + [a.s.host.slots[a.s.host.front]], published := |a.l.content|)
  {
    ReachableInv(cfg, a);
    hide Contexts, Transfers, Puts, Acks, History, SlotsStable, Counters, Positions, Reachable;
    var b := Next(cfg, a, KickState);
    q := Next(cfg, b, KickCount);
    assert Run(cfg, a, [], a);
    Extend(cfg, a, [], a, KickState);
    Extend(cfg, a, [] + [KickState], b, KickCount);
    ReachableExtends(cfg, a, [] + [KickState] + [KickCount], q);
  }

  /** The pipeline retires the no-op while the producer is still inside `fifoKick`. */
  lemma {:induction false} NoopRetired(mode: Addressing, boot: Task) returns (q: Point)
    ensures Reachable(StartConfig(mode, boot), q)
    ensures q.s.producer == Flagging && q.s.harvester == Scanning && q.s.host.back == 0
    ensures q.l.content == [boot, NoopTask(boot)] && LogShape(q.l) && |q.l.retired| == 1
  {
    hide Reachable, Run, AtEntry, NoopTask;
    var cfg := StartConfig(mode, boot);
    var p := NoopPublished(mode, boot);
    var steps;
    steps, q := PipelineCompletes(cfg, p);
    ReachableExtends(cfg, p, steps, q);
    FrozenKeepsContent(cfg, p, steps, q);
    ReachableCount(cfg, q);
  }

  /** As written, the SPU answers the first publication without having fetched it: it retires the
      start-up content of the last slot under the publication's index. */
  lemma {:induction false} AsWrittenMissesFirstTask(boot: Task) returns (q: Point)
    requires boot[0] != NOOP
    ensures Reachable(StartConfig(AsWritten, boot), q)
    ensures LogShape(q.l) && Publications(q.l) == [NoopTask(boot)] && RetiredTasks(q.l) == [boot]
    ensures !(RetiredTasks(q.l) <= Publications(q.l))
  {
    q := NoopRetired(AsWritten, boot);
    AsWrittenDeliversOneLate(StartConfig(AsWritten, boot), q);
    assert RetiredTasks(q.l)[0] == ([boot] + Publications(q.l))[0];
    hide Reachable;
    assert RetiredTasks(q.l)[0][0] != Publications(q.l)[0][0];
  }

  lemma LandedCanBeHarvested(cfg: Config, s: State, l: Log)
    requires Inv(cfg, s, l) && s.harvester == Scanning && |l.harvested| < |l.retired|
    requires !PutPending(s.spu.pipe, l.putIndex, |l.harvested|)
    ensures Enabled(cfg, s, HarvestRead)
  {
    hide Contexts, Transfers, Puts, SlotsStable, PutPending;
    assert AckOf(s.host.acks, |l.harvested|) == s.host.acks[s.host.back];
  }

  lemma {:induction false} OldestPut(cfg: Config, s: State, l: Log) returns (c: nat)
    requires Inv(cfg, s, l) && PutPending(s.spu.pipe, l.putIndex, |l.harvested|)
    ensures c < STAGES && s.spu.pipe[c].put.PutTo? && Enabled(cfg, s, PutLands(c))
    ensures !PutPending(s.spu.PutDone(c).pipe, l.putIndex, |l.harvested|)
  {
    hide Contexts, Transfers, Acks, History, SlotsStable, Positions, Counters;
    c :| 0 <= c < STAGES && s.spu.pipe[c].put.PutTo? && l.putIndex[c] == |l.harvested|;
  }

  /** The oldest retirement's ack can land, if it has not yet, and then the harvester finds it. */
  lemma {:induction false} LandOldest(cfg: Config, p: Point) returns (q: Point)
    requires Reachable(cfg, p) && p.s.harvester == Scanning
    requires LogShape(p.l) && |p.l.harvested| < |p.l.retired|
    ensures Reachable(cfg, q) && q.s == p.s.(spu := q.s.spu, host := q.s.host) && q.l == p.l
    ensures CanStep(cfg, q, HarvestRead)
  {
    hide Run, Reachable, Inv, PutPending, Frozen, Turns;
    ReachableInv(cfg, p);
    ReachableCount(cfg, p);
    q := p;
    if PutPending(p.s.spu.pipe, p.l.putIndex, |p.l.harvested|) {
      var c := OldestPut(cfg, p.s, p.l);
      q := Next(cfg, p, PutLands(c));
      SingleRun(cfg, p, PutLands(c));
      ReachableExtends(cfg, p, [PutLands(c)], q);
    }
    ReachableInv(cfg, q);
    LandedCanBeHarvested(cfg, q.s, q.l);
  }

  /** The window inside `fifoKick` is real: before the kick has stepped `front`, the SPU may have
      answered and the harvester may have stepped `back` past it. */
  lemma {:induction false} BackOvertakesFront(boot: Task) returns (q: Point)
    ensures Reachable(StartConfig(AsMeant, boot), q) && LogShape(q.l)
    ensures InKick(q.s) && Back(q.s, q.l) == Front(q.s, q.l) + 1
  {
    hide Run, Reachable, NoopTask, Frozen, Turns;
    var cfg := StartConfig(AsMeant, boot);
    var p := NoopRetired(AsMeant, boot);
    NothingHarvested(cfg, p);
    var a := LandOldest(cfg, p);
    var b := Next(cfg, a, HarvestRead);
    SingleRun(cfg, a, HarvestRead);
    ReachableExtends(cfg, a, [HarvestRead], b);
    var c := Next(cfg, b, HarvestClear);
    SingleRun(cfg, b, HarvestClear);
    ReachableExtends(cfg, b, [HarvestClear], c);
    q := Next(cfg, c, HarvestAdvance);
    SingleRun(cfg, c, HarvestAdvance);
    ReachableExtends(cfg, c, [HarvestAdvance], q);
  }

  lemma NothingHarvested(cfg: Config, p: Point)
    requires Reachable(cfg, p) && cfg.n == 2 && p.s.harvester == Scanning && p.s.host.back == 0
    requires LogShape(p.l) && |p.l.retired| == 1
    ensures p.l.harvested == []
  {
    ReachableInv(cfg, p);
    hide Contexts, Transfers, Puts, Acks, History, SlotsStable, Reachable, Run;
    assert At(2, 2) == 1;
  }

  // ----- the ring of two slots, past its tests

  /** One `fifoNoop` fills the ring. */
  lemma {:induction false} FullRing(mode: Addressing, boot: Task) returns (p: Point)
    ensures Reachable(StartConfig(mode, boot), p) && p.s.producer == Idle && p.s.host.Shape()
    ensures !p.s.host.HasFree()
    ensures LogShape(p.l) && Publications(p.l) == [NoopTask(boot)] && p.l.retired == []
    ensures p.l.fetched == Back(p.s, p.l) == 0
  {
    var cfg, start := StartConfig(mode, boot), StartPoint(boot);
    StartIsInit(mode, boot);
    InitInv(cfg, start.s, start.l);
    var steps;
    hide Run, Reachable, Inv;
    steps, p := TaskIsRun(cfg, start, NOOP, HANDLE, []);
    assert Overwrite(boot, 0, [NOOP, HANDLE] + [][..Taken(2, 0)]) == NoopTask(boot);
    ReachableExtends(cfg, start, steps, p);
    BeginAndAddsBuild(start.s.host, NOOP, HANDLE, []);
  }

  /** A registration on that ring: two tasks are kicked and none has run, and yet the ring reads
      empty and the SPU's next poll finds nothing to fetch. */
  lemma {:induction false} RegistrationStallsFullRing(mode: Addressing, boot: Task, size: Word, high: Word, low: Word)
    returns (p: Point)
    ensures Reachable(StartConfig(mode, boot), p) && p.s.host.Shape() && LogShape(p.l)
    ensures var r := Registered(p, size, high, low);
      && LogShape(r.l) && |Publications(r.l)| == r.l.published == 2 && r.l.retired == []
      && !r.s.host.HasRemaining() && !r.s.spu.Poll(r.s.host).TasksRemaining()
      && !(exists steps :: Run(StartConfig(mode, boot), p, steps, r))
  {
    p := FullRing(mode, boot);
    hide Reachable, Run, Inv, Kick, OpenRegistration;
    ReachableInv(StartConfig(mode, boot), p);
    RegistrationHidesALap(StartConfig(mode, boot), p, size, high, low);
    RegisterIsRun(StartConfig(mode, boot), p, size, high, low);
  }

  /** A begun no-op leaves one slot free. */
  lemma {:induction false} OpenRing(mode: Addressing, boot: Task) returns (p: Point)
    ensures Reachable(StartConfig(mode, boot), p) && p.s.producer == Filling && p.s.host.Shape()
    ensures p.s.host.HasFree() && !p.s.host.HasTwoFree()
    ensures !p.s.host.isKicked && p.s.host.front == 0 && p.s.host.Size() == 2
    ensures p.s.host.slots[p.s.host.front] == NoopTask(boot) && p.s.host.entryCount == 2
    ensures LogShape(p.l) && Publications(p.l) == [] && p.l.fetched == Back(p.s, p.l) == 0
  {
    var cfg, start := StartConfig(mode, boot), StartPoint(boot);
    StartIsInit(mode, boot);
    InitInv(cfg, start.s, start.l);
    hide Run, Reachable, Inv;
    p := BeginIsRun(cfg, start, NOOP, HANDLE);
    ReachableExtends(cfg, start, [Check, Open, Write(NOOP), Write(HANDLE)], p);
  }

  /** A second begin there, which `ringHasFree` admits, and a kick: two slots are closed, the ring
      reads empty and the SPU's next poll finds nothing. */
  lemma {:induction false} SecondBeginStallsRing(mode: Addressing, boot: Task, command: Word, handle: Word)
    returns (p: Point)
    ensures Reachable(StartConfig(mode, boot), p) && p.s.producer == Filling
    ensures p.s.host.Shape() && p.s.host.HasFree()
    ensures var h := Kick(Begin(p.s.host, command, handle));
      && h.slots[0] == NoopTask(boot) && h.slots[1][..2] == [command, handle]
      && !h.HasRemaining() && !p.s.spu.Poll(h).TasksRemaining()
    ensures !(exists steps :: Run(StartConfig(mode, boot), p, steps, BegunAgain(p, command, handle)))
  {
    p := OpenRing(mode, boot);
    hide Reachable, Run, Inv;
    ReachableInv(StartConfig(mode, boot), p);
    SecondBeginHidesALap(StartConfig(mode, boot), p, command, handle);
    SecondBegin(StartConfig(mode, boot), p, command, handle);
    BeginBuilds(p.s.host, command, handle);
    assert Overwrite(p.s.host.slots[1], 0, [command, handle])[..2] == [command, handle];
  }

  /** A registration there publishes one task, and that is not the begun no-op. */
  lemma {:induction false} RegistrationLosesNoop(mode: Addressing, boot: Task, size: Word, high: Word, low: Word)
    returns (p: Point)
    ensures Reachable(StartConfig(mode, boot), p) && p.s.host.Shape() && LogShape(p.l)
    ensures p.s.host.slots[p.s.host.front] == NoopTask(boot) && Publications(p.l) == []
    ensures var r := Registered(p, size, high, low);
      && LogShape(r.l) && |Publications(r.l)| == 1
      && Publications(r.l)[0][..4] == RegistrationWords(size, high, low)
      && !(exists steps :: Run(StartConfig(mode, boot), p, steps, r))
  {
    p := OpenRing(mode, boot);
    hide Reachable, Run, Inv;
    ReachableInv(StartConfig(mode, boot), p);
    RegistrationTakesTheOpenSlot(StartConfig(mode, boot), p, size, high, low);
    RegisterIsRun(StartConfig(mode, boot), p, size, high, low);
    assert NoopTask(boot)[..2][0] == NOOP;
  }
}
