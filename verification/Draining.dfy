/** That work gets done: from any entry of the pipeline, with the producer doing nothing, there is
    a schedule that empties the queue. */
module Draining {
  import opened Words
  import opened Indices
  import opened HostSide
  import opened SpuSide
  import opened Protocol
  import opened Preservation
  import opened Runs
  import opened Delivery
  import opened Timeline
  import opened Harvesting
  import opened Refinement
  import opened HostRuns
  import opened Answers
  import opened SlotBuilding
  import opened Queues

  /** From any entry the SPU and its transfers can complete a pipeline run: a schedule exists that
      retires everything published. */
  lemma {:induction false} PipelineCompletes(cfg: Config, p: Point) returns (steps: seq<Step>, q: Point)
    requires Reachable(cfg, p) && AtEntry(p.s)
    ensures Run(cfg, p, steps, q) && Frozen(steps) && AtEntry(q.s)
    ensures |q.l.retired| == q.l.published == p.l.published
    ensures q.s.producer == p.s.producer && q.s.harvester == p.s.harvester
    ensures q.s.host == p.s.host.(acks := q.s.host.acks)
  {
    hide Run, Reachable, Frozen, Turns, IterateSpu, IterateHost, Iterations, AtEntry, Spu.PipelineExits;
    PipelineEntry(cfg, p);
    steps, q := [], p;
    steps, q := PipelineTurn(cfg, p, steps, q);
    while !q.s.spu.PipelineExits()
      invariant Run(cfg, p, steps, q) && Frozen(steps) && q.s.phase == Polling
      invariant q.s.producer == p.s.producer && q.s.harvester == p.s.harvester
      invariant q.s.host == p.s.host.(acks := q.s.host.acks)
      invariant p.l.seen <= p.l.published
      invariant q.s.spu.PipelineExits() <==> Turns(steps) >= Iterations(p.l.published - p.l.seen)
      invariant q.s.spu.PipelineExits() ==> AtEntry(q.s) && |q.l.retired| == q.l.published == p.l.published
      decreases Iterations(p.l.published - p.l.seen) - Turns(steps)
    {
      steps, q := PipelineTurn(cfg, p, steps, q);
    }
  }

  ghost predicate NoPuts(u: Spu, k: nat)
    requires |u.pipe| == STAGES && k <= STAGES
  {
    forall c | 0 <= c < k :: u.pipe[c].put == NoPut
  }

  /** Every put in flight can land. */
  lemma {:induction false} PutsLand(cfg: Config, p: Point, k: nat) returns (steps: seq<Step>, q: Point)
    requires Reachable(cfg, p) && AtEntry(p.s) && k <= STAGES
    ensures Run(cfg, p, steps, q) && Frozen(steps) && AtEntry(q.s) && NoPuts(q.s.spu, k)
    ensures q.l == p.l && q.s.producer == p.s.producer && q.s.harvester == p.s.harvester
  {
    hide Run, Reachable, Frozen, Turns;
    if k == 0 {
      PipelineEntry(cfg, p);
      steps, q := [], p;
    } else {
      steps, q := PutsLand(cfg, p, k - 1);
      if q.s.spu.pipe[k - 1].put.PutTo? {
        ReachableExtends(cfg, p, steps, q);
        ReachableCount(cfg, q);
        var step := PutLands(k - 1);
        var next := Next(cfg, q, step);
        SingleRun(cfg, q, step);
        Compose(cfg, p, steps, q, [step], next);
        steps, q := steps + [step], next;
      }
    }
  }

  /** The harvester can finish the ack it is at. */
  lemma {:induction false} HarvesterReturns(cfg: Config, p: Point) returns (steps: seq<Step>, q: Point)
    requires Reachable(cfg, p)
    ensures Run(cfg, p, steps, q) && Frozen(steps) && q.s.harvester == Scanning
    ensures q.s == p.s.(host := q.s.host, harvester := Scanning) && q.l == p.l.(harvested := q.l.harvested)
    decreases if p.s.harvester == Found then 2 else if p.s.harvester == Cleared then 1 else 0
  {
    hide Run, Reachable, Frozen, Turns;
    if p.s.harvester == Scanning {
      EmptyFrozen(cfg, p);
      steps, q := [], p;
    } else {
      ReachableCount(cfg, p);
      var step := if p.s.harvester == Found then HarvestClear else HarvestAdvance;
      var next := Next(cfg, p, step);
      SingleRun(cfg, p, step);
      ReachableExtends(cfg, p, [step], next);
      var rest;
      rest, q := HarvesterReturns(cfg, next);
      Compose(cfg, p, [step], next, rest, q);
      steps := [step] + rest;
    }
  }

  lemma EmptyFrozen(cfg: Config, p: Point)
    ensures Run(cfg, p, [], p) && Frozen([])
  {
  }

  /** With no put outstanding a pass of the harvest loop takes every retirement's ack. */
  lemma {:induction false} HarvestTakesAll(cfg: Config, p: Point) returns (steps: seq<Step>, q: Point)
    requires Reachable(cfg, p) && |p.s.spu.pipe| == STAGES && NoPuts(p.s.spu, STAGES) && p.s.harvester == Scanning
    ensures Run(cfg, p, steps, q) && Frozen(steps) && |q.l.harvested| == |q.l.retired|
    ensures q.s == p.s.(host := q.s.host) && q.l == p.l.(harvested := q.l.harvested)
  {
    hide Run, Reachable, Frozen, Inv, PutPending, HarvestAll;
    ReachableCount(cfg, p);
    steps, q := HarvestIsRun(cfg, p);
    HarvestAllStops(p.s.host);
    ReachableExtends(cfg, p, steps, q);
    ReachableInv(cfg, q);
    AcksByLanding(cfg, q.s, q.l);
    NoPutPending(q.s, q.l, |q.l.harvested|);
    assert AckOf(q.s.host.acks, |q.l.harvested|).Clear();
  }

  /** From any entry with nothing open, whatever is pending, the SPU, the DMA engine and the
      harvester can drain the queue without the producer: every kicked task is retired and its
      ack harvested, and `ringHasRemaining` says so. */
  lemma {:induction false} QueueDrains(cfg: Config, p: Point) returns (steps: seq<Step>, q: Point)
    requires Reachable(cfg, p) && AtEntry(p.s) && p.s.producer == Idle
    ensures Run(cfg, p, steps, q) && Frozen(steps) && Drained(q) && !q.s.host.HasRemaining()
    ensures q.l.content == p.l.content && AtEntry(q.s)
    ensures cfg.n >= 2 ==> q.s.host.Shape() && q.s.host.HasFree()
  {
    hide Run, Reachable, Frozen, Turns, Inv, NoPuts, Drained;
    var a, m := PipelineCompletes(cfg, p);
    ReachableExtends(cfg, p, a, m);
    FrozenKeepsContent(cfg, p, a, m);
    var b, n := PutsLand(cfg, m, STAGES);
    ReachableExtends(cfg, m, b, n);
    var c, o := HarvesterReturns(cfg, n);
    ReachableExtends(cfg, n, c, o);
    ReachableCount(cfg, o);
    var d;
    d, q := HarvestTakesAll(cfg, o);
    ReachableExtends(cfg, o, d, q);
    Compose(cfg, p, a, m, b, n);
    Compose(cfg, p, a + b, n, c, o);
    Compose(cfg, p, a + b + c, o, d, q);
    steps := a + b + c + d;
    ReachableInv(cfg, q);
    AllTaken(cfg, q);
    EmptyIff(cfg, q);
    ReachableCount(cfg, q);
    if cfg.n >= 2 { DrainedHasFree(cfg, q); }
  }

  lemma AllTaken(cfg: Config, q: Point)
    requires Inv(cfg, q.s, q.l) && q.s.producer == Idle && q.s.harvester == Scanning
    requires |q.l.harvested| == |q.l.retired| == q.l.published
    ensures Quiescent(cfg, q) && Drained(q)
  {
    hide Contexts, Transfers, Puts, Acks, History, SlotsStable, Positions;
  }

  lemma DrainedHasFree(cfg: Config, q: Point)
    requires Quiescent(cfg, q) && Drained(q) && cfg.n >= 2
    ensures q.s.host.HasFree()
  {
    HasFreeIff(cfg, q.s, q.l);
    hide Inv;
  }

  lemma {:induction false} FrozenKeepsContent(cfg: Config, p: Point, steps: seq<Step>, q: Point)
    requires Run(cfg, p, steps, q) && Frozen(steps)
    ensures q.l.content == p.l.content
    decreases |steps|
  {
    if steps != [] {
      assert !steps[0].ByProducer();
      FrozenKeepsContent(cfg, Next(cfg, p, steps[0]), steps[1..], q);
    }
  }

  /** `fifo_addition(adds)` on the queue as meant can always complete, and however it completes
      its ack carries the closed form of the sum, which is 0 for a negative `adds`. */
  lemma {:induction false} AdditionCompletes(cfg: Config, p: Point, adds: Word) returns (steps: seq<Step>, q: Point)
    requires Reachable(cfg, p) && AtEntry(p.s) && p.s.producer == Idle && cfg.mode == AsMeant
    requires LogShape(p.l) && p.s.host.Shape() && p.s.host.HasFree()
    ensures Run(cfg, p, steps, q) && Drained(q) && p.l.harvested <= q.l.harvested
    ensures var j := |Publications(p.l)|;
      var m: int := if adds < 0x8000_0000 then adds else 0;
      && |q.l.harvested| == j + 1
      && q.l.harvested[j].retval == (3 * m + m * (m - 1) / 2) % 0x1_0000_0000
  {
    hide Run, Reachable, Inv, Frozen, IsAddition, Begin, Kick, Add;
    var a, m := AdditionIsRun(cfg, p, adds);
    var b;
    b, q := QueueDrains(cfg, m);
    RunsCompose(cfg, p, a, m, b, q);
    steps := a + b;
    ReachableExtends(cfg, m, b, q);
    LogsOnlyGrow(cfg, p, steps, q);
    ReachableCount(cfg, q);
    AdditionWords(Publications(m.l)[|Publications(p.l)|], adds);
    AdditionEndToEnd(cfg, q, |Publications(p.l)|, if adds < 0x8000_0000 then adds else 0, 1, 2);
  }

  /** `fifoNoop` on the queue as meant, with nothing pending, can complete; its ack is then one
      that a context held before, as it was. */
  lemma {:induction false} NoopCompletes(cfg: Config, p: Point) returns (steps: seq<Step>, q: Point)
    requires Reachable(cfg, p) && AtEntry(p.s) && p.s.producer == Idle && cfg.mode == AsMeant
    requires Drained(p) && p.s.host.Shape() && p.s.host.HasFree()
    ensures Run(cfg, p, steps, q) && Drained(q) && p.l.harvested <= q.l.harvested
    ensures |q.l.harvested| == |p.l.harvested| + 1
    ensures HeldBy(p.s.spu.pipe, q.l.harvested[|p.l.harvested|]) && SameAcks(p.s.spu.pipe, q.s.spu.pipe)
  {
    hide Run, Reachable, Inv, Frozen, Begin, Kick, AddAll, HeldBy, SameAcks;
    ReachableInv(cfg, p);
    ReachableCount(cfg, p);
    var a, m := TaskIsRun(cfg, p, 0x1337_C0DE, 0x1EE7_C0DE, []);
    ReachableExtends(cfg, p, a, m);
    var b;
    b, q := QueueDrains(cfg, m);
    RunsCompose(cfg, p, a, m, b, q);
    steps := a + b;
    ReachableExtends(cfg, m, b, q);
    ReachableInv(cfg, q);
    LogsOnlyGrow(cfg, p, steps, q);
    assert q.l.content[|p.l.content|][0] == 0x1337_C0DE;
    OthersKeepAcks(cfg, p, steps, q);
    HarvestedIsRetired(cfg, q, |p.l.harvested|, 0);
  }
}
