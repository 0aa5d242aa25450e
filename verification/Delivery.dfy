/** What the queue delivers: each publication once, in order, intact, and acknowledged at its
    own index. */
module Delivery {
  import opened Words
  import opened Indices
  import opened HostSide
  import opened SpuSide
  import opened Protocol
  import opened Preservation
  import opened Runs

  // ----- exactly once, in order

  lemma StepExtendsLogs(cfg: Config, p: Point, step: Step)
    requires CanStep(cfg, p, step)
    ensures var q := Next(cfg, p, step);
      p.l.content <= q.l.content && p.l.retired <= q.l.retired && p.l.harvested <= q.l.harvested
  {
  }

  /** No history is ever rewritten: along a run publications, retirements and harvests only
      gain entries at the end. */
  lemma {:induction false} LogsOnlyGrow(cfg: Config, p: Point, steps: seq<Step>, q: Point)
    requires Run(cfg, p, steps, q)
    ensures p.l.content <= q.l.content && p.l.retired <= q.l.retired && p.l.harvested <= q.l.harvested
    decreases |steps|
  {
    hide Enabled, Move, Record;
    if steps != [] {
      StepExtendsLogs(cfg, p, steps[0]);
      LogsOnlyGrow(cfg, Next(cfg, p, steps[0]), steps[1..], q);
    }
  }

  /** The words of the retired tasks, in order. */
  ghost function RetiredTasks(l: Log): seq<Task>
  {
    seq(|l.retired|, r requires 0 <= r < |l.retired| => l.retired[r].task)
  }

  ghost function RetiredAcks(l: Log): seq<Ack>
  {
    seq(|l.retired|, r requires 0 <= r < |l.retired| => l.retired[r].ack)
  }

  /** The publications, in order: `content` without the start-up content in front. */
  ghost function Publications(l: Log): seq<Task>
    requires LogShape(l)
  {
    l.content[1..]
  }

  /** With the slot addressed as meant, the SPU retires exactly the publications, in order,
      whatever the interleaving and however late the words of a transfer arrive; the host
      harvests exactly their acks, in order. */
  lemma ExactlyOnceInOrder(cfg: Config, q: Point)
    requires Reachable(cfg, q) && cfg.mode == AsMeant
    ensures LogShape(q.l) && RetiredTasks(q.l) <= Publications(q.l)
    ensures q.l.harvested <= RetiredAcks(q.l)
  {
    ReachableInv(cfg, q);
    hide Contexts, Transfers, Puts, Acks, SlotsStable, Run, Positions;
  }

  /** With the slot addressed as written, before `in_back` is stepped, every retirement carries
      the publication before its own, and the first one carries what the last slot held at
      start-up. */
  lemma AsWrittenDeliversOneLate(cfg: Config, q: Point)
    requires Reachable(cfg, q) && cfg.mode == AsWritten
    ensures LogShape(q.l) && RetiredTasks(q.l) <= [cfg.boot] + Publications(q.l)
    ensures q.l.harvested <= RetiredAcks(q.l)
  {
    ReachableInv(cfg, q);
    hide Contexts, Transfers, Puts, Acks, Run, Positions;
    assert q.l.content == [cfg.boot] + Publications(q.l);
  }

  /** As written, the SPU retires the publications in order if and only if every publication
      retired so far repeats the start-up content of the last slot. */
  lemma AsWrittenDeliversIff(cfg: Config, q: Point)
    requires Reachable(cfg, q) && cfg.mode == AsWritten
    ensures LogShape(q.l) && |q.l.retired| <= |Publications(q.l)|
    ensures RetiredTasks(q.l) <= Publications(q.l) <==>
              forall j | 0 <= j < |q.l.retired| :: Publications(q.l)[j] == cfg.boot
  {
    AsWrittenDeliversOneLate(cfg, q);
    ReachableInv(cfg, q);
    hide Contexts, Transfers, Puts, Acks, Run, Positions, Inv, Reachable;
    var t, p := RetiredTasks(q.l), Publications(q.l);
    if t <= p {
      AllEqual(t, p, cfg.boot);
    }
  }

  lemma {:induction false} AllEqual(t: seq<Task>, p: seq<Task>, boot: Task)
    requires t <= p && t <= [boot] + p
    ensures forall j | 0 <= j < |t| :: p[j] == boot
  {
    if t != [] {
      var k := |t| - 1;
      AllEqual(t[..k], p, boot);
      assert p[k] == t[k] == ([boot] + p)[k];
    }
  }

  // ----- slots

  /** An outstanding transfer reads the slot of a publication that is not yet retired. */
  lemma TransferSource(cfg: Config, s: State, l: Log, c: nat)
    requires Inv(cfg, s, l) && c < STAGES && s.spu.pipe[c].missing != {}
    ensures var k := l.fetchIndex[c];
      && |l.retired| <= k < l.fetched && cfg.Source(k) < |l.content|
      && s.spu.pipe[c].source == At(cfg.Source(k), cfg.n)
  {
    hide Contexts, Puts, Acks, History, SlotsStable, Positions;
    assert Transfer(cfg, s.spu.pipe[c], l.fetchIndex[c], |l.retired|, l.fetched, l.content);
  }

  lemma SourceIsStable(cfg: Config, s: State, l: Log, x: nat)
    requires Inv(cfg, s, l) && |l.retired| <= x < |l.content|
    ensures s.host.slots[At(x, cfg.n)] == l.content[x]
    ensures s.producer == Filling ==> s.host.entrySlot != At(x, cfg.n)
  {
    hide Contexts, Transfers, Puts, Acks, History;
    assert SlotOf(s.host.slots, x) == l.content[x];
    if s.producer == Filling && s.host.entrySlot == At(x, cfg.n) {
      AtInjective(x, Front(s, l) + 1, cfg.n);
    }
  }

  /** The producer may be writing, and the slot it writes is never one that a transfer is still
      reading; the word that arrives is the published one. */
  lemma TransfersAreIntact(cfg: Config, q: Point, c: nat, w: nat)
    requires Reachable(cfg, q) && CanStep(cfg, q, WordArrives(c, w))
    ensures q.s.producer == Filling ==> q.s.host.entrySlot != q.s.spu.pipe[c].source
    ensures var k := q.l.fetchIndex[c];
      && |q.l.retired| <= k < q.l.fetched
      && cfg.Source(k) < |q.l.content|
      && q.s.host.slots[q.s.spu.pipe[c].source] == q.l.content[cfg.Source(k)]
  {
    ReachableInv(cfg, q);
    hide Inv, Reachable;
    TransferSource(cfg, q.s, q.l, c);
    SourceIsStable(cfg, q.s, q.l, cfg.Source(q.l.fetchIndex[c]));
  }

  // ----- acks

  /** Retirement `j` has been put and its put has reached host memory. */
  ghost predicate Landed(s: State, l: Log, j: nat)
    requires |s.spu.pipe| == STAGES && LogShape(l)
  {
    j < |l.retired| && !PutPending(s.spu.pipe, l.putIndex, j)
  }

  /** An ack slot is non-clear exactly when it is the slot of a landed retirement that the
      harvester has not cleared, and then it holds that retirement's ack; so the harvester
      erases no ack it has not taken, however the puts are reordered. */
  lemma {:induction false} AckSlotsAreExact(cfg: Config, q: Point, i: nat) returns (j: nat)
    requires Reachable(cfg, q) && i < cfg.n
    ensures Shape(cfg.n, q.s) && LogShape(q.l)
    ensures |q.l.harvested| <= j < |q.l.harvested| + cfg.n && j % cfg.n == i
    ensures !q.s.host.acks[i].Clear() <==> Landed(q.s, q.l, j)
    ensures Landed(q.s, q.l, j) ==> q.s.host.acks[i] == q.l.retired[j].ack
  {
    ReachableInv(cfg, q);
    hide Contexts, Transfers, Puts, SlotsStable, Positions, Run, Reachable, PutPending;
    var x := AtSurjective(|q.l.harvested| + 1, i, cfg.n);
    j := x - 1;
    AtPlusOne(j, cfg.n);
    assert AckOf(q.s.host.acks, j) == q.s.host.acks[i];
  }

  /** An ack put goes to the index of its own publication, in publication order. */
  lemma RetiresAtOwnIndex(cfg: Config, q: Point)
    requires Reachable(cfg, q) && CanStep(cfg, q, Retire) && q.s.spu.Stage(3).active
    ensures var r := Next(cfg, q, Retire);
      && r.s.spu.outBack == q.s.spu.Stage(3).entry == |q.l.retired| % cfg.n
      && r.s.spu.pipe[q.s.spu.Ctx(3)].put == PutTo(|q.l.retired| % cfg.n)
      && r.l.retired == q.l.retired + [Retirement(q.s.spu.Stage(3).task, q.s.spu.Stage(3).ack)]
  {
    ReachableInv(cfg, q);
    hide Puts, Acks, History, SlotsStable, Run, ContextAt;
    RetireTransfers(cfg, q.s.spu, |q.l.retired|, q.l.fetched, q.l.fetchIndex, q.l.content);
    AtPlusOne(|q.l.retired|, cfg.n);
  }

  // ----- the pipeline

  function Active(u: Spu): nat
    requires |u.pipe| == STAGES
  {
    One(u.pipe[0].active) + One(u.pipe[1].active) + One(u.pipe[2].active) + One(u.pipe[3].active)
  }

  lemma ActiveByStage(u: Spu)
    requires |u.pipe| == STAGES
    ensures Active(u) == One(u.Stage(0).active) + One(u.Stage(1).active)
                         + One(u.Stage(2).active) + One(u.Stage(3).active)
  {
    CtxFrom(u.cycle, u.cycle % 4);
    hide Wrap;
  }

  /** The active contexts are exactly the publications fetched and not retired: at most three
      between iterations and four within one. Stage 1 always finds its context free. */
  lemma InFlight(cfg: Config, q: Point)
    requires Reachable(cfg, q)
    ensures |q.s.spu.pipe| == STAGES
    ensures Active(q.s.spu) == q.l.fetched - |q.l.retired| <= 4
    ensures q.s.phase == Polling ==> Active(q.s.spu) <= 3
    ensures Rank(q.s.phase) <= Rank(Fetching) ==> !q.s.spu.Stage(0).active
  {
    ReachableInv(cfg, q);
    hide Transfers, Puts, Acks, History, SlotsStable, Run, ContextAt;
    ActiveByStage(q.s.spu);
  }

  /** A context meets the four stages in four consecutive iterations and is then stage 1's
      again, across the wrap of `cycle`. */
  lemma ContextsTravel(u: Spu)
    ensures u.Turn().Ctx(1) == u.Ctx(0)
    ensures u.Turn().Turn().Ctx(2) == u.Ctx(0)
    ensures u.Turn().Turn().Turn().Ctx(3) == u.Ctx(0)
    ensures u.Turn().Turn().Turn().Turn().Ctx(0) == u.Ctx(0)
  {
    hide ContextAt;
    Rotation(u);
    Rotation(u.Turn());
    Rotation(u.Turn().Turn());
    Rotation(u.Turn().Turn().Turn());
  }

  /** Whenever the loop condition of `pipeline` ends it, frozen queue or not, no context is
      active and the three task indices agree, as on entry. */
  lemma PipelineExitIsQuiet(cfg: Config, q: Point)
    requires Reachable(cfg, q) && q.s.phase == Turning && q.s.spu.PipelineExits()
    ensures forall c | 0 <= c < STAGES :: |q.s.spu.pipe| == STAGES && !q.s.spu.pipe[c].active
    ensures q.s.spu.inBack == q.s.spu.outBack == q.s.spu.front
  {
    ReachableInv(cfg, q);
    ComparisonsDecide(cfg, q.s, q.l);
    InFlight(cfg, q);
    hide Contexts, Transfers, Puts, Acks, History, SlotsStable, Run;
  }

  // ----- the ADD command, end to end

  lemma HarvestedSum(cfg: Config, s: State, l: Log, j: nat)
    requires Inv(cfg, s, l) && j < |l.harvested|
    ensures cfg.Source(j) < |l.content|
    ensures l.content[cfg.Source(j)][0] == ADD ==> l.harvested[j].retval == Sum(l.content[cfg.Source(j)])
  {
    hide Contexts, Transfers, Puts, Acks, SlotsStable, Positions, Counters, Sum;
  }

  /** On the queue as meant, the ack harvested for a publication of the ADD command carries the
      closed form of the sum over that publication's own words. */
  lemma AdditionEndToEnd(cfg: Config, q: Point, j: nat, k: int, a: int, b: int)
    requires Reachable(cfg, q) && cfg.mode == AsMeant
    requires LogShape(q.l) && j < |q.l.harvested| && j < |Publications(q.l)|
    requires Publications(q.l)[j][0] == 0xC0DE_0ADD && AddsUp(Publications(q.l)[j], k, a, b)
    ensures q.l.harvested[j].retval == (k * (a + b) + k * (k - 1) / 2) % 0x1_0000_0000
  {
    hide Reachable, Inv, Sum;
    ReachableInv(cfg, q);
    HarvestedSum(cfg, q.s, q.l, j);
    SumIsExact(Publications(q.l)[j], k, a, b);
  }

  /** On the queue as written that result arrives with the ack of the next publication. */
  lemma AdditionOneLate(cfg: Config, q: Point, j: nat, k: int, a: int, b: int)
    requires Reachable(cfg, q) && cfg.mode == AsWritten
    requires LogShape(q.l) && j + 1 < |q.l.harvested| && j < |Publications(q.l)|
    requires Publications(q.l)[j][0] == 0xC0DE_0ADD && AddsUp(Publications(q.l)[j], k, a, b)
    ensures q.l.harvested[j + 1].retval == (k * (a + b) + k * (k - 1) / 2) % 0x1_0000_0000
  {
    hide Reachable, Inv, Sum;
    ReachableInv(cfg, q);
    HarvestedSum(cfg, q.s, q.l, j + 1);
    SumIsExact(Publications(q.l)[j], k, a, b);
  }
}
