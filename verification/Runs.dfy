/** What holds in every state of every run of one SPE queue. */
module Runs {
  import opened Words
  import opened Indices
  import opened HostSide
  import opened SpuSide
  import opened Protocol
  import opened Preservation

  datatype Point = Point(s: State, l: Log)

  ghost predicate CanStep(cfg: Config, p: Point, step: Step)
  {
    LogShape(p.l) && Enabled(cfg, p.s, step)
  }

  ghost function Next(cfg: Config, p: Point, step: Step): Point
    requires CanStep(cfg, p, step)
  {
    Point(Move(cfg, p.s, step), Record(cfg, p.s, p.l, step))
  }

  /** The steps, in order, lead from `p` to `q`. */
  ghost predicate Run(cfg: Config, p: Point, steps: seq<Step>, q: Point)
    decreases |steps|
  {
    if steps == [] then p == q
    else CanStep(cfg, p, steps[0]) && Run(cfg, Next(cfg, p, steps[0]), steps[1..], q)
  }

  ghost predicate Reachable(cfg: Config, q: Point)
  {
    exists p: Point, steps: seq<Step> :: Init(cfg, p.s, p.l) && Run(cfg, p, steps, q)
  }

  lemma {:induction false} RunKeepsInv(cfg: Config, p: Point, steps: seq<Step>, q: Point)
    requires Inv(cfg, p.s, p.l) && Run(cfg, p, steps, q)
    ensures Inv(cfg, q.s, q.l)
    decreases |steps|
  {
    hide Inv, Enabled, Move, Record;
    if steps != [] {
      StepKeeps(cfg, p.s, p.l, steps[0]);
      RunKeepsInv(cfg, Next(cfg, p, steps[0]), steps[1..], q);
    }
  }

  /** The invariant holds in every reachable state, whatever the interleaving. */
  lemma ReachableInv(cfg: Config, q: Point)
    requires Reachable(cfg, q)
    ensures Inv(cfg, q.s, q.l)
  {
    hide Inv, Run;
    var p: Point, steps: seq<Step> :| Init(cfg, p.s, p.l) && Run(cfg, p, steps, q);
    InitInv(cfg, p.s, p.l);
    RunKeepsInv(cfg, p, steps, q);
  }

  lemma {:induction false} RunsCompose(cfg: Config, p: Point, a: seq<Step>, m: Point, b: seq<Step>, q: Point)
    requires Run(cfg, p, a, m) && Run(cfg, m, b, q)
    ensures Run(cfg, p, a + b, q)
    decreases |a|
  {
    hide Enabled, Move, Record;
    if a == [] {
      assert a + b == b;
    } else {
      RunsCompose(cfg, Next(cfg, p, a[0]), a[1..], m, b, q);
      assert (a + b)[1..] == a[1..] + b;
    }
  }

  lemma ReachableExtends(cfg: Config, m: Point, b: seq<Step>, q: Point)
    requires Reachable(cfg, m) && Run(cfg, m, b, q)
    ensures Reachable(cfg, q)
  {
    hide Run, Init;
    var p: Point, a: seq<Step> :| Init(cfg, p.s, p.l) && Run(cfg, p, a, m);
    RunsCompose(cfg, p, a, m, b, q);
  }

  // ----- counters and positions

  lemma AtPlusOne(x: nat, n: nat)
    requires n >= 1
    ensures At(x + 1, n) == x % n
  {
    AtIsResidue(x + 1, n);
    DivMod(x, n);
    DivMod(x + n, n);
    assert (x / n + 1) * n == (x / n) * n + n;
    QuotientUnique((x + n) / n, (x + n) % n, x / n + 1, x % n, n);
  }

  /** The five counters of a queue never leave their order or the ring's capacity, every index
      word is the residue of its counter, and the SPU's two index comparisons decide the order
      of the counters. */
  lemma CountersInEveryRun(cfg: Config, q: Point)
    requires Reachable(cfg, q)
    ensures cfg.n >= 1 && 0 <= Back(q.s, q.l) <= |q.l.retired| <= q.l.fetched
    ensures q.l.fetched <= q.l.seen <= q.l.published <= Back(q.s, q.l) + cfg.n - 1
    ensures q.s.host.back == Back(q.s, q.l) % cfg.n
    ensures q.s.spu.outBack == (|q.l.retired| + cfg.n - 1) % cfg.n
    ensures q.s.spu.inBack == (q.l.fetched + cfg.n - 1) % cfg.n
    ensures q.s.spu.front == (q.l.seen + cfg.n - 1) % cfg.n
    ensures q.s.host.state != 0 ==> q.l.published >= 1 && q.s.host.count == (q.l.published - 1) % cfg.n
    ensures q.s.spu.TasksRemaining() <==> q.l.fetched < q.l.seen
    ensures q.s.spu.PipelineExits() <==> |q.l.retired| == q.l.seen
  {
    hide Inv, Reachable;
    ReachableInv(cfg, q);
    CounterOrder(cfg, q.s, q.l);
    IndexResidues(cfg, q.s, q.l);
    ComparisonsDecide(cfg, q.s, q.l);
  }

  lemma CounterOrder(cfg: Config, s: State, l: Log)
    requires Inv(cfg, s, l)
    ensures cfg.n >= 1 && 0 <= Back(s, l) <= |l.retired| <= l.fetched <= l.seen <= l.published <= Back(s, l) + cfg.n - 1
  {
    hide Contexts, Transfers, Puts, Acks, History, SlotsStable, Positions;
  }

  lemma IndexResidues(cfg: Config, s: State, l: Log)
    requires Inv(cfg, s, l)
    ensures s.host.back == Back(s, l) % cfg.n
    ensures s.spu.outBack == (|l.retired| + cfg.n - 1) % cfg.n
    ensures s.spu.inBack == (l.fetched + cfg.n - 1) % cfg.n
    ensures s.spu.front == (l.seen + cfg.n - 1) % cfg.n
    ensures s.host.state != 0 ==> l.published >= 1 && s.host.count == (l.published - 1) % cfg.n
  {
    hide Contexts, Transfers, Puts, Acks, History, SlotsStable;
    AtPlusOne(Back(s, l), cfg.n);
    AtIsResidue(|l.retired|, cfg.n);
    AtIsResidue(l.fetched, cfg.n);
    AtIsResidue(l.seen, cfg.n);
    if s.host.state != 0 { AtPlusOne(l.published - 1, cfg.n); }
  }

  lemma ComparisonsDecide(cfg: Config, s: State, l: Log)
    requires Inv(cfg, s, l)
    ensures s.spu.TasksRemaining() <==> l.fetched < l.seen
    ensures s.spu.PipelineExits() <==> |l.retired| == l.seen
  {
    hide Contexts, Transfers, Puts, Acks, History, SlotsStable;
    if s.spu.inBack == s.spu.front { AtInjective(l.fetched, l.seen, cfg.n); }
    if s.spu.outBack == s.spu.front { AtInjective(|l.retired|, l.seen, cfg.n); }
  }

  /** `send_front` runs before `ringIncFront`, so `back` can pass `front`, by one at most and
      only inside `fifoKick`. Wherever the producer decides by the ring, `ringHasFree` and
      `ringHasRemaining` are exact. */
  lemma KickWindowIsHarmless(cfg: Config, q: Point)
    requires Reachable(cfg, q)
    ensures q.s.host.Shape()
    ensures q.s.host.front == Front(q.s, q.l) % cfg.n
    ensures Back(q.s, q.l) <= Front(q.s, q.l) + 1
    ensures Back(q.s, q.l) == Front(q.s, q.l) + 1 ==> InKick(q.s)
    ensures !InKick(q.s) ==>
              && 0 <= Front(q.s, q.l) - Back(q.s, q.l) <= cfg.n - 1
              && (q.s.host.HasFree() <==> Front(q.s, q.l) - Back(q.s, q.l) <= cfg.n - 2)
              && (q.s.host.HasRemaining() <==> Front(q.s, q.l) != Back(q.s, q.l))
  {
    ReachableInv(cfg, q);
    hide Contexts, Transfers, Puts, Acks, History, SlotsStable, Run;
    AtPlusOne(Front(q.s, q.l), cfg.n);
    if !InKick(q.s) { HasFreeIff(cfg, q.s, q.l); }
  }

  /** `ringIncBack` first adds one and then resets a position past the end. A host test that reads
      the unreset position errs on the safe side: it finds a free slot only if there is one
      after the advance, and an empty ring only if the ring is empty after it. */
  lemma TornAdvanceIsHarmless(cfg: Config, q: Point)
    requires Reachable(cfg, q) && CanStep(cfg, q, HarvestAdvance) && !InKick(q.s)
    ensures var r, unreset := Next(cfg, q, HarvestAdvance), q.s.host.back + 1;
      && (Increment(q.s.host.front, cfg.n) != unreset ==> r.s.host.HasFree())
      && (q.s.host.front == unreset ==> !r.s.host.HasRemaining())
  {
    hide Reachable, Inv, Run;
    ReachableInv(cfg, q);
    StepKeeps(cfg, q.s, q.l, HarvestAdvance);
    var r := Next(cfg, q, HarvestAdvance);
    HasFreeIff(cfg, r.s, r.l);
    CounterOrder(cfg, q.s, q.l);
    OccupancyBound(cfg, q.s, q.l);
  }

  lemma OccupancyBound(cfg: Config, s: State, l: Log)
    requires Inv(cfg, s, l) && !InKick(s)
    ensures 0 <= Front(s, l) - Back(s, l) <= cfg.n - 1
  {
    hide Contexts, Transfers, Puts, Acks, History, SlotsStable, Positions;
  }

  /** What a poll in the current state would take for the published count. */
  ghost function PollSees(s: State, l: Log): nat
  {
    if s.host.state == 0 then l.seen else l.published
  }

  /** The two words of the atomic, as a poll reads them, are the position of that count. */
  lemma PollTakes(cfg: Config, q: Point)
    requires Reachable(cfg, q)
    ensures cfg.n >= 1 && q.s.spu.Poll(q.s.host).front == At(PollSees(q.s, q.l), cfg.n)
  {
    hide Reachable, Contexts, Transfers, Puts, Acks, History, SlotsStable, Counters;
    ReachableInv(cfg, q);
  }

  /** `state` and `count` are written one after the other, yet across the two writes of a kick
      a poll sees the count before the kick or the count after it; with one begin per kick the
      count after it is one more. A first kick is seen at the write of `state` already, because
      the count it will write is the 0 that `state` was hiding. */
  lemma PublicationIsAtomic(cfg: Config, q: Point, step: Step)
    requires Reachable(cfg, q) && CanStep(cfg, q, step) && step.ByProducer()
    ensures var r := Next(cfg, q, step);
      && Reachable(cfg, r)
      && (PollSees(r.s, r.l) != PollSees(q.s, q.l) ==>
            if step.KickCount? then PollSees(r.s, r.l) == r.l.Closed()
            else step.KickState? && PollSees(q.s, q.l) == 0 && PollSees(r.s, r.l) == 1)
      && (step.KickState? && q.l.published == q.l.Closed() ==>
            PollSees(r.s, r.l) == q.l.Closed() || PollSees(r.s, r.l) == q.l.Closed() + 1 == r.l.Closed())
      && q.s.spu.Poll(q.s.host).front == At(PollSees(q.s, q.l), cfg.n)
      && r.s.spu.Poll(r.s.host).front == At(PollSees(r.s, r.l), cfg.n)
  {
    ReachableInv(cfg, q);
    var r := Next(cfg, q, step);
    assert Run(cfg, r, [], r);
    assert Run(cfg, q, [step], r) by { assert [step][1..] == []; }
    ReachableExtends(cfg, q, [step], r);
    PollTakes(cfg, q);
    PollTakes(cfg, r);
  }
}
