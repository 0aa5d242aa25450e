/** All SPE queues of a host together, and what `fifoIsEmpty` may conclude from scanning them
    while the SPUs and the harvester keep running. */
module Queues {
  import opened Words
  import opened HostSide
  import opened SpuSide
  import opened Protocol
  import opened Preservation
  import opened Runs
  import opened Timeline

  /** A step of one of the queues. */
  datatype Action = Action(spe: nat, step: Step)

  ghost predicate SystemRun(cfgs: seq<Config>, ps: seq<Point>, actions: seq<Action>, qs: seq<Point>)
    decreases |actions|
  {
    && |ps| == |cfgs|
    && if actions == [] then ps == qs
       else
         var i := actions[0].spe;
         && i < |cfgs| && CanStep(cfgs[i], ps[i], actions[0].step)
         && SystemRun(cfgs, ps[i := Next(cfgs[i], ps[i], actions[0].step)], actions[1..], qs)
  }

  /** The steps that queue `i` takes. */
  function Project(actions: seq<Action>, i: nat): seq<Step>
  {
    if actions == [] then []
    else (if actions[0].spe == i then [actions[0].step] else []) + Project(actions[1..], i)
  }

  /** Seen from one queue, a run of the system is a run of that queue. */
  lemma {:induction false} QueuesAreIndependent(cfgs: seq<Config>, ps: seq<Point>, actions: seq<Action>,
                                                qs: seq<Point>, i: nat)
    requires SystemRun(cfgs, ps, actions, qs) && i < |cfgs|
    ensures |ps| == |qs| == |cfgs| && Run(cfgs[i], ps[i], Project(actions, i), qs[i])
    decreases |actions|
  {
    hide CanStep, Next;
    if actions != [] {
      var s := actions[0].spe;
      var next := ps[s := Next(cfgs[s], ps[s], actions[0].step)];
      QueuesAreIndependent(cfgs, next, actions[1..], qs, i);
      var rest := Project(actions[1..], i);
      if s == i {
        assert Project(actions, i) == [actions[0].step] + rest;
        assert Project(actions, i)[1..] == rest;
      } else {
        assert Project(actions, i) == rest;
      }
    }
  }

  /** The host thread makes no move: it is inside `fifoIsEmpty`. */
  ghost predicate HostWaits(actions: seq<Action>)
  {
    forall k | 0 <= k < |actions| :: !actions[k].step.ByProducer()
  }

  lemma {:induction false} ProjectFrozen(actions: seq<Action>, i: nat)
    requires HostWaits(actions)
    ensures Frozen(Project(actions, i))
    decreases |actions|
  {
    if actions != [] {
      ProjectFrozen(actions[1..], i);
    }
  }

  /** Everything kicked on this queue has been retired and its ack harvested. */
  ghost predicate Drained(q: Point)
  {
    Back(q.s, q.l) == |q.l.harvested| == |q.l.retired| == q.l.Closed() == q.l.published
  }

  ghost predicate Quiescent(cfg: Config, p: Point)
  {
    Inv(cfg, p.s, p.l) && p.s.producer == Idle
  }

  /** Between kicks a queue reads empty exactly when it is drained, up to the harvester's last
      advance of `back`. */
  lemma EmptyIff(cfg: Config, p: Point)
    requires Quiescent(cfg, p)
    ensures !p.s.host.HasRemaining() <==> Drained(p)
    ensures !p.s.host.HasRemaining() <==> Back(p.s, p.l) == p.l.Closed()
  {
    HasFreeIff(cfg, p.s, p.l);
    hide Contexts, Transfers, Puts, Acks, History, SlotsStable, Positions;
  }

  /** With no new kick a queue stays quiescent, and once drained stays drained. */
  lemma {:induction false} DrainedIsStable(cfg: Config, p: Point, steps: seq<Step>, q: Point)
    requires Quiescent(cfg, p) && Run(cfg, p, steps, q) && Frozen(steps)
    ensures Quiescent(cfg, q)
    ensures Drained(p) ==> Drained(q)
    decreases |steps|
  {
    hide Inv, Enabled, Move, Record, Drained;
    if steps != [] {
      assert !steps[0].ByProducer();
      StepKeeps(cfg, p.s, p.l, steps[0]);
      FrozenStep(cfg, p, steps[0]);
      DrainedIsStable(cfg, Next(cfg, p, steps[0]), steps[1..], q);
    }
  }

  lemma FrozenStep(cfg: Config, p: Point, step: Step)
    requires Quiescent(cfg, p) && CanStep(cfg, p, step) && !step.ByProducer()
    requires Inv(cfg, Next(cfg, p, step).s, Next(cfg, p, step).l)
    ensures Next(cfg, p, step).s.producer == Idle
    ensures Drained(p) ==> Drained(Next(cfg, p, step))
  {
    hide Contexts, Transfers, Puts, Acks, History, SlotsStable, Positions, ContextAt;
  }

  /** With no new kick a ring that has a free slot keeps one: what the spin of `selectfifo` waits
      for does not go away. */
  lemma {:induction false} FreeIsStable(cfg: Config, p: Point, steps: seq<Step>, q: Point)
    requires Quiescent(cfg, p) && Run(cfg, p, steps, q) && Frozen(steps)
    ensures Quiescent(cfg, q)
    ensures p.s.host.HasFree() ==> q.s.host.HasFree()
    decreases |steps|
  {
    hide Inv, Enabled, Move, Record, Host.HasFree;
    if steps != [] {
      assert !steps[0].ByProducer();
      StepKeeps(cfg, p.s, p.l, steps[0]);
      FrozenStep(cfg, p, steps[0]);
      FreeStep(cfg, p, steps[0]);
      FreeIsStable(cfg, Next(cfg, p, steps[0]), steps[1..], q);
    }
  }

  lemma FreeStep(cfg: Config, p: Point, step: Step)
    requires Quiescent(cfg, p) && CanStep(cfg, p, step) && !step.ByProducer()
    requires Quiescent(cfg, Next(cfg, p, step))
    ensures p.s.host.HasFree() ==> Next(cfg, p, step).s.host.HasFree()
  {
    HasFreeIff(cfg, p.s, p.l);
    HasFreeIff(cfg, Next(cfg, p, step).s, Next(cfg, p, step).l);
    hide Inv, ContextAt, Host.HasFree;
  }

  /** A scan: queue `i` is read in `at[i]`; between reads, and after the last one, the SPUs, the
      DMA engines and the harvester make the actions `between[i]`. */
  ghost predicate Scan(cfgs: seq<Config>, at: seq<seq<Point>>, between: seq<seq<Action>>)
  {
    && |at| == |cfgs| + 1 && |between| == |cfgs|
    && |at[0]| == |cfgs|
    && (forall i | 0 <= i < |cfgs| :: Quiescent(cfgs[i], at[0][i]))
    && (forall i | 0 <= i < |cfgs| :: SystemRun(cfgs, at[i], between[i], at[i + 1]) && HostWaits(between[i]))
  }

  lemma {:induction false} ScanReaches(cfgs: seq<Config>, at: seq<seq<Point>>, between: seq<seq<Action>>,
                                       i: nat, first: nat, last: nat)
    requires Scan(cfgs, at, between) && i < |cfgs| && first <= last <= |cfgs|
    ensures |at[first]| == |at[last]| == |cfgs|
    ensures Quiescent(cfgs[i], at[first][i]) && Quiescent(cfgs[i], at[last][i])
    ensures Drained(at[first][i]) ==> Drained(at[last][i])
    decreases last
  {
    hide Quiescent, Drained, SystemRun, HostWaits;
    if last > 0 {
      var k := last - 1;
      if first == last {
        ScanReaches(cfgs, at, between, i, 0, k);
      } else {
        ScanReaches(cfgs, at, between, i, first, k);
      }
      QueuesAreIndependent(cfgs, at[k], between[k], at[k + 1], i);
      ProjectFrozen(between[k], i);
      DrainedIsStable(cfgs[i], at[k][i], Project(between[k], i), at[k + 1][i]);
    }
  }

  /** What `fifoIsEmpty` returns: no ring had entries when it was read. */
  ghost predicate ReportsEmpty(cfgs: seq<Config>, at: seq<seq<Point>>)
    requires |at| > |cfgs| && forall i | 0 <= i < |cfgs| :: |at[i]| == |cfgs|
  {
    forall i | 0 <= i < |cfgs| :: !at[i][i].s.host.HasRemaining()
  }

  /** The rings are read one after another while the rest of the system runs, and yet the answer
      is exact: if the scan reports empty then at its end every queue is drained, and if every
      queue is drained at its start then it reports empty. */
  lemma IsEmptyIsExact(cfgs: seq<Config>, at: seq<seq<Point>>, between: seq<seq<Action>>)
    requires Scan(cfgs, at, between)
    ensures forall i | 0 <= i <= |cfgs| :: |at[i]| == |cfgs|
    ensures ReportsEmpty(cfgs, at) ==> forall i | 0 <= i < |cfgs| :: Drained(at[|cfgs|][i])
    ensures (forall i | 0 <= i < |cfgs| :: Drained(at[0][i])) ==> ReportsEmpty(cfgs, at)
  {
    hide Quiescent, Drained, SystemRun, HostWaits;
    forall i | 0 <= i <= |cfgs| ensures |at[i]| == |cfgs| {
      if |cfgs| > 0 { ScanReaches(cfgs, at, between, 0, i, i); }
    }
    forall i | 0 <= i < |cfgs|
      ensures !at[i][i].s.host.HasRemaining() ==> Drained(at[|cfgs|][i])
      ensures Drained(at[0][i]) ==> !at[i][i].s.host.HasRemaining()
    {
      ScanReaches(cfgs, at, between, i, i, |cfgs|);
      ScanReaches(cfgs, at, between, i, 0, i);
      EmptyIff(cfgs[i], at[i][i]);
    }
  }
}
