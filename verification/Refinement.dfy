/** The sequential calls of the host and the stages of the SPU are runs of the transition
    system, so that what holds in every run holds of them. */
module Refinement {
  import opened Words
  import opened Indices
  import opened HostSide
  import opened SpuSide
  import opened Protocol
  import opened Preservation
  import opened Runs
  import opened Delivery
  import opened Harvesting
  import opened Timeline

  lemma Extend(cfg: Config, p: Point, steps: seq<Step>, m: Point, step: Step)
    requires Run(cfg, p, steps, m) && CanStep(cfg, m, step)
    ensures Run(cfg, p, steps + [step], Next(cfg, m, step))
  {
    var q := Next(cfg, m, step);
    assert Run(cfg, q, [], q);
    assert Run(cfg, m, [step], q) by { assert [step][1..] == []; }
    RunsCompose(cfg, p, steps, m, [step], q);
  }

  lemma {:induction false} ExtendFrozen(steps: seq<Step>, step: Step)
    requires Frozen(steps) && !step.ByProducer()
    ensures Frozen(steps + [step]) && Turns(steps + [step]) == Turns(steps) + One(step.Turn?)
    decreases |steps|
  {
    if steps == [] {
      assert steps + [step] == [step] && [step][1..] == [];
    } else {
      ExtendFrozen(steps[1..], step);
      assert (steps + [step])[1..] == steps[1..] + [step];
    }
  }

  // ----- the host

  /** `fifoBegin` on an SPE with nothing open and a free slot. */
  lemma {:induction false} BeginIsRun(cfg: Config, p: Point, command: Word, handle: Word) returns (q: Point)
    requires Inv(cfg, p.s, p.l) && p.s.producer == Idle && p.s.host.HasFree()
    ensures Run(cfg, p, [Check, Open, Write(command), Write(handle)], q)
    ensures q == Point(p.s.(producer := Filling, host := Begin(p.s.host, command, handle)), p.l)
  {
    hide Contexts, Transfers, Puts, Acks, History, SlotsStable, Counters;
    assert p.s.host.isKicked;
    var a := Next(cfg, p, Check);
    var b := Next(cfg, a, Open);
    var c := Next(cfg, b, Write(command));
    q := Next(cfg, c, Write(handle));
    hide Inv, Enabled, Move, Record;
    RunFour(cfg, p, Check, a, Open, b, Write(command), c, Write(handle), q);
  }

  lemma RunFour(cfg: Config, p: Point, s: Step, a: Point, t: Step, b: Point, u: Step, c: Point, v: Step, q: Point)
    requires CanStep(cfg, p, s) && a == Next(cfg, p, s)
    requires CanStep(cfg, a, t) && b == Next(cfg, a, t)
    requires CanStep(cfg, b, u) && c == Next(cfg, b, u)
    requires CanStep(cfg, c, v) && q == Next(cfg, c, v)
    ensures Run(cfg, p, [s, t, u, v], q)
  {
    hide Enabled, Move, Record;
    assert Run(cfg, p, [], p);
    Extend(cfg, p, [], p, s);
    assert [] + [s] == [s];
    Extend(cfg, p, [s], a, t);
    assert [s] + [t] == [s, t];
    Extend(cfg, p, [s, t], b, u);
    assert [s, t] + [u] == [s, t, u];
    Extend(cfg, p, [s, t, u], c, v);
    assert [s, t, u] + [v] == [s, t, u, v];
  }

  /** `fifoKick` on an open slot: one more publication, whose words are those of the slot. */
  lemma {:induction false} KickIsRun(cfg: Config, p: Point) returns (q: Point)
    requires Inv(cfg, p.s, p.l) && p.s.producer == Filling
    ensures Run(cfg, p, [KickState, KickCount, KickFlag, KickFront], q)
    ensures q.s == p.s.(producer := Idle, host := Kick(p.s.host))
    ensures q.l == p.l.(content := p.l.content + [p.s.host.slots[p.s.host.front]], published := |p.l.content|)
  {
    hide Contexts, Transfers, Puts, Acks, History, SlotsStable, Counters;
    var a := Next(cfg, p, KickState);
    var b := Next(cfg, a, KickCount);
    var c := Next(cfg, b, KickFlag);
    q := Next(cfg, c, KickFront);
    hide Inv, Enabled, Move, Record;
    RunFour(cfg, p, KickState, a, KickCount, b, KickFlag, c, KickFront, q);
  }

  /** `fifoAdd` is one word write, or nothing on a full slot. */
  lemma {:induction false} AddIsRun(cfg: Config, p: Point, arg: Word) returns (steps: seq<Step>, q: Point)
    requires Inv(cfg, p.s, p.l) && p.s.producer == Filling
    ensures Run(cfg, p, steps, q) && q == Point(p.s.(host := Add(p.s.host, arg)), p.l)
  {
    hide Contexts, Transfers, Puts, Acks, History, SlotsStable, Counters;
    assert Run(cfg, p, [], p);
    if p.s.host.entryCount + 1 < TASK_WORDS {
      Extend(cfg, p, [], p, Write(arg));
      steps, q := [] + [Write(arg)], Next(cfg, p, Write(arg));
    } else {
      steps, q := [], p;
    }
  }

  // ----- the harvester

  /** A pass of the harvest loop is a run of reads, clears and advances. */
  lemma {:induction false} HarvestIsRun(cfg: Config, p: Point) returns (steps: seq<Step>, q: Point)
    requires Shape(cfg.n, p.s) && LogShape(p.l) && p.s.harvester == Scanning
    ensures Run(cfg, p, steps, q) && Frozen(steps)
    ensures q.s == p.s.(host := HarvestAll(p.s.host)) && q.l == p.l.(harvested := q.l.harvested)
    decreases Unclear(p.s.host.acks)
  {
    if p.s.host.acks[p.s.host.back].Clear() {
      steps, q := [], p;
    } else {
      ClearingCounts(p.s.host.acks, p.s.host.back);
      var a := Next(cfg, p, HarvestRead);
      var b := Next(cfg, a, HarvestClear);
      var c := Next(cfg, b, HarvestAdvance);
      var rest, d := HarvestIsRun(cfg, c);
      assert Run(cfg, p, [], p);
      hide Run, Enabled, Move, Record;
      Extend(cfg, p, [], p, HarvestRead);
      Extend(cfg, p, [] + [HarvestRead], a, HarvestClear);
      Extend(cfg, p, [] + [HarvestRead] + [HarvestClear], b, HarvestAdvance);
      RunsCompose(cfg, p, [] + [HarvestRead] + [HarvestClear] + [HarvestAdvance], c, rest, d);
      steps, q := [] + [HarvestRead] + [HarvestClear] + [HarvestAdvance] + rest, d;
    }
  }

  // ----- the SPU

  /** The context with the missing words below `k` arrived. */
  function PartlyFilled(e: Context, slot: Task, k: nat): Context
    requires k <= TASK_WORDS
  {
    e.(task := seq(TASK_WORDS, w requires 0 <= w < TASK_WORDS =>
                     if w < k && w in e.missing then slot[w] else e.task[w]),
       missing := set w | w in e.missing && w >= k)
  }

  lemma OneMoreWord(e: Context, slot: Task, k: nat)
    requires k < TASK_WORDS
    ensures var f := PartlyFilled(e, slot, k);
      if k in e.missing then
        && k in f.missing
        && PartlyFilled(e, slot, k + 1) == f.(task := f.task[k := slot[k]], missing := f.missing - {k})
      else PartlyFilled(e, slot, k + 1) == f
  {
    var f, g := PartlyFilled(e, slot, k), PartlyFilled(e, slot, k + 1);
    if k in e.missing {
      assert g.task == f.task[k := slot[k]];
    } else {
      assert g.task == f.task;
      assert g.missing == f.missing;
    }
  }

  ghost function WithContext(p: Point, c: nat, e: Context): Point
    requires c < |p.s.spu.pipe|
  {
    p.(s := p.s.(spu := p.s.spu.(pipe := p.s.spu.pipe[c := e])))
  }

  /** The words of an outstanding get can arrive one after another. */
  lemma {:induction false} WordsArrive(cfg: Config, p: Point, c: nat, k: nat) returns (steps: seq<Step>)
    requires Shape(cfg.n, p.s) && LogShape(p.l) && c < STAGES && k <= TASK_WORDS
    ensures var e := p.s.spu.pipe[c];
      Run(cfg, p, steps, WithContext(p, c, PartlyFilled(e, p.s.host.slots[e.source], k)))
    ensures Frozen(steps) && Turns(steps) == 0
    decreases k
  {
    var e := p.s.spu.pipe[c];
    var slot := p.s.host.slots[e.source];
    if k == 0 {
      steps := [];
      assert PartlyFilled(e, slot, 0) == e;
      assert WithContext(p, c, e) == p;
    } else {
      steps := WordsArrive(cfg, p, c, k - 1);
      OneMoreWord(e, slot, k - 1);
      if k - 1 in e.missing {
        var m := WithContext(p, c, PartlyFilled(e, slot, k - 1));
        assert CanStep(cfg, m, WordArrives(c, k - 1));
        var q := Next(cfg, m, WordArrives(c, k - 1));
        assert q.s.spu.pipe == WithContext(p, c, PartlyFilled(e, slot, k)).s.spu.pipe;
        hide Run, Enabled, Move, Record;
        Extend(cfg, p, steps, m, WordArrives(c, k - 1));
        ExtendFrozen(steps, WordArrives(c, k - 1));
        steps := steps + [WordArrives(c, k - 1)];
      }
    }
  }

  /** A tag wait that completes its context's transfers is a run of arrivals and landings. */
  lemma {:induction false} SettleIsRun(cfg: Config, p: Point, c: nat) returns (steps: seq<Step>, q: Point)
    requires Shape(cfg.n, p.s) && LogShape(p.l) && c < STAGES
    ensures Run(cfg, p, steps, q) && Frozen(steps) && Turns(steps) == 0
    ensures q == Point(p.s.(spu := SettleSpu(p.s.spu, p.s.host, c), host := SettleHost(p.s.spu, p.s.host, c)), p.l)
  {
    var e := p.s.spu.pipe[c];
    var slot := p.s.host.slots[e.source];
    steps := WordsArrive(cfg, p, c, TASK_WORDS);
    var f := PartlyFilled(e, slot, TASK_WORDS);
    q := WithContext(p, c, f);
    assert f.task == Filled(e, slot).task;
    assert f.missing == {};
    if e.put.PutTo? {
      assert CanStep(cfg, q, PutLands(c));
      Extend(cfg, p, steps, q, PutLands(c));
      ExtendFrozen(steps, PutLands(c));
      steps, q := steps + [PutLands(c)], Next(cfg, q, PutLands(c));
    }
    assert q.s.spu.pipe == SettleSpu(p.s.spu, p.s.host, c).pipe;
  }

  /** The SPU after stages 1 to 4, when stage 2's wait lets its context's transfers complete. */
  ghost function IterateSpu(mode: Addressing, u: Spu, h: Host): Spu
    requires h.Shape() && h.count < h.Size() && u.Shape(h.Size())
  {
    WaitSpu(u.Poll(h).Fetch(mode, h.Size()), h).Execute().Retire(h.Size())
  }

  ghost function IterateHost(mode: Addressing, u: Spu, h: Host): (r: Host)
    requires h.Shape() && h.count < h.Size() && u.Shape(h.Size())
    ensures r == h.(acks := r.acks)
  {
    WaitHost(u.Poll(h).Fetch(mode, h.Size()), h)
  }

  lemma {:induction false} FrozenAppend(a: seq<Step>, b: seq<Step>)
    requires Frozen(a) && Frozen(b)
    ensures Frozen(a + b) && Turns(a + b) == Turns(a) + Turns(b)
    decreases |a|
  {
    if a == [] {
      assert a + b == b;
    } else {
      FrozenAppend(a[1..], b);
      assert (a + b)[1..] == a[1..] + b;
    }
  }

  lemma Compose(cfg: Config, p: Point, a: seq<Step>, m: Point, b: seq<Step>, q: Point)
    requires Run(cfg, p, a, m) && Run(cfg, m, b, q) && Frozen(a) && Frozen(b)
    ensures Run(cfg, p, a + b, q) && Frozen(a + b) && Turns(a + b) == Turns(a) + Turns(b)
  {
    hide Run, Frozen, Turns;
    RunsCompose(cfg, p, a, m, b, q);
    FrozenAppend(a, b);
  }

  lemma SingleRun(cfg: Config, p: Point, step: Step)
    requires CanStep(cfg, p, step) && !step.ByProducer()
    ensures Run(cfg, p, [step], Next(cfg, p, step)) && Frozen([step]) && Turns([step]) == One(step.Turn?)
  {
    hide Enabled, Move, Record;
    assert [step][1..] == [];
    assert Run(cfg, Next(cfg, p, step), [], Next(cfg, p, step));
  }

  lemma {:induction false} FetchIsRun(cfg: Config, p: Point) returns (steps: seq<Step>, q: Point)
    requires Shape(cfg.n, p.s) && LogShape(p.l) && p.s.phase == Polling && p.s.host.count < cfg.n
    ensures Run(cfg, p, steps, q) && Frozen(steps) && Turns(steps) == 0
    ensures q.s == p.s.(phase := Waiting, spu := p.s.spu.Poll(p.s.host).Fetch(cfg.mode, cfg.n))
    ensures LogShape(q.l) && Shape(cfg.n, q.s)
  {
    hide ContextAt;
    var a := Next(cfg, p, Poll);
    q := Next(cfg, a, Step.Fetch);
    SingleRun(cfg, p, Poll);
    SingleRun(cfg, a, Step.Fetch);
    hide Run, Enabled, Move, Record;
    Compose(cfg, p, [Poll], a, [Step.Fetch], q);
    steps := [Poll] + [Step.Fetch];
  }

  lemma {:induction false} FinishIsRun(cfg: Config, p: Point) returns (steps: seq<Step>, q: Point)
    requires Shape(cfg.n, p.s) && LogShape(p.l) && p.s.phase == Waiting && p.s.spu.TagWaitPasses()
    ensures Run(cfg, p, steps, q) && Frozen(steps) && Turns(steps) == 0
    ensures q.s == p.s.(phase := Turning, spu := p.s.spu.Execute().Retire(cfg.n))
  {
    hide ContextAt, Sum;
    var a := Next(cfg, p, Wait);
    var b := Next(cfg, a, Step.Execute);
    q := Next(cfg, b, Step.Retire);
    SingleRun(cfg, p, Wait);
    SingleRun(cfg, a, Step.Execute);
    SingleRun(cfg, b, Step.Retire);
    hide Run, Enabled, Move, Record;
    Compose(cfg, p, [Wait], a, [Step.Execute], b);
    Compose(cfg, p, [Wait] + [Step.Execute], b, [Step.Retire], q);
    steps := [Wait] + [Step.Execute] + [Step.Retire];
  }

  lemma SettledPasses(u: Spu, h: Host)
    requires u.Shape(h.Size()) && h.Shape()
    ensures var v := SettleSpu(u, h, u.Ctx(1)); v.Shape(h.Size()) && v.TagWaitPasses()
  {
    hide ContextAt;
  }

  /** One iteration of the pipeline loop, up to its test, is a run. */
  lemma {:induction false} IterationIsRun(cfg: Config, p: Point) returns (steps: seq<Step>, q: Point)
    requires Shape(cfg.n, p.s) && LogShape(p.l) && p.s.phase == Polling && p.s.host.count < cfg.n
    ensures Run(cfg, p, steps, q) && Frozen(steps) && Turns(steps) == 0
    ensures q.s == p.s.(phase := Turning,
                        spu := IterateSpu(cfg.mode, p.s.spu, p.s.host),
                        host := IterateHost(cfg.mode, p.s.spu, p.s.host))
  {
    hide ContextAt, SettleSpu, Sum, Run, Frozen, Turns;
    var a, b := FetchIsRun(cfg, p);
    steps, q := a, b;
    if b.s.spu.Stage(1).active {
      var more, c := SettleIsRun(cfg, b, b.s.spu.Ctx(1));
      Compose(cfg, p, steps, b, more, c);
      steps, q := steps + more, c;
      SettledPasses(b.s.spu, b.s.host);
    }
    var rest, d := FinishIsRun(cfg, q);
    Compose(cfg, p, steps, q, rest, d);
    steps, q := steps + rest, d;
  }

  /** One more iteration of a pipeline that was entered at `p` with no kick since. */
  lemma {:induction false} PipelineTurn(cfg: Config, p: Point, steps: seq<Step>, m: Point)
    returns (more: seq<Step>, q: Point)
    requires Reachable(cfg, p) && AtEntry(p.s) && Run(cfg, p, steps, m) && Frozen(steps) && m.s.phase == Polling
    ensures Shape(cfg.n, m.s) && m.s.host.count < cfg.n
    ensures Run(cfg, p, more, q) && Frozen(more) && Turns(more) == Turns(steps) + 1
    ensures q.s == m.s.(spu := IterateSpu(cfg.mode, m.s.spu, m.s.host).Turn(),
                        host := IterateHost(cfg.mode, m.s.spu, m.s.host))
    ensures p.l.seen <= p.l.published
    ensures q.s.spu.PipelineExits() <==> Turns(more) >= Iterations(p.l.published - p.l.seen)
    ensures q.s.spu.PipelineExits() ==> AtEntry(q.s) && |q.l.retired| == q.l.published == p.l.published
  {
    hide Run, Reachable, Frozen, Turns, IterateSpu, IterateHost;
    ReachableExtends(cfg, p, steps, m);
    ReachableCount(cfg, m);
    var iteration, e := IterationIsRun(cfg, m);
    Compose(cfg, p, steps, m, iteration, e);
    PipelineLength(cfg, p, steps + iteration, e);
    ReachableExtends(cfg, p, steps + iteration, e);
    ReachableCount(cfg, e);
    if e.s.spu.PipelineExits() { PipelineExitIsQuiet(cfg, e); }
    q := TurnIsRun(cfg, e);
    Compose(cfg, p, steps + iteration, e, [Step.Turn], q);
    more := steps + iteration + [Step.Turn];
  }

  lemma PipelineEntry(cfg: Config, p: Point)
    requires Reachable(cfg, p) && AtEntry(p.s)
    ensures Run(cfg, p, [], p) && Frozen([]) && p.s.phase == Polling
    ensures p.l.seen <= p.l.published && Turns([]) < Iterations(p.l.published - p.l.seen)
  {
    hide Contexts, Transfers, Puts, Acks, History, SlotsStable, Positions, Reachable;
    ReachableInv(cfg, p);
  }

  lemma ReachableCount(cfg: Config, m: Point)
    requires Reachable(cfg, m)
    ensures Shape(cfg.n, m.s) && LogShape(m.l) && m.s.host.count < cfg.n
  {
    hide Reachable, Contexts, Transfers, Puts, Acks, History, SlotsStable, Counters;
    ReachableInv(cfg, m);
  }

  lemma {:induction false} TurnIsRun(cfg: Config, e: Point) returns (q: Point)
    requires Shape(cfg.n, e.s) && LogShape(e.l) && e.s.phase == Turning
    ensures q == Point(e.s.(phase := Polling, spu := e.s.spu.Turn()), e.l)
    ensures Run(cfg, e, [Step.Turn], q) && Frozen([Step.Turn]) && Turns([Step.Turn]) == 1
  {
    q := Next(cfg, e, Step.Turn);
    SingleRun(cfg, e, Step.Turn);
  }
}
