/** How long `pipeline` runs once no further kick arrives. */
module Timeline {
  import opened Words
  import opened Indices
  import opened HostSide
  import opened SpuSide
  import opened Protocol
  import opened Preservation
  import opened Runs
  import opened Delivery

  function Min(a: int, b: int): int { if a < b then a else b }

  /** The SPU entered the loop with counters at `base` and `k` publications pending; `m`
      iterations are complete. The publication fetched by iteration `i` is in stage `d + 1`'s
      context `d` iterations later. */
  ghost predicate OnTime(base: nat, k: nat, m: nat, s: State, l: Log)
    requires |s.spu.pipe| == STAGES
  {
    && l.published == base + k
    && l.seen == (if m == 0 && s.phase == Polling then base else base + k)
    && l.fetched == base + Min(k, m + One(Rank(s.phase) > Rank(Fetching)))
    && (s.spu.Stage(0).active <==> Rank(s.phase) > Rank(Fetching) && m < k)
    && (s.spu.Stage(1).active <==> 1 <= m < k + 1)
    && (s.spu.Stage(2).active <==> 2 <= m < k + 2)
    && (s.spu.Stage(3).active <==> Rank(s.phase) <= Rank(Retiring) && 3 <= m < k + 3)
  }

  function Turns(steps: seq<Step>): nat
  {
    if steps == [] then 0 else One(steps[0].Turn?) + Turns(steps[1..])
  }

  ghost predicate Frozen(steps: seq<Step>)
  {
    forall i | 0 <= i < |steps| :: !steps[i].ByProducer()
  }

  lemma SpuStepOnTime(cfg: Config, s: State, l: Log, step: Step, base: nat, k: nat, m: nat)
    requires Enabled(cfg, s, step) && LogShape(l) && OnTime(base, k, m, s, l)
    requires s.spu.TasksRemaining() <==> l.fetched < l.seen
    requires s.host.state == 0 ==> l.published == 0
    requires step.Poll? || step.Fetch? || step.Wait? || step.Execute? || step.Retire? || step.Turn?
    ensures OnTime(base, k, m + One(step.Turn?), Move(cfg, s, step), Record(cfg, s, l, step))
  {
    Rotation(s.spu);
    hide ContextAt, Sum;
  }

  lemma OtherStepOnTime(cfg: Config, s: State, l: Log, step: Step, base: nat, k: nat, m: nat)
    requires Enabled(cfg, s, step) && LogShape(l) && OnTime(base, k, m, s, l)
    requires step.HarvestRead? || step.HarvestClear? || step.HarvestAdvance? || step.WordArrives? || step.PutLands?
    ensures OnTime(base, k, m, Move(cfg, s, step), Record(cfg, s, l, step))
  {
    hide ContextAt;
  }

  lemma HiddenState(cfg: Config, s: State, l: Log)
    requires Inv(cfg, s, l)
    ensures s.host.state == 0 ==> l.published == 0
  {
  }

  lemma {:induction false} RunOnTime(cfg: Config, p: Point, steps: seq<Step>, q: Point, base: nat, k: nat, m: nat)
    requires Inv(cfg, p.s, p.l) && Run(cfg, p, steps, q) && Frozen(steps) && OnTime(base, k, m, p.s, p.l)
    ensures Inv(cfg, q.s, q.l) && OnTime(base, k, m + Turns(steps), q.s, q.l)
    decreases |steps|
  {
    hide Inv, Enabled, Move, Record, OnTime;
    if steps != [] {
      var step := steps[0];
      assert !step.ByProducer();
      StepKeeps(cfg, p.s, p.l, step);
      if step.HarvestRead? || step.HarvestClear? || step.HarvestAdvance? || step.WordArrives? || step.PutLands? {
        OtherStepOnTime(cfg, p.s, p.l, step, base, k, m);
      } else {
        ComparisonsDecide(cfg, p.s, p.l);
        HiddenState(cfg, p.s, p.l);
        SpuStepOnTime(cfg, p.s, p.l, step, base, k, m);
      }
      RunOnTime(cfg, Next(cfg, p, step), steps[1..], q, base, k, m + One(step.Turn?));
    }
  }

  /** Entering `pipeline`: no context active and the three task indices equal. */
  ghost predicate AtEntry(s: State)
  {
    && |s.spu.pipe| == STAGES && s.phase == Polling
    && Active(s.spu) == 0
    && s.spu.inBack == s.spu.outBack == s.spu.front
  }

  /** The iterations `pipeline` takes for `k` pending publications: the last one must pass all
      four stages, and an empty poll still costs one. */
  function Iterations(k: nat): nat { if k == 0 then 1 else k + 3 }

  /** Entered with `k` publications pending and no further kick, `pipeline` leaves its loop at the
      end of iteration 1 if `k` is 0 and of iteration `k + 3` otherwise, and not before, however
      the DMA transfers and the harvester interleave with it; by then it has retired all `k`. */
  lemma PipelineLength(cfg: Config, p: Point, steps: seq<Step>, q: Point)
    requires Reachable(cfg, p) && AtEntry(p.s)
    requires Run(cfg, p, steps, q) && Frozen(steps) && q.s.phase == Turning
    ensures p.l.seen <= p.l.published
    ensures q.s.spu.PipelineExits() <==> Turns(steps) + 1 >= Iterations(p.l.published - p.l.seen)
    ensures q.s.spu.PipelineExits() ==> |q.l.retired| == q.l.published == p.l.published
  {
    hide *;
    ReachableInv(cfg, p);
    EntryOnTime(cfg, p.s, p.l);
    var base, k := p.l.seen, p.l.published - p.l.seen;
    RunOnTime(cfg, p, steps, q, base, k, 0);
    ExitOnTime(cfg, q.s, q.l, base, k, Turns(steps));
  }

  lemma ExitOnTime(cfg: Config, s: State, l: Log, base: nat, k: nat, m: nat)
    requires Inv(cfg, s, l) && OnTime(base, k, m, s, l) && s.phase == Turning
    ensures s.spu.PipelineExits() <==> m + 1 >= Iterations(k)
    ensures s.spu.PipelineExits() ==> |l.retired| == l.published == base + k
  {
    ComparisonsDecide(cfg, s, l);
    hide Transfers, Puts, Acks, History, SlotsStable, Positions, ContextAt;
  }

  lemma EntryOnTime(cfg: Config, s: State, l: Log)
    requires Inv(cfg, s, l) && AtEntry(s)
    ensures l.seen <= l.published && OnTime(l.seen, l.published - l.seen, 0, s, l)
  {
    ActiveByStage(s.spu);
    ComparisonsDecide(cfg, s, l);
    hide Transfers, Puts, Acks, History, SlotsStable, Positions, ContextAt;
  }

  lemma ReachableShape(cfg: Config, q: Point)
    requires Reachable(cfg, q)
    ensures Shape(cfg.n, q.s) && LogShape(q.l)
  {
    hide Reachable, Run, Contexts, Transfers, Puts, Acks, History, SlotsStable, Positions, Counters;
    ReachableInv(cfg, q);
  }

  /** The SPU is never stuck: it can take its next stage, or a transfer it waits for can make
      progress; it does not wait for a context that is not active. */
  lemma {:induction false} NeverStuck(cfg: Config, q: Point) returns (step: Step)
    requires Reachable(cfg, q)
    ensures CanStep(cfg, q, step)
    ensures if q.s.phase == Waiting then step.Wait? || step.WordArrives? || step.PutLands?
            else step.Poll? || step.Fetch? || step.Execute? || step.Retire? || step.Turn?
    ensures q.s.phase == Waiting && |q.s.spu.pipe| == STAGES && !q.s.spu.Stage(1).active ==> step.Wait?
  {
    hide Reachable, ContextAt;
    ReachableShape(cfg, q);
    var u := q.s.spu;
    step := match q.s.phase
      case Polling => Poll
      case Fetching => Fetch
      case Executing => Execute
      case Retiring => Retire
      case Turning => Turn
      case Waiting =>
        if u.TagWaitPasses() then Wait
        else if u.Stage(1).put.PutTo? then PutLands(u.Ctx(1))
        else var w :| w in u.Stage(1).missing; WordArrives(u.Ctx(1), w);
  }
}
