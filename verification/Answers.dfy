/** What an ack says: nothing but stage 3 on the ADD command ever changes a context's ack, so
    every other task is answered with the ack that its context held. */
module Answers {
  import opened Words
  import opened Indices
  import opened HostSide
  import opened SpuSide
  import opened Protocol
  import opened Preservation
  import opened Runs
  import opened Delivery

  /** The ack of a context that held `held` and has run `task`. */
  function Answer(task: Task, held: Ack): Ack
  {
    if task[0] == 0xC0DE_0ADD then held.(retval := Sum(task)) else held
  }

  /** A step changes the ack of a context only by running its task in stage 3. */
  lemma StepAnswers(cfg: Config, s: State, step: Step, c: nat)
    requires Enabled(cfg, s, step) && c < STAGES
    ensures |Move(cfg, s, step).spu.pipe| == STAGES
    ensures Move(cfg, s, step).spu.pipe[c].ack ==
            if step.Execute? && c == s.spu.Ctx(2) && s.spu.pipe[c].active then
              Answer(s.spu.pipe[c].task, s.spu.pipe[c].ack)
            else s.spu.pipe[c].ack
  {
    hide ContextAt, Sum;
  }

  /** The SPU never writes the first word of an ack. */
  lemma {:induction false} TaskIdsStay(cfg: Config, p: Point, steps: seq<Step>, q: Point, c: nat)
    requires Inv(cfg, p.s, p.l) && Run(cfg, p, steps, q) && c < STAGES
    ensures Inv(cfg, q.s, q.l) && q.s.spu.pipe[c].ack.taskId == p.s.spu.pipe[c].ack.taskId
    decreases |steps|
  {
    hide Enabled, Move, Record;
    hide Counters, Positions, SlotsStable, Contexts, Transfers, Puts, Acks, History;
    if steps != [] {
      StepKeeps(cfg, p.s, p.l, steps[0]);
      StepAnswers(cfg, p.s, steps[0], c);
      TaskIdsStay(cfg, Next(cfg, p, steps[0]), steps[1..], q, c);
    }
  }

  // ----- one task on its way through its context

  /** Context `c` holds publication `k`, fetched and not retired, and will answer it with `a`. */
  ghost predicate Holds(cfg: Config, m: Point, c: nat, k: nat, a: Ack)
    requires |m.s.spu.pipe| == |m.l.fetchIndex| == STAGES && c < STAGES && cfg.Source(k) < |m.l.content|
  {
    && m.s.spu.pipe[c].active && m.l.fetchIndex[c] == k
    && Answer(m.l.content[cfg.Source(k)], m.s.spu.pipe[c].ack) == a
  }

  ghost predicate Answered(m: Point, k: nat, a: Ack)
  {
    k < |m.l.retired| && m.l.retired[k].ack == a
  }

  /** Stage 3 runs its context's publication, stage 4 retires one that is answered. */
  lemma StagesHold(cfg: Config, s: State, l: Log)
    requires Inv(cfg, s, l)
    ensures forall c | 0 <= c < STAGES && s.spu.pipe[c].active ::
              |l.retired| <= l.fetchIndex[c] < l.fetched && cfg.Source(l.fetchIndex[c]) < |l.content|
    ensures s.phase == Executing && s.spu.Stage(2).active ==>
              s.spu.Stage(2).task == l.content[cfg.Source(l.fetchIndex[s.spu.Ctx(2)])]
    ensures s.phase == Retiring && s.spu.Stage(3).active ==>
              && l.fetchIndex[s.spu.Ctx(3)] == |l.retired|
              && Answer(l.content[cfg.Source(|l.retired|)], s.spu.Stage(3).ack) == s.spu.Stage(3).ack
    ensures s.phase == Fetching ==> !s.spu.Stage(0).active
  {
    hide Puts, Acks, History, SlotsStable, Positions, Counters, ContextAt, Sum;
    Rotation(s.spu);
    forall c | 0 <= c < STAGES && s.spu.pipe[c].active
      ensures |l.retired| <= l.fetchIndex[c] < l.fetched && cfg.Source(l.fetchIndex[c]) < |l.content|
    {
      assert Transfer(cfg, s.spu.pipe[c], l.fetchIndex[c], |l.retired|, l.fetched, l.content);
    }
    if s.phase == Retiring && s.spu.Stage(3).active {
      assert s.spu.Stage(3).task == l.content[cfg.Source(|l.retired|)];
    }
  }

  /** Stage 1 takes only a free context, and stage 4 frees one; no other step moves a task. */
  lemma StepFollows(cfg: Config, m: Point, step: Step, c: nat)
    requires CanStep(cfg, m, step) && c < STAGES && m.s.spu.pipe[c].active
    requires m.s.phase == Fetching ==> c != m.s.spu.Ctx(0)
    ensures step.Execute? ==> m.s.phase == Executing
    ensures step.Retire? ==> m.s.phase == Retiring
    ensures var q := Next(cfg, m, step);
      && |q.s.spu.pipe| == |q.l.fetchIndex| == STAGES
      && if step.Retire? && c == m.s.spu.Ctx(3) then
           q.l.retired == m.l.retired + [Retirement(m.s.spu.pipe[c].task, m.s.spu.pipe[c].ack)]
         else q.s.spu.pipe[c].active && q.l.fetchIndex[c] == m.l.fetchIndex[c]
  {
    hide ContextAt, Sum;
  }

  lemma StepHolds(cfg: Config, m: Point, step: Step, c: nat, k: nat, a: Ack)
    requires Inv(cfg, m.s, m.l) && CanStep(cfg, m, step)
    requires c < STAGES && cfg.Source(k) < |m.l.content| && Holds(cfg, m, c, k, a)
    ensures var q := Next(cfg, m, step);
      && |q.s.spu.pipe| == |q.l.fetchIndex| == STAGES && cfg.Source(k) < |q.l.content|
      && (Holds(cfg, q, c, k, a) || Answered(q, k, a))
  {
    StagesHold(cfg, m.s, m.l);
    hide Inv;
    StepAnswers(cfg, m.s, step, c);
    StepFollows(cfg, m, step, c);
    StepExtendsLogs(cfg, m, step);
    hide Enabled, Move, Record, ContextAt, Sum;
  }

  lemma {:induction false} RunHolds(cfg: Config, p: Point, steps: seq<Step>, q: Point, c: nat, k: nat, a: Ack)
    requires Inv(cfg, p.s, p.l) && Run(cfg, p, steps, q)
    requires c < STAGES && cfg.Source(k) < |p.l.content|
    requires Holds(cfg, p, c, k, a) || Answered(p, k, a)
    ensures |q.s.spu.pipe| == |q.l.fetchIndex| == STAGES && cfg.Source(k) < |q.l.content|
    ensures Holds(cfg, q, c, k, a) || Answered(q, k, a)
    decreases |steps|
  {
    hide Enabled, Move, Record, Counters, Positions, SlotsStable, Contexts, Transfers, Puts, Acks, History, Holds;
    if steps != [] {
      StepKeeps(cfg, p.s, p.l, steps[0]);
      StepExtendsLogs(cfg, p, steps[0]);
      if Holds(cfg, p, c, k, a) { StepHolds(cfg, p, steps[0], c, k, a); }
      hide Inv;
      RunHolds(cfg, Next(cfg, p, steps[0]), steps[1..], q, c, k, a);
    }
  }

  /** From any moment between its fetch and its retirement: the ack harvested for a task is the
      one its context holds, with the sum as its result if the task is an ADD and as it is
      otherwise. */
  lemma AnswerTravels(cfg: Config, p: Point, steps: seq<Step>, q: Point, c: nat)
    requires Reachable(cfg, p) && Run(cfg, p, steps, q)
    requires c < STAGES && |p.s.spu.pipe| == STAGES && LogShape(p.l) && p.s.spu.pipe[c].active
    requires p.l.fetchIndex[c] < |q.l.harvested|
    ensures var k := p.l.fetchIndex[c];
      && cfg.Source(k) < |p.l.content| <= |q.l.content| && q.l.content[cfg.Source(k)] == p.l.content[cfg.Source(k)]
      && q.l.harvested[k] == Answer(p.l.content[cfg.Source(k)], p.s.spu.pipe[c].ack)
  {
    ReachableInv(cfg, p);
    StagesHold(cfg, p.s, p.l);
    LogsOnlyGrow(cfg, p, steps, q);
    var k := p.l.fetchIndex[c];
    RunHolds(cfg, p, steps, q, c, k, Answer(p.l.content[cfg.Source(k)], p.s.spu.pipe[c].ack));
    ReachableExtends(cfg, p, steps, q);
    ReachableInv(cfg, q);
    hide Inv;
    HarvestedIsRetired(cfg, q, k, c);
  }

  lemma HarvestedIsRetired(cfg: Config, q: Point, k: nat, c: nat)
    requires Inv(cfg, q.s, q.l) && k < |q.l.harvested| && c < STAGES
    ensures k < |q.l.retired| && q.l.harvested[k] == q.l.retired[k].ack
    ensures q.s.spu.pipe[c].active ==> q.l.fetchIndex[c] != k
  {
    StagesHold(cfg, q.s, q.l);
    hide Contexts, Transfers, Puts, Acks, SlotsStable, Positions, Counters;
  }

  // ----- tasks of other commands

  ghost predicate HeldBy(pipe: seq<Context>, ack: Ack)
  {
    exists c | 0 <= c < |pipe| :: pipe[c].ack == ack
  }

  ghost predicate SameAcks(pipe: seq<Context>, pipe': seq<Context>)
  {
    |pipe| == |pipe'| && forall c | 0 <= c < |pipe| :: pipe'[c].ack == pipe[c].ack
  }

  /** No task from retirement `r` on is an ADD. */
  ghost predicate NoAdds(cfg: Config, r: nat, content: seq<Task>)
  {
    forall i: nat | r <= i && cfg.Source(i) < |content| :: content[cfg.Source(i)][0] != 0xC0DE_0ADD
  }

  lemma OtherStepKeepsAcks(cfg: Config, m: Point, step: Step)
    requires Inv(cfg, m.s, m.l) && CanStep(cfg, m, step) && NoAdds(cfg, |m.l.retired|, m.l.content)
    ensures SameAcks(m.s.spu.pipe, Next(cfg, m, step).s.spu.pipe)
    ensures var retired := Next(cfg, m, step).l.retired;
      || retired == m.l.retired
      || (|retired| == |m.l.retired| + 1 && HeldBy(m.s.spu.pipe, retired[|m.l.retired|].ack))
  {
    StagesHold(cfg, m.s, m.l);
    hide Inv;
    var q := Next(cfg, m, step);
    assert step.Execute? ==> m.s.phase == Executing;
    forall c | 0 <= c < STAGES ensures q.s.spu.pipe[c].ack == m.s.spu.pipe[c].ack {
      StepAnswers(cfg, m.s, step, c);
    }
    StepAnswers(cfg, m.s, step, 0);
    if step.Retire? && m.s.spu.Stage(3).active {
      assert q.l.retired[|m.l.retired|].ack == m.s.spu.pipe[m.s.spu.Ctx(3)].ack;
    }
    hide ContextAt, Sum;
  }

  /** While no ADD is run, no context's ack changes, and every task is answered with the ack that
      some context holds. */
  lemma {:induction false} OthersKeepAcks(cfg: Config, p: Point, steps: seq<Step>, q: Point)
    requires Inv(cfg, p.s, p.l) && Run(cfg, p, steps, q) && NoAdds(cfg, |p.l.retired|, q.l.content)
    ensures SameAcks(p.s.spu.pipe, q.s.spu.pipe) && p.l.retired <= q.l.retired
    ensures forall r | |p.l.retired| <= r < |q.l.retired| :: HeldBy(p.s.spu.pipe, q.l.retired[r].ack)
    decreases |steps|
  {
    hide Inv, Enabled, Move, Record;
    if steps != [] {
      var next := Next(cfg, p, steps[0]);
      LogsOnlyGrow(cfg, p, steps, q);
      StepKeeps(cfg, p.s, p.l, steps[0]);
      StepExtendsLogs(cfg, p, steps[0]);
      NoAddsBefore(cfg, p, q);
      OtherStepKeepsAcks(cfg, p, steps[0]);
      OthersKeepAcks(cfg, next, steps[1..], q);
      forall r | |p.l.retired| <= r < |q.l.retired| ensures HeldBy(p.s.spu.pipe, q.l.retired[r].ack) {
        if r < |next.l.retired| {
          assert q.l.retired[r] == next.l.retired[r];
        } else {
          var c :| 0 <= c < |next.s.spu.pipe| && next.s.spu.pipe[c].ack == q.l.retired[r].ack;
          assert p.s.spu.pipe[c].ack == q.l.retired[r].ack;
        }
      }
    }
  }

  lemma NoAddsBefore(cfg: Config, p: Point, q: Point)
    requires p.l.content <= q.l.content && NoAdds(cfg, |p.l.retired|, q.l.content)
    ensures NoAdds(cfg, |p.l.retired|, p.l.content)
  {
  }
}
