/** Every step of the queue keeps the invariant. */
module Preservation {
  import opened Words
  import opened Indices
  import opened HostSide
  import opened SpuSide
  import opened Protocol

  ghost predicate Keeps(cfg: Config, s: State, l: Log, step: Step)
    requires Enabled(cfg, s, step) && LogShape(l)
  {
    Inv(cfg, Move(cfg, s, step), Record(cfg, s, l, step))
  }

  // ----- the producer

  /** `ringHasFree` compares positions; it decides occupancy exactly. */
  lemma HasFreeIff(cfg: Config, s: State, l: Log)
    requires Inv(cfg, s, l) && !InKick(s)
    ensures s.host.HasFree() <==> Front(s, l) - Back(s, l) <= cfg.n - 2
    ensures s.host.HasTwoFree() <==> Front(s, l) - Back(s, l) <= cfg.n - 3
    ensures s.host.HasRemaining() <==> Front(s, l) != Back(s, l)
  {
    hide Contexts, Transfers, Puts, Acks, History;
    var n, f, b := cfg.n, Front(s, l), Back(s, l);
    AtPeriodic(b + 1, n);
    assert At(f + 2, n) == Increment(At(f + 1, n), n);
    assert At(f + 3, n) == Increment(At(f + 2, n), n);
    if b + 1 < f + 1 && At(f + 1, n) == At(b + 1, n) { AtInjective(b + 1, f + 1, n); }
    if f + 2 < b + 1 + n && At(f + 2, n) == At(b + 1, n) { AtInjective(b + 1, f + 2, n); }
    if f + 3 < b + 1 + n && At(f + 3, n) == At(b + 1, n) { AtInjective(b + 1, f + 3, n); }
  }

  lemma CheckKeeps(cfg: Config, s: State, l: Log)
    requires Inv(cfg, s, l) && Enabled(cfg, s, Check)
    ensures Keeps(cfg, s, l, Check)
  {
    hide Contexts, Transfers, Puts, Acks, History;
    HasFreeIff(cfg, s, l);
  }

  lemma OpenKeeps(cfg: Config, s: State, l: Log)
    requires Inv(cfg, s, l) && Enabled(cfg, s, Open)
    ensures Keeps(cfg, s, l, Open)
  {
    hide Contexts, Transfers, Puts, Acks, History;
  }

  lemma WriteKeeps(cfg: Config, s: State, l: Log, v: Word)
    requires Inv(cfg, s, l) && Enabled(cfg, s, Write(v))
    ensures Keeps(cfg, s, l, Write(v))
  {
    hide Contexts, Transfers, Puts, Acks, History;
    var s', n := Move(cfg, s, Write(v)), cfg.n;
    forall j | Back(s, l) <= j < |l.content| && j >= 0
      ensures SlotOf(s'.host.slots, j) == l.content[j]
    {
      if At(j, n) == s.host.entrySlot { AtInjective(j, |l.content|, n); }
    }
  }

  lemma RecheckKeeps(cfg: Config, s: State, l: Log)
    requires Inv(cfg, s, l) && Enabled(cfg, s, Recheck)
    ensures Keeps(cfg, s, l, Recheck)
  {
    hide Contexts, Transfers, Puts, Acks, History;
    HasFreeIff(cfg, s, l);
  }

  /** Closing another slot leaves every earlier content where it was. */
  lemma ContentGrows(cfg: Config, s: State, l: Log, task: Task)
    requires Inv(cfg, s, l)
    ensures Transfers(cfg, s.spu.pipe, l.fetchIndex, |l.retired|, l.fetched, l.content + [task])
    ensures History(cfg, l.content + [task], l.retired, l.harvested)
  {
    hide Contexts, Puts, Acks, SlotsStable, Positions;
  }

  lemma ReopenKeeps(cfg: Config, s: State, l: Log)
    requires Inv(cfg, s, l) && Enabled(cfg, s, Reopen)
    ensures Keeps(cfg, s, l, Reopen)
  {
    hide Contexts, Transfers, Puts, Acks, History;
    ContentGrows(cfg, s, l, s.host.slots[s.host.front]);
  }

  lemma KickStateKeeps(cfg: Config, s: State, l: Log)
    requires Inv(cfg, s, l) && Enabled(cfg, s, KickState)
    ensures Keeps(cfg, s, l, KickState)
  {
    hide Contexts, Transfers, Puts, Acks, History;
    ContentGrows(cfg, s, l, s.host.slots[s.host.front]);
    assert At(0, cfg.n) == cfg.n - 1 && At(1, cfg.n) == 0;
  }

  lemma KickEndKeeps(cfg: Config, s: State, l: Log, step: Step)
    requires Inv(cfg, s, l) && Enabled(cfg, s, step)
    requires step.KickRetry? || step.KickCount? || step.KickFlag? || step.KickFront?
    ensures Keeps(cfg, s, l, step)
  {
    hide Contexts, Transfers, Puts, Acks, History;
  }

  // ----- the harvester

  lemma HarvestReadKeeps(cfg: Config, s: State, l: Log)
    requires Inv(cfg, s, l) && Enabled(cfg, s, HarvestRead)
    ensures Keeps(cfg, s, l, HarvestRead)
  {
    hide Contexts, Transfers, History;
    assert AckOf(s.host.acks, |l.harvested|) == s.host.acks[s.host.back];
  }

  /** Clearing the oldest ack touches no other unharvested one, and the cleared slot is next
      awaited a whole lap later. */
  lemma ClearAcks(h: Host, pipe: seq<Context>, putIndex: seq<nat>, harvested: nat, retired: seq<Retirement>)
    requires h.Shape() && |pipe| == |putIndex| == STAGES && h.back == At(harvested + 1, h.Size())
    requires Puts(h.Size(), pipe, putIndex, harvested, retired) && Acks(h.acks, pipe, putIndex, harvested, retired)
    requires harvested < |retired| <= harvested + h.Size() && !PutPending(pipe, putIndex, harvested)
    ensures h.acks[h.back] == retired[harvested].ack
    ensures Puts(h.Size(), pipe, putIndex, harvested + 1, retired)
    ensures Acks(h.ClearAck().acks, pipe, putIndex, harvested + 1, retired)
  {
    hide At;
    var n, acks := h.Size(), h.ClearAck().acks;
    assert AckOf(h.acks, harvested) == h.acks[h.back];
    AtPeriodic(harvested + 1, n);
    forall j | harvested < j < harvested + n ensures AckOf(acks, j) == AckOf(h.acks, j) {
      if At(j + 1, n) == At(harvested + 1, n) { AtInjective(harvested + 1, j + 1, n); }
    }
    assert AckOf(acks, harvested + n) == acks[h.back];
  }

  lemma HarvestExtends(cfg: Config, content: seq<Task>, retired: seq<Retirement>, harvested: seq<Ack>)
    requires History(cfg, content, retired, harvested) && |harvested| < |retired|
    ensures History(cfg, content, retired, harvested + [retired[|harvested|].ack])
  {
  }

  lemma HarvestClearKeeps(cfg: Config, s: State, l: Log)
    requires Inv(cfg, s, l) && Enabled(cfg, s, HarvestClear)
    ensures Keeps(cfg, s, l, HarvestClear)
  {
    hide Contexts, Transfers, Puts, Acks, SlotsStable, PutPending, History;
    HarvestExtends(cfg, l.content, l.retired, l.harvested);
    ClearAcks(s.host, s.spu.pipe, l.putIndex, |l.harvested|, l.retired);
  }

  lemma HarvestAdvanceKeeps(cfg: Config, s: State, l: Log)
    requires Inv(cfg, s, l) && Enabled(cfg, s, HarvestAdvance)
    ensures Keeps(cfg, s, l, HarvestAdvance)
  {
    hide Contexts, Transfers, Puts, Acks, History;
  }

  // ----- the SPU

  ghost predicate SamePutsIn(pipe: seq<Context>, pipe': seq<Context>)
    requires |pipe| == |pipe'| == STAGES
  {
    forall c | 0 <= c < STAGES :: pipe'[c].put == pipe[c].put && (pipe[c].put.PutTo? ==> pipe'[c].ack == pipe[c].ack)
  }

  /** The acks in flight depend only on the contexts' puts and on the acks those carry. */
  lemma SamePuts(n: nat, pipe: seq<Context>, pipe': seq<Context>, putIndex: seq<nat>, acks: seq<Ack>,
                 harvested: nat, retired: seq<Retirement>)
    requires |pipe| == |pipe'| == |putIndex| == STAGES && n == |acks| >= 1
    requires SamePutsIn(pipe, pipe')
    ensures Puts(n, pipe, putIndex, harvested, retired) ==> Puts(n, pipe', putIndex, harvested, retired)
    ensures Acks(acks, pipe, putIndex, harvested, retired) ==> Acks(acks, pipe', putIndex, harvested, retired)
    ensures PutPending(pipe', putIndex, harvested) ==> PutPending(pipe, putIndex, harvested)
  {
    forall j: int ensures PutPending(pipe, putIndex, j) <==> PutPending(pipe', putIndex, j) {
      if PutPending(pipe, putIndex, j) {
        var c :| 0 <= c < STAGES && pipe[c].put.PutTo? && putIndex[c] == j;
        assert pipe'[c].put.PutTo?;
      }
      if PutPending(pipe', putIndex, j) {
        var c :| 0 <= c < STAGES && pipe'[c].put.PutTo? && putIndex[c] == j;
        assert pipe[c].put.PutTo?;
      }
    }
  }

  /** A step of the SPU that leaves the puts, the host and the history alone keeps the
      invariant when it keeps the contexts' part of it. */
  lemma SpuStep(cfg: Config, s: State, l: Log, s': State, l': Log)
    requires Inv(cfg, s, l) && Shape(cfg.n, s') && LogShape(l')
    requires s' == s.(spu := s'.spu, phase := s'.phase)
    requires l' == l.(fetched := l'.fetched, seen := l'.seen, fetchIndex := l'.fetchIndex)
    requires |l.retired| <= l'.fetched <= l'.seen <= l.published
    requires s'.spu.front == At(l'.seen, cfg.n) && s'.spu.inBack == At(l'.fetched, cfg.n)
    requires s'.spu.outBack == s.spu.outBack
    requires Contexts(s'.spu, s'.phase, |l.retired|, l'.fetched, l'.fetchIndex)
    requires Transfers(cfg, s'.spu.pipe, l'.fetchIndex, |l.retired|, l'.fetched, l.content)
    requires SamePutsIn(s.spu.pipe, s'.spu.pipe)
    ensures Inv(cfg, s', l')
  {
    hide Contexts, Transfers, History, SlotsStable, Puts, Acks, PutPending;
    SamePuts(cfg.n, s.spu.pipe, s'.spu.pipe, l.putIndex, s.host.acks, |l.harvested|, l.retired);
  }

  lemma PollKeeps(cfg: Config, s: State, l: Log)
    requires Inv(cfg, s, l) && Enabled(cfg, s, Poll)
    ensures Keeps(cfg, s, l, Poll)
  {
    hide Transfers, Puts, Acks, History, SlotsStable, ContextAt;
    SpuStep(cfg, s, l, Move(cfg, s, Poll), Record(cfg, s, l, Poll));
  }

  lemma FetchContexts(mode: Addressing, n: nat, u: Spu, r: nat, f: nat, fi: seq<nat>)
    requires u.Shape(n) && |fi| == STAGES
    requires Contexts(u, Fetching, r, f, fi)
    ensures var u' := u.Fetch(mode, n);
      && u'.Shape(n) && SamePutsIn(u.pipe, u'.pipe)
      && if u.TasksRemaining() then Contexts(u', Waiting, r, f + 1, fi[u.Ctx(0) := f])
         else Contexts(u', Waiting, r, f, fi)
  {
    hide ContextAt, Executed;
    Rotation(u);
  }

  lemma FetchTransfers(cfg: Config, u: Spu, r: nat, f: nat, fi: seq<nat>, content: seq<Task>)
    requires cfg.n >= 1 && u.Shape(cfg.n) && |fi| == STAGES && u.TasksRemaining()
    requires Transfers(cfg, u.pipe, fi, r, f, content) && u.inBack == At(f, cfg.n)
    requires r <= f && f + 1 < |content|
    ensures Transfers(cfg, u.Fetch(cfg.mode, cfg.n).pipe, fi[u.Ctx(0) := f], r, f + 1, content)
  {
    hide ContextAt;
    assert forall w: nat | w < TASK_WORDS :: w in ALL_WORDS;
  }

  lemma FetchKeeps(cfg: Config, s: State, l: Log)
    requires Inv(cfg, s, l) && Enabled(cfg, s, Fetch)
    ensures Keeps(cfg, s, l, Fetch)
  {
    hide Contexts, Transfers, Puts, Acks, History, SlotsStable, ContextAt, SamePutsIn, Spu.Shape;
    FetchContexts(cfg.mode, cfg.n, s.spu, |l.retired|, l.fetched, l.fetchIndex);
    if s.spu.TasksRemaining() {
      FetchTransfers(cfg, s.spu, |l.retired|, l.fetched, l.fetchIndex, l.content);
    }
    SpuStep(cfg, s, l, Move(cfg, s, Fetch), Record(cfg, s, l, Fetch));
  }

  lemma WaitContexts(u: Spu, r: nat, f: nat, fi: seq<nat>)
    requires |u.pipe| == |fi| == STAGES
    requires Contexts(u, Waiting, r, f, fi) && u.TagWaitPasses()
    ensures Contexts(u, Executing, r, f, fi)
  {
    hide ContextAt, Executed;
  }

  lemma WaitKeeps(cfg: Config, s: State, l: Log)
    requires Inv(cfg, s, l) && Enabled(cfg, s, Wait)
    ensures Keeps(cfg, s, l, Wait)
  {
    hide Contexts, Transfers, Puts, Acks, History, SlotsStable, ContextAt;
    WaitContexts(s.spu, |l.retired|, l.fetched, l.fetchIndex);
    SpuStep(cfg, s, l, Move(cfg, s, Wait), Record(cfg, s, l, Wait));
  }

  lemma ExecuteContexts(n: nat, u: Spu, r: nat, f: nat, fi: seq<nat>)
    requires u.Shape(n) && |fi| == STAGES
    requires Contexts(u, Executing, r, f, fi)
    ensures var u' := u.Execute();
      u'.Shape(n) && SamePutsIn(u.pipe, u'.pipe) && Contexts(u', Retiring, r, f, fi)
  {
    hide ContextAt, Sum;
    Rotation(u);
  }

  lemma ExecuteTransfers(cfg: Config, u: Spu, r: nat, f: nat, fi: seq<nat>, content: seq<Task>)
    requires cfg.n >= 1 && u.Shape(cfg.n) && |fi| == STAGES && Transfers(cfg, u.pipe, fi, r, f, content)
    ensures Transfers(cfg, u.Execute().pipe, fi, r, f, content)
  {
    hide ContextAt, Sum;
  }

  lemma ExecuteKeeps(cfg: Config, s: State, l: Log)
    requires Inv(cfg, s, l) && Enabled(cfg, s, Execute)
    ensures Keeps(cfg, s, l, Execute)
  {
    hide Contexts, Transfers, Puts, Acks, History, SlotsStable, ContextAt, SamePutsIn, Spu.Shape;
    ExecuteContexts(cfg.n, s.spu, |l.retired|, l.fetched, l.fetchIndex);
    ExecuteTransfers(cfg, s.spu, |l.retired|, l.fetched, l.fetchIndex, l.content);
    SpuStep(cfg, s, l, Move(cfg, s, Execute), Record(cfg, s, l, Execute));
  }

  lemma TurnContexts(u: Spu, r: nat, f: nat, fi: seq<nat>)
    requires |u.pipe| == |fi| == STAGES
    requires Contexts(u, Turning, r, f, fi)
    ensures Contexts(u.Turn(), Polling, r, f, fi)
  {
    Rotation(u);
    hide ContextAt, Executed;
  }

  lemma TurnKeeps(cfg: Config, s: State, l: Log)
    requires Inv(cfg, s, l) && Enabled(cfg, s, Turn)
    ensures Keeps(cfg, s, l, Turn)
  {
    hide Contexts, Transfers, Puts, Acks, History, SlotsStable, ContextAt;
    TurnContexts(s.spu, |l.retired|, l.fetched, l.fetchIndex);
    SpuStep(cfg, s, l, Move(cfg, s, Turn), Record(cfg, s, l, Turn));
  }

  // ----- the DMA engine

  lemma WordContexts(u: Spu, phase: Phase, r: nat, f: nat, fi: seq<nat>, h: Host, c: nat, w: nat)
    requires u.Shape(h.Size()) && |fi| == STAGES && c < STAGES && w in u.pipe[c].missing
    requires Contexts(u, phase, r, f, fi) && u.pipe[c].active
    ensures var u' := u.TakeWord(h, c, w);
      u'.Shape(h.Size()) && SamePutsIn(u.pipe, u'.pipe) && Contexts(u', phase, r, f, fi)
  {
    hide ContextAt, Executed;
    var d := StagesCover(u, c);
    Rotation(u);
  }

  lemma WordTransfers(cfg: Config, u: Spu, r: nat, f: nat, fi: seq<nat>, content: seq<Task>,
                      h: Host, back: int, c: nat, w: nat)
    requires cfg.n == h.Size() >= 1 && u.Shape(cfg.n) && |fi| == STAGES && c < STAGES && w in u.pipe[c].missing
    requires Transfers(cfg, u.pipe, fi, r, f, content)
    requires SlotsStable(cfg, h.slots, back, content) && back <= r
    ensures u.pipe[c].active
    ensures Transfers(cfg, u.TakeWord(h, c, w).pipe, fi, r, f, content)
  {
    hide ContextAt;
    assert Transfer(cfg, u.pipe[c], fi[c], r, f, content);
    assert SlotOf(h.slots, cfg.Source(fi[c])) == content[cfg.Source(fi[c])];
  }

  lemma WordArrivesKeeps(cfg: Config, s: State, l: Log, c: nat, w: nat)
    requires Inv(cfg, s, l) && Enabled(cfg, s, WordArrives(c, w))
    ensures Keeps(cfg, s, l, WordArrives(c, w))
  {
    hide Contexts, Transfers, Puts, Acks, History, SlotsStable, ContextAt, SamePutsIn;
    WordTransfers(cfg, s.spu, |l.retired|, l.fetched, l.fetchIndex, l.content, s.host, Back(s, l), c, w);
    WordContexts(s.spu, s.phase, |l.retired|, l.fetched, l.fetchIndex, s.host, c, w);
    SpuStep(cfg, s, l, Move(cfg, s, WordArrives(c, w)), Record(cfg, s, l, WordArrives(c, w)));
  }

  /** An ack that lands fills the slot of its own index and no other. */
  lemma LandAcks(h: Host, pipe: seq<Context>, putIndex: seq<nat>, harvested: nat, retired: seq<Retirement>, c: nat)
    requires h.Shape() && |pipe| == |putIndex| == STAGES
    requires c < STAGES && pipe[c].put.PutTo? && pipe[c].put.slot < h.Size()
    requires Puts(h.Size(), pipe, putIndex, harvested, retired) && Acks(h.acks, pipe, putIndex, harvested, retired)
    requires |retired| < harvested + h.Size()
    ensures var pipe' := pipe[c := pipe[c].(put := NoPut)];
      && Puts(h.Size(), pipe', putIndex, harvested, retired)
      && Acks(h.Land(pipe[c].put.slot, pipe[c].ack).acks, pipe', putIndex, harvested, retired)
      && (PutPending(pipe', putIndex, harvested) ==> PutPending(pipe, putIndex, harvested))
  {
    hide At;
    var n, pipe' := h.Size(), pipe[c := pipe[c].(put := NoPut)];
    var k, acks := putIndex[c], h.Land(pipe[c].put.slot, pipe[c].ack).acks;
    forall j: int | j != k ensures PutPending(pipe', putIndex, j) <==> PutPending(pipe, putIndex, j) {
      if PutPending(pipe, putIndex, j) {
        var d :| 0 <= d < STAGES && pipe[d].put.PutTo? && putIndex[d] == j;
        assert pipe'[d].put.PutTo?;
      }
    }
    assert PutPending(pipe, putIndex, k) && !PutPending(pipe', putIndex, k);
    forall j: nat | harvested <= j < harvested + n && j != k ensures AckOf(acks, j) == AckOf(h.acks, j) {
      if At(j + 1, n) == At(k + 1, n) {
        if j < k { AtInjective(j + 1, k + 1, n); } else { AtInjective(k + 1, j + 1, n); }
      }
    }
  }

  lemma LandContexts(u: Spu, n: nat, phase: Phase, r: nat, f: nat, fi: seq<nat>, c: nat)
    requires u.Shape(n) && |fi| == STAGES && c < STAGES
    requires Contexts(u, phase, r, f, fi)
    ensures u.PutDone(c).Shape(n) && Contexts(u.PutDone(c), phase, r, f, fi)
  {
    hide ContextAt;
    var d := StagesCover(u, c);
    Rotation(u);
  }

  lemma PutLandsKeeps(cfg: Config, s: State, l: Log, c: nat)
    requires Inv(cfg, s, l) && Enabled(cfg, s, PutLands(c))
    ensures Keeps(cfg, s, l, PutLands(c))
  {
    hide Contexts, Puts, Acks, History, SlotsStable, PutPending;
    LandAcks(s.host, s.spu.pipe, l.putIndex, |l.harvested|, l.retired, c);
    LandContexts(s.spu, cfg.n, s.phase, |l.retired|, l.fetched, l.fetchIndex, c);
  }

  lemma RetireContexts(u: Spu, n: nat, r: nat, f: nat, fi: seq<nat>)
    requires u.Shape(n) && |fi| == STAGES && Contexts(u, Retiring, r, f, fi)
    ensures var u' := u.Retire(n);
      u'.Shape(n) && Contexts(u', Turning, if u.Stage(3).active then r + 1 else r, f, fi)
  {
    hide ContextAt, Executed;
    Rotation(u);
  }

  lemma RetireTransfers(cfg: Config, u: Spu, r: nat, f: nat, fi: seq<nat>, content: seq<Task>)
    requires cfg.n >= 1 && u.Shape(cfg.n) && |fi| == STAGES && u.Stage(3).active
    requires Contexts(u, Retiring, r, f, fi) && Transfers(cfg, u.pipe, fi, r, f, content)
    ensures Transfers(cfg, u.Retire(cfg.n).pipe, fi, r + 1, f, content)
    ensures u.Stage(3).entry == At(r + 1, cfg.n)
    ensures u.Stage(3).TagIdle() && Executed(u.Stage(3)) && !u.Stage(3).ack.Clear()
    ensures r < f && r < |content| - 1 && u.Stage(3).task == content[cfg.Source(r)]
  {
    hide ContextAt, Executed;
    Rotation(u);
    assert Transfer(cfg, u.pipe[u.Ctx(3)], r, r, f, content);
    forall c | 0 <= c < STAGES ensures Transfer(cfg, u.Retire(cfg.n).pipe[c], fi[c], r + 1, f, content) {
      assert Transfer(cfg, u.pipe[c], fi[c], r, f, content);
      var d := StagesCover(u, c);
    }
  }

  /** A retirement's put claims the next index, whose ack slot is clear. */
  lemma RetirePuts(n: nat, acks: seq<Ack>, pipe: seq<Context>, putIndex: seq<nat>,
                   harvested: nat, retired: seq<Retirement>, c: nat, t: Retirement)
    requires n == |acks| >= 1 && |pipe| == |putIndex| == STAGES && c < STAGES && pipe[c].put == NoPut
    requires Puts(n, pipe, putIndex, harvested, retired) && Acks(acks, pipe, putIndex, harvested, retired)
    requires harvested <= |retired| < harvested + n && pipe[c].ack == t.ack
    ensures var pipe' := pipe[c := pipe[c].(active := false, put := PutTo(At(|retired| + 1, n)))];
      var putIndex' := putIndex[c := |retired|];
      && Puts(n, pipe', putIndex', harvested, retired + [t])
      && Acks(acks, pipe', putIndex', harvested, retired + [t])
      && (harvested < |retired| && PutPending(pipe', putIndex', harvested) ==> PutPending(pipe, putIndex, harvested))
  {
    var pipe' := pipe[c := pipe[c].(active := false, put := PutTo(At(|retired| + 1, n)))];
    var putIndex' := putIndex[c := |retired|];
    assert pipe'[c].put.PutTo? && putIndex'[c] == |retired|;
    assert PutPending(pipe', putIndex', |retired|);
    forall j: int | j != |retired| ensures PutPending(pipe', putIndex', j) <==> PutPending(pipe, putIndex, j) {
      if PutPending(pipe, putIndex, j) {
        var d :| 0 <= d < STAGES && pipe[d].put.PutTo? && putIndex[d] == j;
        assert pipe'[d].put.PutTo? && putIndex'[d] == j;
      }
    }
  }

  lemma RetirementExtends(cfg: Config, content: seq<Task>, retired: seq<Retirement>, harvested: seq<Ack>, t: Retirement)
    requires History(cfg, content, retired, harvested) && |retired| + 1 < |content|
    requires t.task == content[cfg.Source(|retired|)]
    requires !t.ack.Clear() && (t.task[0] == ADD ==> t.ack.retval == Sum(t.task))
    ensures History(cfg, content, retired + [t], harvested)
  {
    hide Sum;
  }

  lemma RetireKeeps(cfg: Config, s: State, l: Log)
    requires Inv(cfg, s, l) && Enabled(cfg, s, Retire)
    ensures Keeps(cfg, s, l, Retire)
  {
    hide Contexts, Transfers, Puts, Acks, SlotsStable, PutPending, ContextAt, History;
    var u, r := s.spu, |l.retired|;
    RetireContexts(u, cfg.n, r, l.fetched, l.fetchIndex);
    if u.Stage(3).active {
      RetireTransfers(cfg, u, r, l.fetched, l.fetchIndex, l.content);
      RetirementExtends(cfg, l.content, l.retired, l.harvested, Retirement(u.Stage(3).task, u.Stage(3).ack));
      RetirePuts(cfg.n, s.host.acks, u.pipe, l.putIndex, |l.harvested|, l.retired, u.Ctx(3),
                 Retirement(u.Stage(3).task, u.Stage(3).ack));
    }
  }

  /** Every step of every agent keeps the invariant. */
  lemma StepKeeps(cfg: Config, s: State, l: Log, step: Step)
    requires Inv(cfg, s, l) && Enabled(cfg, s, step)
    ensures Keeps(cfg, s, l, step)
  {
    hide Inv, Enabled, Keeps;
    match step
    case Check => CheckKeeps(cfg, s, l);
    case Open => OpenKeeps(cfg, s, l);
    case Write(v) => WriteKeeps(cfg, s, l, v);
    case Recheck => RecheckKeeps(cfg, s, l);
    case Reopen => ReopenKeeps(cfg, s, l);
    case KickState => KickStateKeeps(cfg, s, l);
    case KickRetry => KickEndKeeps(cfg, s, l, step);
    case KickCount => KickEndKeeps(cfg, s, l, step);
    case KickFlag => KickEndKeeps(cfg, s, l, step);
    case KickFront => KickEndKeeps(cfg, s, l, step);
    case HarvestRead => HarvestReadKeeps(cfg, s, l);
    case HarvestClear => HarvestClearKeeps(cfg, s, l);
    case HarvestAdvance => HarvestAdvanceKeeps(cfg, s, l);
    case Poll => PollKeeps(cfg, s, l);
    case Fetch => FetchKeeps(cfg, s, l);
    case Wait => WaitKeeps(cfg, s, l);
    case Execute => ExecuteKeeps(cfg, s, l);
    case Retire => RetireKeeps(cfg, s, l);
    case Turn => TurnKeeps(cfg, s, l);
    case WordArrives(c, w) => WordArrivesKeeps(cfg, s, l, c, w);
    case PutLands(c) => PutLandsKeeps(cfg, s, l, c);
  }
}
