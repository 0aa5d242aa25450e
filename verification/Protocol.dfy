/** One SPE queue as a transition system: the producer, the harvester, the SPU pipeline and
    the DMA engine each take one memory access or pipeline stage at a time, in any order. */
module Protocol {
  import opened Words
  import opened Indices
  import opened HostSide
  import opened SpuSide

  /** Ring size, slot addressing, and the words found in the last slot at start-up. */
  datatype Config = Config(n: nat, mode: Addressing, boot: Task)
  {
    /** Which content index fetch `k` reads: see `Log.content`. */
    function Source(k: nat): nat { if mode == AsWritten then k else k + 1 }
  }

  /** Where the producer stands: between calls with nothing open, past a `ringHasFree` check,
      filling the open slot, past the check of a second begin, or inside `fifoKick` before the
      write of `count`, of `isKicked` and of `front`. */
  datatype Producer = Idle | Checked | Filling | Rechecked | Counting | Flagging | Fronting

  datatype Harvester = Scanning | Found | Cleared

  /** The stage that the SPU runs next. */
  datatype Phase = Polling | Fetching | Waiting | Executing | Retiring | Turning

  datatype State = State(host: Host, spu: Spu, producer: Producer, harvester: Harvester, phase: Phase)

  datatype Retirement = Retirement(task: Task, ack: Ack)

  /** The history of a run. No step reads it.
      `content[j + 1]` is the content of the slot of publication `j` when it was closed, and
      `content[0]` is what the last slot held at start-up; `fetchIndex` and `putIndex` say, per
      context, which publication it fetched and whose ack it puts. */
  datatype Log = Log(
    content: seq<Task>, published: nat, seen: nat, fetched: nat,
    retired: seq<Retirement>, harvested: seq<Ack>,
    fetchIndex: seq<nat>, putIndex: seq<nat>)
  {
    function Closed(): nat { if |content| == 0 then 0 else |content| - 1 }
  }

  datatype Step =
    | Check | Open | Write(v: Word) | Recheck | Reopen
    | KickState | KickRetry | KickCount | KickFlag | KickFront
    | HarvestRead | HarvestClear | HarvestAdvance
    | Poll | Fetch | Wait | Execute | Retire | Turn
    | WordArrives(c: nat, w: nat) | PutLands(c: nat)
  {
    predicate ByProducer()
    {
      || Check? || Open? || Write? || Recheck? || Reopen?
      || KickState? || KickRetry? || KickCount? || KickFlag? || KickFront?
    }
  }

  ghost predicate Shape(n: nat, s: State)
  {
    s.host.Shape() && s.host.Size() == n && s.spu.Shape(n)
  }

  ghost predicate Enabled(cfg: Config, s: State, step: Step)
  {
    && Shape(cfg.n, s)
    && match step
       case Check => s.producer == Idle && s.host.HasFree()
       case Open => s.producer == Checked
       case Write(v) => s.producer == Filling && s.host.entryCount + 1 < TASK_WORDS
       // A second begin without a kick is admitted only when two slots are free.
       case Recheck => s.producer == Filling && s.host.HasTwoFree()
       case Reopen => s.producer == Rechecked
       case KickState => s.producer == Filling
       case KickRetry => s.producer == Counting
       case KickCount => s.producer == Counting
       case KickFlag => s.producer == Flagging
       case KickFront => s.producer == Fronting
       case HarvestRead => s.harvester == Scanning && !s.host.acks[s.host.back].Clear()
       case HarvestClear => s.harvester == Found
       case HarvestAdvance => s.harvester == Cleared
       case Poll => s.phase == Polling
       case Fetch => s.phase == Fetching
       case Wait => s.phase == Waiting && s.spu.TagWaitPasses()
       case Execute => s.phase == Executing
       case Retire => s.phase == Retiring
       case Turn => s.phase == Turning
       case WordArrives(c, w) => c < STAGES && w in s.spu.pipe[c].missing
       case PutLands(c) => c < STAGES && s.spu.pipe[c].put.PutTo?
  }

  ghost function Move(cfg: Config, s: State, step: Step): State
    requires Enabled(cfg, s, step)
  {
    match step
    case Check => s.(producer := Checked)
    case Open => s.(producer := Filling, host := s.host.OpenSlot())
    case Write(v) => s.(host := s.host.WriteNext(v))
    case Recheck => s.(producer := Rechecked)
    case Reopen => s.(producer := Filling, host := s.host.AdvanceFront().OpenSlot())
    case KickState => s.(producer := Counting, host := s.host.SetState())
    case KickRetry => s.(host := s.host.SetState())
    case KickCount => s.(producer := Flagging, host := s.host.SetCount())
    case KickFlag => s.(producer := Fronting, host := s.host.SetKicked())
    case KickFront => s.(producer := Idle, host := s.host.AdvanceFront())
    case HarvestRead => s.(harvester := Found)
    case HarvestClear => s.(harvester := Cleared, host := s.host.ClearAck())
    case HarvestAdvance => s.(harvester := Scanning, host := s.host.AdvanceBack())
    case Poll => s.(phase := Fetching, spu := s.spu.Poll(s.host))
    case Fetch => s.(phase := Waiting, spu := s.spu.Fetch(cfg.mode, cfg.n))
    case Wait => s.(phase := Executing)
    case Execute => s.(phase := Retiring, spu := s.spu.Execute())
    case Retire => s.(phase := Turning, spu := s.spu.Retire(cfg.n))
    case Turn => s.(phase := Polling, spu := s.spu.Turn())
    case WordArrives(c, w) => s.(spu := s.spu.TakeWord(s.host, c, w))
    case PutLands(c) =>
      s.(spu := s.spu.PutDone(c), host := s.host.Land(s.spu.pipe[c].put.slot, s.spu.pipe[c].ack))
  }

  ghost predicate LogShape(l: Log)
  {
    |l.content| >= 1 && |l.fetchIndex| == STAGES && |l.putIndex| == STAGES
  }

  ghost function Record(cfg: Config, s: State, l: Log, step: Step): (r: Log)
    requires Enabled(cfg, s, step) && LogShape(l)
    ensures LogShape(r)
  {
    var h, u := s.host, s.spu;
    match step
    case Reopen => l.(content := l.content + [h.slots[h.front]])
    case KickState =>
      l.(content := l.content + [h.slots[h.front]], published := if h.state == 0 then 1 else l.published)
    case KickCount => l.(published := l.Closed())
    case HarvestClear => l.(harvested := l.harvested + [h.acks[h.back]])
    case Poll => if h.state != 0 then l.(seen := l.published) else l
    case Fetch =>
      if u.TasksRemaining() then
        l.(fetched := l.fetched + 1, fetchIndex := l.fetchIndex[u.Ctx(0) := l.fetched])
      else l
    case Retire =>
      var c := u.Stage(3);
      if c.active then
        l.(retired := l.retired + [Retirement(c.task, c.ack)], putIndex := l.putIndex[u.Ctx(3) := |l.retired|])
      else l
    case _ => l
  }

  // ----- the invariant

  /** Slots harvested as `back` counts them: the harvester clears an ack before it advances. */
  ghost function Back(s: State, l: Log): int
  {
    |l.harvested| - if s.harvester == Cleared then 1 else 0
  }

  /** Slots passed as `front` counts them: a kick closes its slot before it advances. */
  ghost function Front(s: State, l: Log): int
  {
    l.Closed() - if InKick(s) then 1 else 0
  }

  ghost predicate InKick(s: State)
  {
    s.producer == Counting || s.producer == Flagging || s.producer == Fronting
  }

  /** Free slots that the producer has already claimed by a check. */
  ghost function Claimed(p: Producer): nat
  {
    if p == Checked || p == Filling then 1 else if p == Rechecked then 2 else 0
  }

  ghost predicate Counters(cfg: Config, s: State, l: Log)
  {
    && |l.harvested| <= |l.retired| <= l.fetched <= l.seen <= l.published <= l.Closed()
    && l.Closed() + Claimed(s.producer) <= Back(s, l) + cfg.n - 1
    && (s.harvester == Cleared ==> |l.harvested| >= 1)
    && (s.harvester == Found ==> |l.harvested| < |l.retired|)
    && (InKick(s) ==> l.Closed() >= 1)
    && (s.producer == Idle || s.producer == Checked || s.producer == Flagging || s.producer == Fronting
        ==> l.published == l.Closed())
  }

  /** Every concrete index is the position of its counter. */
  ghost predicate Positions(cfg: Config, s: State, l: Log)
    requires Front(s, l) >= 0 && Back(s, l) >= 0 && cfg.n >= 1
  {
    && s.host.front == At(Front(s, l) + 1, cfg.n)
    && s.host.back == At(Back(s, l) + 1, cfg.n)
    && s.spu.front == At(l.seen, cfg.n)
    && s.spu.inBack == At(l.fetched, cfg.n)
    && s.spu.outBack == At(|l.retired|, cfg.n)
    && (if s.host.state == 0 then l.published == 0 && s.host.count == 0
        else s.host.state == 1 && l.published >= 1 && s.host.count == At(l.published, cfg.n))
    && (InKick(s) ==> s.host.state == 1)
    && (s.producer == Filling ==> s.host.entrySlot == s.host.front && s.host.entryCount < TASK_WORDS)
    && s.host.isKicked == (s.producer == Idle || s.producer == Checked || s.producer == Fronting)
  }

  /** The slot that content index `j` was written to. */
  ghost function SlotOf(slots: seq<Task>, j: nat): Task
    requires |slots| > 0
  {
    slots[At(j, |slots|)]
  }

  /** The ack slot of publication `j`. */
  ghost function AckOf(acks: seq<Ack>, j: nat): Ack
    requires |acks| > 0
  {
    acks[At(j + 1, |acks|)]
  }

  /** The slots of all publications back to one before the oldest unharvested still hold what
      was published there. */
  ghost predicate SlotsStable(cfg: Config, slots: seq<Task>, back: int, content: seq<Task>)
    requires |slots| > 0
  {
    && |content| >= 1 && content[0] == cfg.boot
    && forall j | back <= j < |content| && j >= 0 :: SlotOf(slots, j) == content[j]
  }

  function One(b: bool): nat { if b then 1 else 0 }

  function Rank(p: Phase): nat
  {
    match p
    case Polling => 0 case Fetching => 1 case Waiting => 2 case Executing => 3 case Retiring => 4 case Turning => 5
  }

  /** The contexts of stages 4, 3, 2, 1, in that order, hold the publications that are fetched
      and not retired, in order; what a stage has done to its context is done. */
  ghost predicate Contexts(u: Spu, phase: Phase, retired: nat, fetched: nat, fetchIndex: seq<nat>)
    requires |u.pipe| == |fetchIndex| == STAGES
  {
    && (Rank(phase) <= Rank(Fetching) ==> !u.Stage(0).active)
    && (phase == Turning ==> !u.Stage(3).active)
    && fetched == retired + One(u.Stage(3).active) + One(u.Stage(2).active)
                  + One(u.Stage(1).active) + One(u.Stage(0).active)
    && (u.Stage(3).active ==> fetchIndex[u.Ctx(3)] == retired)
    && (u.Stage(2).active ==> fetchIndex[u.Ctx(2)] == retired + One(u.Stage(3).active))
    && (u.Stage(1).active ==> fetchIndex[u.Ctx(1)] == retired + One(u.Stage(3).active) + One(u.Stage(2).active))
    && (u.Stage(0).active ==> fetchIndex[u.Ctx(0)] == fetched - 1)
    && (u.Stage(3).active ==> u.Stage(3).TagIdle() && Executed(u.Stage(3)))
    && (u.Stage(2).active ==> u.Stage(2).TagIdle() && (Rank(phase) > Rank(Executing) ==> Executed(u.Stage(2))))
    && (u.Stage(1).active && Rank(phase) > Rank(Waiting) ==> u.Stage(1).TagIdle())
  }

  ghost predicate Executed(c: Context)
  {
    c.task[0] == ADD ==> c.ack.retval == Sum(c.task)
  }

  /** What a context holds of the publication `k` that it fetched. */
  ghost predicate Transfer(cfg: Config, e: Context, k: nat, retired: nat, fetched: nat, content: seq<Task>)
    requires cfg.n >= 1
  {
    && !e.ack.Clear()
    && (!e.active ==> e.missing == {})
    && (e.active ==>
          && retired <= k < fetched < |content|
          && e.entry == At(k + 1, cfg.n)
          && e.source == At(cfg.Source(k), cfg.n)
          && forall w | 0 <= w < TASK_WORDS && w !in e.missing :: e.task[w] == content[cfg.Source(k)][w])
  }

  ghost predicate Transfers(cfg: Config, pipe: seq<Context>, fetchIndex: seq<nat>,
                            retired: nat, fetched: nat, content: seq<Task>)
    requires |pipe| == |fetchIndex| == STAGES && cfg.n >= 1
  {
    forall c | 0 <= c < STAGES :: Transfer(cfg, pipe[c], fetchIndex[c], retired, fetched, content)
  }

  ghost predicate PutPending(pipe: seq<Context>, putIndex: seq<nat>, j: int)
    requires |pipe| == |putIndex| == STAGES
  {
    exists c | 0 <= c < STAGES :: pipe[c].put.PutTo? && putIndex[c] == j
  }

  /** Every put in flight carries a retired, unharvested ack to its own index, and no two puts
      carry the same one. */
  ghost predicate Puts(n: nat, pipe: seq<Context>, putIndex: seq<nat>, harvested: nat, retired: seq<Retirement>)
    requires |pipe| == |putIndex| == STAGES && n >= 1
  {
    && (forall c | 0 <= c < STAGES && pipe[c].put.PutTo? ::
          && harvested <= putIndex[c] < |retired|
          && pipe[c].put.slot == At(putIndex[c] + 1, n)
          && pipe[c].ack == retired[putIndex[c]].ack)
    && (forall c, d | 0 <= c < d < STAGES && pipe[c].put.PutTo? && pipe[d].put.PutTo? :: putIndex[c] != putIndex[d])
  }

  /** Acks in memory: landed and unharvested ones, and no others. */
  ghost predicate Acks(acks: seq<Ack>, pipe: seq<Context>, putIndex: seq<nat>, harvested: nat, retired: seq<Retirement>)
    requires |pipe| == |putIndex| == STAGES && |acks| >= 1
  {
    && (forall j | harvested <= j < |retired| ::
          if PutPending(pipe, putIndex, j) then AckOf(acks, j).Clear() else AckOf(acks, j) == retired[j].ack)
    && (forall j | |retired| <= j < harvested + |acks| :: AckOf(acks, j).Clear())
  }

  /** Retirements carry publications in order; harvests carry retirements in order. */
  ghost predicate History(cfg: Config, content: seq<Task>, retired: seq<Retirement>, harvested: seq<Ack>)
  {
    && |harvested| <= |retired| < |content|
    && (forall r | 0 <= r < |retired| ::
          && retired[r].task == content[cfg.Source(r)]
          && !retired[r].ack.Clear()
          && (retired[r].task[0] == ADD ==> retired[r].ack.retval == Sum(retired[r].task)))
    && (forall h | 0 <= h < |harvested| :: harvested[h] == retired[h].ack)
  }

  ghost predicate Inv(cfg: Config, s: State, l: Log)
  {
    && cfg.n >= 1 && Shape(cfg.n, s) && LogShape(l)
    && Counters(cfg, s, l)
    && Positions(cfg, s, l)
    && SlotsStable(cfg, s.host.slots, Back(s, l), l.content)
    && Contexts(s.spu, s.phase, |l.retired|, l.fetched, l.fetchIndex)
    && Transfers(cfg, s.spu.pipe, l.fetchIndex, |l.retired|, l.fetched, l.content)
    && Puts(cfg.n, s.spu.pipe, l.putIndex, |l.harvested|, l.retired)
    && Acks(s.host.acks, s.spu.pipe, l.putIndex, |l.harvested|, l.retired)
    && (s.harvester == Found ==> !PutPending(s.spu.pipe, l.putIndex, |l.harvested|))
    && History(cfg, l.content, l.retired, l.harvested)
  }

  /** `fifoInit`, `allocate_fifo` and the SPU's `main`: slots hold anything, acks are clear. */
  ghost predicate Init(cfg: Config, s: State, l: Log)
  {
    var h, u := s.host, s.spu;
    && cfg.n >= 1 && Shape(cfg.n, s)
    && s.producer == Idle && s.harvester == Scanning && s.phase == Polling
    && h.front == 0 && h.back == 0 && h.isKicked && h.state == 0 && h.count == 0
    && h.slots[cfg.n - 1] == cfg.boot
    && (forall i | 0 <= i < cfg.n :: h.acks[i].Clear())
    && u.front == u.inBack == u.outBack == cfg.n - 1
    && u.cycle == 0
    && (forall c | 0 <= c < STAGES ::
          !u.pipe[c].active && u.pipe[c].missing == {} && u.pipe[c].put == NoPut && !u.pipe[c].ack.Clear())
    && l == Log([cfg.boot], 0, 0, 0, [], [], [0, 0, 0, 0], [0, 0, 0, 0])
  }

  lemma InitInv(cfg: Config, s: State, l: Log)
    requires Init(cfg, s, l)
    ensures Inv(cfg, s, l)
  {
    assert At(0, cfg.n) == cfg.n - 1 && At(1, cfg.n) == 0;
    Rotation(s.spu);
    assert SlotsStable(cfg, s.host.slots, Back(s, l), l.content);
    assert Contexts(s.spu, s.phase, |l.retired|, l.fetched, l.fetchIndex);
    assert Acks(s.host.acks, s.spu.pipe, l.putIndex, |l.harvested|, l.retired);
  }
}
