/** The SPU's local store: task indices, the four pipeline contexts and their outstanding
    DMA transfers, with one function per pipeline stage. */
module SpuSide {
  import opened Words
  import opened Indices
  import opened HostSide

  const STAGES: nat := 4

  const ALL_WORDS: set<nat> := set w: nat | w < TASK_WORDS

  /** Stage 1 computes the slot address before it steps `in_back`, and the ack index after.
      `AsWritten` keeps that order; `AsMeant` addresses the slot with the stepped index. */
  datatype Addressing = AsWritten | AsMeant

  /** An outstanding `dmaPut` of a context's ack. */
  datatype Put = NoPut | PutTo(slot: nat)

  /** A pipeline context. `missing` holds the words of the outstanding `dmaGet` from slot
      `source` that have not arrived yet; they arrive one by one, in any order. */
  datatype Context = Context(
    active: bool, entry: nat, task: Task, ack: Ack,
    missing: set<nat>, source: nat, put: Put)
  {
    predicate TagIdle() { missing == {} && put == NoPut }
  }

  /** An `unsigned int` sum, then its remainder. */
  function ContextAt(cycle: Word, d: nat): (c: nat)
    requires d < STAGES
    ensures c < STAGES
  {
    Wrap(cycle + d) % STAGES
  }

  datatype Spu = Spu(front: nat, inBack: nat, outBack: nat, cycle: Word, pipe: seq<Context>)
  {
    ghost predicate Shape(n: nat)
    {
      && |pipe| == STAGES
      && front < n && inBack < n && outBack < n
      && forall c | 0 <= c < STAGES ::
           && pipe[c].entry < n && pipe[c].source < n
           && (pipe[c].put.PutTo? ==> pipe[c].put.slot < n)
           && (forall w | w in pipe[c].missing :: w < TASK_WORDS)
    }

    /** The context of stage `d + 1`. */
    function Ctx(d: nat): (c: nat)
      requires d < STAGES
      ensures c < STAGES
    {
      ContextAt(cycle, d)
    }

    function Stage(d: nat): Context
      requires |pipe| == STAGES && d < STAGES
    {
      pipe[Ctx(d)]
    }

    predicate TasksRemaining() { inBack != front }

    /** check_tasks */
    function Poll(h: Host): Spu
    {
      if h.state != 0 then this.(front := h.count) else this
    }

    /** stage1, after the poll */
    function Fetch(mode: Addressing, n: nat): (r: Spu)
      requires Shape(n)
      ensures r.Shape(n)
    {
      if TasksRemaining() then
        var next := Increment(inBack, n);
        var c := pipe[Ctx(0)].(
          active := true,
          missing := ALL_WORDS,
          source := if mode == AsWritten then inBack else next,
          entry := next);
        this.(inBack := next, pipe := pipe[Ctx(0) := c])
      else
        this
    }

    /** stage2 passes its tag wait only when the context has no outstanding transfer. */
    predicate TagWaitPasses()
      requires |pipe| == STAGES
    {
      Stage(1).active ==> Stage(1).TagIdle()
    }

    /** stage3 */
    function Execute(): (r: Spu)
      requires |pipe| == STAGES
      ensures |r.pipe| == STAGES && r == this.(pipe := r.pipe)
    {
      var c := Stage(2);
      if c.active && c.task[0] == ADD then
        this.(pipe := pipe[Ctx(2) := c.(ack := c.ack.(retval := Sum(c.task)))])
      else
        this
    }

    /** stage4 */
    function Retire(n: nat): Spu
      requires |pipe| == STAGES && outBack < n
    {
      var c := Stage(3);
      if c.active then
        this.(outBack := Increment(outBack, n), pipe := pipe[Ctx(3) := c.(active := false, put := PutTo(c.entry))])
      else
        this
    }

    /** The `cycle--` of an `unsigned int`. */
    function Turn(): Spu
    {
      this.(cycle := Wrap(cycle - 1))
    }

    predicate PipelineExits() { front == outBack }

    /** One word of an outstanding get arrives. */
    function TakeWord(h: Host, c: nat, w: nat): Spu
      requires c < |pipe| && w < TASK_WORDS && pipe[c].source < |h.slots|
    {
      var e := pipe[c];
      this.(pipe := pipe[c := e.(task := e.task[w := h.slots[e.source][w]], missing := e.missing - {w})])
    }

    /** The outstanding put of a context has reached host memory. */
    function PutDone(c: nat): Spu
      requires c < |pipe|
    {
      this.(pipe := pipe[c := pipe[c].(put := NoPut)])
    }
  }

  // ----- a tag wait that lets every outstanding transfer of its context complete

  /** A context whose outstanding get has completed. */
  function Filled(e: Context, slot: Task): Context
  {
    e.(task := seq(TASK_WORDS, w requires 0 <= w < TASK_WORDS => if w in e.missing then slot[w] else e.task[w]),
       missing := {})
  }

  function SettleSpu(u: Spu, h: Host, c: nat): Spu
    requires c < |u.pipe| && u.pipe[c].source < |h.slots|
  {
    u.(pipe := u.pipe[c := Filled(u.pipe[c], h.slots[u.pipe[c].source]).(put := NoPut)])
  }

  function SettleHost(u: Spu, h: Host, c: nat): Host
    requires c < |u.pipe| && (u.pipe[c].put.PutTo? ==> u.pipe[c].put.slot < |h.acks|)
  {
    if u.pipe[c].put.PutTo? then h.Land(u.pipe[c].put.slot, u.pipe[c].ack) else h
  }

  /** stage2 on an SPU whose transfers complete exactly when they are waited for. */
  function WaitSpu(u: Spu, h: Host): (r: Spu)
    requires u.Shape(h.Size()) && h.Shape()
    ensures r.Shape(h.Size())
  {
    if u.Stage(1).active then SettleSpu(u, h, u.Ctx(1)) else u
  }

  function WaitHost(u: Spu, h: Host): (r: Host)
    requires u.Shape(h.Size()) && h.Shape()
    ensures r == h.(acks := r.acks)
  {
    if u.Stage(1).active then SettleHost(u, h, u.Ctx(1)) else h
  }

  /** Four divides the range of `cycle`, so the contexts rotate across the wrap: what stage
      `d + 1` held, stage `d + 2` holds one turn later, and stage 1 takes over stage 4's. */
  lemma Rotation(u: Spu)
    ensures u.Ctx(0) != u.Ctx(1) && u.Ctx(0) != u.Ctx(2) && u.Ctx(0) != u.Ctx(3)
    ensures u.Ctx(1) != u.Ctx(2) && u.Ctx(1) != u.Ctx(3) && u.Ctx(2) != u.Ctx(3)
    ensures u.Turn().Ctx(1) == u.Ctx(0) && u.Turn().Ctx(2) == u.Ctx(1)
    ensures u.Turn().Ctx(3) == u.Ctx(2) && u.Turn().Ctx(0) == u.Ctx(3)
  {
    hide Wrap;
    var r := u.cycle % 4;
    CtxFrom(u.cycle, r);
    var v := u.Turn();
    WrapModFour(u.cycle - 1);
    CtxFrom(v.cycle, if r == 0 then 3 else r - 1);
  }

  /** The contexts of the four stages, from the residue of `cycle`. */
  lemma CtxFrom(cycle: Word, r: nat)
    requires r == cycle % 4
    ensures Wrap(cycle + 0) % 4 == r
    ensures Wrap(cycle + 1) % 4 == if r + 1 < 4 then r + 1 else r - 3
    ensures Wrap(cycle + 2) % 4 == if r + 2 < 4 then r + 2 else r - 2
    ensures Wrap(cycle + 3) % 4 == if r + 3 < 4 then r + 3 else r - 1
  {
    hide Wrap;
    WrapModFour(cycle);
    WrapModFour(cycle + 1);
    WrapModFour(cycle + 2);
    WrapModFour(cycle + 3);
    ModFourShift(cycle, cycle / 4);
    ModFourShift(cycle + 1, cycle / 4);
    ModFourShift(cycle + 2, cycle / 4);
    ModFourShift(cycle + 3, cycle / 4);
    assert cycle - 4 * (cycle / 4) == r;
  }

  lemma WrapModFour(x: int)
    ensures Wrap(x) % 4 == x % 4
  {
    var q := x / 0x1_0000_0000;
    assert Wrap(x) == x - 4 * (0x4000_0000 * q);
    ModFourShift(x, 0x4000_0000 * q);
  }

  lemma ModFourShift(x: int, k: int)
    ensures (x - 4 * k) % 4 == x % 4
  {
    assert x - 4 * k == 4 * (x / 4 - k) + x % 4;
  }

  /** Every context serves some stage. */
  lemma {:induction false} StagesCover(u: Spu, c: nat) returns (d: nat)
    requires c < STAGES
    ensures d < STAGES && u.Ctx(d) == c
  {
    d := if u.Ctx(0) == c then 0 else if u.Ctx(1) == c then 1 else if u.Ctx(2) == c then 2 else 3;
    Rotation(u);
  }
}
