/** The SPU's task manager (spu/src/spu_taskmanager.c), running against the host memory of one
    queue. Its DMA transfers complete when their tag is waited for. */
module TaskManager {
  import opened Words
  import opened Indices
  import opened HostSide
  import opened SpuSide
  import opened SpeQueue
  import opened Protocol
  import opened Runs
  import opened Delivery
  import opened Timeline
  import opened Refinement

  class Manager {
    const queue: Queue
    const mode: Addressing
    const pipe: array<Context>
    var front: nat
    var inBack: nat
    var outBack: nat
    var cycle: Word

    ghost predicate Valid()
      reads this, pipe, queue, queue.ring
    {
      && queue.Valid() && pipe.Length == STAGES
      && View().Shape(queue.slots.Length)
    }

    ghost function View(): Spu
      reads this, pipe
    {
      Spu(front, inBack, outBack, cycle, pipe[..])
    }

    /** main and allocate_pipe_entries: the task buffers hold whatever memory holds, and the ack
        buffers are not written; `acks` is what is found there. */
    constructor (queue: Queue, acks: seq<Ack>, mode: Addressing)
      requires queue.Valid() && |acks| == STAGES
      ensures Valid() && fresh(this) && fresh(pipe) && this.queue == queue && this.mode == mode
      ensures front == inBack == outBack == queue.slots.Length - 1 && cycle == 0
      ensures forall c | 0 <= c < STAGES ::
                !pipe[c].active && pipe[c].missing == {} && pipe[c].put == NoPut && pipe[c].ack == acks[c]
    {
      this.queue := queue;
      this.mode := mode;
      front, inBack, outBack := queue.slots.Length - 1, queue.slots.Length - 1, queue.slots.Length - 1;
      cycle := 0;
      pipe := new Context[STAGES];
      new;
      var i := 0;
      while i < STAGES
        invariant 0 <= i <= STAGES
        invariant queue.Valid() && fresh(pipe) && pipe.Length == STAGES && fresh(this)
        invariant front == inBack == outBack == queue.slots.Length - 1 && cycle == 0
        invariant forall c | 0 <= c < i ::
                    && !pipe[c].active && pipe[c].missing == {} && pipe[c].put == NoPut && pipe[c].ack == acks[c]
                    && pipe[c].entry == pipe[c].source == 0
      {
        pipe[i] := Context(false, 0, pipe[i].task, acks[i], {}, 0, NoPut);
        i := i + 1;
      }
    }

    /** check_tasks */
    method CheckTasks()
      requires Valid()
      modifies this`front
      ensures Valid() && View() == old(View()).Poll(queue.View())
    {
      if queue.atomicState != 0 {
        front := queue.atomicCount;
      }
    }

    method Stage1()
      requires Valid()
      modifies this`front, this`inBack, pipe
      ensures Valid() && View() == old(View()).Poll(queue.View()).Fetch(mode, queue.slots.Length)
    {
      CheckTasks();
      if inBack != front {
        var context := Wrap(cycle) % STAGES;
        var next := Increment(inBack, queue.slots.Length);
        var source := if mode == AsWritten then inBack else next;
        pipe[context] := pipe[context].(missing := ALL_WORDS, source := source);
        pipe[context] := pipe[context].(active := true);
        inBack := next;
        pipe[context] := pipe[context].(entry := inBack);
      }
    }

    /** dmaWaitTag on a context's tag: its outstanding get and put complete. */
    method WaitTag(c: nat)
      requires Valid() && c < STAGES
      modifies pipe, queue.acks
      ensures Valid()
      ensures View() == SettleSpu(old(View()), old(queue.View()), c)
      ensures queue.View() == SettleHost(old(View()), old(queue.View()), c)
    {
      var e := pipe[c];
      if e.put.PutTo? {
        queue.acks[e.put.slot] := e.ack;
      }
      pipe[c] := Filled(e, queue.slots[e.source]).(put := NoPut);
    }

    method Stage2()
      requires Valid()
      modifies pipe, queue.acks
      ensures Valid()
      ensures View() == WaitSpu(old(View()), old(queue.View()))
      ensures queue.View() == WaitHost(old(View()), old(queue.View()))
    {
      var context := Wrap(cycle + 1) % STAGES;
      if pipe[context].active {
        WaitTag(context);
      }
    }

    /** The loop of the ADD command. */
    method AddUp(task: Task) returns (res: Word)
      ensures res == Sum(task)
    {
      res := 0;
      var i := 0;
      while i < Signed(task[2])
        invariant 0 <= i && (i <= Signed(task[2]) || i == 0)
        invariant res == AddLoop(task[3], task[4], i)
      {
        res := Wrap(res + (task[3] + i + task[4]));
        i := i + 1;
      }
    }

    method Stage3()
      requires Valid()
      modifies pipe
      ensures Valid() && View() == old(View()).Execute()
    {
      var context := Wrap(cycle + 2) % STAGES;
      if pipe[context].active {
        var task := pipe[context].task;
        if task[0] == ADD {
          var res := AddUp(task);
          pipe[context] := pipe[context].(ack := pipe[context].ack.(retval := res));
        }
      }
    }

    method Stage4()
      requires Valid()
      modifies this`outBack, pipe
      ensures Valid() && View() == old(View()).Retire(queue.slots.Length)
    {
      var context := Wrap(cycle + 3) % STAGES;
      if pipe[context].active {
        outBack := Increment(outBack, queue.slots.Length);
        pipe[context] := pipe[context].(active := false);
        pipe[context] := pipe[context].(put := PutTo(pipe[context].entry));
        pipe[context] := pipe[context].(active := false);
      }
    }

    /** The loop body of pipeline, up to its test. */
    method Iterate()
      requires Valid()
      modifies this, pipe, queue.acks
      ensures Valid()
      ensures View() == IterateSpu(mode, old(View()), old(queue.View())).Turn()
      ensures queue.View() == IterateHost(mode, old(View()), old(queue.View()))
    {
      hide Spu.Fetch, Spu.Poll, Spu.Execute, Spu.Retire, WaitSpu, WaitHost;
      Stage1();
      Stage2();
      Stage3();
      Stage4();
      cycle := Wrap(cycle - 1);
    }

    /** pipeline, entered at a state `p` that the queue can reach and with no kick while it runs.
        It is a run of the queue; it terminates after exactly the stated number of iterations,
        has then retired every pending publication, and leaves the SPU as it must be entered. */
    method Pipeline(ghost cfg: Config, ghost p: Point) returns (ghost steps: seq<Step>, ghost q: Point)
      requires Valid() && cfg.n == queue.slots.Length && cfg.mode == mode
      requires Reachable(cfg, p) && AtEntry(p.s) && p.s.spu == View() && p.s.host == queue.View()
      modifies this, pipe, queue.acks
      ensures Valid() && inBack == outBack == front
      ensures Run(cfg, p, steps, q) && Frozen(steps) && Reachable(cfg, q)
      ensures q.s.spu == View() && q.s.host == queue.View() && AtEntry(q.s)
      ensures p.l.seen <= p.l.published && Turns(steps) == Iterations(p.l.published - p.l.seen)
      ensures |q.l.retired| == q.l.published == p.l.published
    {
      hide Run, Reachable, Frozen, Turns, IterateSpu, IterateHost, Iterations, Spu.Shape;
      steps, q := [], p;
      PipelineEntry(cfg, p);
      while true
        invariant Valid()
        invariant Run(cfg, p, steps, q) && Frozen(steps) && q.s.phase == Polling
        invariant q.s.spu == View() && q.s.host == queue.View()
        invariant p.l.seen <= p.l.published && Turns(steps) < Iterations(p.l.published - p.l.seen)
        decreases Iterations(p.l.published - p.l.seen) - Turns(steps)
      {
        ghost var more, next := PipelineTurn(cfg, p, steps, q);
        Iterate();
        steps, q := more, next;
        if front == outBack {
          break;
        }
      }
      ReachableExtends(cfg, p, steps, q);
    }
  }

  /** The start of the task manager of a queue that fifoInit has made: the two objects are a
      start-up point of the queue, and `pipeline` can be entered there. */
  method StartUp(queue: Queue, acks: seq<Ack>, mode: Addressing)
    returns (manager: Manager, ghost cfg: Config, ghost p: Point)
    requires queue.Valid() && queue.Fresh()
    requires |acks| == STAGES && forall c | 0 <= c < STAGES :: acks[c].taskId != 0xC1EE_7000
    ensures fresh(manager) && fresh(manager.pipe)
    ensures manager.Valid() && manager.queue == queue && manager.mode == mode == cfg.mode
    ensures forall c | 0 <= c < STAGES :: manager.pipe[c].ack == acks[c]
    ensures cfg.n == queue.slots.Length
    ensures p.s.spu == manager.View() && p.s.host == queue.View()
    ensures Init(cfg, p.s, p.l) && Reachable(cfg, p) && AtEntry(p.s) && p.s.producer == Idle
  {
    manager := new Manager(queue, acks, mode);
    cfg := Config(queue.slots.Length, mode, queue.slots[queue.slots.Length - 1]);
    p := Point(State(queue.View(), manager.View(), Idle, Scanning, Polling),
               Log([cfg.boot], 0, 0, 0, [], [], [0, 0, 0, 0], [0, 0, 0, 0]));
    assert Run(cfg, p, [], p);
  }
}
