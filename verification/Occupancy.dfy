/** What becomes of the queue when the host passes a slot that no test has covered: a second
    `fifoBegin` without a kick, a `fifoKick` without a begin, and `fifoRegisterProgram`, which
    tests nothing. */
module Occupancy {
  import opened Words
  import opened Indices
  import opened HostSide
  import opened SpuSide
  import opened Protocol
  import opened Preservation
  import opened Runs
  import opened Delivery
  import opened SlotBuilding
  import opened Refinement
  import opened HostRuns

  /** A count a lap ahead is read as the count itself. */
  lemma LapIsInvisible(cfg: Config, s: State, l: Log, count: nat)
    requires Inv(cfg, s, l) && count == Back(s, l) + cfg.n && l.fetched < count
    ensures At(count, cfg.n) == s.spu.inBack <==> l.fetched == Back(s, l)
    ensures At(count + 1, cfg.n) == s.host.back
  {
    hide Contexts, Transfers, Puts, Acks, History, SlotsStable;
    AtPeriodic(Back(s, l), cfg.n);
    AtPeriodic(Back(s, l) + 1, cfg.n);
    if At(l.fetched, cfg.n) == At(count, cfg.n) && l.fetched != Back(s, l) { AtInjective(l.fetched, count, cfg.n); }
  }

  // ----- a second begin

  /** The queue after a `fifoBegin` on an SPE whose slot is still open: that slot is closed as it
      is, for the next kick to publish, and the next one is open. */
  ghost function BegunAgain(p: Point, command: Word, handle: Word): Point
    requires p.s.host.Shape()
  {
    Point(p.s.(host := Begin(p.s.host, command, handle)),
          p.l.(content := p.l.content + [p.s.host.slots[p.s.host.front]]))
  }

  /** The `ringHasFree` test of a second begin always passes; the queue keeps its invariant, and
      the call is a run of the queue, if and only if two slots are free. */
  lemma SecondBegin(cfg: Config, p: Point, command: Word, handle: Word)
    requires Inv(cfg, p.s, p.l) && p.s.producer == Filling
    ensures p.s.host.HasFree()
    ensures var r := BegunAgain(p, command, handle);
      && (Counters(cfg, r.s, r.l) <==> p.s.host.HasTwoFree())
      && (Inv(cfg, r.s, r.l) <==> p.s.host.HasTwoFree())
      && ((exists steps :: Run(cfg, p, steps, r)) <==> p.s.host.HasTwoFree())
  {
    HasFreeIff(cfg, p.s, p.l);
    hide Contexts, Transfers, Puts, Acks, History, SlotsStable, Positions, Run, Begin;
    var r := BegunAgain(p, command, handle);
    if p.s.host.HasTwoFree() {
      var q := SecondBeginIsRun(cfg, p, command, handle);
      RunKeepsInv(cfg, p, [Recheck, Reopen, Write(command), Write(handle)], q);
    } else {
      forall steps | Run(cfg, p, steps, r) ensures false { RunKeepsInv(cfg, p, steps, r); }
    }
  }

  /** With a single slot free, the kick after a second begin publishes the position one lap on:
      the ring reads empty, and the SPU sees nothing of a whole lap of publications if and only
      if it has fetched none of them. */
  lemma SecondBeginHidesALap(cfg: Config, p: Point, command: Word, handle: Word)
    requires Inv(cfg, p.s, p.l) && p.s.producer == Filling && !p.s.host.HasTwoFree()
    ensures var h := Kick(Begin(p.s.host, command, handle));
      && !h.HasRemaining()
      && (!p.s.spu.Poll(h).TasksRemaining() <==> p.l.fetched == Back(p.s, p.l))
  {
    HasFreeIff(cfg, p.s, p.l);
    hide Contexts, Transfers, Puts, Acks, History, SlotsStable;
    LapIsInvisible(cfg, p.s, p.l, p.l.Closed() + 2);
  }

  // ----- a kick without a begin

  /** The queue after a `fifoKick` on an SPE with nothing open: whatever the front slot holds is
      published. */
  ghost function KickedUnopened(p: Point): Point
    requires p.s.host.Shape()
  {
    Point(p.s.(host := Kick(p.s.host)),
          p.l.(content := p.l.content + [p.s.host.slots[p.s.host.front]], published := |p.l.content|))
  }

  /** A kick publishes and steps `front` whether anything was open or not. With nothing open the
      queue keeps its invariant if and only if a slot is free. */
  lemma UnopenedKick(cfg: Config, p: Point)
    requires Inv(cfg, p.s, p.l) && p.s.producer == Idle
    ensures var r := KickedUnopened(p);
      && r.s.host.state == 1 && r.s.host.count == p.s.host.front && r.s.host.isKicked
      && r.s.host.front == Increment(p.s.host.front, cfg.n) && r.s.host.slots == p.s.host.slots
      && (Counters(cfg, r.s, r.l) <==> p.s.host.HasFree())
      && (Inv(cfg, r.s, r.l) <==> p.s.host.HasFree())
  {
    var r := KickedUnopened(p);
    HasFreeIff(cfg, p.s, p.l);
    hide Contexts, Transfers, Puts, Acks, History, SlotsStable;
    if p.s.host.HasFree() {
      var q := OpenedAndKicked(cfg, p);
      EntryIsFree(cfg, q, p.s.host.entrySlot, p.s.host.entryCount);
      assert q.s.host.(entrySlot := p.s.host.entrySlot, entryCount := p.s.host.entryCount) == r.s.host;
    }
  }

  lemma {:induction false} OpenedAndKicked(cfg: Config, p: Point) returns (q: Point)
    requires Inv(cfg, p.s, p.l) && p.s.producer == Idle && p.s.host.HasFree()
    ensures Inv(cfg, q.s, q.l) && q == Point(p.s.(host := Kick(p.s.host.OpenSlot())), KickedUnopened(p).l)
  {
    hide Contexts, Transfers, Puts, Acks, History, SlotsStable, Run;
    var a := Next(cfg, p, Check);
    var b := Next(cfg, a, Open);
    hide Counters;
    StepKeeps(cfg, p.s, p.l, Check);
    StepKeeps(cfg, a.s, a.l, Open);
    q := KickIsRun(cfg, b);
    RunKeepsInv(cfg, b, [KickState, KickCount, KickFlag, KickFront], q);
  }

  /** With nothing open, where the last open slot was is of no account. */
  lemma EntryIsFree(cfg: Config, p: Point, slot: nat, count: nat)
    requires Inv(cfg, p.s, p.l) && p.s.producer == Idle && slot < cfg.n && count <= TASK_WORDS
    ensures Inv(cfg, p.s.(host := p.s.host.(entrySlot := slot, entryCount := count)), p.l)
  {
    hide Contexts, Transfers, Puts, Acks, History;
  }

  // ----- a registration

  function RegistrationWords(size: Word, high: Word, low: Word): seq<Word>
  {
    [0x7321_5737, size, high, low]
  }

  lemma OpenRegistrationFills(h: Host, size: Word, high: Word, low: Word)
    requires h.Shape()
    ensures OpenRegistration(h, size, high, low) == h.(
              isKicked := false, entrySlot := h.front, entryCount := 4,
              slots := h.slots[h.front := Overwrite(h.slots[h.front], 0, RegistrationWords(size, high, low))])
  {
    assert h.slots[h.front][0 := REGISTER_PROGRAM][1 := size][2 := high][3 := low]
        == Overwrite(h.slots[h.front], 0, RegistrationWords(size, high, low));
  }

  /** The queue after `fifoRegisterProgram` on its SPE. */
  ghost function Registered(p: Point, size: Word, high: Word, low: Word): Point
    requires p.s.host.Shape()
  {
    var h := OpenRegistration(p.s.host, size, high, low);
    Point(p.s.(producer := Idle, host := Kick(h)),
          p.l.(content := p.l.content + [h.slots[h.front]], published := |p.l.content|))
  }

  /** What the open slot holds so far begins the registration itself. */
  predicate BeginsRegistration(h: Host, words: seq<Word>)
    requires h.Shape()
  {
    h.entryCount <= |words| && h.slots[h.front][..h.entryCount] == words[..h.entryCount]
  }

  /** The rest of the words, added to an open slot that begins with the first ones, and a kick. */
  lemma {:induction false} CompletedIsRun(cfg: Config, p: Point, size: Word, high: Word, low: Word)
    returns (steps: seq<Step>)
    requires Inv(cfg, p.s, p.l) && p.s.producer == Filling
    requires BeginsRegistration(p.s.host, RegistrationWords(size, high, low))
    ensures Run(cfg, p, steps, Registered(p, size, high, low))
  {
    var words, h := RegistrationWords(size, high, low), p.s.host;
    hide Run, Kick, AddAll, OpenRegistration, Contexts, Transfers, Puts, Acks, History, SlotsStable, Counters;
    OpenRegistrationFills(h, size, high, low);
    AddsFill(h, words[h.entryCount..]);
    var t, k := h.slots[h.front], h.entryCount;
    assert words == words[..k] + words[k..] && words[k..][..|words| - k] == words[k..];
    assert Overwrite(t, k, words[k..]) == Overwrite(t, 0, words);
    var filling, a := AddsAreRun(cfg, p, words[k..]);
    RunKeepsInv(cfg, p, filling, a);
    var q := KickIsRun(cfg, a);
    RunsCompose(cfg, p, filling, a, [KickState, KickCount, KickFlag, KickFront], q);
    steps := filling + [KickState, KickCount, KickFlag, KickFront];
  }

  // The converse: a run that closes one slot and has nothing open at its end has added words to
  // the slot that was open and kicked it.

  ghost predicate Opened(s: State) { s.producer == Filling || s.producer == Rechecked }

  /** The words that the slot open at `p` held then are still there, and no fewer are counted. */
  ghost predicate WordsKept(p: Point, q: Point)
    requires p.s.host.Shape()
  {
    var h, k := q.s.host, p.s.host.entryCount;
    && h.Shape() && h.Size() == p.s.host.Size() && k <= h.entryCount
    && h.slots[p.s.host.front][..k] == p.s.host.slots[p.s.host.front][..k]
  }

  /** What a run from `p`, where a slot is open, leaves of it until another slot is opened. */
  ghost predicate SlotKept(p: Point, q: Point)
    requires p.s.host.Shape()
  {
    && |p.l.content| <= |q.l.content|
    && (|q.l.content| == |p.l.content| ==>
          Opened(q.s) && q.s.host.entrySlot == p.s.host.front && WordsKept(p, q))
    && (|q.l.content| == |p.l.content| + 1 && !Opened(q.s) ==> WordsKept(p, q))
  }

  lemma StepKeepsSlot(cfg: Config, p: Point, m: Point, step: Step)
    requires p.s.host.Shape() && SlotKept(p, m) && CanStep(cfg, m, step)
    ensures SlotKept(p, Next(cfg, m, step))
  {
    hide ContextAt, Sum;
  }

  lemma {:induction false} RunKeepsSlot(cfg: Config, p: Point, m: Point, steps: seq<Step>, q: Point)
    requires p.s.host.Shape() && SlotKept(p, m) && Run(cfg, m, steps, q)
    ensures SlotKept(p, q)
    decreases |steps|
  {
    hide Enabled, Move, Record, SlotKept;
    if steps != [] {
      StepKeepsSlot(cfg, p, m, steps[0]);
      RunKeepsSlot(cfg, p, Next(cfg, m, steps[0]), steps[1..], q);
    }
  }

  lemma RegisteredOpenSlot(cfg: Config, p: Point, steps: seq<Step>, size: Word, high: Word, low: Word)
    requires Inv(cfg, p.s, p.l) && p.s.producer == Filling
    requires Run(cfg, p, steps, Registered(p, size, high, low))
    ensures BeginsRegistration(p.s.host, RegistrationWords(size, high, low))
  {
    hide Run, Contexts, Transfers, Puts, Acks, History, SlotsStable, Counters, OpenRegistration;
    var r, words, k := Registered(p, size, high, low), RegistrationWords(size, high, low), p.s.host.entryCount;
    OpenRegistrationFills(p.s.host, size, high, low);
    RunKeepsSlot(cfg, p, p, steps, r);
    assert WordsKept(p, r);
    var t := Overwrite(p.s.host.slots[p.s.host.front], 0, words);
    assert r.s.host.slots[p.s.host.front] == t;
    assert t[..k] == words[..k];
  }

  /** A registration is a run of the queue if and only if a slot was free, when nothing was open.
      When a slot was open it is one only if that slot was this registration, half filled. */
  lemma RegisterIsRun(cfg: Config, p: Point, size: Word, high: Word, low: Word)
    requires Inv(cfg, p.s, p.l) && (p.s.producer == Idle || p.s.producer == Filling)
    ensures (exists steps :: Run(cfg, p, steps, Registered(p, size, high, low))) <==>
              if p.s.producer == Idle then p.s.host.HasFree()
              else BeginsRegistration(p.s.host, RegistrationWords(size, high, low))
  {
    hide Run, Contexts, Transfers, Puts, Acks, History, SlotsStable, Positions, Counters;
    var r := Registered(p, size, high, low);
    if p.s.producer == Idle {
      if p.s.host.HasFree() {
        var steps := RegisterFreshIsRun(cfg, p, size, high, low);
      } else {
        forall steps | Run(cfg, p, steps, r) ensures false {
          RunKeepsInv(cfg, p, steps, r);
          OverfullBreaksInv(cfg, p, size, high, low);
        }
      }
    } else {
      if BeginsRegistration(p.s.host, RegistrationWords(size, high, low)) {
        var steps := CompletedIsRun(cfg, p, size, high, low);
      }
      forall steps | Run(cfg, p, steps, r)
        ensures BeginsRegistration(p.s.host, RegistrationWords(size, high, low))
      {
        RegisteredOpenSlot(cfg, p, steps, size, high, low);
      }
    }
  }

  lemma {:induction false} RegisterFreshIsRun(cfg: Config, p: Point, size: Word, high: Word, low: Word)
    returns (steps: seq<Step>)
    requires Inv(cfg, p.s, p.l) && p.s.producer == Idle && p.s.host.HasFree()
    ensures Run(cfg, p, steps, Registered(p, size, high, low))
  {
    hide Contexts, Transfers, Puts, Acks, History, SlotsStable, Counters, Run;
    var a := Next(cfg, p, Check);
    var b := Next(cfg, a, Open);
    assert b == Point(p.s.(producer := Filling, host := p.s.host.OpenSlot()), p.l);
    EmptyRun(cfg, p);
    Extend(cfg, p, [], p, Check);
    Extend(cfg, p, [] + [Check], a, Open);
    var opening := [] + [Check] + [Open];
    RunKeepsInv(cfg, p, opening, b);
    var rest := CompletedIsRun(cfg, b, size, high, low);
    assert OpenRegistration(b.s.host, size, high, low) == OpenRegistration(p.s.host, size, high, low);
    RunsCompose(cfg, p, opening, b, rest, Registered(p, size, high, low));
    steps := opening + rest;
  }

  lemma OverfullBreaksInv(cfg: Config, p: Point, size: Word, high: Word, low: Word)
    requires Inv(cfg, p.s, p.l) && p.s.producer == Idle && !p.s.host.HasFree()
    ensures var r := Registered(p, size, high, low); !Counters(cfg, r.s, r.l)
  {
    HasFreeIff(cfg, p.s, p.l);
    hide Contexts, Transfers, Puts, Acks, History, SlotsStable, Positions;
  }

  /** The queue keeps its invariant over a registration if and only if a slot is free or is
      already claimed by the open one. */
  lemma RegisterKeepsInvIff(cfg: Config, p: Point, size: Word, high: Word, low: Word)
    requires Inv(cfg, p.s, p.l) && (p.s.producer == Idle || p.s.producer == Filling)
    ensures var r := Registered(p, size, high, low);
      && (Counters(cfg, r.s, r.l) <==> p.s.producer == Filling || p.s.host.HasFree())
      && (Inv(cfg, r.s, r.l) <==> p.s.producer == Filling || p.s.host.HasFree())
  {
    hide Contexts, Transfers, Puts, Acks, History, SlotsStable, Positions;
    var r := Registered(p, size, high, low);
    if p.s.producer == Filling {
      var e := Point(p.s.(host := p.s.host.OpenSlot()), p.l);
      ReopenedInv(cfg, p);
      hide Run;
      var steps := CompletedIsRun(cfg, e, size, high, low);
      RunKeepsInv(cfg, e, steps, r);
    } else if p.s.host.HasFree() {
      hide Run;
      var steps := RegisterFreshIsRun(cfg, p, size, high, low);
      RunKeepsInv(cfg, p, steps, r);
    } else {
      OverfullBreaksInv(cfg, p, size, high, low);
    }
  }

  /** Emptying the open slot's word count leaves the invariant. */
  lemma ReopenedInv(cfg: Config, p: Point)
    requires Inv(cfg, p.s, p.l) && p.s.producer == Filling
    ensures Inv(cfg, p.s.(host := p.s.host.OpenSlot()), p.l)
  {
    hide Contexts, Transfers, Puts, Acks, History;
  }

  /** On a full ring a registration publishes the position one lap on, and what the SPU then sees
      of a whole lap of publications is nothing, if and only if it has fetched none of them. */
  lemma RegistrationHidesALap(cfg: Config, p: Point, size: Word, high: Word, low: Word)
    requires Inv(cfg, p.s, p.l) && p.s.producer == Idle && !p.s.host.HasFree()
    ensures var h := Kick(OpenRegistration(p.s.host, size, high, low));
      && !h.HasRemaining()
      && (!p.s.spu.Poll(h).TasksRemaining() <==> p.l.fetched == Back(p.s, p.l))
  {
    HasFreeIff(cfg, p.s, p.l);
    hide Contexts, Transfers, Puts, Acks, History, SlotsStable;
    LapIsInvisible(cfg, p.s, p.l, p.l.Closed() + 1);
  }

  /** A registration over an open slot publishes that slot under its own words: what was begun
      there is not published, and the kick that was to publish it publishes the next slot, which
      nobody has written. */
  lemma RegistrationTakesTheOpenSlot(cfg: Config, p: Point, size: Word, high: Word, low: Word)
    requires Inv(cfg, p.s, p.l) && p.s.producer == Filling
    ensures var r, t := Registered(p, size, high, low), p.s.host.slots[p.s.host.front];
      var next := Increment(p.s.host.front, cfg.n);
      && LogShape(p.l) && LogShape(r.l)
      && Publications(r.l) == Publications(p.l) + [Overwrite(t, 0, RegistrationWords(size, high, low))]
      && r.s.host.front == Kick(r.s.host).count == next
      && Kick(r.s.host).slots[next] == p.s.host.slots[next]
  {
    hide Contexts, Transfers, Puts, Acks, History, SlotsStable;
    OpenRegistrationFills(p.s.host, size, high, low);
    hide OpenRegistration;
  }
}
