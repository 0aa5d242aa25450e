/** The inner loop of the harvester thread. */
module Harvesting {
  import opened Words
  import opened Indices
  import opened HostSide
  import opened SpuSide
  import opened Protocol
  import opened Runs
  import opened Delivery

  /** How many acks in a row, from `at` on and at most `fuel`, are not clear. */
  function RunLength(acks: seq<Ack>, at: nat, fuel: nat): (r: nat)
    requires at < |acks|
    ensures r <= fuel
    decreases fuel
  {
    if fuel == 0 || acks[at].Clear() then 0
    else 1 + RunLength(acks, Increment(at, |acks|), fuel - 1)
  }

  lemma {:induction false} RunStops(acks: seq<Ack>, j: nat, r: nat, fuel: nat)
    requires |acks| >= 1 && j <= r && AckOf(acks, r).Clear()
    ensures RunLength(acks, At(j + 1, |acks|), fuel) <= r - j
    decreases fuel
  {
    if fuel > 0 && !acks[At(j + 1, |acks|)].Clear() {
      RunStops(acks, j + 1, r, fuel - 1);
    }
  }

  /** In every reachable state a pass of the harvest loop stops within the acks retired and not
      harvested, so within `n - 1` steps. */
  lemma HarvestIsBounded(cfg: Config, q: Point)
    requires Reachable(cfg, q) && q.s.harvester == Scanning
    ensures q.s.host.Shape()
    ensures RunLength(q.s.host.acks, q.s.host.back, cfg.n) <= |q.l.retired| - Back(q.s, q.l) <= cfg.n - 1
  {
    ReachableInv(cfg, q);
    hide Contexts, Transfers, Puts, History, SlotsStable, Run, Reachable;
    assert AckOf(q.s.host.acks, |q.l.retired|).Clear();
    RunStops(q.s.host.acks, |q.l.harvested|, |q.l.retired|, cfg.n);
  }

  lemma {:induction false} RunPasses(acks: seq<Ack>, j: nat, r: nat, fuel: nat)
    requires |acks| >= 1 && j <= r <= j + fuel
    requires forall i | j <= i < r :: !AckOf(acks, i).Clear()
    ensures RunLength(acks, At(j + 1, |acks|), fuel) >= r - j
    decreases fuel
  {
    if j < r {
      assert !AckOf(acks, j).Clear();
      RunPasses(acks, j + 1, r, fuel - 1);
    }
  }

  /** The oldest retirement from `j` on that has not landed. */
  ghost function FirstUnlanded(s: State, l: Log, j: nat): (m: nat)
    requires |s.spu.pipe| == STAGES && LogShape(l) && j <= |l.retired|
    ensures j <= m <= |l.retired| && !Landed(s, l, m)
    ensures forall i | j <= i < m :: Landed(s, l, i)
    decreases |l.retired| - j
  {
    if Landed(s, l, j) then FirstUnlanded(s, l, j + 1) else j
  }

  /** In every reachable state a pass of the harvest loop takes exactly the unharvested
      retirements before the oldest one that has not landed, so with no put outstanding it
      takes all that are retired. */
  lemma HarvestTakesTheLanded(cfg: Config, q: Point)
    requires Reachable(cfg, q) && q.s.harvester == Scanning
    ensures Shape(cfg.n, q.s) && LogShape(q.l) && |q.l.harvested| <= |q.l.retired|
    ensures RunLength(q.s.host.acks, q.s.host.back, cfg.n)
         == FirstUnlanded(q.s, q.l, |q.l.harvested|) - |q.l.harvested|
    ensures (forall c | 0 <= c < STAGES :: q.s.spu.pipe[c].put == NoPut) ==>
              RunLength(q.s.host.acks, q.s.host.back, cfg.n) == |q.l.retired| - |q.l.harvested|
  {
    hide Reachable, Inv, PutPending, AckOf, RunLength;
    ReachableInv(cfg, q);
    AcksByLanding(cfg, q.s, q.l);
    var acks, h, m := q.s.host.acks, |q.l.harvested|, FirstUnlanded(q.s, q.l, |q.l.harvested|);
    assert AckOf(acks, m).Clear();
    RunStops(acks, h, m, cfg.n);
    RunPasses(acks, h, m, cfg.n);
    NoPutPending(q.s, q.l, m);
  }

  lemma AcksByLanding(cfg: Config, s: State, l: Log)
    requires Inv(cfg, s, l) && s.harvester == Scanning
    ensures Shape(cfg.n, s) && LogShape(l) && |s.host.acks| == cfg.n >= 1
    ensures |l.harvested| <= |l.retired| <= |l.harvested| + cfg.n - 1
    ensures s.host.back == At(|l.harvested| + 1, cfg.n)
    ensures forall j: nat | |l.harvested| <= j <= |l.retired| :: !AckOf(s.host.acks, j).Clear() <==> Landed(s, l, j)
  {
    hide Contexts, Transfers, Puts, SlotsStable, PutPending, AckOf;
  }

  lemma NoPutPending(s: State, l: Log, j: nat)
    requires |s.spu.pipe| == STAGES && LogShape(l)
    ensures (forall c | 0 <= c < STAGES :: s.spu.pipe[c].put == NoPut) ==> !PutPending(s.spu.pipe, l.putIndex, j)
  {
  }

  /** How many acks are not clear. */
  function Unclear(acks: seq<Ack>): nat
  {
    if acks == [] then 0 else (if acks[0].Clear() then 0 else 1) + Unclear(acks[1..])
  }

  lemma {:induction false} ClearingCounts(acks: seq<Ack>, i: nat)
    requires i < |acks| && !acks[i].Clear()
    ensures Unclear(acks[i := acks[i].(taskId := ACK_CLEAR)]) == Unclear(acks) - 1
    decreases |acks|
  {
    var cleared := acks[i].(taskId := ACK_CLEAR);
    if i == 0 {
      assert acks[0 := cleared][1..] == acks[1..];
    } else {
      ClearingCounts(acks[1..], i - 1);
      assert acks[i := cleared][1..] == acks[1..][i - 1 := cleared];
    }
  }

  /** The harvest loop run to its end, as clear and advance steps. */
  ghost function HarvestAll(h: Host): (r: Host)
    requires h.Shape()
    ensures r.Shape() && r.Size() == h.Size() && r == h.(back := r.back, acks := r.acks)
    decreases Unclear(h.acks)
  {
    if h.acks[h.back].Clear() then h
    else
      ClearingCounts(h.acks, h.back);
      HarvestAll(h.ClearAck().AdvanceBack())
  }

  lemma {:induction false} HarvestAllStops(h: Host)
    requires h.Shape()
    ensures HarvestAll(h).acks[HarvestAll(h).back].Clear()
    decreases Unclear(h.acks)
  {
    if !h.acks[h.back].Clear() {
      ClearingCounts(h.acks, h.back);
      HarvestAllStops(h.ClearAck().AdvanceBack());
    }
  }

  /** Clearing ack `b` shortens no run that starts after it and before its next lap. */
  lemma {:induction false} RunFuel(acks: seq<Ack>, b: nat, j: nat, fuel: nat)
    requires |acks| >= 1 && b < j <= b + |acks| <= j + fuel
    ensures var n := |acks|;
      RunLength(acks[At(b + 1, n) := AckOf(acks, b).(taskId := ACK_CLEAR)], At(j + 1, n), fuel)
      == RunLength(acks, At(j + 1, n), b + n - j)
    decreases fuel
  {
    var n := |acks|;
    if j == b + n {
      AtPeriodic(b + 1, n);
    } else {
      if At(j + 1, n) == At(b + 1, n) { AtInjective(b + 1, j + 1, n); }
      RunFuel(acks, b, j + 1, fuel - 1);
    }
  }

  /** One clear and advance: the other acks of the lap stay, and the cleared one comes last. */
  lemma ClearOne(h: Host, b: nat)
    requires h.Shape() && h.back == At(b + 1, h.Size())
    ensures var next := h.ClearAck().AdvanceBack();
      && next.back == At(b + 2, h.Size())
      && (forall j | b < j < b + h.Size() :: AckOf(next.acks, j) == AckOf(h.acks, j))
      && AckOf(next.acks, b + h.Size()) == AckOf(h.acks, b).(taskId := ACK_CLEAR)
  {
    var n, next := h.Size(), h.ClearAck().AdvanceBack();
    AtPeriodic(b + 1, n);
    forall j | b < j < b + n ensures AckOf(next.acks, j) == AckOf(h.acks, j) {
      if At(j + 1, n) == At(b + 1, n) { AtInjective(b + 1, j + 1, n); }
    }
  }

  lemma AckPeriodic(acks: seq<Ack>, j: nat)
    requires |acks| >= 1
    ensures AckOf(acks, j + |acks|) == AckOf(acks, j)
  {
    AtPeriodic(j + 1, |acks|);
  }

  /** `after` is `before` with the acks of `[b, e)` cleared and no other ack of the lap changed,
      and that run cannot be extended. */
  ghost predicate Swept(before: seq<Ack>, after: seq<Ack>, b: nat, e: nat)
    requires |before| == |after| >= 1
  {
    && (forall j | b <= j < e :: !AckOf(before, j).Clear() && AckOf(after, j) == AckOf(before, j).(taskId := ACK_CLEAR))
    && (forall j | e <= j < b + |before| :: AckOf(after, j) == AckOf(before, j))
    && (e < b + |before| ==> AckOf(before, e).Clear())
  }

  lemma SweptOnce(before: seq<Ack>, next: seq<Ack>, after: seq<Ack>, b: nat, e: nat)
    requires |before| == |next| == |after| >= 1 && b < e <= b + |before|
    requires !AckOf(before, b).Clear() && AckOf(next, b + |before|) == AckOf(before, b).(taskId := ACK_CLEAR)
    requires forall j | b < j < b + |before| :: AckOf(next, j) == AckOf(before, j)
    requires Swept(next, after, b + 1, e)
    ensures Swept(before, after, b, e)
  {
    AckPeriodic(after, b);
    hide AckOf;
  }

  /** The harvest loop advances `back` by exactly the longest run of non-clear acks from it on,
      clears exactly those and leaves every other ack as it was. */
  lemma {:induction false} HarvestTakesTheRun(h: Host, b: nat) returns (e: nat)
    requires h.Shape() && h.back == At(b + 1, h.Size())
    ensures e == b + RunLength(h.acks, h.back, h.Size())
    ensures HarvestAll(h).back == At(e + 1, h.Size())
    ensures Swept(h.acks, HarvestAll(h).acks, b, e)
    decreases Unclear(h.acks)
  {
    assert AckOf(h.acks, b) == h.acks[h.back];
    if h.acks[h.back].Clear() {
      e := b;
    } else {
      var n, next := h.Size(), h.ClearAck().AdvanceBack();
      ClearingCounts(h.acks, h.back);
      RunFuel(h.acks, b, b + 1, n);
      ClearOne(h, b);
      assert HarvestAll(h) == HarvestAll(next);
      assert RunLength(h.acks, h.back, n) == 1 + RunLength(h.acks, next.back, n - 1);
      hide RunLength, HarvestAll, At, Unclear;
      e := HarvestTakesTheRun(next, b + 1);
      SweptOnce(h.acks, next.acks, HarvestAll(next).acks, b, e);
    }
  }
}
