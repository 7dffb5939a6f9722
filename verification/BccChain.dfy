/** A single reconciliation chain whose bank never gives a verdict ends. */
module BccChain {
  import opened Options
  import opened BccReconciliation

  datatype Tick = Tick(now: int, bank: Bank)

  predicate Silent(p: Payment, t: Tick) { Trusted(p, t.bank) == NoVerdict }

  /** The state between two ticks: the row, and when the next job is due. */
  datatype Link = Link(row: Payment, due: int)

  function Ran(c: Config, l: Link, t: Tick): Pass { ReconcilePass(c, Some(l.row), t.now, t.bank) }

  /** Consecutive ticks of one chain: each runs no earlier than it is due, gets
      no verdict, and has a successor only if its pass reschedules. */
  predicate Chain(c: Config, l: Link, ticks: seq<Tick>)
    decreases |ticks|
  {
    ticks == [] ||
    (ticks[0].now >= l.due && Silent(l.row, ticks[0])
     && match Ran(c, l, ticks[0])
        case Pass(Some(row), Reschedule(at), _) => Chain(c, Link(row, at), ticks[1..])
        case _ => |ticks| == 1)
  }

  /** A chain that owns its payment: due exactly when the row says. */
  predicate Owned(c: Config, l: Link) {
    && Positive(c) && Pending(l.row) && l.row.manualReviewRequiredAt.None?
    && l.row.nextReconciliationAt == Some(l.due)
  }

  /** A rescheduled pass: the chain still owns the row, one attempt later, and
      is next due after this tick by a whole step or at the hard cap. */
  predicate Advances(c: Config, l: Link, t: Tick, r: Pass) {
    var cap := HardCapAt(c, l.row);
    && r.outcome.Reschedule? && t.now < r.outcome.at <= cap
    && r.outcome.at >= Min(cap, t.now + Min(c.baseDelay, c.maxDelay))
    && r.row.Some? && Owned(c, Link(r.row.value, r.outcome.at))
    && r.row.value.reconciliationAttempts == l.row.reconciliationAttempts + 1
  }

  /** A claimed pass moves the next time strictly forward, never past the hard
      cap; at the cap the bank is not asked and the payment goes to review. */
  lemma TickProgress(c: Config, l: Link, t: Tick)
    requires Owned(c, l) && t.now >= l.due && Silent(l.row, t)
    ensures var r := Ran(c, l, t); r.row.Some? && HardCapAt(c, r.row.value) == HardCapAt(c, l.row)
    ensures Ran(c, l, t).queried <==> t.now < HardCapAt(c, l.row)
    ensures t.now < HardCapAt(c, l.row) ==> Advances(c, l, t, Ran(c, l, t))
    ensures t.now >= HardCapAt(c, l.row) ==>
      Ran(c, l, t).outcome == ManualReview && Ran(c, l, t).row.value.manualReviewRequiredAt == Some(t.now)
  {
    DelayIsMonotone(c, l.row.reconciliationAttempts + 1, l.row.reconciliationAttempts + 1);
  }

  function CeilDiv(a: int, b: int): int
    requires b > 0
  {
    -(-a / b)
  }

  /** Bank queries left before the cap, at most. */
  function TicksLeft(c: Config, l: Link): int
    requires Positive(c)
  {
    var room := HardCapAt(c, l.row) - l.due;
    if room <= 0 then 0 else CeilDiv(room, Min(c.baseDelay, c.maxDelay))
  }

  lemma Times(a: int, b: int, step: int)
    requires step >= 0 && a <= b
    ensures a * step <= b * step
  {
  }

  /** The quotient rounded up is the least number of steps that covers `a`. */
  lemma CeilDivIsLeast(a: int, step: int, k: int)
    requires step > 0
    ensures CeilDiv(a, step) <= k <==> a <= k * step
  {
    var q := -a / step;
    assert -a == q * step + -a % step;
    if -q <= k { Times(-q, k, step); } else { Times(k, -q - 1, step); }
  }

  lemma OneTickLess(room: int, next: int, step: int)
    requires step > 0 && room > 0 && next <= Max(0, room - step)
    ensures (if next <= 0 then 0 else CeilDiv(next, step)) + 1 <= CeilDiv(room, step)
  {
    hide CeilDiv;
    var k := CeilDiv(room, step);
    CeilDivIsLeast(room, step, k);
    CeilDivIsLeast(room, step, 0);
    CeilDivIsLeast(next, step, k - 1);
    assert (k - 1) * step == k * step - step;
  }

  lemma {:induction false} ChainIsShort(c: Config, l: Link, ticks: seq<Tick>)
    requires Owned(c, l) && Chain(c, l, ticks)
    decreases |ticks|
    ensures |ticks| <= TicksLeft(c, l) + 1
    ensures forall i :: 0 <= i < |ticks| ==> ticks[i].now >= l.due
    ensures forall i, j :: 0 <= i < j < |ticks| ==> ticks[i].now < ticks[j].now
    ensures forall i :: 0 <= i < |ticks| - 1 ==> ticks[i].now < HardCapAt(c, l.row)
  {
    if ticks != [] {
      hide Delay, Trusted, ReconcilePass, CeilDiv;
      TickProgress(c, l, ticks[0]);
      var cap := HardCapAt(c, l.row);
      if ticks[0].now < cap {
        var r := Ran(c, l, ticks[0]);
        var next := Link(r.row.value, r.outcome.at);
        ChainIsShort(c, next, ticks[1..]);
        OneTickLess(cap - l.due, cap - next.due, Min(c.baseDelay, c.maxDelay));
      } else {
        assert |ticks| == 1;
      }
    }
  }

  /** The outcome of the last tick of a chain. */
  function LastPass(c: Config, l: Link, ticks: seq<Tick>): Pass
    requires ticks != [] && Chain(c, l, ticks)
    decreases |ticks|
  {
    var r := Ran(c, l, ticks[0]);
    if |ticks| == 1 then r
    else match r case Pass(Some(row), Reschedule(at), _) => LastPass(c, Link(row, at), ticks[1..])
  }

  /** Queries the chain has made: one per tick before the cap. */
  function Queries(c: Config, l: Link, ticks: seq<Tick>): nat
    requires Chain(c, l, ticks)
    decreases |ticks|
  {
    if ticks == [] then 0
    else
      var r := Ran(c, l, ticks[0]);
      (if r.queried then 1 else 0)
      + if |ticks| == 1 then 0
        else match r case Pass(Some(row), Reschedule(at), _) => Queries(c, Link(row, at), ticks[1..])
  }

  /** A chain stops only by handing the payment to manual review, at the cap;
      until then every tick asks the bank once. */
  lemma {:induction false} ChainEndsInReview(c: Config, l: Link, ticks: seq<Tick>)
    requires ticks != [] && Owned(c, l) && Chain(c, l, ticks)
    decreases |ticks|
    ensures var last := LastPass(c, l, ticks); var now := ticks[|ticks| - 1].now;
      && (now < HardCapAt(c, l.row) ==> last.outcome.Reschedule? && Queries(c, l, ticks) == |ticks|)
      && (now >= HardCapAt(c, l.row) ==> last.outcome == ManualReview && Queries(c, l, ticks) == |ticks| - 1)
  {
    hide Delay, Trusted, ReconcilePass;
    TickProgress(c, l, ticks[0]);
    if |ticks| > 1 {
      var r := Ran(c, l, ticks[0]);
      assert r.outcome.Reschedule?;
      ChainEndsInReview(c, Link(r.row.value, r.outcome.at), ticks[1..]);
    }
  }

  /** A payment freshly handed to the bank: the first tick is due after the
      initial delay. */
  function FirstLink(c: Config, p: Payment): Link {
    var due := p.createdAt + c.initialDelay;
    Link(p.(nextReconciliationAt := Some(due)), due)
  }

  /** A chain without a verdict has at most ceil(cap / min(base, max)) + 1
      ticks, at strictly increasing times, and only the last may reach the cap. */
  lemma SilentChainTerminates(c: Config, p: Payment, ticks: seq<Tick>)
    requires Positive(c) && Pending(p) && p.manualReviewRequiredAt.None?
    requires Chain(c, FirstLink(c, p), ticks)
    ensures |ticks| <= CeilDiv(c.hardCap, Min(c.baseDelay, c.maxDelay)) + 1
    ensures forall i, j :: 0 <= i < j < |ticks| ==> ticks[i].now < ticks[j].now
    ensures forall i :: 0 <= i < |ticks| - 1 ==> ticks[i].now < p.createdAt + c.hardCap
  {
    hide Chain;
    var l := FirstLink(c, p);
    ChainIsShort(c, l, ticks);
    CeilDivGrows(HardCapAt(c, l.row) - l.due, c.hardCap, Min(c.baseDelay, c.maxDelay));
  }

  lemma CeilDivGrows(a: int, b: int, step: int)
    requires step > 0 && a <= b && b > 0
    ensures (if a <= 0 then 0 else CeilDiv(a, step)) <= CeilDiv(b, step)
  {
    hide CeilDiv;
    var k := CeilDiv(b, step);
    CeilDivIsLeast(b, step, k);
    CeilDivIsLeast(a, step, k);
    CeilDivIsLeast(b, step, 0);
  }
}
