/** The Kaspi status poller's cadence: how often a payment can be polled before
    the hard cap. Times are real milliseconds, as the settings may be fractions. */
module KaspiPolling {
  import opened Options
  import opened BccReconciliation

  /** An environment value when it is a positive finite number, else the fallback. */
  function NumEnv(raw: Option<real>, fallback: real): real {
    if raw.Some? && raw.value > 0.0 then raw.value else fallback
  }

  datatype Cadence = Cadence(
    aggressive: real, backoff: real, tail: real, aggressiveWindow: real, backoffWindow: real, hardCap: real)

  predicate Positive(c: Cadence) {
    c.aggressive > 0.0 && c.backoff > 0.0 && c.tail > 0.0
    && c.aggressiveWindow > 0.0 && c.backoffWindow > 0.0 && c.hardCap > 0.0
  }

  function CadenceFromEnv(a: Option<real>, b: Option<real>, t: Option<real>, aw: Option<real>, bw: Option<real>,
                          cap: Option<real>): (c: Cadence)
    ensures Positive(c)
    ensures a == b == t == aw == bw == cap == None ==> c.aggressiveWindow <= c.backoffWindow <= c.hardCap
  {
    Cadence(NumEnv(a, 5_000.0), NumEnv(b, 20_000.0), NumEnv(t, 60_000.0), NumEnv(aw, 120_000.0),
            NumEnv(bw, 600_000.0), NumEnv(cap, 82_800_000.0))
  }

  /** `nextDelayMs`. */
  function NextDelay(c: Cadence, createdAt: real, now: real): real {
    var age := now - createdAt;
    if age < c.aggressiveWindow then c.aggressive
    else if age < c.backoffWindow then c.backoff
    else c.tail
  }

  datatype PollResult = Reschedule(createdAt: Option<real>) | Settled | Failed | Stop

  /** Jobs of other names on the queue are left alone. */
  datatype PollJobName = StatusJob | OtherPollJob

  /** What a tick reports; no result when the job was ignored. */
  datatype PollSummary = PollSummary(paymentId: Id, result: Option<PollResult>, nextDelay: Option<real>)

  const IGNORED: PollSummary := PollSummary("", None, None)

  datatype PollJob = PollJob(name: PollJobName, jobId: string, paymentId: Id, tick: nat, delay: real)

  class KaspiPaymentStatusProcessor {
    const cadence: Cadence
    var queue: seq<PollJob>

    constructor (cadence: Cadence)
      ensures this.cadence == cadence && queue == []
    {
      this.cadence, queue := cadence, [];
    }

    /** Queues the next tick exactly when the poll asks for one; an unknown
        creation time counts as now. */
    method Process(job: PollJob, result: PollResult, now: real) returns (summary: PollSummary)
      modifies this`queue
      ensures job.name.OtherPollJob? ==> summary == IGNORED && queue == old(queue)
      ensures job.name.StatusJob? ==>
        var createdAt := if result.Reschedule? && result.createdAt.Some? then result.createdAt.value else now;
        var delay := NextDelay(cadence, createdAt, now);
        && summary == PollSummary(job.paymentId, Some(result), if result.Reschedule? then Some(delay) else None)
        && queue == old(queue) + if result.Reschedule? then [NextJob(job, delay)] else []
    {
      if job.name == OtherPollJob { return IGNORED; }
      var nextDelay := None;
      if result.Reschedule? {
        var createdAt := if result.createdAt.Some? then result.createdAt.value else now;
        var delay := NextDelay(cadence, createdAt, now);
        var nextTick := job.tick + 1;
        var jobId := JobId("kaspi-poll-", job.paymentId, nextTick);
        queue := queue + [PollJob(StatusJob, jobId, job.paymentId, nextTick, delay)];
        nextDelay := Some(delay);
      }
      summary := PollSummary(job.paymentId, Some(result), nextDelay);
    }
  }

  function NextJob(job: PollJob, delay: real): PollJob {
    PollJob(StatusJob, JobId("kaspi-poll-", job.paymentId, job.tick + 1), job.paymentId, job.tick + 1, delay)
  }

  /** Jobs of one chain: each the one `Process` queues for the one before. */
  predicate JobChain(jobs: seq<PollJob>) {
    forall i :: 0 <= i < |jobs| - 1 ==> Queued(jobs[i], jobs[i + 1])
  }

  predicate Queued(job: PollJob, next: PollJob) { next == NextJob(job, next.delay) }

  /** A chain's ticks are consecutive, and no job id repeats, so none of its
      jobs is dropped as a duplicate. */
  lemma {:induction false} JobIdsNeverRepeat(jobs: seq<PollJob>, i: nat, j: nat)
    requires JobChain(jobs) && i < j < |jobs|
    requires jobs[0].jobId == JobId("kaspi-poll-", jobs[0].paymentId, jobs[0].tick)
    ensures jobs[j].tick == jobs[i].tick + (j - i) && jobs[j].paymentId == jobs[i].paymentId
    ensures jobs[i].jobId != jobs[j].jobId
  {
    hide JobId;
    assert Queued(jobs[j - 1], jobs[j - 1 + 1]);
    if i < j - 1 { JobIdsNeverRepeat(jobs, i, j - 1); }
    if i > 0 { assert Queued(jobs[i - 1], jobs[i - 1 + 1]); }
    if jobs[i].jobId == jobs[j].jobId {
      JobIdsAreDistinct("kaspi-poll-", jobs[i].paymentId, jobs[i].tick, jobs[j].paymentId, jobs[j].tick);
    }
  }

  // ── The bound ───────────────────────────────────────────────────────────

  function Ceil(x: real): int { -(-x).Floor }

  /** Times at least `step` apart. */
  predicate Apart(ts: seq<real>, step: real) {
    forall i :: 0 <= i < |ts| - 1 ==> ts[i + 1] >= ts[i] + step
  }

  predicate Within(ts: seq<real>, from: real, to: real) {
    forall i :: 0 <= i < |ts| ==> from <= ts[i] < to
  }

  lemma {:induction false} Spread(ts: seq<real>, step: real)
    requires ts != [] && Apart(ts, step)
    ensures ts[|ts| - 1] >= ts[0] + (|ts| - 1) as real * step
  {
    if |ts| > 1 {
      var shorter := ts[..|ts| - 1];
      assert forall i :: 0 <= i < |shorter| ==> shorter[i] == ts[i];
      Spread(shorter, step);
      assert ts[|ts| - 2 + 1] >= ts[|ts| - 2] + step;
    }
  }

  /** A window holds at most its length over the interval, rounded up. */
  lemma WindowHolds(ts: seq<real>, step: real, from: real, to: real)
    requires step > 0.0 && from <= to && Apart(ts, step) && Within(ts, from, to)
    ensures |ts| <= Ceil((to - from) / step)
  {
    if ts != [] {
      Spread(ts, step);
      var n := (|ts| - 1) as real;
      assert n * step < to - from;
      assert n < (to - from) / step by { Divide(n, step, to - from); }
    } else {
      assert (to - from) / step >= 0.0;
    }
  }

  lemma Divide(n: real, step: real, room: real)
    requires step > 0.0 && n * step < room
    ensures n < room / step
  {
    var most := room / step;
    assert most * step == room;
    if n >= most { Multiply(most, n, step); }
  }

  lemma Multiply(a: real, b: real, step: real)
    requires a <= b && step > 0.0
    ensures a * step <= b * step
  {
  }

  /** The clock readings at which the ticks of one chain run: each no earlier
      than the delay the tick before asked for. */
  predicate Chain(c: Cadence, createdAt: real, ts: seq<real>) {
    forall i :: 0 <= i < |ts| - 1 ==> ts[i + 1] >= ts[i] + NextDelay(c, createdAt, ts[i])
  }

  /** The first tick at or after a time. */
  function FirstFrom(ts: seq<real>, time: real): (k: nat)
    ensures k <= |ts|
    ensures forall i :: 0 <= i < k ==> ts[i] < time
    ensures k < |ts| ==> ts[k] >= time
  {
    if ts == [] || ts[0] >= time then 0 else FirstFrom(ts[1..], time) + 1
  }

  lemma {:induction false} LaterTicksAreLater(c: Cadence, createdAt: real, ts: seq<real>, i: nat, j: nat)
    requires Positive(c) && Chain(c, createdAt, ts) && i <= j < |ts|
    ensures ts[i] <= ts[j]
  {
    if i < j {
      LaterTicksAreLater(c, createdAt, ts, i, j - 1);
      assert ts[j - 1 + 1] >= ts[j - 1] + NextDelay(c, createdAt, ts[j - 1]);
    }
  }

  /** The ticks of a chain inside one window, all waiting the same delay. */
  lemma WindowTicks(c: Cadence, createdAt: real, ts: seq<real>, i: nat, j: nat, step: real, from: real, to: real)
    requires Chain(c, createdAt, ts) && i <= j <= |ts| && step > 0.0 && from <= to
    requires forall k :: i <= k < j ==> from <= ts[k] < to && NextDelay(c, createdAt, ts[k]) == step
    ensures j - i <= Ceil((to - from) / step)
  {
    hide Ceil, NextDelay;
    WindowHolds(ts[i..j], step, from, to);
  }

  /** For ordered windows a chain runs at most this many ticks at ages below
      the cap: one window's worth at each interval. */
  lemma PollsAreBounded(c: Cadence, createdAt: real, ts: seq<real>)
    requires Positive(c) && c.aggressiveWindow <= c.backoffWindow <= c.hardCap
    requires Chain(c, createdAt, ts) && Within(ts, createdAt, createdAt + c.hardCap)
    ensures |ts| <= Ceil(c.aggressiveWindow / c.aggressive)
                  + Ceil((c.backoffWindow - c.aggressiveWindow) / c.backoff)
                  + Ceil((c.hardCap - c.backoffWindow) / c.tail)
  {
    hide Ceil, Chain;
    var m, n, end := createdAt + c.aggressiveWindow, createdAt + c.backoffWindow, createdAt + c.hardCap;
    var i, j := FirstFrom(ts, m), FirstFrom(ts, n);
    forall k | 0 <= k < |ts| ensures k >= i ==> ts[k] >= m ensures k >= j ==> ts[k] >= n {
      if k >= i { LaterTicksAreLater(c, createdAt, ts, i, k); }
      if k >= j { LaterTicksAreLater(c, createdAt, ts, j, k); }
    }
    WindowTicks(c, createdAt, ts, 0, i, c.aggressive, createdAt, m);
    WindowTicks(c, createdAt, ts, i, j, c.backoff, m, n);
    WindowTicks(c, createdAt, ts, j, |ts|, c.tail, n, end);
    assert m - createdAt == c.aggressiveWindow && n - m == c.backoffWindow - c.aggressiveWindow;
    assert end - n == c.hardCap - c.backoffWindow;
  }

  // ── In figures ──────────────────────────────────────────────────────────

  /** A setting counts when it is positive; these are the fallbacks, in ms. */
  lemma CadenceMeans(a: Option<real>, b: Option<real>, t: Option<real>, aw: Option<real>, bw: Option<real>,
                     cap: Option<real>)
    ensures var c := CadenceFromEnv(a, b, t, aw, bw, cap);
      && c.aggressive == (if a.Some? && a.value > 0.0 then a.value else 5_000.0)
      && c.backoff == (if b.Some? && b.value > 0.0 then b.value else 20_000.0)
      && c.tail == (if t.Some? && t.value > 0.0 then t.value else 60_000.0)
      && c.aggressiveWindow == (if aw.Some? && aw.value > 0.0 then aw.value else 120_000.0)
      && c.backoffWindow == (if bw.Some? && bw.value > 0.0 then bw.value else 600_000.0)
      && c.hardCap == (if cap.Some? && cap.value > 0.0 then cap.value else 82_800_000.0)
  {
  }

  /** With the fallbacks a chain runs at most 24 + 24 + 1370 ticks below the cap. */
  lemma DefaultPolls(createdAt: real, ts: seq<real>)
    requires var c := CadenceFromEnv(None, None, None, None, None, None);
      Chain(c, createdAt, ts) && Within(ts, createdAt, createdAt + c.hardCap)
    ensures |ts| <= 24 + 24 + 1370
  {
    var c := CadenceFromEnv(None, None, None, None, None, None);
    PollsAreBounded(c, createdAt, ts);
    assert c.aggressiveWindow / c.aggressive == 24.0;
    assert (c.backoffWindow - c.aggressiveWindow) / c.backoff == 24.0;
    assert (c.hardCap - c.backoffWindow) / c.tail == 1370.0;
  }
}
