/**
 * The keep-alive contract of the Subscribe stream: the server's heartbeat
 * cadence, the interval clamp both sides apply, and the client's watchdog
 * (packages/protocol/src/Heartbeat.ts).
 *
 * Time is a real number of milliseconds. A client's life is a sequence of
 * steps in the order they happen: an item arrives, or the watchdog polls.
 */
module Heartbeat {
  import opened Wrappers

  const MIN_INTERVAL_MS := 1000.0
  const MAX_INTERVAL_MS := 300000.0
  const IDLE_THRESHOLD_MULTIPLIER := 3.0
  const POLL_MS := 1000.0

  /** A JavaScript number, as a caller may request it. */
  datatype Number = Finite(value: real) | Infinity(negative: bool) | NaN

  predicate InRange(ms: real) {
    MIN_INTERVAL_MS <= ms <= MAX_INTERVAL_MS
  }

  function ClampIntervalMs(ms: Number): (interval: real)
    ensures InRange(interval)
    ensures ms.Finite? && InRange(ms.value) ==> interval == ms.value
    ensures ms.Finite? ==> forall other | InRange(other) :: Distance(ms.value, interval) <= Distance(ms.value, other)
    ensures !ms.Finite? ==> interval == MIN_INTERVAL_MS
  {
    if !ms.Finite? || ms.value < MIN_INTERVAL_MS then MIN_INTERVAL_MS
    else if ms.value > MAX_INTERVAL_MS then MAX_INTERVAL_MS
    else ms.value
  }

  function Distance(a: real, b: real): real {
    if a <= b then b - a else a - b
  }

  function IdleThreshold(requested: Number): real {
    ClampIntervalMs(requested) * IDLE_THRESHOLD_MULTIPLIER
  }

  // ----- The guard ---------------------------------------------------------------

  datatype Item = Beat | Envelope(id: nat)

  datatype Step = Arrive(item: Item, at: real) | Check(at: real)

  datatype Timeout = Timeout(idleMs: real, at: real)

  /** The guarded stream: what it has passed on and whether it has failed. */
  datatype Watch = Watch(lastHeartbeatAt: Option<real>, output: seq<nat>, failed: Option<Timeout>)

  const UNARMED := Watch(None, [], None)

  function Advance(w: Watch, step: Step, threshold: real): Watch {
    if w.failed.Some? then w
    else match step
      case Arrive(Beat, at) => w.(lastHeartbeatAt := Some(at))
      case Arrive(Envelope(id), _) => w.(output := w.output + [id])
      case Check(at) =>
        if w.lastHeartbeatAt.Some? && at - w.lastHeartbeatAt.value > threshold
        then w.(failed := Some(Timeout(at - w.lastHeartbeatAt.value, at)))
        else w
  }

  function Watched(steps: seq<Step>, threshold: real): Watch {
    if steps == [] then UNARMED
    else Advance(Watched(steps[..|steps| - 1], threshold), steps[|steps| - 1], threshold)
  }

  lemma WatchedMore(steps: seq<Step>, step: Step, threshold: real)
    ensures Watched(steps + [step], threshold) == Advance(Watched(steps, threshold), step, threshold)
  {
    assert (steps + [step])[..|steps|] == steps;
  }

  // ----- What a sequence of steps says, without the guard ------------------------

  predicate IsBeat(step: Step) {
    step.Arrive? && step.item.Beat?
  }

  /** The arrival times of the heartbeats, in order. */
  function Beats(steps: seq<Step>): seq<real> {
    if steps == [] then []
    else
      var before := Beats(steps[..|steps| - 1]);
      var last := steps[|steps| - 1];
      if IsBeat(last) then before + [last.at] else before
  }

  function Envelopes(steps: seq<Step>): seq<nat> {
    if steps == [] then []
    else
      var before := Envelopes(steps[..|steps| - 1]);
      var last := steps[|steps| - 1];
      if last.Arrive? && last.item.Envelope? then before + [last.item.id] else before
  }

  /** How many polls the steps hold. */
  function Polls(steps: seq<Step>): nat {
    if steps == [] then 0
    else Polls(steps[..|steps| - 1]) + if steps[|steps| - 1].Check? then 1 else 0
  }

  /** Step `k` is a poll more than the threshold after the last heartbeat. */
  predicate Overdue(steps: seq<Step>, k: nat, threshold: real)
    requires k < |steps|
  {
    && steps[k].Check?
    && Beats(steps[..k]) != []
    && steps[k].at - Last(Beats(steps[..k])) > threshold
  }

  function Last(times: seq<real>): real
    requires times != []
  {
    times[|times| - 1]
  }

  predicate FirstOverdue(steps: seq<Step>, k: nat, threshold: real)
    requires k < |steps|
  {
    && Overdue(steps, k, threshold)
    && forall m | 0 <= m < k :: !Overdue(steps, m, threshold)
  }

  /** Steps happen in time order. */
  predicate InTime(steps: seq<Step>) {
    forall i, j | 0 <= i < j < |steps| :: steps[i].at <= steps[j].at
  }

  /** The watchdog polls at `start`, `start + 1000`, `start + 2000`, ... */
  predicate PolledFrom(steps: seq<Step>, start: real) {
    forall k | 0 <= k < |steps| && steps[k].Check? :: steps[k].at == start + POLL_MS * Polls(steps[..k]) as real
  }

  // ----- The guard fails at the first overdue poll, and only there ---------------

  /** The guard passed on all before step `k` and failed there, `k` being the first overdue poll. */
  predicate FailedAt(w: Watch, steps: seq<Step>, k: nat, threshold: real)
    requires k < |steps|
  {
    && FirstOverdue(steps, k, threshold)
    && w.failed == Some(Timeout(steps[k].at - Last(Beats(steps[..k])), steps[k].at))
    && w.output == Envelopes(steps[..k])
  }

  /** The guard runs on with everything but the heartbeats passed on. */
  predicate RunsOn(w: Watch, steps: seq<Step>) {
    && w.failed.None?
    && w.output == Envelopes(steps)
    && w.lastHeartbeatAt == if Beats(steps) == [] then None else Some(Last(Beats(steps)))
  }

  lemma PrefixOverdue(steps: seq<Step>, m: nat, k: nat, threshold: real)
    requires k < m <= |steps|
    ensures Overdue(steps[..m], k, threshold) == Overdue(steps, k, threshold)
    ensures steps[..m][..k] == steps[..k]
  {
    assert steps[..m][..k] == steps[..k];
  }

  /** The guard fails at the first overdue poll, and runs on exactly while there is none. */
  lemma {:induction false} WatchedMeans(steps: seq<Step>, threshold: real)
    ensures var w := Watched(steps, threshold);
      if forall k | 0 <= k < |steps| :: !Overdue(steps, k, threshold) then RunsOn(w, steps)
      else exists k :: 0 <= k < |steps| && FailedAt(w, steps, k, threshold)
  {
    if steps != [] {
      var n := |steps| - 1;
      var prefix := steps[..n];
      WatchedMeans(prefix, threshold);
      forall k | 0 <= k < n
        ensures Overdue(prefix, k, threshold) == Overdue(steps, k, threshold) && prefix[..k] == steps[..k]
      {
        PrefixOverdue(steps, n, k, threshold);
      }
      var before := Watched(prefix, threshold);
      if before.failed.Some? {
        var k :| 0 <= k < n && FailedAt(before, prefix, k, threshold);
        assert FailedAt(Watched(steps, threshold), steps, k, threshold);
      } else if Overdue(steps, n, threshold) {
        assert FailedAt(Watched(steps, threshold), steps, n, threshold);
      }
    }
  }

  /** Servers that never send a heartbeat never trip the watchdog, and lose nothing. */
  lemma UnarmedNeverFails(steps: seq<Step>, threshold: real)
    requires Beats(steps) == []
    ensures RunsOn(Watched(steps, threshold), steps)
  {
    WatchedMeans(steps, threshold);
    forall k | 0 <= k < |steps| ensures !Overdue(steps, k, threshold) {
      BeatsGrow(steps, k);
    }
  }

  // ----- Timing ------------------------------------------------------------------

  /** The heartbeats before step `k` are the first of all heartbeats; any later one is no earlier than `k`. */
  lemma {:induction false} BeatsGrow(steps: seq<Step>, k: nat)
    requires k <= |steps|
    ensures Beats(steps[..k]) <= Beats(steps)
    ensures InTime(steps) ==>
              forall n | |Beats(steps[..k])| <= n < |Beats(steps)| :: k < |steps| && steps[k].at <= Beats(steps)[n]
    ensures InTime(steps) ==> forall n | 0 <= n < |Beats(steps[..k])| :: 0 < k && Beats(steps)[n] <= steps[k - 1].at
  {
    if k < |steps| {
      BeatsGrow(steps[..|steps| - 1], k);
      assert steps[..|steps| - 1][..k] == steps[..k];
    } else {
      assert steps[..k] == steps;
      if k > 0 {
        BeatsGrow(steps[..k - 1], k - 1);
        assert steps[..k - 1][..k - 1] == steps[..k - 1];
      }
    }
  }

  /** Successive heartbeats arrive at most `gap` apart, and the steps end at most `gap` after the last. */
  predicate GapsWithin(steps: seq<Step>, gap: real) {
    var beats := Beats(steps);
    && (forall n | 0 < n < |beats| :: beats[n] - beats[n - 1] <= gap)
    && (beats != [] ==> steps[|steps| - 1].at - Last(beats) <= gap)
  }

  /** While heartbeats arrive within the threshold of one another the watchdog stays silent. */
  lemma SteadyBeatsAreSafe(steps: seq<Step>, threshold: real)
    requires InTime(steps)
    requires Beats(steps) != [] ==> GapsWithin(steps, threshold)
    ensures RunsOn(Watched(steps, threshold), steps)
  {
    WatchedMeans(steps, threshold);
    forall k | 0 <= k < |steps| ensures !Overdue(steps, k, threshold) {
      BeatsGrow(steps, k);
      var beats, n := Beats(steps), |Beats(steps[..k])|;
      if n > 0 && n < |beats| {
        assert steps[k].at <= beats[n];
      }
    }
  }

  /** Poll number `n` of the steps. */
  lemma {:induction false} FindPoll(steps: seq<Step>, n: nat) returns (k: nat)
    requires n < Polls(steps)
    ensures k < |steps| && steps[k].Check? && Polls(steps[..k]) == n
  {
    var m := |steps| - 1;
    if n < Polls(steps[..m]) {
      k := FindPoll(steps[..m], n);
      assert steps[..m][..k] == steps[..k];
    } else {
      k := m;
    }
  }

  /** When the watchdog fires, the last heartbeat is more than the threshold and at most one poll more ago. */
  lemma FiresPromptly(steps: seq<Step>, start: real, threshold: real)
    requires InTime(steps) && PolledFrom(steps, start)
    requires threshold >= 0.0
    requires Beats(steps) != [] ==> start <= Beats(steps)[0]
    ensures var failed := Watched(steps, threshold).failed;
      failed.Some? ==> threshold < failed.value.idleMs <= threshold + POLL_MS
  {
    WatchedMeans(steps, threshold);
    var w := Watched(steps, threshold);
    if w.failed.Some? {
      var k :| 0 <= k < |steps| && FailedAt(w, steps, k, threshold);
      BeatsGrow(steps, k);
      var n := Polls(steps[..k]);
      var heard := Last(Beats(steps[..k]));
      assert heard == Beats(steps)[|Beats(steps[..k])| - 1];
      BeatsAscend(steps, 0, |Beats(steps[..k])| - 1);
      assert start <= heard;
      assert n > 0;
      var p := FindPoll(steps[..k], n - 1);
      assert steps[..k][..p] == steps[..p];
      assert steps[p].at == steps[k].at - POLL_MS;
      PreviousPoll(steps, p, k, threshold);
    }
  }

  lemma {:induction false} BeatsAscend(steps: seq<Step>, i: nat, j: nat)
    requires InTime(steps)
    requires i <= j < |Beats(steps)|
    ensures Beats(steps)[i] <= Beats(steps)[j]
  {
    var m := |steps| - 1;
    if j < |Beats(steps[..m])| {
      BeatsAscend(steps[..m], i, j);
    } else if i < j {
      BeatsGrow(steps, m);
    }
  }

  /** A poll that was not overdue was within the threshold of any later poll's last heartbeat. */
  lemma PreviousPoll(steps: seq<Step>, p: nat, k: nat, threshold: real)
    requires InTime(steps)
    requires p < k < |steps| && steps[p].Check? && Beats(steps[..k]) != []
    requires threshold >= 0.0 && !Overdue(steps, p, threshold)
    ensures steps[p].at - Last(Beats(steps[..k])) <= threshold
  {
    BeatsGrow(steps[..k], p);
    assert steps[..k][..p] == steps[..p];
    if |Beats(steps[..p])| == |Beats(steps[..k])| {
      assert Beats(steps[..p]) == Beats(steps[..k]);
    } else {
      assert steps[p].at <= Beats(steps[..k])[|Beats(steps[..k])| - 1];
    }
  }

  /** Once armed, silence for the threshold and one poll more is always noticed. */
  lemma SilenceIsNoticed(steps: seq<Step>, start: real, threshold: real)
    requires InTime(steps) && PolledFrom(steps, start)
    requires Beats(steps) != [] && start <= Beats(steps)[0]
    requires threshold >= 0.0
    requires start + POLL_MS * Polls(steps) as real > Last(Beats(steps)) + threshold + POLL_MS
    ensures Watched(steps, threshold).failed.Some?
  {
    WatchedMeans(steps, threshold);
    var heard := Last(Beats(steps));
    var n := Polls(steps) - 1;
    BeatsAscend(steps, 0, |Beats(steps)| - 1);
    assert n >= 0;
    var k := FindPoll(steps, n);
    BeatsGrow(steps, k);
    assert Beats(steps[..k]) == Beats(steps);
    assert Overdue(steps, k, threshold);
  }

  // ----- The server's heartbeats -------------------------------------------------

  /** When the server emits heartbeat `n`: at once, then at the clamped cadence. */
  function EmittedAt(requested: Number, epoch: real, n: nat): (emitted: real)
    ensures emitted >= epoch
  {
    if n == 0 then epoch else EmittedAt(requested, epoch, n - 1) + ClampIntervalMs(requested)
  }

  /** Each heartbeat arrives within `jitter` of its emission, and none that is due is missing. */
  predicate FromServer(steps: seq<Step>, requested: Number, epoch: real, jitter: real) {
    var beats := Beats(steps);
    && (forall n | 0 <= n < |beats| ::
          EmittedAt(requested, epoch, n) <= beats[n] <= EmittedAt(requested, epoch, n) + jitter)
    && (steps != [] ==> steps[|steps| - 1].at <= EmittedAt(requested, epoch, |beats|) + jitter)
  }

  /** No run of server and client with that jitter trips the watchdog. */
  ghost predicate Tolerates(requested: Number, jitter: real) {
    forall steps, start, epoch |
      && InTime(steps)
      && PolledFrom(steps, start)
      && start <= epoch
      && FromServer(steps, requested, epoch, jitter) ::
      RunsOn(Watched(steps, IdleThreshold(requested)), steps)
  }

  lemma JitterIsTolerated(steps: seq<Step>, requested: Number, epoch: real, jitter: real)
    requires InTime(steps)
    requires FromServer(steps, requested, epoch, jitter)
    requires jitter <= 2.0 * ClampIntervalMs(requested)
    ensures RunsOn(Watched(steps, IdleThreshold(requested)), steps)
  {
    SteadyBeatsAreSafe(steps, IdleThreshold(requested));
  }

  /** One heartbeat, then polls only. */
  function Silence(start: real, epoch: real, m: nat): seq<Step> {
    [Check(start), Arrive(Beat, epoch)] + seq(m, j requires j >= 0 => Check(start + POLL_MS * (j + 1) as real))
  }

  lemma {:induction false} SilenceHas(start: real, epoch: real, m: nat)
    ensures Beats(Silence(start, epoch, m)) == [epoch]
    ensures Polls(Silence(start, epoch, m)) == m + 1
  {
    var steps := Silence(start, epoch, m);
    var before := steps[..|steps| - 1];
    if m == 0 {
      assert before == [Check(start)];
      assert before[..0] == [];
      assert Beats(before) == [];
      assert Polls(before) == 1;
    } else {
      assert before == Silence(start, epoch, m - 1);
      SilenceHas(start, epoch, m - 1);
    }
  }

  lemma SilenceIsPolled(start: real, epoch: real, m: nat)
    ensures PolledFrom(Silence(start, epoch, m), start)
  {
    var steps := Silence(start, epoch, m);
    forall k | 0 <= k < |steps| && steps[k].Check? ensures steps[k].at == start + POLL_MS * Polls(steps[..k]) as real {
      if k >= 2 {
        assert steps[..k] == Silence(start, epoch, k - 2);
        SilenceHas(start, epoch, k - 2);
      }
    }
  }

  /** The watchdog tolerates a delivery jitter of up to two intervals, and no more. */
  lemma JitterLimit(requested: Number, jitter: real)
    ensures Tolerates(requested, jitter) <==> jitter <= 2.0 * ClampIntervalMs(requested)
  {
    var interval := ClampIntervalMs(requested);
    if jitter <= 2.0 * interval {
      forall steps, start, epoch |
        && InTime(steps) && PolledFrom(steps, start) && start <= epoch
        && FromServer(steps, requested, epoch, jitter)
        ensures RunsOn(Watched(steps, IdleThreshold(requested)), steps)
      {
        JitterIsTolerated(steps, requested, epoch, jitter);
      }
    } else {
      TooMuchJitter(requested, jitter);
    }
  }

  /** Polls can be placed so that one falls exactly at `due` and one just before time zero. */
  lemma PollGrid(due: real) returns (m: nat, start: real)
    requires due > 0.0
    ensures m > 0 && start + POLL_MS * m as real == due
    ensures start <= 0.0 <= start + POLL_MS
  {
    var polls := due / POLL_MS;
    m := polls.Floor + 1;
    start := due - POLL_MS * m as real;
  }

  /** With more jitter, a second heartbeat at its latest lets a well-placed poll fire first. */
  lemma TooMuchJitter(requested: Number, jitter: real)
    requires jitter > 2.0 * ClampIntervalMs(requested)
    ensures !Tolerates(requested, jitter)
  {
    var due := ClampIntervalMs(requested) + jitter;
    var m, start := PollGrid(due);
    var steps := Silence(start, 0.0, m);
    SilenceHas(start, 0.0, m);
    SilenceIsPolled(start, 0.0, m);
    assert steps[|steps| - 1] == Check(due);
    assert EmittedAt(requested, 0.0, 1) == ClampIntervalMs(requested);
    assert FromServer(steps, requested, 0.0, jitter);
    SilenceFires(start, m, IdleThreshold(requested));
    assert !RunsOn(Watched(steps, IdleThreshold(requested)), steps);
  }

  lemma SilenceFires(start: real, m: nat, threshold: real)
    requires m > 0 && start + POLL_MS * m as real > threshold
    ensures Watched(Silence(start, 0.0, m), threshold).failed.Some?
  {
    var steps := Silence(start, 0.0, m);
    var k := |steps| - 1;
    WatchedMeans(steps, threshold);
    assert steps[..k] == Silence(start, 0.0, m - 1);
    SilenceHas(start, 0.0, m - 1);
    assert Overdue(steps, k, threshold);
  }

  // ----- The guard as an object --------------------------------------------------

  class HeartbeatGuard {
    const idleThreshold: real
    var lastHeartbeatAt: Option<real>
    var output: seq<nat>
    var failed: Option<Timeout>
    ghost var steps: seq<Step>

    ghost predicate Valid()
      reads this
    {
      Watch(lastHeartbeatAt, output, failed) == Watched(steps, idleThreshold)
    }

    constructor (requested: Number)
      ensures Valid() && steps == []
      ensures idleThreshold == IdleThreshold(requested)
    {
      idleThreshold := ClampIntervalMs(requested) * IDLE_THRESHOLD_MULTIPLIER;
      lastHeartbeatAt, output, failed := None, [], None;
      steps := [];
    }

    /** An item from the source: a heartbeat arms the watchdog, anything else is passed on. */
    method OnItem(item: Item, now: real)
      requires Valid()
      modifies this
      ensures Valid() && steps == old(steps) + [Arrive(item, now)]
    {
      if failed.None? {
        match item
        case Beat => lastHeartbeatAt := Some(now);
        case Envelope(id) => output := output + [id];
      }
      WatchedMore(steps, Arrive(item, now), idleThreshold);
      steps := steps + [Arrive(item, now)];
    }

    /** One tick of the watchdog. */
    method CheckOnce(now: real)
      requires Valid()
      modifies this
      ensures Valid() && steps == old(steps) + [Check(now)]
    {
      if failed.None? && lastHeartbeatAt.Some? && now - lastHeartbeatAt.value > idleThreshold {
        failed := Some(Timeout(now - lastHeartbeatAt.value, now));
      }
      WatchedMore(steps, Check(now), idleThreshold);
      steps := steps + [Check(now)];
    }
  }
}
