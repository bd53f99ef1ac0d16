/**
The send queue: one task at a time in the order they were enqueued, spaced out, and at most a fixed
number of starts in any sliding hour.

`QueueState` is the queue between two awaits. Reads of the clock are arguments: they never go back, and
nothing else is assumed of how long a sleep or a task takes.
*/
module SendQueue {
  import opened Options
  import opened Clock

  // What the task at the head of the queue is doing. `Spacing` and `Waiting` sleep for at least `ms`
  // unless they wake early.
  datatype Phase<+T> =
    | Idle
    | Spacing(task: T, gap: int, ms: int)
    | Checking(task: T, gap: int)
    | Waiting(task: T, gap: int, ms: int)
    | Running(task: T)

  datatype Limits = Limits(spacingMs: int, jitterMs: int, maxPerHour: nat)

  datatype QueueState<+T> = QueueState(
    limits: Limits,
    waiting: seq<T>,
    phase: Phase<T>,
    pending: nat,
    settling: nat,
    lastStart: Option<int>,
    starts: seq<int>)

  function Empty<T>(limits: Limits): QueueState<T> {
    QueueState(limits, [], Idle, 0, 0, None, [])
  }

  function Enqueued<T>(q: QueueState<T>, task: T): QueueState<T> {
    q.(waiting := q.waiting + [task], pending := q.pending + 1)
  }

  function Gap(limits: Limits, random: real): int {
    limits.spacingMs + (random * limits.jitterMs as real).Floor
  }

  // The head of the queue gets its turn.
  function Begun<T>(q: QueueState<T>, random: real, now: int): QueueState<T>
    requires q.phase.Idle? && q.waiting != []
  {
    var q1 := q.(waiting := q.waiting[1..]);
    match q.lastStart
    case None => q1.(phase := Checking(q.waiting[0], 0))
    case Some(last) =>
      var gap := Gap(q.limits, random);
      if last + gap - now > 0 then q1.(phase := Spacing(q.waiting[0], gap, last + gap - now))
      else q1.(phase := Checking(q.waiting[0], gap))
  }

  function Woken<T>(q: QueueState<T>): QueueState<T>
    requires q.phase.Spacing? || q.phase.Waiting?
  {
    q.(phase := Checking(q.phase.task, q.phase.gap))
  }

  // The starts kept by the filter: each one is compared with its own reading of the clock.
  function Kept(starts: seq<int>, ticks: seq<int>): seq<int>
    requires |ticks| == |starts|
  {
    if starts == [] then []
    else (if ticks[0] - starts[0] < HOUR_MS then [starts[0]] else []) + Kept(starts[1..], ticks[1..])
  }

  function Max(a: int, b: int): int {
    if a < b then b else a
  }

  // One turn of the cap loop: start the task, or sleep until the oldest kept start is an hour old.
  function Checked<T>(q: QueueState<T>, ticks: seq<int>, now: int): QueueState<T>
    requires q.phase.Checking? && |ticks| == |q.starts|
  {
    var kept := Kept(q.starts, ticks);
    if |kept| < q.limits.maxPerHour
    then q.(phase := Running(q.phase.task), lastStart := Some(now), starts := kept + [now])
    else
      var head := if kept == [] then 0 else kept[0];
      q.(phase := Waiting(q.phase.task, q.phase.gap, Max(1, head + HOUR_MS - now)), starts := kept)
  }

  predicate Starts<T>(q: QueueState<T>, ticks: seq<int>)
    requires q.phase.Checking? && |ticks| == |q.starts|
  {
    |Kept(q.starts, ticks)| < q.limits.maxPerHour
  }

  // The task settled, well or badly: the queue goes on either way. `settling` tasks have settled without
  // having been taken off the size yet.
  function Settled<T>(q: QueueState<T>): QueueState<T>
    requires q.phase.Running?
  {
    q.(phase := Idle, settling := q.settling + 1)
  }

  function Lowered<T>(q: QueueState<T>): QueueState<T>
    requires q.settling > 0
  {
    q.(pending := if q.pending == 0 then 0 else q.pending - 1, settling := q.settling - 1)
  }

  // ------------------------------------------------------------------------- spacing and waiting

  // The gap is the spacing and a jitter: the draw's share of `jitterMs`, rounded down. A draw in [0, 1) keeps
  // the jitter below `jitterMs`, and two starts at least `spacingMs` apart.
  lemma GapShape(limits: Limits, random: real)
    ensures var jitter := Gap(limits, random) - limits.spacingMs;
            && jitter as real <= random * limits.jitterMs as real < (jitter + 1) as real
            && (0.0 <= random < 1.0 && limits.jitterMs >= 0 ==> 0 <= jitter <= limits.jitterMs)
            && (0.0 <= random < 1.0 && limits.jitterMs > 0 ==> jitter < limits.jitterMs)
  {
    var most := limits.jitterMs as real;
    if 0.0 <= random < 1.0 && limits.jitterMs >= 0 {
      ProductIsNotNegative(random, most);
      ProductIsNotNegative(1.0 - random, most);
      assert (1.0 - random) * most == most - random * most;
      if limits.jitterMs > 0 {
        ProductIsPositive(1.0 - random, most);
      }
    }
  }

  lemma ProductIsNotNegative(a: real, b: real)
    requires a >= 0.0 && b >= 0.0
    ensures a * b >= 0.0
  {
  }

  lemma ProductIsPositive(a: real, b: real)
    requires a > 0.0 && b > 0.0
    ensures a * b > 0.0
  {
  }

  // The head of the queue gets its turn: at once if nothing has started yet or the gap since the last start
  // is over, else after a sleep that ends exactly when it is.
  lemma BeginDecides<T>(q: QueueState<T>, random: real, now: int)
    requires q.phase.Idle? && q.waiting != []
    ensures var r := Begun(q, random, now);
            && q.waiting == [r.phase.task] + r.waiting
            && r.pending == q.pending && r.settling == q.settling && r.lastStart == q.lastStart && r.starts == q.starts
            && (match q.lastStart
                case None => r.phase.Checking?
                case Some(last) =>
                  var due := last + Gap(q.limits, random);
                  if now < due then r.phase.Spacing? && now + r.phase.ms == due else r.phase.Checking?)
  {
  }

  // Which starts are less than an hour old, each by its own reading.
  function Recent(starts: seq<int>, ticks: seq<int>): set<nat>
    requires |ticks| == |starts|
  {
    set i: nat | i < |starts| && ticks[i] - starts[i] < HOUR_MS
  }

  // The cap loop starts its task exactly when fewer starts than the cap are less than an hour old. Otherwise
  // it sleeps until the oldest of those is an hour old, at least a millisecond, and starts nothing.
  lemma CheckDecides<T>(q: QueueState<T>, ticks: seq<int>, now: int)
    requires q.phase.Checking? && |ticks| == |q.starts|
    ensures var r := Checked(q, ticks, now);
            && r.waiting == q.waiting && r.pending == q.pending && r.settling == q.settling
            && r.phase.task == q.phase.task
            && (if |Recent(q.starts, ticks)| < q.limits.maxPerHour
                then r.phase.Running? && r.lastStart == Some(now)
                     && |r.starts| == |Recent(q.starts, ticks)| + 1 && r.starts[|r.starts| - 1] == now
                else r.phase.Waiting? && r.lastStart == q.lastStart
                     && |r.starts| == |Recent(q.starts, ticks)|
                     && (r.starts != [] ==> r.phase.ms == Max(1, r.starts[0] + HOUR_MS - now)))
  {
    KeptCountsRecent(q.starts, ticks);
  }

  lemma {:induction false} KeptCountsRecent(starts: seq<int>, ticks: seq<int>)
    requires |ticks| == |starts|
    ensures |Kept(starts, ticks)| == |Recent(starts, ticks)|
  {
    if starts != [] {
      var n := |starts| - 1;
      KeptCountsRecent(starts[..n], ticks[..n]);
      KeptSplits(starts, ticks, n);
      var last := if ticks[n] - starts[n] < HOUR_MS then {n} else {};
      assert Recent(starts, ticks) == Recent(starts[..n], ticks[..n]) + last;
    }
  }

  lemma {:induction false} KeptSplits(starts: seq<int>, ticks: seq<int>, n: nat)
    requires |ticks| == |starts| && n <= |starts|
    ensures Kept(starts, ticks) == Kept(starts[..n], ticks[..n]) + Kept(starts[n..], ticks[n..])
  {
    if n > 0 {
      KeptSplits(starts[1..], ticks[1..], n - 1);
      assert starts[1..][..n - 1] == starts[..n][1..] && ticks[1..][..n - 1] == ticks[..n][1..];
    }
    else {
      assert starts[..0] == [];
    }
  }

  // The clock has not reached the end of the sleep yet.
  predicate TooSoon<T>(q: QueueState<T>, t: Turn, t': Turn)
    requires q.phase.Waiting?
  {
    && |t'.ticks| == |q.starts| && Readings(t'.ticks, t.now, t'.now)
    && t'.now < t.now + q.phase.ms && q.phase.ms > 1
  }

  // A task that has to wait for the cap sleeps until the oldest kept start is an hour old: readings before
  // that moment do not let it start, as long as the list was full.
  lemma WaitIsNeeded<T>(q: QueueState<T>, t: Turn, t': Turn)
    requires q.phase.Checking? && |q.starts| <= q.limits.maxPerHour && Sorted(q.starts)
    requires |t.ticks| == |q.starts| && !Starts(q, t.ticks)
    ensures var r := Checked(q, t.ticks, t.now);
            && r.phase.Waiting? && r.phase.task == q.phase.task && r.starts == q.starts
            && (TooSoon(r, t, t') ==> !Starts(Woken(r), t'.ticks))
  {
    var r := Checked(q, t.ticks, t.now);
    KeptAllOrFewer(q.starts, t.ticks);
    if TooSoon(r, t, t') {
      YoungAreKept(r.starts, t'.ticks);
    }
  }

  lemma {:induction false} YoungAreKept(starts: seq<int>, ticks: seq<int>)
    requires |ticks| == |starts| && forall i :: 0 <= i < |starts| ==> ticks[i] - starts[i] < HOUR_MS
    ensures Kept(starts, ticks) == starts
  {
    if starts != [] {
      YoungAreKept(starts[1..], ticks[1..]);
    }
  }

  // ---------------------------------------------------------------------------- counting starts

  // How many of the times lie after `lo`.
  function Above(times: seq<int>, lo: int): nat {
    if times == [] then 0
    else (if times[|times| - 1] > lo then 1 else 0) + Above(times[..|times| - 1], lo)
  }

  // How many lie in the half-open window (lo, hi].
  function Within(times: seq<int>, lo: int, hi: int): nat {
    if times == [] then 0
    else (if lo < times[|times| - 1] <= hi then 1 else 0) + Within(times[..|times| - 1], lo, hi)
  }

  predicate Sorted(times: seq<int>) {
    forall i, j :: 0 <= i < j < |times| ==> times[i] <= times[j]
  }

  ghost predicate NotAfter(times: seq<int>, now: int) {
    forall i :: 0 <= i < |times| ==> times[i] <= now
  }

  // Readings of a clock that never goes back, from `first` to `last`.
  predicate Readings(ticks: seq<int>, first: int, last: int) {
    && first <= last
    && Sorted(ticks)
    && (forall i :: 0 <= i < |ticks| ==> first <= ticks[i] <= last)
  }

  lemma AboveOfAppended(times: seq<int>, t: int, lo: int)
    ensures Above(times + [t], lo) == Above(times, lo) + if t > lo then 1 else 0
  {
    assert (times + [t])[..|times|] == times;
  }

  lemma WithinOfAppended(times: seq<int>, t: int, lo: int, hi: int)
    ensures Within(times + [t], lo, hi) == Within(times, lo, hi) + if lo < t <= hi then 1 else 0
  {
    assert (times + [t])[..|times|] == times;
  }

  lemma {:induction false} AboveOfConcat(a: seq<int>, b: seq<int>, lo: int)
    ensures Above(a + b, lo) == Above(a, lo) + Above(b, lo)
  {
    if b == [] {
      assert a + b == a;
    } else {
      var init := b[..|b| - 1];
      assert a + b == (a + init) + [b[|b| - 1]];
      AboveOfAppended(a + init, b[|b| - 1], lo);
      AboveOfConcat(a, init, lo);
    }
  }

  lemma {:induction false} AboveShrinks(times: seq<int>, lo: int, lo': int)
    requires lo <= lo'
    ensures Above(times, lo') <= Above(times, lo)
  {
    if times != [] { AboveShrinks(times[..|times| - 1], lo, lo'); }
  }

  lemma {:induction false} AboveIsAtMostLength(times: seq<int>, lo: int)
    ensures Above(times, lo) <= |times|
    ensures (forall i :: 0 <= i < |times| ==> times[i] > lo) ==> Above(times, lo) == |times|
    ensures (forall i :: 0 <= i < |times| ==> times[i] <= lo) ==> Above(times, lo) == 0
  {
    if times != [] {
      AboveIsAtMostLength(times[..|times| - 1], lo);
    }
  }

  lemma {:induction false} WithinIsAtMostAbove(times: seq<int>, lo: int, lo': int, hi: int)
    requires lo' <= lo
    ensures Within(times, lo, hi) <= Above(times, lo')
    ensures NotAfter(times, hi) ==> Within(times, lo, hi) == Above(times, lo)
  {
    if times != [] {
      WithinIsAtMostAbove(times[..|times| - 1], lo, lo', hi);
    }
  }

  lemma {:induction false} WithinSplits(times: seq<int>, lo: int, mid: int, hi: int)
    requires lo <= mid <= hi
    ensures Within(times, lo, hi) == Within(times, lo, mid) + Within(times, mid, hi)
  {
    if times != [] {
      WithinSplits(times[..|times| - 1], lo, mid, hi);
    }
  }

  // --------------------------------------------------------------------------------- the filter

  // The filter drops only starts that are an hour old at the last reading.
  lemma {:induction false} KeptCountsTheSame(starts: seq<int>, ticks: seq<int>, first: int, last: int, lo: int)
    requires |ticks| == |starts| && Readings(ticks, first, last) && last - HOUR_MS <= lo
    ensures Above(Kept(starts, ticks), lo) == Above(starts, lo)
  {
    if starts != [] {
      var head := if ticks[0] - starts[0] < HOUR_MS then [starts[0]] else [];
      var rest := Kept(starts[1..], ticks[1..]);
      KeptCountsTheSame(starts[1..], ticks[1..], first, last, lo);
      AboveOfConcat(head, rest, lo);
      assert starts == [starts[0]] + starts[1..];
      AboveOfConcat([starts[0]], starts[1..], lo);
      AboveOfAppended([], starts[0], lo);
      assert [] + [starts[0]] == [starts[0]];
    }
  }

  // It keeps the order, and only starts younger than an hour at the first reading.
  lemma {:induction false} KeptIsRecent(starts: seq<int>, ticks: seq<int>, first: int, last: int)
    requires |ticks| == |starts| && Readings(ticks, first, last)
    ensures forall t :: t in Kept(starts, ticks) ==> t > first - HOUR_MS && t in starts
    ensures Sorted(starts) ==> Sorted(Kept(starts, ticks))
  {
    if starts != [] {
      KeptIsRecent(starts[1..], ticks[1..], first, last);
      assert starts == [starts[0]] + starts[1..];
      assert [] + Kept(starts[1..], ticks[1..]) == Kept(starts[1..], ticks[1..]);
      if Sorted(starts) {
        PrependKeepsSorted(starts[0], starts[1..], Kept(starts[1..], ticks[1..]));
      }
    }
  }

  lemma PrependKeepsSorted(head: int, tail: seq<int>, rest: seq<int>)
    requires Sorted([head] + tail) && Sorted(rest)
    requires forall t :: t in rest ==> t in tail
    ensures Sorted([head] + rest)
  {
    forall t | t in tail ensures head <= t {
      var j :| 0 <= j < |tail| && tail[j] == t;
      assert ([head] + tail)[0] == head && ([head] + tail)[j + 1] == t;
    }
    assert forall i :: 0 <= i < |rest| ==> rest[i] in rest;
  }

  // The pruned list against the full history `log` of starts: they agree on the last hour.
  ghost predicate Agrees(starts: seq<int>, log: seq<int>, now: int) {
    && Sorted(starts) && Sorted(log) && NotAfter(starts, now) && NotAfter(log, now)
    && (forall lo :: now - HOUR_MS <= lo ==> Above(starts, lo) == Above(log, lo))
  }

  // The starts in the hour that ends at `s`.
  function InHour(log: seq<int>, s: int): nat {
    Within(log, s - HOUR_MS, s)
  }

  ghost predicate Capped(log: seq<int>, max: nat) {
    forall s :: InHour(log, s) <= max
  }

  lemma KeptAgrees(starts: seq<int>, log: seq<int>, was: int, ticks: seq<int>, now: int)
    requires Agrees(starts, log, was) && |ticks| == |starts| && Readings(ticks, was, now)
    ensures Agrees(Kept(starts, ticks), log, now)
  {
    KeptIsRecent(starts, ticks, was, now);
    var kept := Kept(starts, ticks);
    assert forall i :: 0 <= i < |kept| ==> kept[i] in kept;
    forall lo | now - HOUR_MS <= lo ensures Above(kept, lo) == Above(log, lo) {
      KeptCountsTheSame(starts, ticks, was, now, lo);
    }
  }

  lemma YoungIsCounted(times: seq<int>, lo: int)
    requires forall t :: t in times ==> t > lo
    ensures Above(times, lo) == |times|
  {
    assert forall i :: 0 <= i < |times| ==> times[i] in times;
    AboveIsAtMostLength(times, lo);
  }

  // The decision taken on the pruned list is the decision on the full history, up to the time the
  // readings take; with one reading for all it is exactly that decision.
  lemma DecisionIsExact(starts: seq<int>, log: seq<int>, was: int, ticks: seq<int>, first: int, now: int)
    requires Agrees(starts, log, was) && was <= first
    requires |ticks| == |starts| && Readings(ticks, first, now)
    ensures Above(log, now - HOUR_MS) <= |Kept(starts, ticks)| <= Above(log, first - HOUR_MS)
  {
    var kept := Kept(starts, ticks);
    assert Above(log, now - HOUR_MS) == Above(starts, now - HOUR_MS);
    KeptCountsTheSame(starts, ticks, first, now, now - HOUR_MS);
    AboveIsAtMostLength(kept, now - HOUR_MS);
    assert Above(kept, first - HOUR_MS) == |kept| by {
      KeptIsRecent(starts, ticks, first, now);
      YoungIsCounted(kept, first - HOUR_MS);
    }
    KeptIsAtMost(starts, ticks, first - HOUR_MS);
  }

  lemma {:induction false} KeptIsAtMost(starts: seq<int>, ticks: seq<int>, lo: int)
    requires |ticks| == |starts|
    ensures Above(Kept(starts, ticks), lo) <= Above(starts, lo)
  {
    if starts != [] {
      var head := if ticks[0] - starts[0] < HOUR_MS then [starts[0]] else [];
      KeptIsAtMost(starts[1..], ticks[1..], lo);
      AboveOfConcat(head, Kept(starts[1..], ticks[1..]), lo);
      assert starts == [starts[0]] + starts[1..];
      AboveOfConcat([starts[0]], starts[1..], lo);
    }
  }

  lemma AppendAgrees(starts: seq<int>, log: seq<int>, now: int)
    requires Agrees(starts, log, now)
    ensures Agrees(starts + [now], log + [now], now)
  {
    forall lo | now - HOUR_MS <= lo ensures Above(starts + [now], lo) == Above(log + [now], lo) {
      AboveOfAppended(starts, now, lo);
      AboveOfAppended(log, now, lo);
    }
  }

  lemma AppendKeepsCap(log: seq<int>, now: int, max: nat)
    requires Capped(log, max) && Above(log, now - HOUR_MS) < max
    ensures Capped(log + [now], max)
  {
    AboveOfAppended(log, now, now - HOUR_MS);
    forall s ensures InHour(log + [now], s) <= max {
      assert InHour(log, s) <= max;
      WithinOfAppended(log, now, s - HOUR_MS, s);
      if s >= now {
        WithinIsAtMostAbove(log + [now], s - HOUR_MS, now - HOUR_MS, s);
      }
    }
  }

  // A start allowed by the check keeps the cap in every sliding hour, past and future.
  lemma StartKeepsCap(starts: seq<int>, log: seq<int>, was: int, ticks: seq<int>, now: int, max: nat)
    requires Agrees(starts, log, was) && Capped(log, max)
    requires |ticks| == |starts| && Readings(ticks, was, now) && |Kept(starts, ticks)| < max
    ensures Agrees(Kept(starts, ticks) + [now], log + [now], now) && Capped(log + [now], max)
  {
    KeptAgrees(starts, log, was, ticks, now);
    AppendAgrees(Kept(starts, ticks), log, now);
    AboveIsAtMostLength(Kept(starts, ticks), now - HOUR_MS);
    assert Above(log, now - HOUR_MS) == Above(Kept(starts, ticks), now - HOUR_MS);
    AppendKeepsCap(log, now, max);
  }

  // The pruned list is never longer than the cap, and stands for the full history.
  ghost predicate Faithful(starts: seq<int>, log: seq<int>, now: int, max: nat) {
    Agrees(starts, log, now) && Capped(log, max) && |starts| <= max
  }

  lemma LaterIsFaithful(starts: seq<int>, log: seq<int>, was: int, now: int, max: nat)
    requires Faithful(starts, log, was, max) && was <= now
    ensures Faithful(starts, log, now, max)
  {
  }

  // One turn of the cap loop keeps it so, whether the task starts or not.
  lemma TurnIsFaithful(starts: seq<int>, log: seq<int>, was: int, ticks: seq<int>, now: int, max: nat)
    requires Faithful(starts, log, was, max) && |ticks| == |starts| && Readings(ticks, was, now)
    ensures Faithful(Kept(starts, ticks), log, now, max)
    ensures |Kept(starts, ticks)| < max ==> Faithful(Kept(starts, ticks) + [now], log + [now], now, max)
  {
    KeptAgrees(starts, log, was, ticks, now);
    KeptAllOrFewer(starts, ticks);
    if |Kept(starts, ticks)| < max {
      StartKeepsCap(starts, log, was, ticks, now, max);
    }
  }

  // The cap over one hour bounds every longer window.
  lemma {:induction false} CapOverHours(log: seq<int>, max: nat, hours: nat, s: int)
    requires Capped(log, max)
    ensures Within(log, s - hours * HOUR_MS, s) <= hours * max
  {
    if hours == 0 {
      WithinOfNothing(log, s);
    } else {
      CapOverHours(log, max, hours - 1, s - HOUR_MS);
      assert s - HOUR_MS - (hours - 1) * HOUR_MS == s - hours * HOUR_MS;
      WithinSplits(log, s - hours * HOUR_MS, s - HOUR_MS, s);
      assert InHour(log, s) <= max;
      assert hours * max == (hours - 1) * max + max;
    }
  }

  lemma {:induction false} WithinOfNothing(log: seq<int>, s: int)
    ensures Within(log, s, s) == 0
  {
    if log != [] { WithinOfNothing(log[..|log| - 1], s); }
  }

  // -------------------------------------------------------------------------------- progress

  // One turn of the cap loop: its readings of the clock.
  datatype Turn = Turn(ticks: seq<int>, now: int)

  // The task at the head is checked once for each turn, and has to wait every time. All that is known of
  // the sleeps is that each advances the clock: a turn reads it later than the one before ended.
  predicate KeepsWaiting<T>(q: QueueState<T>, was: int, turns: seq<Turn>)
    requires q.phase.Checking?
    decreases turns
  {
    turns != [] ==>
      var t := turns[0];
      && |t.ticks| == |q.starts| && Readings(t.ticks, was + 1, t.now)
      && !Starts(q, t.ticks)
      && KeepsWaiting(Woken(Checked(q, t.ticks, t.now)), t.now, turns[1..])
  }

  lemma {:induction false} OldStartsAreDropped(starts: seq<int>, ticks: seq<int>)
    requires |ticks| == |starts|
    requires forall i :: 0 <= i < |starts| ==> ticks[i] - starts[i] >= HOUR_MS
    ensures Kept(starts, ticks) == []
  {
    if starts != [] {
      OldStartsAreDropped(starts[1..], ticks[1..]);
    }
  }

  // The cap loop ends: with a cap that lets anything through, it waits fewer times than there are
  // milliseconds until the newest start is an hour old, however early its sleeps wake.
  lemma {:induction false} CapLoopEnds<T>(q: QueueState<T>, was: int, newest: int, turns: seq<Turn>)
    requires q.phase.Checking? && q.limits.maxPerHour > 0 && NotAfter(q.starts, newest)
    requires KeepsWaiting(q, was, turns)
    ensures turns == [] || was + |turns| < newest + HOUR_MS
    decreases turns
  {
    if turns != [] {
      var t := turns[0];
      if was + 1 >= newest + HOUR_MS {
        OldStartsAreDropped(q.starts, t.ticks);
        assert false;
      }
      var r := Woken(Checked(q, t.ticks, t.now));
      KeptIsRecent(q.starts, t.ticks, was + 1, t.now);
      assert NotAfter(r.starts, newest) by {
        assert forall i :: 0 <= i < |r.starts| ==> r.starts[i] in r.starts;
      }
      CapLoopEnds(r, t.now, newest, turns[1..]);
    }
  }

  // It waits once at most if the sleep does not wake early: then the oldest start is an hour old.
  lemma OneFullSleepSuffices<T>(q: QueueState<T>, t: Turn, t': Turn)
    requires q.phase.Checking? && |q.starts| <= q.limits.maxPerHour && q.limits.maxPerHour > 0
    requires |t.ticks| == |q.starts| && !Starts(q, t.ticks)
    ensures var r := Checked(q, t.ticks, t.now);
            |t'.ticks| == |r.starts| && Readings(t'.ticks, t.now + r.phase.ms, t'.now) ==> Starts(Woken(r), t'.ticks)
  {
    var r := Checked(q, t.ticks, t.now);
    KeptAllOrFewer(q.starts, t.ticks);
    if |t'.ticks| == |r.starts| && Readings(t'.ticks, t.now + r.phase.ms, t'.now) {
      assert r.starts == q.starts && t'.ticks[0] - r.starts[0] >= HOUR_MS;
      KeptAllOrFewer(r.starts[1..], t'.ticks[1..]);
    }
  }

  lemma {:induction false} KeptAllOrFewer(starts: seq<int>, ticks: seq<int>)
    requires |ticks| == |starts|
    ensures |Kept(starts, ticks)| <= |starts|
    ensures |Kept(starts, ticks)| == |starts| ==> Kept(starts, ticks) == starts
  {
    if starts != [] {
      KeptAllOrFewer(starts[1..], ticks[1..]);
    }
  }

  lemma {:induction false} KeptOfAppended(starts: seq<int>, ticks: seq<int>, t: int, tick: int)
    requires |ticks| == |starts|
    ensures Kept(starts + [t], ticks + [tick]) == Kept(starts, ticks) + if tick - t < HOUR_MS then [t] else []
  {
    if starts != [] {
      assert (starts + [t])[1..] == starts[1..] + [t] && (ticks + [tick])[1..] == ticks[1..] + [tick];
      KeptOfAppended(starts[1..], ticks[1..], t, tick);
    }
  }

  method Filter(starts: seq<int>, ticks: seq<int>) returns (kept: seq<int>)
    requires |ticks| == |starts|
    ensures kept == Kept(starts, ticks)
  {
    kept := [];
    for i := 0 to |starts|
      invariant kept == Kept(starts[..i], ticks[..i])
    {
      KeptOfAppended(starts[..i], ticks[..i], starts[i], ticks[i]);
      assert starts[..i + 1] == starts[..i] + [starts[i]] && ticks[..i + 1] == ticks[..i] + [ticks[i]];
      if ticks[i] - starts[i] < HOUR_MS {
        kept := kept + [starts[i]];
      }
    }
    assert starts[..|starts|] == starts && ticks[..|starts|] == ticks;
  }

  // What was enqueued is what was started, the task at the head, and what waits, in this order.
  ghost predicate InOrder<T>(enqueued: seq<T>, launched: seq<T>, phase: Phase<T>, waiting: seq<T>) {
    && enqueued == launched + (if phase.Idle? || phase.Running? then [] else [phase.task]) + waiting
    && (phase.Running? ==> launched != [] && launched[|launched| - 1] == phase.task)
  }

  lemma TurnKeepsOrder<T>(enqueued: seq<T>, launched: seq<T>, waiting: seq<T>, phase: Phase<T>)
    requires waiting != [] && InOrder(enqueued, launched, Idle, waiting)
    requires (phase.Checking? || phase.Spacing?) && phase.task == waiting[0]
    ensures InOrder(enqueued, launched, phase, waiting[1..])
  {
  }

  lemma StartKeepsOrder<T>(enqueued: seq<T>, launched: seq<T>, phase: Phase<T>, waiting: seq<T>)
    requires phase.Checking? && InOrder(enqueued, launched, phase, waiting)
    ensures InOrder(enqueued, launched + [phase.task], Running(phase.task), waiting)
  {
  }

  class SendQueue<T> {
    const limits: Limits
    var waiting: seq<T>
    var phase: Phase<T>
    var pending: nat
    var settling: nat
    var lastStart: Option<int>
    var starts: seq<int>

    // Every task enqueued and every task started, in order; every start time; the last clock reading;
    // and whether the last spacing sleep, if there was one, did not wake early.
    ghost var enqueued: seq<T>
    ghost var launched: seq<T>
    ghost var log: seq<int>
    ghost var clock: int
    ghost var rested: bool

    // The last draw of the jitter, and when the spacing sleep began.
    ghost var draw: real
    ghost var asleep: int

    ghost function View(): QueueState<T> reads this {
      QueueState(limits, waiting, phase, pending, settling, lastStart, starts)
    }

    ghost predicate Valid() reads this {
      && Faithful(starts, log, clock, limits.maxPerHour)
      && |log| == |launched|
      && lastStart == (if log == [] then None else Some(log[|log| - 1]))
      && pending == |waiting| + settling + (if phase.Idle? then 0 else 1)
      && InOrder(enqueued, launched, phase, waiting)
      && (phase.Spacing? ==> log != [] && asleep + phase.ms == log[|log| - 1] + phase.gap)
      && ((phase.Spacing? || phase.Checking? || phase.Waiting?) && log != [] ==>
            phase.gap == Gap(limits, draw))
      && ((phase.Checking? || phase.Waiting?) && rested && log != [] ==> clock >= log[|log| - 1] + phase.gap)
    }

    constructor (limits: Limits, ghost now: int)
      ensures Valid() && View() == Empty(limits)
      ensures enqueued == [] && launched == [] && log == [] && clock == now
    {
      this.limits := limits;
      waiting, phase, pending, settling, lastStart, starts := [], Idle, 0, 0, None, [];
      enqueued, launched, log, clock, rested, draw, asleep := [], [], [], now, true, 0.0, now;
    }

    method Enqueue(task: T)
      requires Valid()
      modifies this
      ensures Valid() && View() == Enqueued(old(View()), task)
      ensures enqueued == old(enqueued) + [task] && launched == old(launched) && log == old(log) && clock == old(clock)
    {
      pending := pending + 1;
      waiting := waiting + [task];
      enqueued := enqueued + [task];
    }

    method Begin(random: real, now: int)
      requires Valid() && phase.Idle? && waiting != [] && clock <= now
      modifies this
      ensures Valid() && View() == Begun(old(View()), random, now)
      ensures enqueued == old(enqueued) && launched == old(launched) && log == old(log) && clock == now
      ensures draw == random && asleep == now && phase.task == old(waiting)[0]
    {
      LaterIsFaithful(starts, log, clock, now, limits.maxPerHour);
      draw, asleep, clock := random, now, now;
      var task := waiting[0];
      var turn := Checking(task, 0);
      if lastStart.Some? {
        var gap := limits.spacingMs + (random * limits.jitterMs as real).Floor;
        var wait := lastStart.value + gap - now;
        turn := if wait > 0 then Spacing(task, gap, wait) else Checking(task, gap);
      }
      TurnKeepsOrder(enqueued, launched, waiting, turn);
      waiting := waiting[1..];
      phase := turn;
      rested := true;
    }

    // A sleep of the task at the head ended; a spacing sleep may have ended early. One that lasted its `ms`
    // did not.
    method Wake(ghost now: int)
      requires Valid() && (phase.Spacing? || phase.Waiting?) && clock <= now
      modifies this
      ensures Valid() && View() == Woken(old(View()))
      ensures enqueued == old(enqueued) && launched == old(launched) && log == old(log) && clock == now
      ensures old(phase).Spacing? ==> (rested <==> now >= log[|log| - 1] + old(phase).gap)
      ensures old(phase).Waiting? ==> rested == old(rested)
      ensures old(phase).Spacing? && now >= asleep + old(phase).ms ==> rested
      ensures draw == old(draw) && asleep == old(asleep)
    {
      if phase.Spacing? {
        rested := now >= log[|log| - 1] + phase.gap;
      }
      clock := now;
      phase := Checking(phase.task, phase.gap);
    }

    // One turn of the cap loop. A start is the next task in order, keeps every sliding hour at the cap,
    // and comes at least the spacing and the drawn jitter after the start before it unless the spacing sleep
    // woke early.
    method Check(ticks: seq<int>, now: int) returns (started: bool)
      requires Valid() && phase.Checking?
      requires |ticks| == |starts| && Readings(ticks, clock, now)
      modifies this
      ensures Valid() && View() == Checked(old(View()), ticks, now)
      ensures started == Starts(old(View()), ticks)
      ensures enqueued == old(enqueued) && clock == now
      ensures launched == if started then old(launched) + [old(phase).task] else old(launched)
      ensures log == if started then old(log) + [now] else old(log)
      ensures started && old(rested) && old(log) != [] ==>
        now >= old(log)[|old(log)| - 1] + Gap(limits, old(draw))
      ensures !started ==> rested == old(rested) && draw == old(draw)
    {
      TurnIsFaithful(starts, log, clock, ticks, now, limits.maxPerHour);
      starts := Filter(starts, ticks);
      clock := now;
      if |starts| < limits.maxPerHour {
        StartKeepsOrder(enqueued, launched, phase, waiting);
        Launch(now);
        return true;
      }
      var head := if starts == [] then 0 else starts[0];
      phase := Waiting(phase.task, phase.gap, Max(1, head + HOUR_MS - now));
      started := false;
    }

    method Launch(now: int)
      requires phase.Checking?
      modifies this`lastStart, this`starts, this`log, this`launched, this`phase
      ensures lastStart == Some(now) && phase == Running(old(phase).task)
      ensures starts == old(starts) + [now] && log == old(log) + [now]
      ensures launched == old(launched) + [old(phase).task]
    {
      lastStart := Some(now);
      starts := starts + [now];
      log := log + [now];
      launched := launched + [phase.task];
      phase := Running(phase.task);
    }

    method Settle()
      requires Valid() && phase.Running?
      modifies this
      ensures Valid() && View() == Settled(old(View()))
      ensures enqueued == old(enqueued) && launched == old(launched) && log == old(log) && clock == old(clock)
    {
      phase := Idle;
      settling := settling + 1;
    }

    // The size counts a task until the handlers of its promise run, a little after it settled.
    method Lower()
      requires Valid() && settling > 0
      modifies this
      ensures Valid() && View() == Lowered(old(View()))
      ensures enqueued == old(enqueued) && launched == old(launched) && log == old(log) && clock == old(clock)
    {
      pending := pending - 1;
      settling := settling - 1;
    }

    // What the queue promises of the cap loop of this object.
    lemma TaskStarts(turns: seq<Turn>)
      requires Valid() && phase.Checking? && limits.maxPerHour > 0 && KeepsWaiting(View(), clock, turns)
      ensures |turns| < HOUR_MS
    {
      CapLoopEnds(View(), clock, clock, turns);
    }
  }
}
