/**
The send path over many processes. Each loads the ledger file the one before left, however it ended; writes
of the file run one at a time, and each takes its snapshot when its turn comes. A send is confirmed when the
write it asked for has succeeded.

All processes run with the shipped limits. Each restart begins the hourly cap anew, so it adds to what the
ledger has to hold for a day. Nine restarts in any day are never too many; ten can be.
*/
module Restarts {
  import opened Options
  import opened Clock
  import opened InsertionMap
  import L = SendDedupe
  import Q = SendQueue
  import P = SendPath

  // How many restarts within a day the ledger has room for.
  const MAX_RESTARTS := 9

  type Entry = Item<L.Saved>

  // A write: the entry whose send asked for it, its snapshot, and whether its rename took place.
  datatype Write = NoWrite | Writing(entry: Entry, snapshot: L.Table, applied: bool)

  // `confirmed`: entries whose own write succeeded, in any process; `before`: those of earlier processes.
  // `restarts`: when each of them was, over the whole life.
  datatype Life = Life(
    path: P.Path,
    file: L.Table,
    chain: seq<Entry>,
    write: Write,
    confirmed: set<Entry>,
    before: set<Entry>,
    restarts: seq<int>)

  datatype Event = Work(e: P.Event) | StartWrite | Rename | EndWrite | Restart

  datatype Timed = Timed(e: Event, at: int)

  function Initial(now: int): Life {
    Life(P.Initial(P.SHIPPED, [], now), [], [], NoWrite, {}, {}, [])
  }

  // The write a send waits for is still to come, or under way.
  predicate AwaitsWrite(l: Life, key: string) {
    || (exists e :: e in l.chain && e.key == key)
    || (l.write.Writing? && l.write.entry.key == key)
  }

  predicate CanWork(l: Life, e: P.Event, now: int) {
    P.Enabled(l.path, e, now) && (e.Resolve? ==> !AwaitsWrite(l, e.key))
  }

  function AfterWork(l: Life, e: P.Event, now: int): Life
    requires CanWork(l, e, now)
  {
    var l1 := l.(path := P.Step(l.path, e, now));
    if e.Save? then l1.(chain := l.chain + [Item(e.key, L.Saved(l.path.inflight[e.key].msgId, now + DAY_MS))]) else l1
  }

  // The next process, with the ledger it loads.
  function AfterRestart(l: Life, now: int): Life {
    Life(P.Initial(P.SHIPPED, L.Loaded(L.Snapshot(l.file), now), now), l.file, [], NoWrite, l.confirmed, l.confirmed,
         l.restarts + [now])
  }

  function Step(l: Life, e: Event, now: int): Life {
    if now < l.path.clock then l
    else
      match e
      case Work(we) => if CanWork(l, we, now) then AfterWork(l, we, now) else l
      case StartWrite =>
        if l.write.NoWrite? && l.chain != []
        then l.(chain := l.chain[1..], write := Writing(l.chain[0], l.path.ledger, false)) else l
      case Rename =>
        if l.write.Writing? then l.(file := l.write.snapshot, write := l.write.(applied := true)) else l
      case EndWrite =>
        if l.write.Writing?
        then l.(write := NoWrite, confirmed := if l.write.applied then l.confirmed + {l.write.entry} else l.confirmed)
        else l
      case Restart => AfterRestart(l, now)
  }

  function Run(l: Life, events: seq<Timed>): Life
    decreases events
  {
    if events == [] then l else Run(Step(l, events[0].e, events[0].at), events[1..])
  }

  // At most `n` restarts in the day before the start of any process.
  ghost predicate FewRestarts(n: nat, l: Life, events: seq<Timed>)
    decreases events
  {
    && Q.Above(l.restarts, l.path.since - DAY_MS) <= n
    && (events != [] ==> FewRestarts(n, Step(l, events[0].e, events[0].at), events[1..]))
  }

  // Every process has loaded a ledger that leaves room for its sends.
  ghost predicate HaveRoom(l: Life, events: seq<Timed>)
    decreases events
  {
    && P.HasRoom(P.SHIPPED, l.path.loaded, l.path.since)
    && (events != [] ==> HaveRoom(Step(l, events[0].e, events[0].at), events[1..]))
  }

  // ------------------------------------------------------------------------------ room for restarts

  // Hours begun in a span of time.
  function Hours(t: int): int {
    (t + HOUR_MS - 1) / HOUR_MS
  }

  // What can be written in a span of time with `m` restarts in it: each of them may begin one more hour, and
  // each process may have two sends in completion when the span begins.
  function Allowance(m: nat, t: int): int {
    if m == 0 then 0 else P.MAX_PER_HOUR * (Hours(t) + m - 1) + 2 * m
  }

  // What a ledger loaded at `since` still holds at any moment of the day after, by the restarts of the day
  // before that moment.
  ghost predicate Budget(loaded: L.Table, since: int, restarts: seq<int>) {
    forall at :: since <= at < since + DAY_MS ==>
      L.LiveCount(loaded, at) <= Allowance(Q.Above(restarts, at - DAY_MS), since + DAY_MS - at)
  }

  lemma BudgetIsRoom(loaded: L.Table, since: int, restarts: seq<int>)
    requires Budget(loaded, since, restarts) && Q.Above(restarts, since - DAY_MS) <= MAX_RESTARTS
    ensures P.HasRoom(P.SHIPPED, loaded, since)
  {
    forall k: nat | k < 24 ensures P.LiveAfter(loaded, since, k) + P.MAX_PER_HOUR * (k + 1) <= P.MAX_KEYS {
      var at := since + k * HOUR_MS;
      Q.AboveShrinks(restarts, since - DAY_MS, at - DAY_MS);
      assert L.LiveCount(loaded, at) <= Allowance(Q.Above(restarts, at - DAY_MS), since + DAY_MS - at);
      assert since + DAY_MS - at == (24 - k) * HOUR_MS && Hours((24 - k) * HOUR_MS) == 24 - k;
    }
  }

  // From the start of the process on, a table has no more live keys than were loaded or written in the day
  // before.
  ghost predicate Bounded(m: L.Table, loaded: L.Table, sets: seq<int>, since: int) {
    forall at :: since <= at ==> L.LiveCount(m, at) <= L.LiveCount(loaded, at) + Q.Above(sets, at - DAY_MS)
  }

  // What the last `t` milliseconds can have added to the ledger.
  lemma LastWrites(p: P.Path, t: int, now: int)
    requires P.RateInv(p) && p.clock <= now && p.config == P.SHIPPED && t > 0
    ensures Q.Above(p.setTimes, now - t) <= P.MAX_PER_HOUR * Hours(t) + 2
  {
    var lo, whole := now - t, now - Hours(t) * HOUR_MS;
    Q.AboveShrinks(p.log, whole, lo);
    Q.WithinIsAtMostAbove(p.log, whole, whole, now);
    Q.CapOverHours(p.log, P.MAX_PER_HOUR, Hours(t), now);
    assert Q.Above(p.setTimes, lo) <= Q.Above(P.Times(p.posts), lo) + 1;
    assert Q.Above(P.Times(p.posts), lo) <= Q.Above(p.log, lo) + 1;
  }

  // A process has begun one hour more than it has completed.
  lemma AllWrites(p: P.Path, now: int)
    requires P.RateInv(p) && p.clock <= now && p.config == P.SHIPPED
    ensures |p.setTimes| <= P.MAX_PER_HOUR * ((now - p.since) / HOUR_MS + 1)
  {
    P.FirstHours(p.log, P.MAX_PER_HOUR, p.since, (now - p.since) / HOUR_MS + 1, now);
  }

  lemma HoursAdd(t: int, d: int)
    requires t > 0 && d >= 0
    ensures Hours(t) + d / HOUR_MS <= Hours(t + d)
  {
  }

  // One restart more pays for the hours the process has begun since it started.
  lemma AllowanceGrows(m: nat, t: int, d: int)
    requires t > 0 && d >= 0
    ensures Allowance(m, t) + P.MAX_PER_HOUR * (d / HOUR_MS + 1) <= Allowance(m + 1, t + d)
    ensures P.MAX_PER_HOUR * Hours(t) + 2 <= Allowance(m + 1, t)
  {
    HoursAdd(t, d);
    assert Hours(d + 1) == d / HOUR_MS + 1 && Hours(d + 1) <= Hours(t + d);
  }

  // One moment of the day after a restart at `now`: by then the loaded keys have expired, or the process had
  // not been up for a day.
  lemma MomentWithoutLoaded(p: P.Path, m: nat, now: int, at: int)
    requires P.RateInv(p) && p.clock <= now && p.config == P.SHIPPED
    requires now <= at < now + DAY_MS
    ensures Q.Above(p.setTimes, at - DAY_MS) <= Allowance(m + 1, now + DAY_MS - at)
  {
    LastWrites(p, now + DAY_MS - at, now);
    AllowanceGrows(m, now + DAY_MS - at, 0);
  }

  lemma MomentOfFirstDay(p: P.Path, m: nat, live: int, now: int, at: int)
    requires P.RateInv(p) && p.clock <= now && p.config == P.SHIPPED && now <= at < p.since + DAY_MS
    requires live <= Allowance(m, p.since + DAY_MS - at)
    ensures live + Q.Above(p.setTimes, at - DAY_MS) <= Allowance(m + 1, now + DAY_MS - at)
  {
    AllWrites(p, now);
    Q.AboveIsAtMostLength(p.setTimes, at - DAY_MS);
    AllowanceGrows(m, p.since + DAY_MS - at, now - p.since);
  }

  lemma MomentOfBudget(p: P.Path, file: L.Table, restarts: seq<int>, now: int, at: int)
    requires P.RateInv(p) && p.clock <= now && p.config == P.SHIPPED && L.Ordered(p.loaded, p.since, DAY_MS)
    requires Bounded(file, p.loaded, p.setTimes, p.since) && Budget(p.loaded, p.since, restarts)
    requires now <= at < now + DAY_MS
    ensures L.LiveCount(file, at) <= Allowance(Q.Above(restarts, at - DAY_MS) + 1, now + DAY_MS - at)
  {
    var m := Q.Above(restarts, at - DAY_MS);
    assert L.LiveCount(file, at) <= L.LiveCount(p.loaded, at) + Q.Above(p.setTimes, at - DAY_MS);
    if at >= p.since + DAY_MS {
      L.NoneLive(p.loaded, at);
      MomentWithoutLoaded(p, m, now, at);
    } else {
      assert L.LiveCount(p.loaded, at) <= Allowance(m, p.since + DAY_MS - at);
      MomentOfFirstDay(p, m, L.LiveCount(p.loaded, at), now, at);
    }
  }

  lemma NextBudget(l: Life, now: int)
    requires P.RateInv(l.path) && l.path.clock <= now && l.path.config == P.SHIPPED
    requires L.Ordered(l.path.loaded, l.path.since, DAY_MS) && L.Ordered(l.file, l.path.clock, DAY_MS)
    requires Bounded(l.file, l.path.loaded, l.path.setTimes, l.path.since)
    requires Budget(l.path.loaded, l.path.since, l.restarts)
    ensures var r := AfterRestart(l, now); Budget(r.path.loaded, now, r.restarts)
  {
    var r := AfterRestart(l, now);
    L.LoadOfLive(l.file, now);
    forall at | now <= at < now + DAY_MS
      ensures L.LiveCount(r.path.loaded, at) <= Allowance(Q.Above(r.restarts, at - DAY_MS), now + DAY_MS - at)
    {
      MomentOfBudget(l.path, l.file, l.restarts, now, at);
      L.LiveOnlyIsFewer(l.file, now, at);
      Q.AboveOfAppended(l.restarts, now, at - DAY_MS);
    }
  }

  // ------------------------------------------------------------------------------------ invariant

  ghost predicate Kept(e: Entry, m: L.Table, now: int) {
    L.Live(e, now) ==> e in m
  }

  ghost predicate PathInv(p: P.Path, restarts: seq<int>) {
    P.Inv(p) && p.config == P.SHIPPED && Budget(p.loaded, p.since, restarts)
  }

  ghost predicate TableInv(m: L.Table, p: P.Path) {
    L.Ordered(m, p.clock, DAY_MS) && Bounded(m, p.loaded, p.setTimes, p.since)
  }

  ghost predicate KeptInv(l: Life) {
    var now := l.path.clock;
    && (forall e :: e in l.confirmed ==> Kept(e, l.file, now) && Kept(e, l.path.ledger, now))
    && (forall e :: e in l.chain ==> Kept(e, l.path.ledger, now))
    && (l.write.Writing? ==>
          && (forall e :: e in l.confirmed ==> Kept(e, l.write.snapshot, now))
          && Kept(l.write.entry, l.write.snapshot, now) && Kept(l.write.entry, l.path.ledger, now)
          && (l.write.applied ==> l.file == l.write.snapshot))
    && (forall e :: e in l.before ==> Kept(e, l.path.loaded, l.path.since))
  }

  // What holds of every life, however often it restarts.
  ghost predicate BaseInv(l: Life) {
    && PathInv(l.path, l.restarts)
    && TableInv(l.file, l.path) && (l.write.Writing? ==> TableInv(l.write.snapshot, l.path))
  }

  // And what holds as long as every process has room.
  ghost predicate Inv(l: Life) {
    BaseInv(l) && P.LoadedInv(l.path) && KeptInv(l)
  }

  ghost predicate Roomy(l: Life) {
    P.HasRoom(P.SHIPPED, l.path.loaded, l.path.since)
  }

  lemma WorkKeepsTableInv(m: L.Table, p: P.Path, e: P.Event, now: int)
    requires TableInv(m, p) && P.Enabled(p, e, now)
    ensures TableInv(m, P.Step(p, e, now))
  {
    var r := P.Step(p, e, now);
    forall at | p.since <= at
      ensures L.LiveCount(m, at) <= L.LiveCount(r.loaded, at) + Q.Above(r.setTimes, at - DAY_MS)
    {
      assert L.LiveCount(m, at) <= L.LiveCount(p.loaded, at) + Q.Above(p.setTimes, at - DAY_MS);
      if e.Save? { Q.AboveOfAppended(p.setTimes, now, at - DAY_MS); }
    }
  }

  lemma WorkKeepsPathInv(p: P.Path, restarts: seq<int>, e: P.Event, now: int)
    requires PathInv(p, restarts)
    ensures PathInv(P.Step(p, e, now), restarts)
  {
    P.StepKeepsInv(p, e, now);
    P.StepKeepsStart(p, e, now);
  }

  lemma WorkKeepsBaseInv(l: Life, e: P.Event, now: int)
    requires BaseInv(l) && CanWork(l, e, now)
    ensures BaseInv(AfterWork(l, e, now))
  {
    WorkKeepsPathInv(l.path, l.restarts, e, now);
    WorkKeepsTableInv(l.file, l.path, e, now);
    if l.write.Writing? { WorkKeepsTableInv(l.write.snapshot, l.path, e, now); }
  }

  // Work of the process leaves files and confirmed sends alone, and forgets nothing live.
  lemma WorkKeepsKeptInv(l: Life, r: Life, now: int, asked: seq<Entry>)
    requires KeptInv(l) && l.path.clock <= now
    requires r == l.(path := r.path, chain := l.chain + asked) && r.path.clock == now
    requires r.path.loaded == l.path.loaded && r.path.since == l.path.since
    requires forall x :: x in l.path.ledger && L.Live(x, now) ==> x in r.path.ledger
    requires forall x :: x in asked ==> x in r.path.ledger
    ensures KeptInv(r)
  {
  }

  lemma WorkForgetsNothing(l: Life, e: P.Event, now: int)
    requires P.Inv(l.path) && P.HasRoom(l.path.config, l.path.loaded, l.path.since)
    requires KeptInv(l) && CanWork(l, e, now)
    ensures KeptInv(AfterWork(l, e, now))
  {
    var r := AfterWork(l, e, now);
    P.StepKeepsStart(l.path, e, now);
    forall x | x in l.path.ledger && L.Live(x, now) ensures x in r.path.ledger {
      P.StepKeepsLive(l.path, e, now, x);
    }
    if e.Save? {
      P.SavedIsThere(l.path, e.key, now);
      WorkKeepsKeptInv(l, r, now, [Item(e.key, L.Saved(l.path.inflight[e.key].msgId, now + DAY_MS))]);
    } else {
      assert l.chain + [] == l.chain;
      WorkKeepsKeptInv(l, r, now, []);
    }
  }

  lemma RestartKeepsBaseInv(l: Life, now: int)
    requires BaseInv(l) && l.path.clock <= now
    ensures BaseInv(AfterRestart(l, now))
  {
    var r := AfterRestart(l, now);
    L.LoadOfLive(l.file, now);
    L.LiveOnlyKeepsOrder(l.file, now, DAY_MS);
    NextBudget(l, now);
    P.InitialInv(P.SHIPPED, r.path.ledger, now);
    forall at | now <= at ensures L.LiveCount(l.file, at) <= L.LiveCount(r.path.loaded, at) + Q.Above([], at - DAY_MS) {
      L.LiveOnlyKeepsLive(l.file, now, at);
    }
  }

  lemma RestartKeepsKeptInv(l: Life, now: int)
    requires KeptInv(l) && Distinct(l.file) && l.path.clock <= now
    ensures KeptInv(AfterRestart(l, now)) && P.LoadedInv(AfterRestart(l, now).path)
  {
    L.LoadOfLive(l.file, now);
    L.LiveOnlyMembers(l.file, now);
  }

  lemma StepKeepsBaseInv(l: Life, e: Event, now: int)
    requires BaseInv(l)
    ensures BaseInv(Step(l, e, now))
  {
    if l.path.clock <= now {
      match e
      case Work(we) => if CanWork(l, we, now) { WorkKeepsBaseInv(l, we, now); }
      case StartWrite =>
      case Rename =>
      case EndWrite =>
      case Restart => RestartKeepsBaseInv(l, now);
    }
  }

  lemma StepKeepsKeptInv(l: Life, e: Event, now: int)
    requires Inv(l) && Roomy(l)
    ensures KeptInv(Step(l, e, now)) && P.LoadedInv(Step(l, e, now).path)
  {
    if l.path.clock <= now {
      match e
      case Work(we) =>
        if CanWork(l, we, now) {
          WorkForgetsNothing(l, we, now);
          P.StepKeepsLoadedInv(l.path, we, now);
        }
      case StartWrite => if l.chain != [] { assert l.chain[0] in l.chain; }
      case Rename =>
      case EndWrite =>
      case Restart => RestartKeepsKeptInv(l, now);
    }
  }

  lemma {:induction false} RunKeepsInv(l: Life, events: seq<Timed>)
    requires Inv(l) && HaveRoom(l, events)
    ensures Inv(Run(l, events))
    decreases events
  {
    if events != [] {
      StepKeepsBaseInv(l, events[0].e, events[0].at);
      StepKeepsKeptInv(l, events[0].e, events[0].at);
      RunKeepsInv(Step(l, events[0].e, events[0].at), events[1..]);
    }
  }

  lemma InitialInv(now: int)
    ensures Inv(Initial(now))
  {
    var l := Initial(now);
    P.InitialInv(P.SHIPPED, [], now);
    assert forall at :: L.LiveCount([], at) == 0;
    assert Budget([], now, []);
    assert TableInv(l.file, l.path);
  }

  // What a life does with the file. Every send that enters the ledger asks for a write of it, and resolves only
  // when that write has ended; writes run one at a time, in the order they were asked for, on the ledger as it
  // is when they begin; a rename puts the snapshot in place; and a write that renamed confirms the send that
  // asked for it, and no other.
  lemma WritesDecide(l: Life, key: string, now: int)
    requires l.path.clock <= now
    ensures P.AboutToSave(l.path, key, now) ==>
              Step(l, Work(P.Save(key)), now).chain ==
                l.chain + [Item(key, L.Saved(l.path.inflight[key].msgId, now + DAY_MS))]
    ensures AwaitsWrite(l, key) ==> Step(l, Work(P.Resolve(key)), now) == l
    ensures l.write.NoWrite? && l.chain != [] ==>
              Step(l, StartWrite, now) == l.(chain := l.chain[1..], write := Writing(l.chain[0], l.path.ledger, false))
    ensures l.write.Writing? ==>
      && Step(l, Rename, now) == l.(file := l.write.snapshot, write := l.write.(applied := true))
      && Step(l, EndWrite, now).write.NoWrite? && Step(l, EndWrite, now).file == l.file
      && Step(l, EndWrite, now).confirmed == l.confirmed + if l.write.applied then {l.write.entry} else {}
    ensures var r := Step(l, Restart, now);
            && r.file == l.file && r.confirmed == l.confirmed && r.before == l.confirmed
            && r.chain == [] && r.write.NoWrite? && r.restarts == l.restarts + [now]
            && r.path == P.Initial(P.SHIPPED, L.Loaded(L.Snapshot(l.file), now), now)
  {
  }

  // ---------------------------------------------------------------------------------- main results

  // With at most nine restarts in any day, over however long a life, every process starts with a ledger that
  // leaves room.
  lemma {:induction false} FewRestartsLeaveRoom(n: nat, l: Life, events: seq<Timed>)
    requires BaseInv(l) && FewRestarts(n, l, events) && n <= MAX_RESTARTS
    ensures HaveRoom(l, events)
    decreases events
  {
    BudgetIsRoom(l.path.loaded, l.path.since, l.restarts);
    if events != [] {
      StepKeepsBaseInv(l, events[0].e, events[0].at);
      FewRestartsLeaveRoom(n, Step(l, events[0].e, events[0].at), events[1..]);
    }
  }

  lemma EveryProcessHasRoom(n: nat, now0: int, events: seq<Timed>)
    requires FewRestarts(n, Initial(now0), events) && n <= MAX_RESTARTS
    ensures HaveRoom(Initial(now0), events)
  {
    InitialInv(now0);
    FewRestartsLeaveRoom(n, Initial(now0), events);
  }

  // Whatever crashes, failed writes and restarts come in between, as long as every process has room, a send
  // whose own write succeeded is answered with its id until its day is over.
  lemma ConfirmedIsAnswered(now0: int, events: seq<Timed>, e: Entry, now: int)
    requires HaveRoom(Initial(now0), events)
    requires var l := Run(Initial(now0), events);
             e in l.confirmed && l.path.clock <= now && L.Live(e, now)
    ensures P.ReplyTo(Run(Initial(now0), events).path, e.key, now) == P.Done(e.value.msgId)
  {
    InitialInv(now0);
    RunKeepsInv(Initial(now0), events);
    var l := Run(Initial(now0), events);
    assert Kept(e, l.path.ledger, l.path.clock);
    P.LookupKeepsLive(l.path.ledger, e.key, e, now);
  }

  // No process posts a message again whose send an earlier process confirmed, before its day is over; and
  // within one process posts with one key are a day apart.
  lemma ConfirmedIsNotPostedAgain(now0: int, events: seq<Timed>)
    requires HaveRoom(Initial(now0), events)
    ensures var l := Run(Initial(now0), events);
            && (forall e, i :: e in l.before && 0 <= i < |l.path.posts| && l.path.posts[i].key == e.key ==>
                  e.value.expiresAt <= l.path.posts[i].at)
            && P.OncePerDay(l.path.posts)
  {
    InitialInv(now0);
    RunKeepsInv(Initial(now0), events);
    BeforeIsNotPosted(Run(Initial(now0), events));
  }

  lemma BeforeIsNotPosted(l: Life)
    requires P.RateInv(l.path) && P.LoadedInv(l.path)
    requires forall e :: e in l.before ==> Kept(e, l.path.loaded, l.path.since)
    ensures forall e, i :: e in l.before && 0 <= i < |l.path.posts| && l.path.posts[i].key == e.key ==>
              e.value.expiresAt <= l.path.posts[i].at
  {
    forall e, i | e in l.before && 0 <= i < |l.path.posts| && l.path.posts[i].key == e.key
      ensures e.value.expiresAt <= l.path.posts[i].at
    {
      assert P.Times(l.path.posts)[i] >= l.path.since;
    }
  }
}
