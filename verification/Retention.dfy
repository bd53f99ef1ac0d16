/**
Which loaded ledgers the shipped limits leave room for, exactly: those that have, in each of the first 24
hours, room for the loaded keys still within their day and for all the sends the cap allows until then. From
any other ledger some run forgets a key within its day: the one that sends a burst at the start of each hour.
*/
module Retention {
  import opened Options
  import opened Clock
  import opened InsertionMap
  import L = SendDedupe
  import Q = SendQueue
  import P = SendPath

  // A write that forgets no key within its day.
  ghost predicate WriteIsSafe(ledger: L.Table, now0: int, events: seq<P.Timed>, key: string, now: int) {
    var p := P.Run(P.Initial(P.SHIPPED, ledger, now0), events);
    P.AboutToSave(p, key, now) ==> L.KeepsLiveEntries(p.ledger, P.Step(p, P.Save(key), now).ledger, key, now)
  }

  // No run from this ledger forgets a key within its day.
  ghost predicate Retains(ledger: L.Table, now0: int) {
    forall events, key, now :: WriteIsSafe(ledger, now0, events, key, now)
  }

  // ------------------------------------------------------------------------------------ the keys

  function Longest(m: L.Table): nat {
    if m == [] then 0
    else if Longest(m[1..]) < |m[0].key| then |m[0].key| else Longest(m[1..])
  }

  lemma {:induction false} KeysAreNoLonger(m: L.Table)
    ensures forall e :: e in m ==> |e.key| <= Longest(m)
  {
    if m != [] {
      KeysAreNoLonger(m[1..]);
      assert forall e :: e in m ==> e == m[0] || e in m[1..];
    }
  }

  // Keys of different lengths that the ledger does not have.
  function NewKey(m: L.Table, i: nat): string {
    seq(Longest(m) + i + 1, _ => 'k')
  }

  lemma NewKeyIsNotThere(m: L.Table, i: nat)
    ensures Find(m, NewKey(m, i)).None?
  {
    KeysAreNoLonger(m);
    assert forall j :: 0 <= j < |m| ==> m[j] in m;
  }

  // ------------------------------------------------------------------------------------- the run

  // 300 sends at the start of each hour.
  function At(now0: int, i: nat): int {
    now0 + (i / P.MAX_PER_HOUR) * HOUR_MS
  }

  function Starts(now0: int, i: nat): seq<int> {
    seq(i, k requires 0 <= k < i => At(now0, k))
  }

  // The keys from number `i` on are still new.
  ghost predicate Fresh(m: L.Table, ledger: L.Table, i: nat) {
    forall j: nat :: i <= j ==> Find(m, NewKey(ledger, j)).None?
  }

  // `i` keys have been added to those still within their day, and none of these forgotten.
  ghost predicate Counted(m: L.Table, ledger: L.Table, first: int, last: int, i: nat) {
    forall at :: first <= at < last ==> L.LiveCount(m, at) == L.LiveCount(ledger, at) + i
  }

  // After `i` sends, each of them done before the next began, and nothing live forgotten on the way.
  ghost predicate Done(p: P.Path, ledger: L.Table, now0: int, i: nat) {
    && P.Inv(p) && p.config == P.SHIPPED
    && p.clock <= At(now0, i) && p.inflight == map[]
    && p.queue.phase.Idle? && p.queue.waiting == [] && p.log == Starts(now0, i)
    && Fresh(p.ledger, ledger, i)
    && Counted(p.ledger, ledger, At(now0, i), now0 + DAY_MS, i)
  }

  // No start is held up: the starts of the hours before are an hour old.
  lemma RoomForAStart(now0: int, i: nat)
    ensures Q.Above(Starts(now0, i), At(now0, i) - HOUR_MS) < P.MAX_PER_HOUR
  {
    var n := i - i % P.MAX_PER_HOUR;
    var log := Starts(now0, i);
    assert log == log[..n] + log[n..];
    forall k | 0 <= k < n ensures log[..n][k] <= At(now0, i) - HOUR_MS {
      assert k / P.MAX_PER_HOUR + 1 <= i / P.MAX_PER_HOUR;
    }
    Q.AboveOfConcat(log[..n], log[n..], At(now0, i) - HOUR_MS);
    Q.AboveIsAtMostLength(log[..n], At(now0, i) - HOUR_MS);
    Q.AboveIsAtMostLength(log[n..], At(now0, i) - HOUR_MS);
  }

  lemma StartIsAllowed(p: P.Path, now0: int, i: nat)
    requires p.config == P.SHIPPED && p.queue.limits == P.SHIPPED.limits && p.clock == At(now0, i)
    requires p.log == Starts(now0, i) && Q.Agrees(p.queue.starts, p.log, p.clock)
    ensures |Q.Kept(p.queue.starts, Ticks(p, now0, i))| < P.MAX_PER_HOUR
  {
    RoomForAStart(now0, i);
    Q.DecisionIsExact(p.queue.starts, p.log, p.clock, Ticks(p, now0, i), At(now0, i), At(now0, i));
  }

  function Ticks(p: P.Path, now0: int, i: nat): seq<int> {
    seq(|p.queue.starts|, _ => At(now0, i))
  }

  // The send is accepted and gets its turn; whatever spacing it owes, its sleep wakes at once.
  lemma Accept(p: P.Path, key: string, now: int) returns (r: P.Path, events: seq<P.Timed>)
    requires p.inflight == map[] && p.queue.phase.Idle? && p.queue.waiting == [] && p.clock <= now
    requires Find(p.ledger, key).None?
    ensures r == P.Run(p, events)
    ensures r == p.(clock := now, queue := r.queue, inflight := map[key := P.Queued])
    ensures r.queue.phase.Checking? && r.queue.phase.task == key && r.queue.waiting == []
    ensures r.queue.starts == p.queue.starts && r.queue.limits == p.queue.limits
  {
    var p1 := P.Step(p, P.Send(key, true), now);
    assert p1 == p.(clock := now, queue := Q.Enqueued(p.queue, key), inflight := map[key := P.Queued]);
    var p2 := P.Step(p1, P.Begin(0.0), now);
    assert p2 == p1.(queue := Q.Begun(p1.queue, 0.0, now));
    r := P.Step(p2, P.Wake, now);
    events := [P.Timed(P.Send(key, true), now), P.Timed(P.Begin(0.0), now), P.Timed(P.Wake, now)];
    RunOfThree(p, events);
  }

  lemma RunOfThree(p: P.Path, events: seq<P.Timed>)
    requires |events| == 3
    ensures P.Run(p, events) ==
      P.Step(P.Step(P.Step(p, events[0].e, events[0].at), events[1].e, events[1].at), events[2].e, events[2].at)
  {
    P.RunThenStep(p, events[..2], events[2].e, events[2].at);
    P.RunThenStep(p, events[..1], events[1].e, events[1].at);
    P.RunThenStep(p, [], events[0].e, events[0].at);
    assert events[..2] + [events[2]] == events && events[..1] + [events[1]] == events[..2];
    assert [] + [events[0]] == events[..1];
    assert P.Run(p, []) == p;
  }

  // It starts, and Zalo has the message.
  lemma StartAndPost(p: P.Path, now0: int, i: nat, key: string) returns (r: P.Path, events: seq<P.Timed>)
    requires P.Inv(p) && p.config == P.SHIPPED && p.clock == At(now0, i) && p.log == Starts(now0, i)
    requires p.queue.phase.Checking? && p.queue.phase.task == key && p.queue.waiting == []
    requires p.inflight == map[key := P.Queued]
    ensures r == P.Run(p, events)
    ensures r.config == p.config && r.clock == p.clock && r.ledger == p.ledger && r.log == Starts(now0, i + 1)
    ensures r.inflight == map[key := P.Posted("")] && r.queue.phase.Idle? && r.queue.waiting == []
  {
    var now, ticks := At(now0, i), Ticks(p, now0, i);
    StartIsAllowed(p, now0, i);
    var p1 := P.Step(p, P.Check(ticks), now);
    assert Starts(now0, i + 1) == Starts(now0, i) + [now];
    assert p1 == p.(queue := p1.queue, log := Starts(now0, i + 1));
    assert p1.queue.phase == Q.Running(key) && p1.queue.waiting == [];
    r := P.Step(p1, P.Finish(Some("")), now);
    events := [P.Timed(P.Check(ticks), now), P.Timed(P.Finish(Some("")), now)];
    RunOfTwo(p, events);
    assert map[key := P.Queued][key := P.Posted("")] == map[key := P.Posted("")];
  }

  lemma RunOfTwo(p: P.Path, events: seq<P.Timed>)
    requires |events| == 2
    ensures P.Run(p, events) == P.Step(P.Step(p, events[0].e, events[0].at), events[1].e, events[1].at)
  {
    var p1 := P.Step(p, events[0].e, events[0].at);
    var p2 := P.Step(p1, events[1].e, events[1].at);
    assert events[1..][1..] == [];
    assert P.Run(p1, events[1..]) == P.Run(p2, []) == p2;
  }

  lemma {:induction false} RunOfConcat(p: P.Path, a: seq<P.Timed>, b: seq<P.Timed>)
    ensures P.Run(p, a + b) == P.Run(P.Run(p, a), b)
    decreases a
  {
    if a == [] {
      assert a + b == b;
    } else {
      assert (a + b)[1..] == a[1..] + b;
      RunOfConcat(P.Step(p, a[0].e, a[0].at), a[1..], b);
    }
  }

  // The next send, up to the moment before it enters the ledger.
  ghost predicate PostedNext(p: P.Path, ledger: L.Table, now0: int, i: nat) {
    && P.Inv(p) && p.config == P.SHIPPED && p.clock == At(now0, i)
    && p.inflight == map[NewKey(ledger, i) := P.Posted("")]
    && p.queue.phase.Idle? && p.queue.waiting == [] && p.log == Starts(now0, i + 1)
    && Fresh(p.ledger, ledger, i)
    && Counted(p.ledger, ledger, At(now0, i), now0 + DAY_MS, i)
  }

  lemma SendAndPost(p: P.Path, ledger: L.Table, now0: int, i: nat) returns (events: seq<P.Timed>)
    requires Done(p, ledger, now0, i)
    ensures PostedNext(P.Run(p, events), ledger, now0, i)
  {
    var key := NewKey(ledger, i);
    var p1, accepted := Accept(p, key, At(now0, i));
    assert P.Inv(p1) by { P.RunKeepsInv(p, accepted); }
    var p2, posted := StartAndPost(p1, now0, i, key);
    assert P.Inv(p2) by { P.RunKeepsInv(p1, posted); }
    events := accepted + posted;
    RunOfConcat(p, accepted, posted);
  }

  // A write that forgets no live entry has found room for its own.
  lemma SafeWriteHasRoom(p: P.Path, ledger: L.Table, now0: int, i: nat, events: seq<P.Timed>)
    requires PostedNext(p, ledger, now0, i) && p == P.Run(P.Initial(P.SHIPPED, ledger, now0), events)
    requires Retains(ledger, now0)
    ensures L.LiveCount(p.ledger, At(now0, i)) + 1 <= P.MAX_KEYS
  {
    var key, now := NewKey(ledger, i), At(now0, i);
    assert WriteIsSafe(ledger, now0, events, key, now);
    assert P.Step(p, P.Save(key), now).ledger == L.AfterSet(p.ledger, key, "", now, DAY_MS, P.MAX_KEYS);
    L.SetForgetsLiveEntryExactly(p.ledger, key, "", now, now, DAY_MS, P.MAX_KEYS);
    assert Delete(p.ledger, key) == p.ledger;
  }

  lemma SaveIs(p: P.Path, key: string, now: int) returns (r: P.Path)
    requires p.config == P.SHIPPED && p.clock == now && p.inflight == map[key := P.Posted("")]
    ensures r == P.Run(p, [P.Timed(P.Save(key), now), P.Timed(P.Resolve(key), now)])
    ensures r == p.(ledger := L.AfterSet(p.ledger, key, "", now, DAY_MS, P.MAX_KEYS), left := r.left,
                    setTimes := r.setTimes, inflight := map[])
  {
    var p1 := P.Step(p, P.Save(key), now);
    assert p1.inflight == map[key := P.Saving("")];
    r := P.Step(p1, P.Resolve(key), now);
    assert p1.inflight - {key} == map[];
    RunOfTwo(p, [P.Timed(P.Save(key), now), P.Timed(P.Resolve(key), now)]);
  }

  lemma SaveKeepsFresh(m: L.Table, ledger: L.Table, now: int, i: nat)
    requires Distinct(m) && Fresh(m, ledger, i)
    ensures Fresh(L.AfterSet(m, NewKey(ledger, i), "", now, DAY_MS, P.MAX_KEYS), ledger, i + 1)
  {
    var key := NewKey(ledger, i);
    forall j: nat | i + 1 <= j
      ensures Find(L.AfterSet(m, key, "", now, DAY_MS, P.MAX_KEYS), NewKey(ledger, j)).None?
    {
      assert |NewKey(ledger, j)| != |key|;
      L.SetAddsOneKey(m, key, "", now, DAY_MS, P.MAX_KEYS, NewKey(ledger, j));
    }
  }

  lemma SaveIsCounted(m: L.Table, ledger: L.Table, key: string, now: int, first: int, last: int, i: nat)
    requires L.Ordered(m, now, DAY_MS) && Find(m, key).None? && L.LiveCount(m, now) + 1 <= P.MAX_KEYS
    requires Counted(m, ledger, now, last, i) && now <= first && last <= now + DAY_MS
    ensures Counted(L.AfterSet(m, key, "", now, DAY_MS, P.MAX_KEYS), ledger, first, last, i + 1)
  {
    forall at | first <= at < last
      ensures L.LiveCount(L.AfterSet(m, key, "", now, DAY_MS, P.MAX_KEYS), at) == L.LiveCount(ledger, at) + i + 1
    {
      L.SetAddsExactlyOne(m, key, "", now, DAY_MS, P.MAX_KEYS, at);
    }
  }

  // The send enters the ledger and resolves.
  lemma SaveAndResolve(p: P.Path, ledger: L.Table, now0: int, i: nat) returns (events: seq<P.Timed>)
    requires PostedNext(p, ledger, now0, i) && L.LiveCount(p.ledger, At(now0, i)) + 1 <= P.MAX_KEYS
    ensures Done(P.Run(p, events), ledger, now0, i + 1)
  {
    var key, now := NewKey(ledger, i), At(now0, i);
    events := [P.Timed(P.Save(key), now), P.Timed(P.Resolve(key), now)];
    var r := SaveIs(p, key, now);
    assert P.Inv(r) by { P.RunKeepsInv(p, events); }
    SaveKeepsFresh(p.ledger, ledger, now, i);
    AtGrows(now0, i);
    SaveIsCounted(p.ledger, ledger, key, now, At(now0, i + 1), now0 + DAY_MS, i);
  }

  lemma AtGrows(now0: int, i: nat)
    ensures now0 <= At(now0, i) <= At(now0, i + 1)
  {
  }

  lemma {:induction false} ManySends(ledger: L.Table, now0: int, i: nat) returns (events: seq<P.Timed>)
    requires L.Ordered(ledger, now0, DAY_MS) && Retains(ledger, now0)
    ensures Done(P.Run(P.Initial(P.SHIPPED, ledger, now0), events), ledger, now0, i)
  {
    var p0 := P.Initial(P.SHIPPED, ledger, now0);
    if i == 0 {
      events := [];
      P.InitialInv(P.SHIPPED, ledger, now0);
      forall j: nat ensures Find(ledger, NewKey(ledger, j)).None? {
        NewKeyIsNotThere(ledger, j);
      }
    } else {
      var before := ManySends(ledger, now0, i - 1);
      var sent := SendAndPost(P.Run(p0, before), ledger, now0, i - 1);
      RunOfConcat(p0, before, sent);
      SafeWriteHasRoom(P.Run(p0, before + sent), ledger, now0, i - 1, before + sent);
      var saved := SaveAndResolve(P.Run(p0, before + sent), ledger, now0, i - 1);
      RunOfConcat(p0, before + sent, saved);
      events := before + sent + saved;
    }
  }

  // --------------------------------------------------------------------------------- main results

  // If nothing is ever forgotten early, then each hour of the first day has room: send 300 messages at the
  // start of every hour up to it, and look at the last of them.
  lemma RetentionNeedsRoom(ledger: L.Table, now0: int, k: nat)
    requires L.Ordered(ledger, now0, DAY_MS) && Retains(ledger, now0) && k < 24
    ensures P.LiveAfter(ledger, now0, k) + P.MAX_PER_HOUR * (k + 1) <= P.MAX_KEYS
  {
    var i := P.MAX_PER_HOUR * k + P.MAX_PER_HOUR - 1;
    LastOfHour(now0, k);
    var p, events := RunToPost(ledger, now0, i);
    SafeWriteHasRoom(p, ledger, now0, i, events);
    assert L.LiveCount(p.ledger, At(now0, i)) == L.LiveCount(ledger, At(now0, i)) + i;
  }

  lemma RunToPost(ledger: L.Table, now0: int, i: nat) returns (p: P.Path, events: seq<P.Timed>)
    requires L.Ordered(ledger, now0, DAY_MS) && Retains(ledger, now0)
    ensures p == P.Run(P.Initial(P.SHIPPED, ledger, now0), events) && PostedNext(p, ledger, now0, i)
  {
    var p0 := P.Initial(P.SHIPPED, ledger, now0);
    var before := ManySends(ledger, now0, i);
    var sent := SendAndPost(P.Run(p0, before), ledger, now0, i);
    RunOfConcat(p0, before, sent);
    events := before + sent;
    p := P.Run(p0, events);
  }

  lemma LastOfHour(now0: int, k: nat)
    ensures At(now0, P.MAX_PER_HOUR * k + P.MAX_PER_HOUR - 1) == now0 + k * HOUR_MS
  {
    assert (P.MAX_PER_HOUR * k + P.MAX_PER_HOUR - 1) / P.MAX_PER_HOUR == k;
  }

  // Whether any run can forget a key within its day is decided by the loaded ledger: no run does if and only
  // if in each of the first 24 hours there is room for the loaded keys still within their day and for 300
  // sends in this hour and in each before it.
  lemma RetentionExactly(ledger: L.Table, now0: int)
    requires L.Ordered(ledger, now0, DAY_MS)
    ensures Retains(ledger, now0) <==> P.HasRoom(P.SHIPPED, ledger, now0)
  {
    if P.HasRoom(P.SHIPPED, ledger, now0) {
      forall events, key, now ensures WriteIsSafe(ledger, now0, events, key, now) {
        if P.AboutToSave(P.Run(P.Initial(P.SHIPPED, ledger, now0), events), key, now) {
          P.NoKeyIsForgottenEarly(P.SHIPPED, ledger, now0, events, key, now);
        }
      }
    }
    if Retains(ledger, now0) {
      forall k: nat | k < 24 ensures P.LiveAfter(ledger, now0, k) + P.MAX_PER_HOUR * (k + 1) <= P.MAX_KEYS {
        RetentionNeedsRoom(ledger, now0, k);
      }
    }
  }

  ghost predicate SizeRetains(n: nat) {
    forall ledger: L.Table, now0 :: |ledger| == n && L.Ordered(ledger, now0, DAY_MS) ==> Retains(ledger, now0)
  }

  // Keys that all live for a whole day.
  function Freshest(n: nat): L.Table {
    seq(n, i requires 0 <= i < n => Item(seq(i, _ => 'f'), L.Saved("", DAY_MS)))
  }

  // By size alone: every ledger of `n` keys leaves room exactly up to 2,800.
  lemma RetentionBySize(n: nat)
    ensures SizeRetains(n) <==> n <= 2_800
  {
    if n <= 2_800 {
      forall ledger: L.Table, now0 | |ledger| == n && L.Ordered(ledger, now0, DAY_MS) ensures Retains(ledger, now0) {
        forall k: nat | k < 24 ensures P.LiveAfter(ledger, now0, k) + P.MAX_PER_HOUR * (k + 1) <= P.MAX_KEYS {
          L.LiveAreAtMostAll(ledger, now0 + k * HOUR_MS);
        }
        RetentionExactly(ledger, now0);
      }
    } else {
      var m := Freshest(n);
      assert forall i, j :: 0 <= i < j < n ==> |m[i].key| != |m[j].key|;
      L.AllLive(m, 23 * HOUR_MS);
      assert P.LiveAfter(m, 0, 23) == n;
      RetentionExactly(m, 0);
    }
  }
}
