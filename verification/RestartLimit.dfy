/**
How many restarts in a day the ledger withstands, exactly. Nine never make it forget a confirmed send within
its day. Ten can: eleven processes that each start with a burst at the cap, the last of which goes on with a
burst every hour.
*/
module RestartLimit {
  import opened Options
  import opened Clock
  import opened InsertionMap
  import L = SendDedupe
  import Q = SendQueue
  import P = SendPath
  import R = Restarts
  import T = Retention

  // ------------------------------------------------------------------------- runs of one process

  // A run of one process as part of a life in which every write of the file fails.
  function Lifted(events: seq<P.Timed>): seq<R.Timed> {
    if events == [] then []
    else
      var t := events[0];
      [R.Timed(R.Work(t.e), t.at), R.Timed(R.StartWrite, t.at), R.Timed(R.EndWrite, t.at)] + Lifted(events[1..])
  }

  lemma RunOfThree(l: R.Life, events: seq<R.Timed>, rest: seq<R.Timed>)
    requires |events| == 3
    ensures R.Run(l, events + rest) ==
      R.Run(R.Step(R.Step(R.Step(l, events[0].e, events[0].at), events[1].e, events[1].at),
                   events[2].e, events[2].at), rest)
  {
    var all := events + rest;
    var l1 := R.Step(l, events[0].e, events[0].at);
    var l2 := R.Step(l1, events[1].e, events[1].at);
    var l3 := R.Step(l2, events[2].e, events[2].at);
    assert all[1..][0] == events[1] && all[1..][1..][0] == events[2] && all[1..][1..][1..] == rest;
    assert R.Run(l2, all[1..][1..]) == R.Run(l3, rest);
    assert R.Run(l1, all[1..]) == R.Run(l2, all[1..][1..]);
  }

  lemma LiftedStep(l: R.Life, t: P.Timed)
    requires l.chain == [] && l.write.NoWrite?
    ensures R.Step(R.Step(R.Step(l, R.Work(t.e), t.at), R.StartWrite, t.at), R.EndWrite, t.at) ==
              l.(path := P.Step(l.path, t.e, t.at))
  {
    var l1 := R.Step(l, R.Work(t.e), t.at);
    if R.CanWork(l, t.e, t.at) && t.e.Save? {
      assert l1.chain == [] + [l1.chain[0]];
      assert l1.chain[1..] == [];
    } else {
      assert l1 == l.(path := P.Step(l.path, t.e, t.at));
    }
  }

  lemma {:induction false} LiftedRun(l: R.Life, events: seq<P.Timed>)
    requires l.chain == [] && l.write.NoWrite?
    ensures R.Run(l, Lifted(events)) == l.(path := P.Run(l.path, events))
    decreases events
  {
    if events != [] {
      var t := events[0];
      RunOfThree(l, [R.Timed(R.Work(t.e), t.at), R.Timed(R.StartWrite, t.at), R.Timed(R.EndWrite, t.at)],
                 Lifted(events[1..]));
      LiftedStep(l, t);
      LiftedRun(l.(path := P.Step(l.path, t.e, t.at)), events[1..]);
    }
  }

  // ------------------------------------------------------------------------------ counting restarts

  lemma {:induction false} RunOfConcat(l: R.Life, a: seq<R.Timed>, b: seq<R.Timed>)
    ensures R.Run(l, a + b) == R.Run(R.Run(l, a), b)
    decreases a
  {
    if a == [] {
      assert a + b == b;
    } else {
      assert (a + b)[1..] == a[1..] + b;
      RunOfConcat(R.Step(l, a[0].e, a[0].at), a[1..], b);
    }
  }

  lemma {:induction false} FewOfConcat(n: nat, l: R.Life, a: seq<R.Timed>, b: seq<R.Timed>)
    requires R.FewRestarts(n, l, a) && R.FewRestarts(n, R.Run(l, a), b)
    ensures R.FewRestarts(n, l, a + b)
    decreases a
  {
    if a == [] {
      assert a + b == b;
    } else {
      var r := R.Step(l, a[0].e, a[0].at);
      assert (a + b)[0] == a[0] && (a + b)[1..] == a[1..] + b;
      assert R.FewRestarts(n, r, a[1..]) && R.Run(l, a) == R.Run(r, a[1..]);
      FewOfConcat(n, r, a[1..], b);
      assert R.FewRestarts(n, r, (a + b)[1..]);
    }
  }

  predicate NoRestart(events: seq<R.Timed>) {
    forall i :: 0 <= i < |events| ==> !events[i].e.Restart?
  }

  lemma OthersKeepTheCount(l: R.Life, e: R.Event, now: int)
    requires !e.Restart?
    ensures R.Step(l, e, now).restarts == l.restarts && R.Step(l, e, now).path.since == l.path.since
  {
    if e.Work? { P.StepKeepsStart(l.path, e.e, now); }
  }

  lemma {:induction false} FewWithoutRestart(n: nat, l: R.Life, events: seq<R.Timed>)
    requires NoRestart(events) && Q.Above(l.restarts, l.path.since - DAY_MS) <= n
    ensures R.FewRestarts(n, l, events)
    decreases events
  {
    if events != [] {
      assert !events[0].e.Restart? && NoRestart(events[1..]);
      OthersKeepTheCount(l, events[0].e, events[0].at);
      FewWithoutRestart(n, R.Step(l, events[0].e, events[0].at), events[1..]);
    }
  }

  lemma {:induction false} LiftedDoesNotRestart(events: seq<P.Timed>)
    ensures NoRestart(Lifted(events))
    decreases events
  {
    if events != [] { LiftedDoesNotRestart(events[1..]); }
  }

  // --------------------------------------------------------------------------------- the bursts

  function Key(k: nat): string {
    seq(k, _ => 'k')
  }

  // The first `n` sends, all of them at time 0.
  function Sent(n: nat): L.Table {
    seq(n, k requires 0 <= k < n => Item(Key(k), L.Saved("", DAY_MS)))
  }

  lemma SentIsOrdered(n: nat)
    ensures L.Ordered(Sent(n), 0, DAY_MS) && Find(Sent(n), Key(n)).None?
    ensures L.Loaded(L.Snapshot(Sent(n)), 0) == Sent(n)
    ensures forall at :: at < DAY_MS ==> L.LiveCount(Sent(n), at) == n
  {
    assert forall k :: 0 <= k < n ==> |Sent(n)[k].key| == k;
    L.LoadOfLive(Sent(n), 0);
    L.AllLiveOnly(Sent(n), 0);
    forall at | at < DAY_MS ensures L.LiveCount(Sent(n), at) == n {
      L.AllLive(Sent(n), at);
    }
  }

  // After `r` restarts and `i` sends since the last, at time 0, each of them confirmed.
  ghost predicate Burst(l: R.Life, r: nat, i: nat) {
    var sent := Sent(P.MAX_PER_HOUR * r + i);
    && l.path.config == P.SHIPPED && l.path.queue.limits == P.SHIPPED.limits
    && l.path.clock == 0 && l.path.since == 0 && l.path.inflight == map[]
    && l.path.queue.phase.Idle? && l.path.queue.waiting == [] && |l.path.queue.starts| <= i
    && l.path.ledger == sent && l.file == sent && l.chain == [] && l.write.NoWrite?
    && (forall e :: e in sent ==> e in l.confirmed)
    && l.restarts == seq(r, _ => 0)
  }

  // The next send, up to the moment before it enters the ledger.
  lemma PostNow(p: P.Path, key: string) returns (r: P.Path, events: seq<P.Timed>)
    requires p.config == P.SHIPPED && p.queue.limits == P.SHIPPED.limits && p.clock == 0 && p.inflight == map[]
    requires p.queue.phase.Idle? && p.queue.waiting == [] && |p.queue.starts| < P.MAX_PER_HOUR
    requires Find(p.ledger, key).None?
    ensures r == P.Run(p, events)
    ensures r == p.(queue := r.queue, log := r.log, posts := r.posts, inflight := map[key := P.Posted("")])
    ensures r.queue.limits == p.queue.limits && r.queue.phase.Idle? && r.queue.waiting == []
    ensures |r.queue.starts| <= |p.queue.starts| + 1
  {
    var p1, accepted := T.Accept(p, key, 0);
    var ticks := seq(|p1.queue.starts|, _ => 0);
    Q.KeptAllOrFewer(p1.queue.starts, ticks);
    var p2 := P.Step(p1, P.Check(ticks), 0);
    assert p2 == p1.(queue := p2.queue, log := p2.log) && p2.queue.phase == Q.Running(key);
    r := P.Step(p2, P.Finish(Some("")), 0);
    var rest := [P.Timed(P.Check(ticks), 0), P.Timed(P.Finish(Some("")), 0)];
    T.RunOfTwo(p1, rest);
    T.RunOfConcat(p, accepted, rest);
    events := accepted + rest;
    assert map[key := P.Queued][key := P.Posted("")] == map[key := P.Posted("")];
  }

  lemma SaveNow(p: P.Path, m: L.Table, key: string)
    requires p.config == P.SHIPPED && p.clock == 0 && p.inflight == map[key := P.Posted("")]
    requires Find(p.ledger, key).None? && |p.ledger| < P.MAX_KEYS
    requires m == p.ledger + [Item(key, L.Saved("", DAY_MS))]
    ensures P.Enabled(p, P.Save(key), 0)
    ensures var r := P.Step(p, P.Save(key), 0);
            r == p.(ledger := m, left := r.left, setTimes := r.setTimes, inflight := map[key := P.Saving("")])
  {
    var r := P.Step(p, P.Save(key), 0);
    assert r.ledger == m;
    assert p.inflight[key := P.Saving("")] == map[key := P.Saving("")];
  }

  lemma ResolveNow(p: P.Path, key: string)
    requires p.clock == 0 && p.inflight == map[key := P.Saving("")]
    ensures P.Enabled(p, P.Resolve(key), 0) && P.Step(p, P.Resolve(key), 0) == p.(inflight := map[])
  {
    assert p.inflight - {key} == map[];
  }

  // Its write succeeds.
  lemma WriteNow(l: R.Life, e: R.Entry)
    requires l.chain == [e] && l.write.NoWrite? && l.path.clock <= 0
    ensures R.Step(R.Step(R.Step(l, R.StartWrite, 0), R.Rename, 0), R.EndWrite, 0) ==
              l.(chain := [], file := l.path.ledger, confirmed := l.confirmed + {e})
  {
    assert l.chain[1..] == [];
  }

  // The send enters the ledger, its write succeeds, and it resolves.
  lemma ConfirmNow(l: R.Life, m: L.Table, key: string) returns (r: R.Life, events: seq<R.Timed>)
    requires l.path.config == P.SHIPPED && l.path.clock == 0 && l.path.inflight == map[key := P.Posted("")]
    requires l.chain == [] && l.write.NoWrite? && Find(l.path.ledger, key).None? && |l.path.ledger| < P.MAX_KEYS
    requires m == l.path.ledger + [Item(key, L.Saved("", DAY_MS))]
    ensures r == R.Run(l, events) && NoRestart(events)
    ensures r == l.(path := r.path, file := m, confirmed := l.confirmed + {Item(key, L.Saved("", DAY_MS))})
    ensures r.path == l.path.(ledger := m, left := r.path.left, setTimes := r.path.setTimes, inflight := map[])
  {
    var e := Item(key, L.Saved("", DAY_MS));
    SaveNow(l.path, m, key);
    var l1 := R.Step(l, R.Work(P.Save(key)), 0);
    assert l1 == l.(path := P.Step(l.path, P.Save(key), 0), chain := [e]);
    WriteNow(l1, e);
    var l2 := l1.(chain := [], file := m, confirmed := l.confirmed + {e});
    ResolveNow(l2.path, key);
    r := R.Step(l2, R.Work(P.Resolve(key)), 0);
    assert r == l2.(path := P.Step(l2.path, P.Resolve(key), 0));
    var writes := [R.Timed(R.StartWrite, 0), R.Timed(R.Rename, 0), R.Timed(R.EndWrite, 0)];
    var last := [R.Timed(R.Work(P.Resolve(key)), 0)];
    RunOfThree(l1, writes, last);
    RunOfOne(l2, last);
    events := [R.Timed(R.Work(P.Save(key)), 0)] + (writes + last);
    assert events[1..] == writes + last;
  }

  lemma RunOfOne(l: R.Life, events: seq<R.Timed>)
    requires |events| == 1
    ensures R.Run(l, events) == R.Step(l, events[0].e, events[0].at)
  {
    var r := R.Step(l, events[0].e, events[0].at);
    assert events[1..] == [];
    assert R.Run(r, []) == r;
  }

  lemma OneMore(l: R.Life, r: nat, i: nat) returns (events: seq<R.Timed>)
    requires Burst(l, r, i) && i < P.MAX_PER_HOUR && P.MAX_PER_HOUR * r + i < P.MAX_KEYS
    ensures Burst(R.Run(l, events), r, i + 1) && NoRestart(events)
  {
    var n := P.MAX_PER_HOUR * r + i;
    SentIsOrdered(n);
    var p, posted := PostNow(l.path, Key(n));
    LiftedRun(l, posted);
    LiftedDoesNotRestart(posted);
    assert Sent(n + 1) == Sent(n) + [Item(Key(n), L.Saved("", DAY_MS))];
    var l2, confirmed := ConfirmNow(l.(path := p), Sent(n + 1), Key(n));
    RunOfConcat(l, Lifted(posted), confirmed);
    events := Lifted(posted) + confirmed;
  }

  lemma {:induction false} WholeBurst(l: R.Life, r: nat, i: nat) returns (events: seq<R.Timed>)
    requires Burst(l, r, 0) && i <= P.MAX_PER_HOUR && P.MAX_PER_HOUR * (r + 1) <= P.MAX_KEYS
    ensures Burst(R.Run(l, events), r, i) && NoRestart(events)
  {
    if i == 0 {
      events := [];
    } else {
      var before := WholeBurst(l, r, i - 1);
      var more := OneMore(R.Run(l, before), r, i - 1);
      RunOfConcat(l, before, more);
      events := before + more;
    }
  }

  lemma RestartNow(l: R.Life, r: nat)
    requires Burst(l, r, P.MAX_PER_HOUR)
    ensures Burst(R.Step(l, R.Restart, 0), r + 1, 0)
    ensures R.Step(l, R.Restart, 0).path == P.Initial(P.SHIPPED, Sent(P.MAX_PER_HOUR * (r + 1)), 0)
  {
    SentIsOrdered(P.MAX_PER_HOUR * r + P.MAX_PER_HOUR);
    assert seq(r + 1, _ => 0) == seq(r, _ => 0) + [0];
  }

  lemma {:induction false} CountOfZeros(r: nat)
    ensures Q.Above(seq(r, _ => 0), -DAY_MS) == r
  {
    if r > 0 {
      assert seq(r, _ => 0)[..r - 1] == seq(r - 1, _ => 0);
      CountOfZeros(r - 1);
    }
  }

  // One process of the run: a burst of 300, and a restart.
  lemma BurstAndRestart(n: nat, l: R.Life, r: nat) returns (events: seq<R.Timed>)
    requires Burst(l, r, 0) && r < n && r < 10
    ensures R.FewRestarts(n, l, events) && Burst(R.Run(l, events), r + 1, 0)
    ensures R.Run(l, events).path == P.Initial(P.SHIPPED, Sent(P.MAX_PER_HOUR * (r + 1)), 0)
  {
    var burst := WholeBurst(l, r, P.MAX_PER_HOUR);
    CountOfZeros(r);
    FewWithoutRestart(n, l, burst);
    var l1 := R.Run(l, burst);
    RestartNow(l1, r);
    var last := [R.Timed(R.Restart, 0)];
    RunOfOne(l1, last);
    RunOfConcat(l, burst, last);
    assert R.FewRestarts(n, l1, last) by { FewAfterRestart(n, l1, r); }
    FewOfConcat(n, l, burst, last);
    events := burst + last;
  }

  lemma FewAfterRestart(n: nat, l: R.Life, r: nat)
    requires Burst(l, r, P.MAX_PER_HOUR) && r < n
    ensures R.FewRestarts(n, l, [R.Timed(R.Restart, 0)])
  {
    CountOfZeros(r);
    CountOfZeros(r + 1);
    RestartNow(l, r);
    assert [R.Timed(R.Restart, 0)][1..] == [];
    assert R.FewRestarts(n, R.Step(l, R.Restart, 0), []);
  }

  // `r` bursts of 300, all at time 0, with a restart after each.
  lemma {:induction false} ManyBursts(n: nat, r: nat) returns (events: seq<R.Timed>)
    requires r <= n && r <= 10
    ensures R.FewRestarts(n, R.Initial(0), events)
    ensures Burst(R.Run(R.Initial(0), events), r, 0)
    ensures r > 0 ==> R.Run(R.Initial(0), events).path == P.Initial(P.SHIPPED, Sent(P.MAX_PER_HOUR * r), 0)
  {
    if r == 0 {
      events := [];
    } else {
      var before := ManyBursts(n, r - 1);
      var more := BurstAndRestart(n, R.Run(R.Initial(0), before), r - 1);
      RunOfConcat(R.Initial(0), before, more);
      FewOfConcat(n, R.Initial(0), before, more);
      events := before + more;
    }
  }

  // -------------------------------------------------------------------------------- main results

  // No confirmed send goes unanswered within its day, in any life with at most `n` restarts in any day.
  ghost predicate Answered(events: seq<R.Timed>, e: R.Entry, now: int, now0: int) {
    var l := R.Run(R.Initial(now0), events);
    e in l.confirmed && l.path.clock <= now && L.Live(e, now) ==>
      P.ReplyTo(l.path, e.key, now) == P.Done(e.value.msgId)
  }

  ghost predicate Withstands(n: nat) {
    forall now0, events, e, now :: R.FewRestarts(n, R.Initial(now0), events) ==> Answered(events, e, now, now0)
  }

  // A live key that a write has dropped is not answered any more.
  lemma ForgottenIsNotAnswered(p: P.Path, key: string, now: int, x: R.Entry)
    requires P.Inv(p) && P.AboutToSave(p, key, now)
    requires x in p.ledger && x.key != key && x !in P.Step(p, P.Save(key), now).ledger
    ensures L.Answer(P.Step(p, P.Save(key), now).ledger, x.key, now).None?
  {
    var id := p.inflight[key].msgId;
    var ledger' := L.AfterSet(p.ledger, key, id, now, DAY_MS, p.config.maxKeys);
    assert P.Step(p, P.Save(key), now).ledger == ledger';
    var i := IndexOf(ledger', x.key);
    if i < |ledger'| {
      L.SetAddsNoOther(p.ledger, key, id, now, DAY_MS, p.config.maxKeys, ledger'[i]);
      L.KeyIsOnce(p.ledger, x, ledger'[i]);
    }
  }

  // Ten restarts in a day are too many: some confirmed send is not answered within its day.
  lemma TenRestartsForget(n: nat)
    requires n > R.MAX_RESTARTS
    ensures !Withstands(n)
  {
    var sent := Sent(P.MAX_PER_HOUR * 10);
    var bursts := ManyBursts(n, 10);
    var l := R.Run(R.Initial(0), bursts);
    var events, key, now := SomeRunForgets(sent);
    var p := P.Run(l.path, events);
    var x :| x in p.ledger && x.key != key && L.Live(x, now) && x !in P.Step(p, P.Save(key), now).ledger;
    ForgetfulLife(n, bursts, events, key, now, x);
  }

  lemma SomeRunForgets(sent: L.Table) returns (events: seq<P.Timed>, key: string, now: int)
    requires sent == Sent(P.MAX_PER_HOUR * 10)
    ensures !T.WriteIsSafe(sent, 0, events, key, now)
  {
    SentIsOrdered(P.MAX_PER_HOUR * 10);
    assert !T.Retains(sent, 0) by {
      if T.Retains(sent, 0) {
        T.RetentionNeedsRoom(sent, 0, 23);
      }
    }
    events, key, now :| !T.WriteIsSafe(sent, 0, events, key, now);
  }

  // The life that goes on, after the bursts, with a run of its last process up to the write of `key`.
  lemma LifeWithRun(n: nat, bursts: seq<R.Timed>, events: seq<P.Timed>, key: string, now: int)
    returns (life: seq<R.Timed>)
    requires R.FewRestarts(n, R.Initial(0), bursts) && Burst(R.Run(R.Initial(0), bursts), 10, 0) && n >= 10
    requires P.AboutToSave(P.Run(R.Run(R.Initial(0), bursts).path, events), key, now)
    ensures R.FewRestarts(n, R.Initial(0), life)
    ensures var l := R.Run(R.Initial(0), bursts);
            var r := R.Run(R.Initial(0), life);
            && r.confirmed == l.confirmed && r.path.clock == now
            && r.path == P.Step(P.Run(l.path, events), P.Save(key), now)
  {
    var l0 := R.Initial(0);
    var l := R.Run(l0, bursts);
    var last := [R.Timed(R.Work(P.Save(key)), now)];
    LiftedRun(l, events);
    RunOfConcat(l, Lifted(events), last);
    RunOfOne(l.(path := P.Run(l.path, events)), last);
    RunOfConcat(l0, bursts, Lifted(events) + last);
    LiftedDoesNotRestart(events);
    CountOfZeros(10);
    FewWithoutRestart(n, l, Lifted(events) + last);
    FewOfConcat(n, l0, bursts, Lifted(events) + last);
    life := bursts + (Lifted(events) + last);
  }

  // What a run from these keys forgets is one of them, and is not answered.
  lemma ForgottenKey(path: P.Path, events: seq<P.Timed>, key: string, now: int, x: R.Entry)
    requires path == P.Initial(P.SHIPPED, Sent(P.MAX_PER_HOUR * 10), 0)
    requires var p := P.Run(path, events);
             && P.AboutToSave(p, key, now) && x in p.ledger && x.key != key && L.Live(x, now)
             && x !in P.Step(p, P.Save(key), now).ledger
    ensures x in Sent(P.MAX_PER_HOUR * 10)
    ensures L.Answer(P.Step(P.Run(path, events), P.Save(key), now).ledger, x.key, now).None?
  {
    var p := P.Run(path, events);
    assert P.Inv(p) by {
      SentIsOrdered(P.MAX_PER_HOUR * 10);
      P.InitialInv(P.SHIPPED, path.ledger, 0);
      P.RunKeepsInv(path, events);
    }
    P.ForgottenIsLoaded(p, key, now, x);
    P.ConfigStays(path, events);
    ForgottenIsNotAnswered(p, key, now, x);
  }

  lemma ForgetfulLife(n: nat, bursts: seq<R.Timed>, events: seq<P.Timed>, key: string, now: int, x: R.Entry)
    requires R.FewRestarts(n, R.Initial(0), bursts) && Burst(R.Run(R.Initial(0), bursts), 10, 0) && n >= 10
    requires var l := R.Run(R.Initial(0), bursts);
             var p := P.Run(l.path, events);
             && l.path == P.Initial(P.SHIPPED, Sent(P.MAX_PER_HOUR * 10), 0)
             && P.AboutToSave(p, key, now) && x in p.ledger && x.key != key && L.Live(x, now)
             && x !in P.Step(p, P.Save(key), now).ledger
    ensures !Withstands(n)
  {
    var l := R.Run(R.Initial(0), bursts);
    ForgottenKey(l.path, events, key, now, x);
    assert x in l.confirmed;
    var life := LifeWithRun(n, bursts, events, key, now);
    NotAnswered(life, x, now);
  }

  lemma NotAnswered(life: seq<R.Timed>, x: R.Entry, now: int)
    requires var r := R.Run(R.Initial(0), life);
             x in r.confirmed && r.path.clock <= now && L.Live(x, now) && L.Answer(r.path.ledger, x.key, now).None?
    ensures !Answered(life, x, now, 0)
  {
  }

  // The ledger withstands `n` restarts in any day exactly up to nine.
  lemma RestartsExactly(n: nat)
    ensures Withstands(n) <==> n <= R.MAX_RESTARTS
  {
    if n <= R.MAX_RESTARTS {
      forall now0, events, e, now | R.FewRestarts(n, R.Initial(now0), events) ensures Answered(events, e, now, now0) {
        R.EveryProcessHasRoom(n, now0, events);
        var l := R.Run(R.Initial(now0), events);
        if e in l.confirmed && l.path.clock <= now && L.Live(e, now) {
          R.ConfirmedIsAnswered(now0, events, e, now);
        }
      }
    } else {
      TenRestartsForget(n);
    }
  }
}
