/**
`send` and `sendOnce`: the queue, the ledger and the table of sends in flight together, for any
interleaving of calls, starts, results and saves in one run of the process.

One clock serves the queue and the ledger, and never goes back. The code after `await queue.enqueue`
writes the ledger a few microtasks after a send settled, before the next send can succeed: `Finish` with an
id waits for that.
*/
module SendPath {
  import opened Options
  import opened Clock
  import opened InsertionMap
  import L = SendDedupe
  import Q = SendQueue

  const MAX_PER_HOUR := 300
  const MAX_KEYS := 10_000

  // A send in flight. `Posted`: Zalo has the message, the ledger not yet; `Saving`: the ledger has it too
  // and the file is being written; `Failed`: about to reject.
  datatype Stage = Queued | Posted(msgId: string) | Saving(msgId: string) | Failed

  datatype Post = Post(key: string, msgId: string, at: int)

  datatype Config = Config(limits: Q.Limits, maxKeys: nat)

  // `loaded`: the ledger the process started with, at `since`. The first `left` entries of the ledger are
  // what is left of it; those behind them were written in this run.
  datatype Path = Path(
    config: Config,
    loaded: L.Table,
    since: int,
    left: nat,
    clock: int,
    queue: Q.QueueState<string>,
    log: seq<int>,
    ledger: L.Table,
    inflight: map<string, Stage>,
    posts: seq<Post>,
    setTimes: seq<int>)

  datatype Event =
    | Send(key: string, online: bool)
    | Begin(random: real)
    | Wake
    | Check(ticks: seq<int>)
    | Finish(result: Option<string>)
    | Lower
    | Save(key: string)
    | Resolve(key: string)

  // The start of a process with the ledger it loaded, which is empty on the first start.
  function Initial(config: Config, ledger: L.Table, now: int): Path {
    Path(config, ledger, now, |ledger|, now, Q.Empty(config.limits), [], ledger, map[], [], [])
  }

  // What a call of `send` gets at once: the id of a finished send, or the flight it joins or opens.
  datatype Reply = Done(msgId: string) | Joined(stage: Stage) | Opened

  function ReplyTo(p: Path, key: string, now: int): Reply {
    match L.Answer(p.ledger, key, now)
    case Some(id) => Done(id)
    case None => if key in p.inflight then Joined(p.inflight[key]) else Opened
  }

  // A `get` forgets an expired key, which may be one of the loaded ones.
  function AfterLookup(p: Path, key: string, now: int): Path {
    var i := IndexOf(p.ledger, key);
    p.(ledger := L.AfterGet(p.ledger, key, now),
       left := if i < p.left && i < |p.ledger| && !L.Live(p.ledger[i], now) then p.left - 1 else p.left)
  }

  function AfterSend(p: Path, key: string, online: bool, now: int): Path {
    match ReplyTo(p, key, now)
    case Done(_) => p
    case Joined(_) => AfterLookup(p, key, now)
    case Opened =>
      var p1 := AfterLookup(p, key, now);
      if online then p1.(queue := Q.Enqueued(p1.queue, key), inflight := p1.inflight[key := Queued])
      else p1.(inflight := p1.inflight[key := Failed])
  }

  predicate AnyPosted(inflight: map<string, Stage>) {
    exists k :: k in inflight && inflight[k].Posted?
  }

  function AfterFinish(p: Path, result: Option<string>, now: int): Path
    requires p.queue.phase.Running?
  {
    var key := p.queue.phase.task;
    var p1 := p.(queue := Q.Settled(p.queue));
    match result
    case None => p1.(inflight := p1.inflight[key := Failed])
    case Some(id) => p1.(inflight := p1.inflight[key := Posted(id)], posts := p1.posts + [Post(key, id, now)])
  }

  // The oldest entries make room, and the loaded ones are the oldest.
  function AfterSave(p: Path, key: string, id: string, now: int): Path {
    var n := L.Excess(L.Full(p.ledger, key, id, now + DAY_MS), p.config.maxKeys);
    p.(ledger := L.AfterSet(p.ledger, key, id, now, DAY_MS, p.config.maxKeys),
       left := if n <= p.left then p.left - n else 0,
       setTimes := p.setTimes + [now],
       inflight := p.inflight[key := Saving(id)])
  }

  predicate Possible(p: Path, e: Event) {
    match e
    case Send(_, _) => true
    case Begin(_) => p.queue.phase.Idle? && p.queue.waiting != []
    case Wake => p.queue.phase.Spacing? || p.queue.phase.Waiting?
    case Check(ticks) => p.queue.phase.Checking? && |ticks| == |p.queue.starts|
    case Finish(result) => p.queue.phase.Running? && (result.Some? ==> !AnyPosted(p.inflight))
    case Lower => p.queue.settling > 0
    case Save(key) => key in p.inflight && p.inflight[key].Posted?
    case Resolve(key) => key in p.inflight && (p.inflight[key].Saving? || p.inflight[key].Failed?)
  }

  predicate Enabled(p: Path, e: Event, now: int) {
    p.clock <= now && Possible(p, e) && (e.Check? ==> Q.Readings(e.ticks, p.clock, now))
  }

  function Perform(p: Path, e: Event, now: int): Path
    requires Possible(p, e)
  {
    match e
    case Send(key, online) => AfterSend(p, key, online, now)
    case Begin(random) => p.(queue := Q.Begun(p.queue, random, now))
    case Wake => p.(queue := Q.Woken(p.queue))
    case Check(ticks) =>
      p.(queue := Q.Checked(p.queue, ticks, now), log := if Q.Starts(p.queue, ticks) then p.log + [now] else p.log)
    case Finish(result) => AfterFinish(p, result, now)
    case Lower => p.(queue := Q.Lowered(p.queue))
    case Save(key) => AfterSave(p, key, p.inflight[key].msgId, now)
    case Resolve(key) => p.(inflight := p.inflight - {key})
  }

  function Step(p: Path, e: Event, now: int): Path {
    if Enabled(p, e, now) then Perform(p.(clock := now), e, now) else p
  }

  datatype Timed = Timed(e: Event, at: int)

  function Run(p: Path, events: seq<Timed>): Path
    decreases events
  {
    if events == [] then p else Run(Step(p, events[0].e, events[0].at), events[1..])
  }

  // ------------------------------------------------------------------------------------ invariant

  function Times(posts: seq<Post>): seq<int> {
    seq(|posts|, i requires 0 <= i < |posts| => posts[i].at)
  }

  function Tasks(q: Q.QueueState<string>): seq<string> {
    (if q.phase.Idle? then [] else [q.phase.task]) + q.waiting
  }

  ghost predicate QueueInv(q: Q.QueueState<string>, log: seq<int>, now: int) {
    Q.Agrees(q.starts, log, now) && Q.Capped(log, q.limits.maxPerHour)
  }

  // Exactly the queued sends are in the queue, each once; at most one send is between post and ledger.
  ghost predicate FlightInv(tasks: seq<string>, inflight: map<string, Stage>) {
    && (forall i, j :: 0 <= i < j < |tasks| ==> tasks[i] != tasks[j])
    && (forall k :: k in tasks <==> k in inflight && inflight[k].Queued?)
    && (forall k, l :: k in inflight && l in inflight && inflight[k].Posted? && inflight[l].Posted? ==> k == l)
  }

  predicate Old(post: Post, now: int) {
    post.at + DAY_MS <= now
  }

  // A post of the last day is remembered: by its flight until the ledger has it, then by what this run has
  // written of the ledger.
  ghost predicate Remembered(post: Post, own: L.Table, inflight: map<string, Stage>, now: int) {
    || Old(post, now)
    || (post.key in inflight && inflight[post.key] == Posted(post.msgId))
    || (var e := Find(own, post.key);
        e.Some? && e.value.msgId == post.msgId && post.at + DAY_MS <= e.value.expiresAt)
  }

  ghost predicate PostsInv(own: L.Table, inflight: map<string, Stage>, posts: seq<Post>, now: int) {
    && (forall i :: 0 <= i < |posts| ==> posts[i].at <= now && Remembered(posts[i], own, inflight, now))
    && (forall i :: 0 <= i < |posts| && posts[i].key in inflight ==>
          Old(posts[i], now)
          || inflight[posts[i].key] == Posted(posts[i].msgId) || inflight[posts[i].key] == Saving(posts[i].msgId))
  }

  ghost predicate LedgerInv(ledger: L.Table, inflight: map<string, Stage>, now: int) {
    && L.Ordered(ledger, now, DAY_MS)
    && (forall k :: k in inflight && !inflight[k].Saving? ==> Find(ledger, k).None?)
  }

  ghost predicate OncePerDay(posts: seq<Post>) {
    forall i, j :: 0 <= i < j < |posts| && posts[i].key == posts[j].key ==> posts[i].at + DAY_MS <= posts[j].at
  }

  // Starts, posts and ledger writes alternate, so in any recent period they are as many up to one.
  ghost predicate CountInv(log: seq<int>, posts: seq<int>, sets: seq<int>, running: bool, posted: bool) {
    && (forall lo :: Q.Above(posts, lo) <= Q.Above(log, lo) + if running then 0 else 1)
    && (forall lo :: Q.Above(sets, lo) <= Q.Above(posts, lo) + if posted then 0 else 1)
    && |posts| + (if running then 1 else 0) <= |log|
    && |sets| + (if posted then 1 else 0) <= |posts|
  }

  // At any moment, the live keys are loaded ones, or were written in the day before.
  ghost predicate LiveInv(ledger: L.Table, loaded: L.Table, sets: seq<int>) {
    forall at :: L.LiveCount(ledger, at) <= L.LiveCount(loaded, at) + Q.Above(sets, at - DAY_MS)
  }

  ghost predicate OwnInv(own: L.Table, sets: seq<int>) {
    forall at :: L.LiveCount(own, at) <= Q.Above(sets, at - DAY_MS)
  }

  // Room for what one run can write in a day at the cap: a day of starts, and the two sends that may have
  // begun before that day.
  predicate Roomy(config: Config) {
    24 * config.limits.maxPerHour + 2 <= config.maxKeys
  }

  ghost predicate NotBefore(times: seq<int>, since: int) {
    forall i :: 0 <= i < |times| ==> since <= times[i]
  }

  // How fast messages go out, and how many starts, posts and writes there have been.
  ghost predicate RateInv(p: Path) {
    && Roomy(p.config) && p.queue.limits == p.config.limits
    && p.since <= p.clock && NotBefore(p.log, p.since) && NotBefore(Times(p.posts), p.since)
    && QueueInv(p.queue, p.log, p.clock)
    && FlightInv(Tasks(p.queue), p.inflight)
    && Q.NotAfter(p.setTimes, p.clock)
    && CountInv(p.log, Times(p.posts), p.setTimes, p.queue.phase.Running?, AnyPosted(p.inflight))
  }

  // The first entries of the ledger are loaded ones.
  ghost predicate HeadInv(ledger: L.Table, left: nat, loaded: L.Table) {
    left <= |ledger| && forall e :: e in ledger[..left] ==> e in loaded
  }

  // What the ledger and the flights know of the posts.
  ghost predicate BookInv(p: Path) {
    && L.Ordered(p.loaded, p.since, DAY_MS)
    && LedgerInv(p.ledger, p.inflight, p.clock)
    && HeadInv(p.ledger, p.left, p.loaded)
    && PostsInv(p.ledger[p.left..], p.inflight, p.posts, p.clock)
    && OncePerDay(p.posts)
    && OwnInv(p.ledger[p.left..], p.setTimes)
    && LiveInv(p.ledger, p.loaded, p.setTimes)
  }

  ghost predicate Inv(p: Path) {
    RateInv(p) && BookInv(p)
  }

  // ---------------------------------------------------------------------------------- retention

  lemma DayOfStarts(log: seq<int>, max: nat, now: int)
    requires Q.Capped(log, max) && Q.NotAfter(log, now)
    ensures Q.Above(log, now - DAY_MS) <= 24 * max
  {
    Q.WithinIsAtMostAbove(log, now - DAY_MS, now - DAY_MS, now);
    Q.CapOverHours(log, max, 24, now);
  }

  // Ledger writes of the last day while a message is posted but not in the ledger yet: each had its own
  // start, and two of those may lie before that day.
  lemma DayOfWrites(log: seq<int>, posts: seq<int>, sets: seq<int>, running: bool, max: nat, now: int)
    requires CountInv(log, posts, sets, running, true)
    requires Q.Capped(log, max) && Q.NotAfter(log, now)
    ensures Q.Above(sets, now - DAY_MS) + 1 <= 24 * max + 2
  {
    DayOfStarts(log, max, now);
    assert Q.Above(sets, now - DAY_MS) <= Q.Above(posts, now - DAY_MS);
    assert Q.Above(posts, now - DAY_MS) <= Q.Above(log, now - DAY_MS) + 1;
  }

  // A process in its first `hours` hours has started at most that many times the cap.
  lemma FirstHours(log: seq<int>, max: nat, since: int, hours: nat, now: int)
    requires Q.Capped(log, max) && Q.NotAfter(log, now) && NotBefore(log, since)
    requires now < since + hours * HOUR_MS
    ensures |log| <= hours * max
  {
    var lo := now - hours * HOUR_MS;
    Q.AboveIsAtMostLength(log, lo);
    Q.WithinIsAtMostAbove(log, lo, lo, now);
    Q.CapOverHours(log, max, hours, now);
  }

  // ----------------------------------------------------------------------------- step by step

  lemma LaterKeepsPostsInv(own: L.Table, inflight: map<string, Stage>, posts: seq<Post>, was: int, now: int)
    requires PostsInv(own, inflight, posts, was) && was <= now
    ensures PostsInv(own, inflight, posts, now)
  {
  }

  lemma LookupKeepsLedgerInv(ledger: L.Table, inflight: map<string, Stage>, now: int, key: string)
    requires LedgerInv(ledger, inflight, now)
    ensures LedgerInv(L.AfterGet(ledger, key, now), inflight, now)
    ensures L.Answer(ledger, key, now).None? ==> Find(L.AfterGet(ledger, key, now), key).None?
  {
    if L.AfterGet(ledger, key, now) != ledger {
      L.DeleteKeepsOrder(ledger, key, now, DAY_MS);
      forall k ensures Find(Delete(ledger, key), k) == if k == key then None else Find(ledger, k) {
        DeleteIsExact(ledger, key, k);
      }
    }
  }

  // What this run has written, after a lookup: the same, without the key if it was there and expired.
  lemma LookupKeepsOwn(p: Path, key: string, now: int)
    requires Distinct(p.ledger) && p.left <= |p.ledger|
    ensures var r := AfterLookup(p, key, now);
            && r.left <= |r.ledger|
            && (r.ledger[r.left..] == p.ledger[p.left..]
                || r.ledger[r.left..] == L.AfterGet(p.ledger[p.left..], key, now))
  {
    var i := IndexOf(p.ledger, key);
    if i < |p.ledger| && !L.Live(p.ledger[i], now) {
      RemoveFromSuffix(p.ledger, p.left, i);
      if i >= p.left { FindInSuffix(p.ledger, p.left, i); }
    }
  }

  lemma RemoveFromSuffix(m: L.Table, left: nat, i: nat)
    requires left <= |m| && i < |m|
    ensures i < left ==> RemoveAt(m, i)[left - 1..] == m[left..]
    ensures i >= left ==> RemoveAt(m, i)[left..] == RemoveAt(m[left..], i - left)
  {
  }

  lemma FindInSuffix(m: L.Table, left: nat, i: nat)
    requires Distinct(m) && left <= i < |m|
    ensures IndexOf(m[left..], m[i].key) == i - left
  {
    assert m[left..][i - left] == m[i];
    FindIs(m[left..], i - left);
  }

  lemma LookupKeepsHead(p: Path, key: string, now: int)
    requires HeadInv(p.ledger, p.left, p.loaded)
    ensures var r := AfterLookup(p, key, now); HeadInv(r.ledger, r.left, r.loaded)
  {
    var i := IndexOf(p.ledger, key);
    if i < |p.ledger| && !L.Live(p.ledger[i], now) {
      RemoveFromPrefix(p.ledger, p.left, i);
    }
  }

  lemma RemoveFromPrefix(m: L.Table, left: nat, i: nat)
    requires left <= |m| && i < |m|
    ensures i < left ==> RemoveAt(m, i)[..left - 1] == RemoveAt(m[..left], i)
    ensures i >= left ==> RemoveAt(m, i)[..left] == m[..left]
  {
  }

  lemma LookupKeepsPostsInv(own: L.Table, inflight: map<string, Stage>, posts: seq<Post>, key: string, now: int)
    requires PostsInv(own, inflight, posts, now) && Distinct(own)
    ensures PostsInv(L.AfterGet(own, key, now), inflight, posts, now)
  {
    forall i | 0 <= i < |posts| ensures Remembered(posts[i], L.AfterGet(own, key, now), inflight, now) {
      DeleteIsExact(own, key, posts[i].key);
    }
  }

  lemma LookupKeepsCounts(m: L.Table, loaded: L.Table, sets: seq<int>, key: string, now: int)
    ensures LiveInv(m, loaded, sets) ==> LiveInv(L.AfterGet(m, key, now), loaded, sets)
    ensures OwnInv(m, sets) ==> OwnInv(L.AfterGet(m, key, now), sets)
  {
    forall at ensures L.LiveCount(L.AfterGet(m, key, now), at) <= L.LiveCount(m, at) {
      L.DeleteIsFewer(m, key, at);
    }
  }

  lemma LookupKeepsInv(p: Path, key: string, now: int)
    requires Inv(p) && p.clock == now
    ensures Inv(AfterLookup(p, key, now))
  {
    var own := p.ledger[p.left..];
    LookupKeepsLedgerInv(p.ledger, p.inflight, now, key);
    LookupKeepsOwn(p, key, now);
    LookupKeepsHead(p, key, now);
    LookupKeepsCounts(p.ledger, p.loaded, p.setTimes, key, now);
    LookupKeepsCounts(own, p.loaded, p.setTimes, key, now);
    LookupKeepsPostsInv(own, p.inflight, p.posts, key, now);
  }

  lemma StageOfOther(inflight: map<string, Stage>, key: string, stage: Stage)
    requires key in inflight ==> !inflight[key].Posted?
    ensures AnyPosted(inflight[key := stage]) <==> stage.Posted? || AnyPosted(inflight)
  {
    var inflight' := inflight[key := stage];
    if k :| k in inflight && inflight[k].Posted? {
      assert k in inflight' && inflight'[k].Posted?;
    }
    if stage.Posted? {
      assert key in inflight' && inflight'[key].Posted?;
    }
  }

  lemma OpenKeepsInv(p: Path, key: string, stage: Stage)
    requires Inv(p) && key !in p.inflight && Find(p.ledger, key).None? && stage.Failed?
    ensures Inv(p.(inflight := p.inflight[key := stage]))
  {
    StageOfOther(p.inflight, key, stage);
  }

  lemma EnqueueKeepsFlightInv(tasks: seq<string>, inflight: map<string, Stage>, key: string)
    requires FlightInv(tasks, inflight) && key !in inflight
    ensures FlightInv(tasks + [key], inflight[key := Queued])
  {
    assert forall k :: k in tasks + [key] <==> k in tasks || k == key;
    assert forall i :: 0 <= i < |tasks| ==> tasks[i] in tasks;
  }

  lemma EnqueueKeepsInv(p: Path, key: string)
    requires Inv(p) && key !in p.inflight && Find(p.ledger, key).None?
    ensures Inv(p.(queue := Q.Enqueued(p.queue, key), inflight := p.inflight[key := Queued]))
  {
    assert Tasks(Q.Enqueued(p.queue, key)) == Tasks(p.queue) + [key];
    EnqueueKeepsFlightInv(Tasks(p.queue), p.inflight, key);
    StageOfOther(p.inflight, key, Queued);
  }

  lemma SendKeepsInv(p: Path, key: string, online: bool, now: int)
    requires Inv(p) && p.clock == now
    ensures Inv(AfterSend(p, key, online, now))
  {
    var p1 := AfterLookup(p, key, now);
    LookupKeepsInv(p, key, now);
    LookupKeepsLedgerInv(p.ledger, p.inflight, now, key);
    match ReplyTo(p, key, now)
    case Done(_) =>
    case Joined(_) =>
    case Opened => if online { EnqueueKeepsInv(p1, key); } else { OpenKeepsInv(p1, key, Failed); }
  }

  lemma TickKeepsInv(p: Path, now: int)
    requires Inv(p) && p.clock <= now
    ensures Inv(p.(clock := now))
  {
    LaterKeepsPostsInv(p.ledger[p.left..], p.inflight, p.posts, p.clock, now);
  }

  lemma BeginKeepsInv(p: Path, random: real, now: int)
    requires Inv(p) && p.queue.phase.Idle? && p.queue.waiting != []
    ensures Inv(p.(queue := Q.Begun(p.queue, random, now)))
  {
    assert Tasks(Q.Begun(p.queue, random, now)) == Tasks(p.queue);
  }

  lemma StartKeepsCounts(log: seq<int>, posts: seq<int>, sets: seq<int>, posted: bool, now: int)
    requires CountInv(log, posts, sets, false, posted) && Q.NotAfter(posts, now)
    ensures CountInv(log + [now], posts, sets, true, posted)
  {
    forall lo ensures Q.Above(posts, lo) <= Q.Above(log + [now], lo) {
      Q.AboveOfAppended(log, now, lo);
      if now <= lo { Q.AboveIsAtMostLength(posts, lo); }
      assert Q.Above(posts, lo) <= Q.Above(log, lo) + 1;
    }
  }

  lemma CheckKeepsQueueInv(q: Q.QueueState<string>, log: seq<int>, was: int, ticks: seq<int>, now: int)
    requires QueueInv(q, log, was) && q.phase.Checking? && |ticks| == |q.starts| && Q.Readings(ticks, was, now)
    ensures QueueInv(Q.Checked(q, ticks, now), if Q.Starts(q, ticks) then log + [now] else log, now)
  {
    if Q.Starts(q, ticks) {
      Q.StartKeepsCap(q.starts, log, was, ticks, now, q.limits.maxPerHour);
    } else {
      Q.KeptAgrees(q.starts, log, was, ticks, now);
    }
  }

  lemma CheckKeepsRateInv(p: Path, ticks: seq<int>, now: int)
    requires RateInv(p) && Q.NotAfter(Times(p.posts), now)
    requires p.queue.phase.Checking? && |ticks| == |p.queue.starts| && Q.Readings(ticks, p.clock, now)
    ensures RateInv(Perform(p.(clock := now), Check(ticks), now))
  {
    var r := Perform(p.(clock := now), Check(ticks), now);
    assert Tasks(r.queue) == Tasks(p.queue);
    CheckKeepsQueueInv(p.queue, p.log, p.clock, ticks, now);
    if Q.Starts(p.queue, ticks) {
      StartKeepsCounts(p.log, Times(p.posts), p.setTimes, AnyPosted(p.inflight), now);
    }
  }

  lemma CheckKeepsBookInv(p: Path, ticks: seq<int>, now: int)
    requires BookInv(p) && p.clock <= now && p.queue.phase.Checking? && |ticks| == |p.queue.starts|
    ensures BookInv(Perform(p.(clock := now), Check(ticks), now))
  {
    LaterKeepsPostsInv(p.ledger[p.left..], p.inflight, p.posts, p.clock, now);
  }

  lemma CheckKeepsInv(p: Path, ticks: seq<int>, now: int)
    requires Inv(p) && p.queue.phase.Checking? && |ticks| == |p.queue.starts| && Q.Readings(ticks, p.clock, now)
    ensures Inv(Perform(p.(clock := now), Check(ticks), now))
  {
    CheckKeepsRateInv(p, ticks, now);
    CheckKeepsBookInv(p, ticks, now);
  }

  lemma FinishKeepsCounts(log: seq<int>, posts: seq<int>, sets: seq<int>, now: int)
    requires CountInv(log, posts, sets, true, false) && Q.NotAfter(sets, now)
    ensures CountInv(log, posts + [now], sets, false, true)
  {
    forall lo
      ensures Q.Above(posts + [now], lo) <= Q.Above(log, lo) + 1
      ensures Q.Above(sets, lo) <= Q.Above(posts + [now], lo)
    {
      Q.AboveOfAppended(posts, now, lo);
      assert Q.Above(posts, lo) <= Q.Above(log, lo);
      assert Q.Above(sets, lo) <= Q.Above(posts, lo) + 1;
      if now <= lo { Q.AboveIsAtMostLength(sets, lo); }
    }
  }

  lemma FinishKeepsFlightInv(key: string, rest: seq<string>, inflight: map<string, Stage>, stage: Stage)
    requires FlightInv([key] + rest, inflight) && !stage.Queued? && (stage.Posted? ==> !AnyPosted(inflight))
    ensures FlightInv(rest, inflight[key := stage]) && key in inflight && inflight[key].Queued?
  {
    assert ([key] + rest)[0] == key && key in [key] + rest;
    forall i | 0 <= i < |rest| ensures rest[i] != key && rest[i] in [key] + rest {
      assert ([key] + rest)[i + 1] == rest[i];
    }
    forall i, j | 0 <= i < j < |rest| ensures rest[i] != rest[j] {
      assert ([key] + rest)[i + 1] == rest[i] && ([key] + rest)[j + 1] == rest[j];
    }
  }

  lemma FinishKeepsPostsInv(own: L.Table, inflight: map<string, Stage>, posts: seq<Post>,
                            key: string, id: string, now: int)
    requires PostsInv(own, inflight, posts, now) && OncePerDay(posts)
    requires key in inflight && inflight[key].Queued?
    ensures PostsInv(own, inflight[key := Failed], posts, now)
    ensures PostsInv(own, inflight[key := Posted(id)], posts + [Post(key, id, now)], now)
    ensures OncePerDay(posts + [Post(key, id, now)])
  {
  }

  lemma FinishKeepsInv(p: Path, result: Option<string>, now: int)
    requires Inv(p) && p.clock == now && p.queue.phase.Running? && (result.Some? ==> !AnyPosted(p.inflight))
    ensures Inv(AfterFinish(p, result, now))
  {
    var key := p.queue.phase.task;
    var stage := match result { case None => Failed case Some(id) => Posted(id) };
    FinishKeepsFlightInv(key, p.queue.waiting, p.inflight, stage);
    assert Tasks(Q.Settled(p.queue)) == p.queue.waiting;
    StageOfOther(p.inflight, key, stage);
    match result
    case None =>
      FinishKeepsPostsInv(p.ledger[p.left..], p.inflight, p.posts, key, "", now);
    case Some(id) =>
      assert Times(p.posts + [Post(key, id, now)]) == Times(p.posts) + [now];
      FinishKeepsPostsInv(p.ledger[p.left..], p.inflight, p.posts, key, id, now);
      FinishKeepsCounts(p.log, Times(p.posts), p.setTimes, now);
  }

  lemma SaveKeepsCounts(log: seq<int>, posts: seq<int>, sets: seq<int>, running: bool, now: int)
    requires CountInv(log, posts, sets, running, true)
    ensures CountInv(log, posts, sets + [now], running, false)
  {
    forall lo ensures Q.Above(sets + [now], lo) <= Q.Above(posts, lo) + 1 {
      Q.AboveOfAppended(sets, now, lo);
    }
  }

  lemma SaveKeepsLiveInv(ledger: L.Table, loaded: L.Table, sets: seq<int>, key: string, id: string, now: int, max: nat)
    requires LiveInv(ledger, loaded, sets)
    ensures LiveInv(L.AfterSet(ledger, key, id, now, DAY_MS, max), loaded, sets + [now])
  {
    var ledger' := L.AfterSet(ledger, key, id, now, DAY_MS, max);
    forall at
      ensures L.LiveCount(ledger', at) <= L.LiveCount(loaded, at) + Q.Above(sets + [now], at - DAY_MS)
    {
      Q.AboveOfAppended(sets, now, at - DAY_MS);
      assert L.LiveCount(ledger, at) <= L.LiveCount(loaded, at) + Q.Above(sets, at - DAY_MS);
      L.SetAddsOneLive(ledger, key, id, now, DAY_MS, max, at);
    }
  }

  lemma SaveKeepsLedgerInv(ledger: L.Table, inflight: map<string, Stage>, key: string, id: string, now: int, max: nat)
    requires LedgerInv(ledger, inflight, now) && key in inflight
    ensures LedgerInv(L.AfterSet(ledger, key, id, now, DAY_MS, max), inflight[key := Saving(id)], now)
  {
    L.SetKeepsOrder(ledger, key, id, now, now, DAY_MS, max);
    forall k | k in inflight && k != key && !inflight[k].Saving?
      ensures Find(L.AfterSet(ledger, key, id, now, DAY_MS, max), k).None?
    {
      L.SetAddsOneKey(ledger, key, id, now, DAY_MS, max, k);
    }
  }

  // What a write does to the part of the ledger this run has written: the new entry comes last, and at most
  // expired entries go.
  ghost predicate OwnWritten(own: L.Table, own': L.Table, key: string, id: string, now: int) {
    && Distinct(own')
    && Find(own', key) == Some(L.Saved(id, now + DAY_MS))
    && L.KeepsLiveEntries(own, own', key, now)
    && (forall at :: L.LiveCount(own', at) <= L.LiveCount(own, at) + if now + DAY_MS > at then 1 else 0)
  }

  lemma EvictionKeepsLive(own: L.Table, full: L.Table, d: nat, key: string, now: int, max: nat)
    requires L.ByExpiry(full) && d < |full| && (d == 0 || (|full| - d == max && L.LiveCount(full, now) <= max))
    requires forall e :: e in own ==> e in full
    ensures L.KeepsLiveEntries(own, full[d..], key, now)
  {
    forall e | e in own && e.key != key && L.Live(e, now) ensures e in full[d..] {
      L.LiveEntryIsKept(full, d, e, now);
    }
  }

  lemma EvictionCounts(own: L.Table, item: Item<L.Saved>, d: nat, at: int)
    requires d <= |own|
    ensures L.LiveCount(own + [item], at) == L.LiveCount(own, at) + if L.Live(item, at) then 1 else 0
    ensures L.LiveCount((own + [item])[d..], at) <= L.LiveCount(own + [item], at)
  {
    var full := own + [item];
    L.LiveCountOfConcat(own, [item], at);
    assert L.LiveCount([item], at) == if L.Live(item, at) then 1 else 0;
    L.LiveCountOfConcat(full[..d], full[d..], at);
    assert full[..d] + full[d..] == full;
  }

  lemma EvictionKeepsOwn(own: L.Table, own': L.Table, d: nat, key: string, id: string, now: int, max: nat)
    requires L.Ordered(own, now, DAY_MS) && Find(own, key).None?
    requires d <= |own| && (d == 0 || (|own| + 1 - d == max && L.LiveCount(own, now) + 1 <= max))
    requires own' == (own + [Item(key, L.Saved(id, now + DAY_MS))])[d..]
    ensures OwnWritten(own, own', key, id, now)
  {
    var item := Item(key, L.Saved(id, now + DAY_MS));
    var full := own + [item];
    L.AppendKeepsOrder(own, key, id, now, now, DAY_MS);
    EvictionCounts(own, item, d, now);
    EvictionKeepsLive(own, full, d, key, now, max);
    L.NewKeyIsFound(full, d);
    L.DropKeepsOrder(full, d, now, DAY_MS);
    forall at ensures L.LiveCount(own', at) <= L.LiveCount(own, at) + if now + DAY_MS > at then 1 else 0 {
      EvictionCounts(own, item, d, at);
    }
  }

  lemma SuffixOfSuffix(full: L.Table, left: nat, n: nat)
    requires left <= |full| && n <= |full|
    ensures full[n..][if n <= left then left - n else 0..] == full[left..][if n <= left then 0 else n - left..]
  {
  }

  // The loaded entries go first, so an entry of this run is evicted only when it has expired.
  lemma OwnAfterSave(p: Path, key: string, id: string, now: int) returns (d: nat)
    requires Find(p.ledger, key).None? && p.left <= |p.ledger| && p.config.maxKeys > 0
    ensures var r := AfterSave(p, key, id, now);
            && r.left <= |r.ledger| && d <= |p.ledger[p.left..]|
            && (d == 0 || |p.ledger[p.left..]| + 1 - d == p.config.maxKeys)
            && r.ledger[r.left..] == (p.ledger[p.left..] + [Item(key, L.Saved(id, now + DAY_MS))])[d..]
  {
    var full := L.Full(p.ledger, key, id, now + DAY_MS);
    var item := Item(key, L.Saved(id, now + DAY_MS));
    var n := L.Excess(full, p.config.maxKeys);
    assert full == p.ledger + [item];
    assert full[p.left..] == p.ledger[p.left..] + [item];
    SuffixOfSuffix(full, p.left, n);
    d := if n <= p.left then 0 else n - p.left;
  }

  lemma SaveKeepsHead(p: Path, key: string, id: string, now: int)
    requires Find(p.ledger, key).None? && HeadInv(p.ledger, p.left, p.loaded)
    ensures var r := AfterSave(p, key, id, now); r.left <= |r.ledger| ==> HeadInv(r.ledger, r.left, r.loaded)
  {
    var r := AfterSave(p, key, id, now);
    var full := L.Full(p.ledger, key, id, now + DAY_MS);
    var n := L.Excess(full, p.config.maxKeys);
    assert full[..p.left] == p.ledger[..p.left];
    if r.left <= |r.ledger| && n <= p.left {
      assert full[n..][..p.left - n] == full[..p.left][n..];
    }
  }

  lemma SaveKeepsPostsInv(own: L.Table, own': L.Table, inflight: map<string, Stage>, posts: seq<Post>,
                          key: string, id: string, now: int)
    requires PostsInv(own, inflight, posts, now)
    requires key in inflight && inflight[key] == Posted(id) && Find(own, key).None?
    requires OwnWritten(own, own', key, id, now)
    ensures PostsInv(own', inflight[key := Saving(id)], posts, now)
  {
    forall i | 0 <= i < |posts|
      ensures Remembered(posts[i], own', inflight[key := Saving(id)], now)
    {
      SaveRemembers(posts[i], own, own', inflight, key, id, now);
    }
  }

  lemma SaveRemembers(post: Post, own: L.Table, own': L.Table, inflight: map<string, Stage>,
                      key: string, id: string, now: int)
    requires Remembered(post, own, inflight, now) && post.at <= now
    requires key in inflight && inflight[key] == Posted(id) && Find(own, key).None?
    requires OwnWritten(own, own', key, id, now)
    ensures Remembered(post, own', inflight[key := Saving(id)], now)
  {
    if !Old(post, now) && post.key != key && Find(own, post.key).Some? {
      if post.at + DAY_MS <= Find(own, post.key).value.expiresAt {
        L.KeptEntryIsFound(own, own', key, now, post.key);
      }
    }
  }

  lemma SaveKeepsOwnInv(own: L.Table, own': L.Table, sets: seq<int>, key: string, id: string, now: int)
    requires OwnInv(own, sets) && OwnWritten(own, own', key, id, now)
    ensures OwnInv(own', sets + [now])
  {
    forall at ensures L.LiveCount(own', at) <= Q.Above(sets + [now], at - DAY_MS) {
      Q.AboveOfAppended(sets, now, at - DAY_MS);
      assert L.LiveCount(own, at) <= Q.Above(sets, at - DAY_MS);
    }
  }

  lemma OwnHasRoom(own: L.Table, log: seq<int>, posts: seq<int>, sets: seq<int>, running: bool,
                   config: Config, now: int)
    requires OwnInv(own, sets) && CountInv(log, posts, sets, running, true) && Roomy(config)
    requires Q.Capped(log, config.limits.maxPerHour) && Q.NotAfter(log, now)
    ensures L.LiveCount(own, now) + 1 <= config.maxKeys
  {
    DayOfWrites(log, posts, sets, running, config.limits.maxPerHour, now);
    assert L.LiveCount(own, now) <= Q.Above(sets, now - DAY_MS);
  }

  lemma SaveKeepsOwn(p: Path, key: string, id: string, now: int)
    requires L.Ordered(p.ledger, now, DAY_MS) && Find(p.ledger, key).None? && p.left <= |p.ledger|
    requires L.LiveCount(p.ledger[p.left..], now) + 1 <= p.config.maxKeys
    requires OwnInv(p.ledger[p.left..], p.setTimes) && PostsInv(p.ledger[p.left..], p.inflight, p.posts, now)
    requires key in p.inflight && p.inflight[key] == Posted(id)
    ensures var r := AfterSave(p, key, id, now);
            && r.left <= |r.ledger|
            && OwnInv(r.ledger[r.left..], r.setTimes) && PostsInv(r.ledger[r.left..], r.inflight, r.posts, now)
  {
    var own := p.ledger[p.left..];
    var r := AfterSave(p, key, id, now);
    L.DropKeepsOrder(p.ledger, p.left, now, DAY_MS);
    DropIsExact(p.ledger, p.left, key);
    var d := OwnAfterSave(p, key, id, now);
    EvictionKeepsOwn(own, r.ledger[r.left..], d, key, id, now, p.config.maxKeys);
    SaveKeepsPostsInv(own, r.ledger[r.left..], p.inflight, p.posts, key, id, now);
    SaveKeepsOwnInv(own, r.ledger[r.left..], p.setTimes, key, id, now);
  }

  lemma SaveKeepsInv(p: Path, key: string, now: int)
    requires Inv(p) && p.clock == now && key in p.inflight && p.inflight[key].Posted?
    ensures Inv(AfterSave(p, key, p.inflight[key].msgId, now))
  {
    var id := p.inflight[key].msgId;
    assert AnyPosted(p.inflight);
    OwnHasRoom(p.ledger[p.left..], p.log, Times(p.posts), p.setTimes, p.queue.phase.Running?, p.config, now);
    SaveKeepsOwn(p, key, id, now);
    SaveKeepsHead(p, key, id, now);
    SaveKeepsLedgerInv(p.ledger, p.inflight, key, id, now, p.config.maxKeys);
    SaveKeepsCounts(p.log, Times(p.posts), p.setTimes, p.queue.phase.Running?, now);
    SaveKeepsLiveInv(p.ledger, p.loaded, p.setTimes, key, id, now, p.config.maxKeys);
    assert !AnyPosted(p.inflight[key := Saving(id)]);
  }

  lemma ResolveKeepsInv(p: Path, key: string)
    requires Inv(p) && key in p.inflight && (p.inflight[key].Saving? || p.inflight[key].Failed?)
    ensures Inv(p.(inflight := p.inflight - {key}))
  {
    var inflight' := p.inflight - {key};
    assert AnyPosted(inflight') == AnyPosted(p.inflight) by {
      if AnyPosted(p.inflight) {
        var k :| k in p.inflight && p.inflight[k].Posted?;
        assert k in inflight' && inflight'[k].Posted?;
      }
    }
  }

  lemma StepKeepsInv(p: Path, e: Event, now: int)
    requires Inv(p)
    ensures Inv(Step(p, e, now))
  {
    if Enabled(p, e, now) {
      var p1 := p.(clock := now);
      assert Inv(p1) by { TickKeepsInv(p, now); }
      match e
      case Send(key, online) => SendKeepsInv(p1, key, online, now);
      case Begin(random) => BeginKeepsInv(p1, random, now);
      case Wake =>
      case Check(ticks) => CheckKeepsInv(p, ticks, now);
      case Finish(result) => FinishKeepsInv(p1, result, now);
      case Lower => assert Tasks(Q.Lowered(p1.queue)) == Tasks(p1.queue);
      case Save(key) => SaveKeepsInv(p1, key, now);
      case Resolve(key) => ResolveKeepsInv(p1, key);
    }
  }

  lemma {:induction false} RunKeepsInv(p: Path, events: seq<Timed>)
    requires Inv(p)
    ensures Inv(Run(p, events))
    decreases events
  {
    if events != [] {
      StepKeepsInv(p, events[0].e, events[0].at);
      RunKeepsInv(Step(p, events[0].e, events[0].at), events[1..]);
    }
  }

  // A ledger that was loaded is in order, and no key in it outlives its day.
  lemma InitialInv(config: Config, ledger: L.Table, now: int)
    requires Roomy(config) && L.Ordered(ledger, now, DAY_MS)
    ensures Inv(Initial(config, ledger, now))
  {
    assert Times([]) == [] && ledger[|ledger|..] == [] && ledger[..|ledger|] == ledger;
  }

  // ---------------------------------------------------------------------------------- main results

  const SHIPPED := Config(Q.Limits(1_500, 1_000, MAX_PER_HOUR), MAX_KEYS)

  // The moment right before a write of the ledger.
  predicate AboutToSave(p: Path, key: string, now: int) {
    p.clock <= now && key in p.inflight && p.inflight[key].Posted?
  }

  // The loaded keys that are still within their day after `k` hours.
  function LiveAfter(loaded: L.Table, since: int, k: nat): nat {
    L.LiveCount(loaded, since + k * HOUR_MS)
  }

  // In each hour of the first day there is room for the loaded keys that are left, and for all that can have
  // been started by then.
  ghost predicate HasRoom(config: Config, loaded: L.Table, since: int) {
    forall k: nat :: k < 24 ==> LiveAfter(loaded, since, k) + config.limits.maxPerHour * (k + 1) <= config.maxKeys
  }

  // Keys that are live at the moment of a write, in the hour `k` after the start.
  lemma LiveInHour(ledger: L.Table, loaded: L.Table, log: seq<int>, sets: seq<int>, max: nat,
                   since: int, k: nat, now: int)
    requires LiveInv(ledger, loaded, sets) && |sets| < |log|
    requires Q.Capped(log, max) && Q.NotAfter(log, now) && NotBefore(log, since)
    requires since + k * HOUR_MS <= now < since + (k + 1) * HOUR_MS
    ensures L.LiveCount(ledger, now) + 1 <= LiveAfter(loaded, since, k) + max * (k + 1)
  {
    FirstHours(log, max, since, k + 1, now);
    assert L.LiveCount(ledger, now) <= L.LiveCount(loaded, now) + Q.Above(sets, now - DAY_MS);
    Q.AboveIsAtMostLength(sets, now - DAY_MS);
    L.FewerLiveLater(loaded, since + k * HOUR_MS, now);
  }

  lemma WriteHasRoom(config: Config, loaded: L.Table, since: int, ledger: L.Table, log: seq<int>, posts: seq<int>,
                     sets: seq<int>, running: bool, key: string, now: int)
    requires Roomy(config) && L.Ordered(loaded, since, DAY_MS) && HasRoom(config, loaded, since) && since <= now
    requires LiveInv(ledger, loaded, sets) && CountInv(log, posts, sets, running, true)
    requires Q.Capped(log, config.limits.maxPerHour) && Q.NotAfter(log, now) && NotBefore(log, since)
    ensures L.LiveCount(Delete(ledger, key), now) + 1 <= config.maxKeys
  {
    L.DeleteIsFewer(ledger, key, now);
    if now < since + DAY_MS {
      var k := (now - since) / HOUR_MS;
      LiveInHour(ledger, loaded, log, sets, config.limits.maxPerHour, since, k, now);
      assert k < 24 && LiveAfter(loaded, since, k) + config.limits.maxPerHour * (k + 1) <= config.maxKeys;
    } else {
      DayOfWrites(log, posts, sets, running, config.limits.maxPerHour, now);
      assert L.LiveCount(ledger, now) <= L.LiveCount(loaded, now) + Q.Above(sets, now - DAY_MS);
      L.NoneLive(loaded, now);
    }
  }

  lemma WriteKeepsLiveEntries(p: Path, key: string, now: int)
    requires Inv(p) && HasRoom(p.config, p.loaded, p.since) && AboutToSave(p, key, now)
    ensures L.KeepsLiveEntries(p.ledger, Step(p, Save(key), now).ledger, key, now)
  {
    var ledger' := Step(p, Save(key), now).ledger;
    assert ledger' == L.AfterSet(p.ledger, key, p.inflight[key].msgId, now, DAY_MS, p.config.maxKeys);
    assert AnyPosted(p.inflight);
    WriteHasRoom(p.config, p.loaded, p.since, p.ledger, p.log, Times(p.posts), p.setTimes,
                 p.queue.phase.Running?, key, now);
    L.SetForgetsLiveEntryExactly(p.ledger, key, p.inflight[key].msgId, p.clock, now, DAY_MS, p.config.maxKeys);
  }

  lemma OwnEntryStays(p: Path, key: string, id: string, now: int, x: Item<L.Saved>)
    requires p.left <= |p.ledger| && x in p.ledger[p.left..] && L.Live(x, now)
    requires L.Ordered(p.ledger[p.left..], now, DAY_MS) && Find(p.ledger[p.left..], key).None?
    requires Find(p.ledger, key).None? && L.LiveCount(p.ledger[p.left..], now) + 1 <= p.config.maxKeys
    ensures x in AfterSave(p, key, id, now).ledger
  {
    var own := p.ledger[p.left..];
    var r := AfterSave(p, key, id, now);
    var d := OwnAfterSave(p, key, id, now);
    EvictionKeepsOwn(own, r.ledger[r.left..], d, key, id, now, p.config.maxKeys);
    KeyOfEntry(own, x, key);
    assert x in r.ledger[r.left..];
  }

  lemma OwnRoomAtSave(p: Path, now: int)
    requires p.left <= |p.ledger| && RateInv(p) && AnyPosted(p.inflight) && p.clock <= now
    requires OwnInv(p.ledger[p.left..], p.setTimes)
    ensures L.LiveCount(p.ledger[p.left..], now) + 1 <= p.config.maxKeys
  {
    OwnHasRoom(p.ledger[p.left..], p.log, Times(p.posts), p.setTimes, p.queue.phase.Running?, p.config, now);
  }

  lemma OwnOrderAtSave(ledger: L.Table, left: nat, inflight: map<string, Stage>, was: int, key: string, now: int)
    requires LedgerInv(ledger, inflight, was) && was <= now && left <= |ledger|
    requires key in inflight && !inflight[key].Saving?
    ensures Find(ledger, key).None? && Find(ledger[left..], key).None? && L.Ordered(ledger[left..], now, DAY_MS)
  {
    DropIsExact(ledger, left, key);
  }

  lemma SaveStep(p: Path, key: string, now: int)
    requires AboutToSave(p, key, now)
    ensures Step(p, Save(key), now) == AfterSave(p.(clock := now), key, p.inflight[key].msgId, now)
  {
  }

  lemma OwnStaysAtSave(p: Path, key: string, id: string, now: int, x: Item<L.Saved>)
    requires HeadInv(p.ledger, p.left, p.loaded) && RateInv(p) && LedgerInv(p.ledger, p.inflight, p.clock)
    requires p.clock <= now && AnyPosted(p.inflight) && key in p.inflight && !p.inflight[key].Saving?
    requires OwnInv(p.ledger[p.left..], p.setTimes) && x in p.ledger[p.left..] && L.Live(x, now)
    ensures x in AfterSave(p, key, id, now).ledger
  {
    OwnRoomAtSave(p, now);
    OwnOrderAtSave(p.ledger, p.left, p.inflight, p.clock, key, now);
    OwnEntryStays(p, key, id, now, x);
  }

  // What a run has written itself, no write of it forgets within its day, whatever ledger was loaded.
  lemma OwnIsNotForgotten(p: Path, key: string, now: int, x: Item<L.Saved>)
    requires Inv(p) && AboutToSave(p, key, now)
    requires x in p.ledger[p.left..] && L.Live(x, now)
    ensures x in Step(p, Save(key), now).ledger
  {
    assert AnyPosted(p.inflight);
    OwnStaysAtSave(p, key, p.inflight[key].msgId, now, x);
    SaveStep(p, key, now);
  }

  // So what a write forgets early is a loaded key.
  lemma ForgottenIsLoaded(p: Path, key: string, now: int, x: Item<L.Saved>)
    requires Inv(p) && AboutToSave(p, key, now)
    requires x in p.ledger && L.Live(x, now) && x !in Step(p, Save(key), now).ledger
    ensures x in p.loaded
  {
    if x in p.ledger[p.left..] {
      OwnIsNotForgotten(p, key, now, x);
    }
    assert p.ledger == p.ledger[..p.left] + p.ledger[p.left..];
  }

  lemma KeyOfEntry(m: L.Table, x: Item<L.Saved>, key: string)
    requires x in m && Find(m, key).None?
    ensures x.key != key
  {
  }

  // If the loaded ledger leaves room, no write of the run forgets a key that is still within its day.
  lemma NoKeyIsForgottenEarly(config: Config, ledger: L.Table, now0: int, events: seq<Timed>, key: string, now: int)
    requires Roomy(config) && L.Ordered(ledger, now0, DAY_MS) && HasRoom(config, ledger, now0)
    requires AboutToSave(Run(Initial(config, ledger, now0), events), key, now)
    ensures var p := Run(Initial(config, ledger, now0), events);
            L.KeepsLiveEntries(p.ledger, Step(p, Save(key), now).ledger, key, now)
  {
    InitialInv(config, ledger, now0);
    RunKeepsInv(Initial(config, ledger, now0), events);
    ConfigStays(Initial(config, ledger, now0), events);
    WriteKeepsLiveEntries(Run(Initial(config, ledger, now0), events), key, now);
  }

  // A loaded key that is within its day is in the ledger and has no flight; and no post of this run has a
  // loaded key before its day is over.
  ghost predicate LoadedInv(p: Path) {
    && (forall e :: e in p.loaded && L.Live(e, p.clock) ==> e in p.ledger && e.key !in p.inflight)
    && (forall e, i :: e in p.loaded && 0 <= i < |p.posts| && p.posts[i].key == e.key ==>
          e.value.expiresAt <= p.posts[i].at)
  }

  lemma OtherStays(m: L.Table, i: nat, j: nat)
    requires i < |m| && j < |m| && i != j
    ensures m[i] in RemoveAt(m, j)
  {
    assert RemoveAt(m, j)[if i < j then i else i - 1] == m[i];
  }

  // A live entry survives a lookup, which answers with it if it is asked for its key.
  lemma LookupKeepsLive(m: L.Table, key: string, e: Item<L.Saved>, now: int)
    requires Distinct(m) && e in m && L.Live(e, now)
    ensures e in L.AfterGet(m, key, now)
    ensures e.key == key ==> L.Answer(m, key, now) == Some(e.value.msgId)
  {
    var i :| 0 <= i < |m| && m[i] == e;
    var j := IndexOf(m, key);
    if e.key == key {
      FindIs(m, i);
    } else if j < |m| {
      OtherStays(m, i, j);
    }
  }

  lemma SendKeepsLoadedInv(p: Path, key: string, online: bool, now: int)
    requires Distinct(p.ledger) && LoadedInv(p) && p.clock == now
    ensures LoadedInv(AfterSend(p, key, online, now))
  {
    var r := AfterSend(p, key, online, now);
    forall e | e in p.loaded && L.Live(e, now) ensures e in r.ledger && e.key !in r.inflight {
      LookupKeepsLive(p.ledger, key, e, now);
    }
  }

  lemma FinishKeepsLoadedInv(p: Path, result: Option<string>, now: int)
    requires Inv(p) && LoadedInv(p) && p.clock == now && p.queue.phase.Running?
    ensures LoadedInv(AfterFinish(p, result, now))
  {
    assert Tasks(p.queue)[0] == p.queue.phase.task;
    assert p.queue.phase.task in Tasks(p.queue);
  }

  lemma StepKeepsLoadedInv(p: Path, e: Event, now: int)
    requires Inv(p) && HasRoom(p.config, p.loaded, p.since) && LoadedInv(p)
    ensures LoadedInv(Step(p, e, now))
  {
    if Enabled(p, e, now) {
      var p1 := p.(clock := now);
      assert Inv(p1) by { TickKeepsInv(p, now); }
      assert LoadedInv(p1);
      match e
      case Send(key, online) => SendKeepsLoadedInv(p1, key, online, now);
      case Finish(result) => FinishKeepsLoadedInv(p1, result, now);
      case Save(key) => WriteKeepsLiveEntries(p, key, now);
      case _ =>
    }
  }

  // A process whose loaded ledger left room.
  ghost predicate RoomInv(p: Path) {
    Inv(p) && HasRoom(p.config, p.loaded, p.since) && LoadedInv(p)
  }

  lemma StepKeepsRoomInv(p: Path, e: Event, now: int)
    requires RoomInv(p)
    ensures RoomInv(Step(p, e, now))
  {
    StepKeepsInv(p, e, now);
    StepKeepsLoadedInv(p, e, now);
    StepKeepsStart(p, e, now);
  }

  lemma {:induction false} RunKeepsRoomInv(p: Path, events: seq<Timed>)
    requires RoomInv(p)
    ensures RoomInv(Run(p, events))
    decreases events
  {
    if events != [] {
      StepKeepsRoomInv(p, events[0].e, events[0].at);
      RunKeepsRoomInv(Step(p, events[0].e, events[0].at), events[1..]);
    }
  }

  // With room, no step forgets an entry within its day.
  lemma StepKeepsLive(p: Path, e: Event, now: int, x: Item<L.Saved>)
    requires Inv(p) && HasRoom(p.config, p.loaded, p.since) && p.clock <= now && x in p.ledger && L.Live(x, now)
    ensures x in Step(p, e, now).ledger
  {
    if Enabled(p, e, now) {
      match e
      case Send(key, online) => LookupKeepsLive(p.ledger, key, x, now);
      case Save(key) =>
        var i :| 0 <= i < |p.ledger| && p.ledger[i] == x;
        FindIs(p.ledger, i);
        WriteKeepsLiveEntries(p, key, now);
      case _ =>
    }
  }

  lemma SavedIsThere(p: Path, key: string, now: int)
    requires Roomy(p.config) && AboutToSave(p, key, now)
    ensures Item(key, L.Saved(p.inflight[key].msgId, now + DAY_MS)) in Step(p, Save(key), now).ledger
  {
    SaveStep(p, key, now);
    L.SetIsThere(p.ledger, key, p.inflight[key].msgId, now, DAY_MS, p.config.maxKeys);
  }

  lemma LoadedKeyIsAnswered(p: Path, e: Item<L.Saved>, now: int)
    requires Distinct(p.ledger) && LoadedInv(p) && e in p.loaded && p.clock <= now && L.Live(e, now)
    ensures ReplyTo(p, e.key, now) == Done(e.value.msgId)
  {
    LookupKeepsLive(p.ledger, e.key, e, now);
  }

  // If the loaded ledger leaves room, a key loaded with it is answered with its id until its day is over,
  // and is not posted again before.
  lemma LoadedKeysAreAnswered(config: Config, ledger: L.Table, now0: int, events: seq<Timed>,
                              e: Item<L.Saved>, now: int)
    requires Roomy(config) && L.Ordered(ledger, now0, DAY_MS) && HasRoom(config, ledger, now0) && e in ledger
    ensures var p := Run(Initial(config, ledger, now0), events);
            && (p.clock <= now && L.Live(e, now) ==> ReplyTo(p, e.key, now) == Done(e.value.msgId))
            && (forall i :: 0 <= i < |p.posts| && p.posts[i].key == e.key ==> e.value.expiresAt <= p.posts[i].at)
  {
    var p0 := Initial(config, ledger, now0);
    var p := Run(p0, events);
    InitialInv(config, ledger, now0);
    ConfigStays(p0, events);
    assert LoadedInv(p0);
    assert Distinct(p.ledger) && LoadedInv(p) by { RunKeepsRoomInv(p0, events); }
    if p.clock <= now && L.Live(e, now) {
      LoadedKeyIsAnswered(p, e, now);
    }
  }

  lemma StepKeepsStart(p: Path, e: Event, now: int)
    ensures var r := Step(p, e, now); r.config == p.config && r.loaded == p.loaded && r.since == p.since
  {
  }

  lemma StepMovesTheClock(p: Path, e: Event, now: int)
    requires Enabled(p, e, now)
    ensures Step(p, e, now).clock == now
  {
  }

  lemma {:induction false} ConfigStays(p: Path, events: seq<Timed>)
    ensures Run(p, events).config == p.config && Run(p, events).loaded == p.loaded && Run(p, events).since == p.since
    decreases events
  {
    if events != [] {
      var r := Step(p, events[0].e, events[0].at);
      StepKeepsStart(p, events[0].e, events[0].at);
      ConfigStays(r, events[1..]);
    }
  }

  // Two successful posts with the same key are at least a day apart, whatever calls, failures and delays
  // come in between; and no sliding hour has more starts than the cap.
  lemma AtMostOnePostPerKeyAndDay(config: Config, ledger: L.Table, now0: int, events: seq<Timed>)
    requires Roomy(config) && L.Ordered(ledger, now0, DAY_MS)
    ensures OncePerDay(Run(Initial(config, ledger, now0), events).posts)
    ensures Q.Capped(Run(Initial(config, ledger, now0), events).log, config.limits.maxPerHour)
  {
    InitialInv(config, ledger, now0);
    RunKeepsInv(Initial(config, ledger, now0), events);
    ConfigStays(Initial(config, ledger, now0), events);
  }

  // For a day after a post, every caller with its key gets its message id: at once from the ledger, or by
  // joining the flight that carries it.
  lemma EveryCallerGetsTheSameId(config: Config, ledger: L.Table, now0: int, events: seq<Timed>, i: nat, now: int)
    requires Roomy(config) && L.Ordered(ledger, now0, DAY_MS)
    requires var p := Run(Initial(config, ledger, now0), events);
             i < |p.posts| && p.clock <= now < p.posts[i].at + DAY_MS
    ensures var p := Run(Initial(config, ledger, now0), events);
            var id := p.posts[i].msgId;
            ReplyTo(p, p.posts[i].key, now) in {Done(id), Joined(Posted(id)), Joined(Saving(id))}
  {
    InitialInv(config, ledger, now0);
    RunKeepsInv(Initial(config, ledger, now0), events);
    var p := Run(Initial(config, ledger, now0), events);
    var own := p.ledger[p.left..];
    LaterKeepsPostsInv(own, p.inflight, p.posts, p.clock, now);
    assert Remembered(p.posts[i], own, p.inflight, now);
    DropIsExact(p.ledger, p.left, p.posts[i].key);
  }

  // What a call of `send` does. A key that the ledger answers, or that has a flight, changes nothing but what
  // the lookup forgets; any other opens a flight: queued last while connected, failed at once else.
  lemma SendDecides(p: Path, key: string, online: bool, now: int)
    requires Inv(p) && p.clock <= now
    ensures var r := Step(p, Send(key, online), now);
            var known := L.Answer(p.ledger, key, now).Some? || key in p.inflight;
            && (ReplyTo(p, key, now).Opened? <==> !known)
            && r.posts == p.posts && r.setTimes == p.setTimes && r.log == p.log
            && r.ledger == L.AfterGet(p.ledger, key, now)
            && r.inflight == (if known then p.inflight else p.inflight[key := if online then Queued else Failed])
            && Tasks(r.queue) == (if known || !online then Tasks(p.queue) else Tasks(p.queue) + [key])
  {
  }

  // How a send ends: with a post of its key and the id Zalo gave it, or failed. The queue is free either way.
  lemma FinishDecides(p: Path, result: Option<string>, now: int)
    requires Inv(p) && Enabled(p, Finish(result), now)
    ensures var r := Step(p, Finish(result), now);
            var key := p.queue.phase.task;
            && r.queue.phase.Idle? && r.queue.waiting == p.queue.waiting && r.ledger == p.ledger
            && (match result
                case None => r.posts == p.posts && r.inflight == p.inflight[key := Failed]
                case Some(id) =>
                  r.posts == p.posts + [Post(key, id, now)] && r.inflight == p.inflight[key := Posted(id)])
  {
  }

  // A send whose message is posted enters the ledger under its key, with its id, for a day.
  lemma SaveDecides(p: Path, key: string, now: int)
    requires Roomy(p.config) && L.Ordered(p.ledger, p.clock, DAY_MS) && AboutToSave(p, key, now)
    ensures var r := Step(p, Save(key), now);
            && Find(r.ledger, key) == Some(L.Saved(p.inflight[key].msgId, now + DAY_MS))
            && r.inflight == p.inflight[key := Saving(p.inflight[key].msgId)]
            && r.queue == p.queue && r.posts == p.posts
  {
    SaveStep(p, key, now);
    L.SetIsFound(p.ledger, key, p.inflight[key].msgId, p.clock, now, DAY_MS, p.config.maxKeys);
  }

  // A flight that is through leaves the table when it resolves, and nothing else does.
  lemma ResolveDecides(p: Path, key: string, now: int)
    requires Enabled(p, Resolve(key), now)
    ensures Step(p, Resolve(key), now) == p.(clock := now, inflight := p.inflight - {key})
  {
  }

  // A flight that carries a message id keeps it until it resolves with it.
  lemma FlightKeepsItsId(p: Path, e: Event, now: int, key: string)
    requires FlightInv(Tasks(p.queue), p.inflight)
    requires key in p.inflight && (p.inflight[key].Posted? || p.inflight[key].Saving?)
    ensures var r := Step(p, e, now);
            if e == Resolve(key) && p.inflight[key].Saving? && p.clock <= now then key !in r.inflight
            else key in r.inflight && (r.inflight[key].Posted? || r.inflight[key].Saving?)
                 && r.inflight[key].msgId == p.inflight[key].msgId
  {
    if Enabled(p, e, now) {
      match e
      case Send(k, online) => assert AfterSend(p.(clock := now), k, online, now).inflight[key] == p.inflight[key];
      case Finish(result) =>
        assert Tasks(p.queue)[0] == p.queue.phase.task;
        assert p.queue.phase.task in Tasks(p.queue);
      case _ =>
    }
  }

  // A post is made for a key only when no post of the last day has it: the send was accepted at a moment
  // when neither the ledger nor a flight knew the key.
  lemma PostsOnlyForgottenKeys(p: Path, result: Option<string>, now: int, i: nat)
    requires Inv(p) && Enabled(p, Finish(result), now) && i < |p.posts|
    requires p.posts[i].key == p.queue.phase.task
    ensures p.posts[i].at + DAY_MS <= p.clock
  {
    assert Tasks(p.queue)[0] == p.queue.phase.task;
    assert p.queue.phase.task in Tasks(p.queue);
  }

  lemma {:induction false} RunThenStep(p: Path, events: seq<Timed>, e: Event, now: int)
    ensures Run(p, events + [Timed(e, now)]) == Step(Run(p, events), e, now)
    decreases events
  {
    if events == [] {
      assert Run(Step(p, e, now), []) == Step(p, e, now);
    } else {
      RunThenStep(Step(p, events[0].e, events[0].at), events[1..], e, now);
      assert (events + [Timed(e, now)])[1..] == events[1..] + [Timed(e, now)];
    }
  }

  // Some run of a process that started with this ledger, at this time, leads here.
  ghost predicate Reachable(p: Path, ledger: L.Table, now0: int) {
    exists events :: p == Run(Initial(p.config, ledger, now0), events)
  }

  lemma StepIsReachable(p: Path, e: Event, now: int, ledger: L.Table, now0: int)
    requires Reachable(p, ledger, now0)
    ensures Reachable(Step(p, e, now), ledger, now0)
  {
    var events :| p == Run(Initial(p.config, ledger, now0), events);
    RunThenStep(Initial(p.config, ledger, now0), events, e, now);
    assert Step(p, e, now).config == p.config;
    assert Step(p, e, now) == Run(Initial(p.config, ledger, now0), events + [Timed(e, now)]);
  }
}
