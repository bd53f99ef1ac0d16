/**
The outbox: events are written to disk before they are posted, and stay until the API takes or refuses
them or they are a day old. Writes run one at a time and take their snapshot when they start; flush
passes never overlap; pushes and crashes may come at any await.

A `tag` stands for the push an event came from. No operation looks at it: it is the identity of the
entry object in memory, and in a row it only says which push the row is about.
*/
module Outbox {
  import opened Options
  import opened Backoff
  import opened Clock
  import M = InsertionMap

  const BASE_BACKOFF_MS := 5_000
  const MAX_BACKOFF_MS := 600_000
  const MAX_AGE_MS := DAY_MS
  const MAX_POSTS := 150

  datatype Entry = Entry(tag: nat, event: string, at: int, attempts: nat, nextAt: int)

  datatype Row = Row(tag: nat, at: int, event: string)

  datatype PostResult = Ok | Retry | Drop

  // Who asked for a write: the push of an entry, or the end of a flush pass.
  datatype Request = ForPush(row: Row) | ForPass

  datatype Write = NoWrite | Writing(req: Request, body: seq<Row>, applied: bool)

  // A pass goes through the entries present at its start: the ones visited, the one being posted and the
  // ones still to do. `Closing`: waiting for its own write.
  datatype Pass =
    | NoPass
    | Pass(snapshot: seq<nat>, visited: seq<nat>, todo: seq<nat>, posting: Option<nat>, changed: bool)
    | Closing

  // Every event this process took over, and how those that left it left.
  datatype Books = Books(accepted: seq<Row>, delivered: seq<Row>, refused: seq<Row>, aged: seq<Row>)

  // `acked`: events whose push resolved, as they were pushed; `posted`: those the API took or refused;
  // `expired`: those discarded for their age. These three run over all processes.
  datatype Box = Box(
    up: bool,
    clock: int,
    entries: seq<Entry>,
    pass: Pass,
    chain: seq<Request>,
    write: Write,
    droppedCount: nat,
    disk: seq<Row>,
    nextTag: nat,
    acked: set<Row>,
    posted: set<Row>,
    expired: set<Row>,
    books: Books)

  datatype Event =
    | Push(event: string)
    | BeginWrite
    | Rename
    | EndWrite
    | BeginPass
    | Visit
    | EndPost(result: PostResult)
    | EndPass
    | Crash
    | Restart

  function BackoffMs(attempts: nat): int
    requires attempts > 0
  {
    Delay(BASE_BACKOFF_MS, MAX_BACKOFF_MS, attempts)
  }

  // ------------------------------------------------------------------------------- entries and rows

  function RowOf(e: Entry): Row {
    Row(e.tag, e.at, e.event)
  }

  function Body(entries: seq<Entry>): seq<Row> {
    seq(|entries|, i requires 0 <= i < |entries| => RowOf(entries[i]))
  }

  function LoadRows(rows: seq<Row>, now: int): seq<Entry> {
    seq(|rows|, i requires 0 <= i < |rows| => Entry(rows[i].tag, rows[i].event, rows[i].at, 0, now))
  }

  function Tags(entries: seq<Entry>): seq<nat> {
    seq(|entries|, i requires 0 <= i < |entries| => entries[i].tag)
  }

  function IndexOf(entries: seq<Entry>, tag: nat): (i: nat)
    ensures i <= |entries|
    ensures i < |entries| ==> entries[i].tag == tag
    ensures forall j :: 0 <= j < i ==> entries[j].tag != tag
  {
    if entries == [] || entries[0].tag == tag then 0 else 1 + IndexOf(entries[1..], tag)
  }

  predicate TooOld(e: Entry, now: int) {
    now - e.at > MAX_AGE_MS
  }

  // ---------------------------------------------------------------------------------------- steps

  function AfterPush(b: Box, event: string): Box {
    b.(entries := b.entries + [Entry(b.nextTag, event, b.clock, 0, b.clock)],
       chain := b.chain + [ForPush(Row(b.nextTag, b.clock, event))],
       nextTag := b.nextTag + 1,
       books := b.books.(accepted := b.books.accepted + [Row(b.nextTag, b.clock, event)]))
  }

  function AfterBeginWrite(b: Box): Box
    requires b.chain != []
  {
    b.(chain := b.chain[1..], write := Writing(b.chain[0], Body(b.entries), false))
  }

  // The write settled. It resolved if and only if its rename took place.
  function AfterEndWrite(b: Box): Box
    requires b.write.Writing?
  {
    match b.write.req
    case ForPush(row) => b.(write := NoWrite, acked := if b.write.applied then b.acked + {row} else b.acked)
    case ForPass => b.(write := NoWrite, pass := if b.pass.Closing? then NoPass else b.pass)
  }

  function AfterBeginPass(b: Box): Box {
    if b.pass.NoPass? then b.(pass := Pass(Tags(b.entries), [], Tags(b.entries), None, false)) else b
  }

  function LeavePosted(b: Box, i: nat, books: Books): Box
    requires i < |b.entries|
  {
    b.(entries := M.RemoveAt(b.entries, i), posted := b.posted + {RowOf(b.entries[i])}, books := books)
  }

  function LeaveExpired(b: Box, i: nat): Box
    requires i < |b.entries|
  {
    var row := RowOf(b.entries[i]);
    b.(entries := M.RemoveAt(b.entries, i), expired := b.expired + {row}, droppedCount := b.droppedCount + 1,
       books := b.books.(aged := b.books.aged + [row]))
  }

  // One turn of the loop of a pass, up to the await of a post.
  function AfterVisit(b: Box): Box
    requires b.pass.Pass? && b.pass.todo != []
  {
    var tag := b.pass.todo[0];
    var i := IndexOf(b.entries, tag);
    var pass := b.pass.(todo := b.pass.todo[1..], visited := b.pass.visited + [tag]);
    if i >= |b.entries| then b.(pass := pass)
    else
      var e := b.entries[i];
      if TooOld(e, b.clock) then LeaveExpired(b, i).(pass := pass.(changed := true))
      else if e.nextAt > b.clock then b.(pass := pass)
      else b.(pass := pass.(posting := Some(tag)))
  }

  function Delayed(e: Entry, now: int): Entry {
    e.(attempts := e.attempts + 1, nextAt := now + BackoffMs(e.attempts + 1))
  }

  function AfterEndPost(b: Box, result: PostResult): Box
    requires b.pass.Pass? && b.pass.posting.Some?
  {
    var i := IndexOf(b.entries, b.pass.posting.value);
    var b1 := b.(pass := b.pass.(posting := None, changed := true));
    if i >= |b.entries| then b1
    else
      var e := b.entries[i];
      match result
      case Retry => b1.(entries := b.entries[i := Delayed(e, b.clock)])
      case Ok => LeavePosted(b1, i, b.books.(delivered := b.books.delivered + [RowOf(e)]))
      case Drop => LeavePosted(b1, i, b.books.(refused := b.books.refused + [RowOf(e)]))
  }

  function AfterEndPass(b: Box): Box
    requires b.pass.Pass?
  {
    if b.pass.changed then b.(pass := Closing, chain := b.chain + [ForPass]) else b.(pass := NoPass)
  }

  function AfterCrash(b: Box): Box {
    b.(up := false, entries := [], pass := NoPass, chain := [], write := NoWrite)
  }

  function AfterRestart(b: Box): Box {
    b.(up := true, entries := LoadRows(b.disk, b.clock), droppedCount := 0, books := Books(b.disk, [], [], []))
  }

  predicate Possible(b: Box, e: Event) {
    match e
    case Push(_) => b.up
    case BeginWrite => b.up && b.write.NoWrite? && b.chain != []
    case Rename => b.up && b.write.Writing? && !b.write.applied
    case EndWrite => b.up && b.write.Writing?
    case BeginPass => b.up
    case Visit => b.up && b.pass.Pass? && b.pass.posting.None? && b.pass.todo != []
    case EndPost(_) => b.up && b.pass.Pass? && b.pass.posting.Some?
    case EndPass => b.up && b.pass.Pass? && b.pass.posting.None? && b.pass.todo == []
    case Crash => b.up
    case Restart => !b.up
  }

  function Perform(b: Box, e: Event): Box
    requires Possible(b, e)
  {
    match e
    case Push(event) => AfterPush(b, event)
    case BeginWrite => AfterBeginWrite(b)
    case Rename => b.(disk := b.write.body, write := b.write.(applied := true))
    case EndWrite => AfterEndWrite(b)
    case BeginPass => AfterBeginPass(b)
    case Visit => AfterVisit(b)
    case EndPost(result) => AfterEndPost(b, result)
    case EndPass => AfterEndPass(b)
    case Crash => AfterCrash(b)
    case Restart => AfterRestart(b)
  }

  function Step(b: Box, e: Event, now: int): Box {
    if b.clock <= now && Possible(b, e) then Perform(b.(clock := now), e) else b
  }

  datatype Timed = Timed(e: Event, at: int)

  function Run(b: Box, events: seq<Timed>): Box
    decreases events
  {
    if events == [] then b else Run(Step(b, events[0].e, events[0].at), events[1..])
  }

  // The machine before the first start, over a file with the given rows; their tags are their positions.
  function Initial(rows: seq<Row>, now: int): Box {
    Box(false, now, [], NoPass, [], NoWrite, 0, rows, |rows|, {}, {}, {}, Books([], [], [], []))
  }

  ghost predicate GoodFile(rows: seq<Row>, now: int) {
    forall i :: 0 <= i < |rows| ==> rows[i].tag == i && rows[i].at <= now
  }

  // --------------------------------------------------------------------------------- retry arithmetic

  // The least time between the first post of an entry and its post after `n` retries.
  function TotalDelay(n: nat): int {
    if n == 0 then 0 else TotalDelay(n - 1) + BackoffMs(n)
  }

  // 5 s doubling to 320 s, then 600 s: delays never shrink and never pass ten minutes.
  lemma DelayShape(n: nat)
    requires n > 0
    ensures BASE_BACKOFF_MS <= BackoffMs(n) <= BackoffMs(n + 1) <= MAX_BACKOFF_MS
    ensures n < 7 ==> BackoffMs(n + 1) == 2 * BackoffMs(n)
    ensures BackoffMs(n) == MAX_BACKOFF_MS <==> n >= 8
  {
    assert Pow2(0) == 1 && Pow2(1) == 2 && Pow2(2) == 4 && Pow2(3) == 8;
    assert Pow2(4) == 16 && Pow2(5) == 32 && Pow2(6) == 64 && Pow2(7) == 128;
    if n >= 8 {
      Pow2Grows(7, n - 1);
    }
  }

  lemma {:induction false} TotalDelayIs(n: nat)
    requires n >= 7
    ensures TotalDelay(n) == 635_000 + (n - 7) * MAX_BACKOFF_MS
  {
    if n == 7 {
      assert Pow2(0) == 1 && Pow2(1) == 2 && Pow2(2) == 4 && Pow2(3) == 8;
      assert Pow2(4) == 16 && Pow2(5) == 32 && Pow2(6) == 64;
      assert TotalDelay(1) == 5_000 && TotalDelay(2) == 15_000 && TotalDelay(3) == 35_000 && TotalDelay(4) == 75_000;
      assert TotalDelay(5) == 155_000 && TotalDelay(6) == 315_000 && TotalDelay(7) == 635_000;
    } else {
      TotalDelayIs(n - 1);
      DelayShape(n);
    }
  }

  lemma {:induction false} TotalDelayGrows(m: nat, n: nat)
    requires m <= n
    ensures TotalDelay(m) <= TotalDelay(n)
  {
    if m < n {
      TotalDelayGrows(m, n - 1);
      DelayShape(n);
    }
  }

  // A day has room for exactly 149 delays, that is for 150 posts.
  lemma DayHoldsDelaysExactly(n: nat)
    ensures TotalDelay(n) <= MAX_AGE_MS <==> n < MAX_POSTS
  {
    TotalDelayIs(149);
    TotalDelayIs(150);
    if n < MAX_POSTS { TotalDelayGrows(n, 149); } else { TotalDelayGrows(150, n); }
  }

  // -------------------------------------------------------------------------------- tags as sets

  ghost function EntryTags(entries: seq<Entry>): set<nat> {
    set e | e in entries :: e.tag
  }

  ghost function EntryRows(entries: seq<Entry>): set<Row> {
    set e | e in entries :: RowOf(e)
  }

  ghost function RowSet(rows: seq<Row>): set<Row> {
    set r | r in rows
  }

  ghost function Finished(b: Box): set<Row> {
    b.posted + b.expired
  }

  ghost predicate DistinctEntries(entries: seq<Entry>) {
    forall i, j :: 0 <= i < j < |entries| ==> entries[i].tag != entries[j].tag
  }

  ghost predicate DistinctRows(rows: seq<Row>) {
    forall i, j :: 0 <= i < j < |rows| ==> rows[i].tag != rows[j].tag
  }

  lemma BodyRows(entries: seq<Entry>)
    ensures RowSet(Body(entries)) == EntryRows(entries)
    ensures DistinctEntries(entries) ==> DistinctRows(Body(entries))
  {
    forall e | e in entries ensures RowOf(e) in Body(entries) {
      var i :| 0 <= i < |entries| && entries[i] == e;
      assert Body(entries)[i] == RowOf(e);
    }
  }

  lemma LoadedRows(rows: seq<Row>, now: int)
    ensures EntryRows(LoadRows(rows, now)) == RowSet(rows)
    ensures DistinctRows(rows) ==> DistinctEntries(LoadRows(rows, now))
    ensures Body(LoadRows(rows, now)) == rows
  {
    var entries := LoadRows(rows, now);
    assert Body(entries) == rows;
    BodyRows(entries);
  }

  lemma TagIsFound(entries: seq<Entry>, tag: nat)
    ensures tag in EntryTags(entries) <==> IndexOf(entries, tag) < |entries|
  {
  }

  lemma WithoutTags(entries: seq<Entry>, i: nat)
    requires DistinctEntries(entries) && i < |entries|
    ensures EntryTags(M.RemoveAt(entries, i)) == EntryTags(entries) - {entries[i].tag}
    ensures EntryRows(M.RemoveAt(entries, i)) == EntryRows(entries) - {RowOf(entries[i])}
    ensures DistinctEntries(M.RemoveAt(entries, i))
    ensures multiset(Body(entries)) == multiset(Body(M.RemoveAt(entries, i))) + multiset{RowOf(entries[i])}
  {
    WithoutMembers(entries, i);
    WithoutBody(entries, i);
    assert forall e :: e in entries && e.tag == entries[i].tag ==> e == entries[i];
  }

  lemma WithoutMembers(entries: seq<Entry>, i: nat)
    requires DistinctEntries(entries) && i < |entries|
    ensures forall e :: e in M.RemoveAt(entries, i) <==> e in entries && e.tag != entries[i].tag
    ensures DistinctEntries(M.RemoveAt(entries, i))
  {
    var left := M.RemoveAt(entries, i);
    forall e | e in entries && e.tag != entries[i].tag ensures e in left {
      var j :| 0 <= j < |entries| && entries[j] == e;
      assert left[if j < i then j else j - 1] == e;
    }
    forall k | 0 <= k < |left| ensures left[k] == entries[if k < i then k else k + 1] {
    }
  }

  lemma WithoutBody(entries: seq<Entry>, i: nat)
    requires i < |entries|
    ensures multiset(Body(entries)) == multiset(Body(M.RemoveAt(entries, i))) + multiset{RowOf(entries[i])}
  {
    var left := M.RemoveAt(entries, i);
    var body := Body(entries);
    assert body == body[..i] + [body[i]] + body[i + 1..];
    assert Body(left) == body[..i] + body[i + 1..];
  }

  lemma UpdateTags(entries: seq<Entry>, i: nat, e: Entry)
    requires i < |entries| && RowOf(e) == RowOf(entries[i])
    ensures EntryTags(entries[i := e]) == EntryTags(entries)
    ensures EntryRows(entries[i := e]) == EntryRows(entries)
    ensures Body(entries[i := e]) == Body(entries)
  {
    assert Body(entries[i := e]) == Body(entries);
    BodyRows(entries);
    BodyRows(entries[i := e]);
    forall f | f in entries ensures f.tag in EntryTags(entries[i := e]) {
      var j :| 0 <= j < |entries| && entries[j] == f;
      assert entries[i := e][j].tag == f.tag;
    }
  }

  // ------------------------------------------------------------------------------------ invariant

  ghost predicate EntryOk(e: Entry, clock: int, nextTag: nat) {
    && e.tag < nextTag
    && e.at <= clock
    && e.at + TotalDelay(e.attempts) <= e.nextAt
    && e.attempts <= MAX_POSTS
  }

  ghost predicate RowsOk(rows: seq<Row>, clock: int, nextTag: nat) {
    && DistinctRows(rows)
    && (forall r :: r in rows ==> r.tag < nextTag && r.at <= clock)
  }

  ghost predicate StoreInv(b: Box) {
    && RowsOk(b.disk, b.clock, b.nextTag)
    && DistinctEntries(b.entries)
    && (forall e :: e in b.entries ==> EntryOk(e, b.clock, b.nextTag))
    && (b.write.Writing? ==> RowsOk(b.write.body, b.clock, b.nextTag))
    && (!b.up ==> b.entries == [] && b.pass.NoPass? && b.chain == [] && b.write.NoWrite?)
    && (forall r :: r in b.expired ==> b.clock - r.at > MAX_AGE_MS)
  }

  // An acknowledged event that is not finished is on disk, and in memory, and in the snapshot being
  // written, as it was pushed; the event of a pending push is in memory, and in its own snapshot.
  ghost predicate DurableInv(b: Box) {
    && b.acked <= Finished(b) + RowSet(b.disk)
    && (b.up ==> b.acked <= Finished(b) + EntryRows(b.entries))
    && (forall q :: q in b.chain && q.ForPush? ==> q.row in Finished(b) + EntryRows(b.entries))
    && (b.write.Writing? ==>
          && b.acked <= Finished(b) + RowSet(b.write.body)
          && (b.write.req.ForPush? ==>
                && b.write.req.row in Finished(b) + RowSet(b.write.body)
                && b.write.req.row in Finished(b) + EntryRows(b.entries))
          && (b.write.applied ==> b.disk == b.write.body))
  }

  ghost predicate PassInv(pass: Pass, entries: seq<Entry>, clock: int) {
    pass.Pass? ==>
      && pass.snapshot == pass.visited + pass.todo
      && (forall i, j :: 0 <= i < j < |pass.snapshot| ==> pass.snapshot[i] != pass.snapshot[j])
      && (forall tag :: tag in pass.todo ==> tag in EntryTags(entries))
      && (pass.posting.Some? ==>
            && pass.visited != [] && pass.visited[|pass.visited| - 1] == pass.posting.value
            && BeingPosted(entries, pass.posting.value, clock))
  }

  // The entry whose post is in flight is due, and posted for the 150th time at most.
  ghost predicate BeingPosted(entries: seq<Entry>, tag: nat, clock: int) {
    exists e :: e in entries && e.tag == tag && e.nextAt <= clock && e.attempts < MAX_POSTS
  }

  ghost predicate BooksInv(b: Box) {
    b.up ==>
      && multiset(b.books.accepted) ==
           multiset(Body(b.entries)) + multiset(b.books.delivered) + multiset(b.books.refused) + multiset(b.books.aged)
      && |b.books.aged| == b.droppedCount
  }

  ghost predicate Inv(b: Box) {
    StoreInv(b) && DurableInv(b) && PassInv(b.pass, b.entries, b.clock) && BooksInv(b)
  }

  lemma TickKeepsInv(b: Box, now: int)
    requires Inv(b) && b.clock <= now
    ensures Inv(b.(clock := now))
  {
  }

  lemma AppendTags(entries: seq<Entry>, e: Entry)
    requires DistinctEntries(entries) && e.tag !in EntryTags(entries)
    ensures EntryTags(entries + [e]) == EntryTags(entries) + {e.tag} && DistinctEntries(entries + [e])
    ensures EntryRows(entries + [e]) == EntryRows(entries) + {RowOf(e)}
    ensures Body(entries + [e]) == Body(entries) + [RowOf(e)]
  {
    assert forall f :: f in entries + [e] <==> f in entries || f == e;
    forall i | 0 <= i < |entries| ensures entries[i].tag != e.tag {
      assert entries[i] in entries;
    }
  }

  lemma PushKeepsStore(b: Box, event: string)
    requires StoreInv(b) && b.up
    ensures StoreInv(AfterPush(b, event)) && b.nextTag !in EntryTags(b.entries)
  {
    AppendTags(b.entries, Entry(b.nextTag, event, b.clock, 0, b.clock));
  }

  lemma PushKeepsInv(b: Box, event: string)
    requires Inv(b) && b.up
    ensures Inv(AfterPush(b, event))
  {
    PushKeepsStore(b, event);
    AppendTags(b.entries, Entry(b.nextTag, event, b.clock, 0, b.clock));
    assert DurableInv(AfterPush(b, event));
    assert BooksInv(AfterPush(b, event));
    if b.pass.Pass? && b.pass.posting.Some? {
      var e :| e in b.entries && e.tag == b.pass.posting.value && e.nextAt <= b.clock && e.attempts < MAX_POSTS;
      assert e in AfterPush(b, event).entries;
    }
  }

  lemma BodyIsOk(entries: seq<Entry>, clock: int, nextTag: nat)
    requires DistinctEntries(entries) && forall e :: e in entries ==> EntryOk(e, clock, nextTag)
    ensures RowsOk(Body(entries), clock, nextTag)
  {
    forall r | r in Body(entries) ensures r.tag < nextTag && r.at <= clock {
      var i :| 0 <= i < |entries| && RowOf(entries[i]) == r;
      assert entries[i] in entries;
    }
  }

  lemma BeginWriteKeepsInv(b: Box)
    requires Inv(b) && Possible(b, BeginWrite)
    ensures Inv(AfterBeginWrite(b))
  {
    BodyRows(b.entries);
    BodyIsOk(b.entries, b.clock, b.nextTag);
    assert b.chain[0] in b.chain;
  }

  lemma RenameKeepsInv(b: Box)
    requires Inv(b) && Possible(b, Rename)
    ensures Inv(Perform(b, Rename))
  {
  }

  lemma EndWriteKeepsInv(b: Box)
    requires Inv(b) && Possible(b, EndWrite)
    ensures Inv(AfterEndWrite(b))
  {
  }

  lemma NewPassInv(entries: seq<Entry>, clock: int)
    requires DistinctEntries(entries)
    ensures PassInv(Pass(Tags(entries), [], Tags(entries), None, false), entries, clock)
  {
    forall tag | tag in Tags(entries) ensures tag in EntryTags(entries) {
      var i :| 0 <= i < |entries| && entries[i].tag == tag;
      assert entries[i] in entries;
    }
  }

  lemma BeginPassKeepsInv(b: Box)
    requires Inv(b) && b.up
    ensures Inv(AfterBeginPass(b))
  {
    NewPassInv(b.entries, b.clock);
  }

  // An entry that leaves is finished, and the books say how.
  lemma ExpireKeepsInv(b: Box, i: nat)
    requires StoreInv(b) && DurableInv(b) && BooksInv(b) && b.up && i < |b.entries| && TooOld(b.entries[i], b.clock)
    ensures var r := LeaveExpired(b, i); StoreInv(r) && DurableInv(r) && BooksInv(r)
  {
    var r := LeaveExpired(b, i);
    assert StoreInv(r) by { WithoutMembers(b.entries, i); }
    assert BooksInv(r) by { WithoutBody(b.entries, i); }
    assert DurableInv(r) by {
      WithoutTags(b.entries, i);
      assert Finished(r) == Finished(b) + {RowOf(b.entries[i])};
    }
  }

  lemma LeavePostedKeepsInv(b: Box, i: nat, books: Books)
    requires StoreInv(b) && DurableInv(b) && BooksInv(b) && b.up && i < |b.entries|
    requires books == b.books.(delivered := b.books.delivered + [RowOf(b.entries[i])])
          || books == b.books.(refused := b.books.refused + [RowOf(b.entries[i])])
    ensures var r := LeavePosted(b, i, books); StoreInv(r) && DurableInv(r) && BooksInv(r)
  {
    WithoutTags(b.entries, i);
    assert forall e :: e in M.RemoveAt(b.entries, i) ==> e in b.entries;
    assert Finished(LeavePosted(b, i, books)) == Finished(b) + {RowOf(b.entries[i])};
  }

  // Whoever leaves, the entries still to visit stay.
  lemma LeaveKeepsPass(pass: Pass, entries: seq<Entry>, clock: int, i: nat)
    requires PassInv(pass, entries, clock) && pass.Pass? && pass.posting.None? && DistinctEntries(entries)
    requires i < |entries| && entries[i].tag !in pass.todo
    ensures PassInv(pass, M.RemoveAt(entries, i), clock)
  {
    WithoutTags(entries, i);
  }

  lemma VisitedPass(pass: Pass, entries: seq<Entry>, clock: int, changed: bool)
    requires PassInv(pass, entries, clock) && pass.Pass? && pass.posting.None? && pass.todo != []
    ensures var tag := pass.todo[0];
            var next := pass.(todo := pass.todo[1..], visited := pass.visited + [tag], changed := changed);
            && PassInv(next, entries, clock) && tag !in next.todo
            && (BeingPosted(entries, tag, clock) ==> PassInv(next.(posting := Some(tag)), entries, clock))
  {
    var tag := pass.todo[0];
    var v := |pass.visited|;
    forall k | 0 <= k < |pass.todo[1..]| ensures pass.todo[1..][k] != tag {
      assert pass.snapshot[v] == tag && pass.snapshot[v + 1 + k] == pass.todo[1..][k];
    }
    assert pass.todo == [tag] + pass.todo[1..];
  }

  lemma VisitKeepsInv(b: Box)
    requires Inv(b) && Possible(b, Visit)
    ensures Inv(AfterVisit(b))
  {
    var tag := b.pass.todo[0];
    assert tag in b.pass.todo;
    TagIsFound(b.entries, tag);
    var i := IndexOf(b.entries, tag);
    var e := b.entries[i];
    assert e in b.entries;
    VisitedPass(b.pass, b.entries, b.clock, b.pass.changed);
    VisitedPass(b.pass, b.entries, b.clock, true);
    var next := b.pass.(todo := b.pass.todo[1..], visited := b.pass.visited + [tag]);
    if TooOld(e, b.clock) {
      ExpireKeepsInv(b, i);
      LeaveKeepsPass(next.(changed := true), b.entries, b.clock, i);
    } else if e.nextAt <= b.clock {
      DayHoldsDelaysExactly(e.attempts);
      assert BeingPosted(b.entries, tag, b.clock);
    }
  }

  lemma DelayKeepsInv(b: Box, i: nat)
    requires StoreInv(b) && DurableInv(b) && BooksInv(b) && i < |b.entries|
    requires b.entries[i].nextAt <= b.clock && b.entries[i].attempts < MAX_POSTS
    ensures var r := b.(entries := b.entries[i := Delayed(b.entries[i], b.clock)]);
            StoreInv(r) && DurableInv(r) && BooksInv(r) && EntryTags(r.entries) == EntryTags(b.entries)
  {
    var e := Delayed(b.entries[i], b.clock);
    UpdateTags(b.entries, i, e);
    assert b.entries[i] in b.entries;
    assert EntryOk(e, b.clock, b.nextTag);
    assert forall f :: f in b.entries[i := e] ==> f == e || f in b.entries;
  }

  lemma AnsweredPass(pass: Pass, entries: seq<Entry>, clock: int)
    requires PassInv(pass, entries, clock) && pass.Pass? && pass.posting.Some?
    ensures pass.posting.value !in pass.todo
    ensures PassInv(pass.(posting := None, changed := true), entries, clock)
  {
    var v := |pass.visited|;
    forall k | 0 <= k < |pass.todo| ensures pass.todo[k] != pass.posting.value {
      assert pass.snapshot[v - 1] == pass.posting.value && pass.snapshot[v + k] == pass.todo[k];
    }
  }

  lemma EndPostKeepsInv(b: Box, result: PostResult)
    requires Inv(b) && Possible(b, EndPost(result))
    ensures Inv(AfterEndPost(b, result))
  {
    var tag := b.pass.posting.value;
    var e :| e in b.entries && e.tag == tag && e.nextAt <= b.clock && e.attempts < MAX_POSTS;
    assert tag in EntryTags(b.entries);
    TagIsFound(b.entries, tag);
    var i := IndexOf(b.entries, tag);
    assert b.entries[i] == e;
    AnsweredPass(b.pass, b.entries, b.clock);
    var b1 := b.(pass := b.pass.(posting := None, changed := true));
    match result
    case Retry => DelayKeepsInv(b1, i);
    case Ok =>
      LeavePostedKeepsInv(b1, i, b.books.(delivered := b.books.delivered + [RowOf(e)]));
      LeaveKeepsPass(b1.pass, b.entries, b.clock, i);
    case Drop =>
      LeavePostedKeepsInv(b1, i, b.books.(refused := b.books.refused + [RowOf(e)]));
      LeaveKeepsPass(b1.pass, b.entries, b.clock, i);
  }

  lemma EndPassKeepsInv(b: Box)
    requires Inv(b) && Possible(b, EndPass)
    ensures Inv(AfterEndPass(b))
  {
  }

  lemma CrashKeepsInv(b: Box)
    requires Inv(b)
    ensures Inv(AfterCrash(b))
    ensures !b.up ==> Inv(AfterRestart(b))
  {
    LoadedRows(b.disk, b.clock);
  }

  lemma StepKeepsInv(b: Box, e: Event, now: int)
    requires Inv(b)
    ensures Inv(Step(b, e, now))
  {
    if b.clock <= now && Possible(b, e) {
      var b1 := b.(clock := now);
      assert Inv(b1) by { TickKeepsInv(b, now); }
      match e
      case Push(event) => PushKeepsInv(b1, event);
      case BeginWrite => BeginWriteKeepsInv(b1);
      case Rename => RenameKeepsInv(b1);
      case EndWrite => EndWriteKeepsInv(b1);
      case BeginPass => BeginPassKeepsInv(b1);
      case Visit => VisitKeepsInv(b1);
      case EndPost(result) => EndPostKeepsInv(b1, result);
      case EndPass => EndPassKeepsInv(b1);
      case Crash => CrashKeepsInv(b1);
      case Restart => CrashKeepsInv(b1);
    }
  }

  lemma {:induction false} RunKeepsInv(b: Box, events: seq<Timed>)
    requires Inv(b)
    ensures Inv(Run(b, events))
    decreases events
  {
    if events != [] {
      StepKeepsInv(b, events[0].e, events[0].at);
      RunKeepsInv(Step(b, events[0].e, events[0].at), events[1..]);
    }
  }

  // ---------------------------------------------------------------------------------- main results

  // The events pushed in a run, each with the time of its push.
  ghost function Pushed(b: Box, events: seq<Timed>): set<Row>
    decreases events
  {
    if events == [] then {}
    else
      var t := events[0];
      (if t.e.Push? && b.clock <= t.at && b.up then {Row(b.nextTag, t.at, t.e.event)} else {})
      + Pushed(Step(b, t.e, t.at), events[1..])
  }

  // The events somebody was told of, or will be.
  ghost function Promised(b: Box): set<Row> {
    b.acked + (set q | q in b.chain && q.ForPush? :: q.row)
    + if b.write.Writing? && b.write.req.ForPush? then {b.write.req.row} else {}
  }

  lemma StepPromises(b: Box, e: Event, now: int)
    ensures Promised(Step(b, e, now)) <=
              Promised(b) + if e.Push? && b.clock <= now && b.up then {Row(b.nextTag, now, e.event)} else {}
  {
    var r := Step(b, e, now);
    forall q | q in r.chain && q.ForPush?
      ensures q in b.chain || (e.Push? && b.clock <= now && b.up && q.row == Row(b.nextTag, now, e.event))
    {
    }
  }

  // Nothing is acknowledged that was not pushed.
  lemma {:induction false} OnlyPushedIsAcknowledged(b: Box, events: seq<Timed>)
    ensures Promised(Run(b, events)) <= Promised(b) + Pushed(b, events)
    decreases events
  {
    if events != [] {
      var t := events[0];
      var r := Step(b, t.e, t.at);
      StepPromises(b, t.e, t.at);
      OnlyPushedIsAcknowledged(r, events[1..]);
    }
  }

  // Since the process started, what came in is what is left plus what was delivered, refused and
  // discarded; the counter of discarded events is exact.
  lemma BooksBalance(rows: seq<Row>, now: int, events: seq<Timed>)
    requires GoodFile(rows, now)
    ensures var b := Run(Initial(rows, now), events);
            b.up ==>
              && multiset(b.books.accepted) ==
                   multiset(Body(b.entries))
                   + multiset(b.books.delivered) + multiset(b.books.refused) + multiset(b.books.aged)
              && |b.books.aged| == b.droppedCount
  {
    RunKeepsInv(Initial(rows, now), events);
  }

  // The pass is the same one from beginning to end of the run.
  ghost predicate PassGoesOn(b: Box, events: seq<Timed>)
    decreases events
  {
    b.pass.Pass? && (events != [] ==> PassGoesOn(Step(b, events[0].e, events[0].at), events[1..]))
  }

  lemma {:induction false} SnapshotStays(b: Box, events: seq<Timed>)
    requires PassGoesOn(b, events)
    ensures Run(b, events).pass.Pass? && Run(b, events).pass.snapshot == b.pass.snapshot
    decreases events
  {
    if events != [] {
      SnapshotStays(Step(b, events[0].e, events[0].at), events[1..]);
    }
  }

  // However many events are pushed or finished meanwhile, what a pass has visited and still has to visit is
  // the list at its start, in order and each entry once; at its end it has visited all of it.
  lemma PassGoesThroughTheList(b: Box, now: int, events: seq<Timed>)
    requires Inv(b) && b.up && b.pass.NoPass? && b.clock <= now
    requires PassGoesOn(Step(b, BeginPass, now), events)
    ensures var p := Run(Step(b, BeginPass, now), events).pass;
            && p.Pass? && p.visited + p.todo == Tags(b.entries)
            && (p.todo == [] ==> p.visited == Tags(b.entries))
            && (p.posting.Some? ==> p.visited != [] && p.visited[|p.visited| - 1] == p.posting.value)
    ensures DistinctEntries(b.entries)
  {
    var c := Step(b, BeginPass, now);
    var r := Run(c, events);
    SnapshotStays(c, events);
    assert PassInv(r.pass, r.entries, r.clock) by {
      StepKeepsInv(b, BeginPass, now);
      RunKeepsInv(c, events);
    }
  }

  // What a visit may do with the entry it reaches: discard it, leave it for later, or post it. Everything
  // else stays as it is, and in place.
  ghost predicate Decided(b: Box, i: nat, r: Box, now: int)
    requires i < |b.entries|
  {
    var e := b.entries[i];
    && b.pass.Pass? && r.pass.Pass?
    && r.posted == b.posted && r.chain == b.chain && r.disk == b.disk && r.acked == b.acked
    && r.pass.visited == b.pass.visited + [e.tag] && b.pass.todo == [e.tag] + r.pass.todo
    && (if now - e.at > MAX_AGE_MS then
          && r.entries == b.entries[..i] + b.entries[i + 1..]
          && r.expired == b.expired + {RowOf(e)} && r.droppedCount == b.droppedCount + 1
          && r.pass.changed && r.pass.posting.None?
        else
          && r.entries == b.entries && r.expired == b.expired && r.droppedCount == b.droppedCount
          && r.pass.changed == b.pass.changed
          && (if e.nextAt > now then r.pass.posting.None? else r.pass.posting == Some(e.tag)))
  }

  // An entry present at the start of the pass is still there when its turn comes, and its age and due
  // time at that moment decide.
  lemma VisitDecides(b: Box, now: int)
    requires Inv(b) && b.clock <= now && Possible(b, Visit)
    ensures exists i: nat :: i < |b.entries| && b.entries[i].tag == b.pass.todo[0]
                             && Decided(b, i, Step(b, Visit, now), now)
  {
    var tag := b.pass.todo[0];
    assert tag in b.pass.todo;
    TagIsFound(b.entries, tag);
    var i := IndexOf(b.entries, tag);
    assert b.pass.todo == [tag] + b.pass.todo[1..];
    assert Decided(b, i, Step(b, Visit, now), now);
  }

  // What the answer to a post does to its entry, the one at `i`. On `retry` it stays in its place with one
  // attempt more, due after the delay for that attempt; else it leaves, and the others keep their order. Only
  // `ok` counts as delivered, and only `drop` as refused.
  ghost predicate Answered(b: Box, i: nat, r: Box, result: PostResult, now: int)
    requires i < |b.entries|
  {
    var e := b.entries[i];
    && r.pass.Pass? && r.pass.posting.None? && r.pass.changed
    && r.expired == b.expired && r.chain == b.chain && r.disk == b.disk && r.acked == b.acked
    && r.droppedCount == b.droppedCount
    && (if result.Retry? then
          && r.entries == b.entries[i := Entry(e.tag, e.event, e.at, e.attempts + 1, now + BackoffMs(e.attempts + 1))]
          && r.posted == b.posted && r.books == b.books
        else
          && r.entries == b.entries[..i] + b.entries[i + 1..]
          && r.posted == b.posted + {RowOf(e)})
    && r.books.delivered == (if result.Ok? then b.books.delivered + [RowOf(e)] else b.books.delivered)
    && r.books.refused == (if result.Drop? then b.books.refused + [RowOf(e)] else b.books.refused)
  }

  lemma PostDecides(b: Box, result: PostResult, now: int)
    requires Inv(b) && b.clock <= now && Possible(b, EndPost(result))
    ensures exists i: nat :: i < |b.entries| && b.pass.posting == Some(b.entries[i].tag)
                             && Answered(b, i, Step(b, EndPost(result), now), result, now)
  {
    PostedIsThere(b);
    var i := IndexOf(b.entries, b.pass.posting.value);
    AnswerDecides(b.(clock := now), i, result);
    assert Answered(b, i, Step(b, EndPost(result), now), result, now);
  }

  lemma PostedIsThere(b: Box)
    requires PassInv(b.pass, b.entries, b.clock) && b.pass.Pass? && b.pass.posting.Some?
    ensures IndexOf(b.entries, b.pass.posting.value) < |b.entries|
  {
    TagIsFound(b.entries, b.pass.posting.value);
  }

  lemma AnswerDecides(b: Box, i: nat, result: PostResult)
    requires b.pass.Pass? && b.pass.posting.Some?
    requires i == IndexOf(b.entries, b.pass.posting.value) && i < |b.entries|
    ensures Answered(b, i, AfterEndPost(b, result), result, b.clock)
  {
  }

  // The rows of the entry whose post is in flight.
  ghost function InFlight(b: Box): set<Row> {
    if b.pass.Pass? && b.pass.posting.Some?
    then set r | r in RowSet(Body(b.entries)) && r.tag == b.pass.posting.value
    else {}
  }

  ghost predicate Ends(b: Box, t: Timed, result: PostResult) {
    t.e == EndPost(result) && b.clock <= t.at && Possible(b, t.e)
  }

  // The rows whose post was answered with `result` in a run.
  ghost function AnsweredWith(result: PostResult, b: Box, events: seq<Timed>): set<Row>
    decreases events
  {
    if events == [] then {}
    else
      (if Ends(b, events[0], result) then InFlight(b) else {})
      + AnsweredWith(result, Step(b, events[0].e, events[0].at), events[1..])
  }

  lemma InFlightIs(b: Box, i: nat)
    requires DistinctEntries(b.entries) && i < |b.entries|
    requires b.pass.Pass? && b.pass.posting == Some(b.entries[i].tag)
    ensures InFlight(b) == {RowOf(b.entries[i])}
  {
    BodyRows(b.entries);
    assert b.entries[i] in b.entries;
    assert forall e :: e in b.entries && e.tag == b.entries[i].tag ==> e == b.entries[i];
  }

  // How a step may add to the events taken or refused by the API.
  lemma StepPosts(b: Box, t: Timed)
    requires Inv(b)
    ensures Step(b, t.e, t.at).posted ==
              b.posted + (if Ends(b, t, Ok) then InFlight(b) else {}) + (if Ends(b, t, Drop) then InFlight(b) else {})
  {
    if t.e.EndPost? && b.clock <= t.at && Possible(b, t.e) {
      PostDecides(b, t.e.result, t.at);
      var i: nat :| i < |b.entries| && b.pass.posting == Some(b.entries[i].tag)
                    && Answered(b, i, Step(b, t.e, t.at), t.e.result, t.at);
      InFlightIs(b, i);
    } else {
      OthersPostNothing(b, t.e, t.at);
    }
  }

  lemma OthersPostNothing(b: Box, e: Event, now: int)
    requires !e.EndPost? || now < b.clock || !Possible(b, e)
    ensures Step(b, e, now).posted == b.posted
    ensures !e.Restart? ==>
      Step(b, e, now).books.delivered == b.books.delivered && Step(b, e, now).books.refused == b.books.refused
  {
  }

  // Over any run, the events that count as taken or refused are exactly those whose post the API answered with
  // `ok` or `drop`: nothing leaves that way on `retry`, or without an answer.
  lemma {:induction false} PostedIsAnswered(b: Box, events: seq<Timed>)
    requires Inv(b)
    ensures Run(b, events).posted == b.posted + AnsweredWith(Ok, b, events) + AnsweredWith(Drop, b, events)
    decreases events
  {
    if events != [] {
      StepPosts(b, events[0]);
      StepKeepsInv(b, events[0].e, events[0].at);
      PostedIsAnswered(Step(b, events[0].e, events[0].at), events[1..]);
    }
  }

  // An event whose push resolved is, as it was pushed, in the file, or a post of it was answered with `ok` or
  // `drop`, or it was discarded more than a day after it was pushed; over any pushes, passes, failed writes,
  // crashes and restarts.
  lemma NoAcknowledgedEventIsLost(rows: seq<Row>, now: int, events: seq<Timed>, row: Row)
    requires GoodFile(rows, now)
    requires row in Run(Initial(rows, now), events).acked
    ensures var b0 := Initial(rows, now);
            var b := Run(b0, events);
            || row in b.disk
            || row in AnsweredWith(Ok, b0, events) || row in AnsweredWith(Drop, b0, events)
            || (row in b.expired && b.clock - row.at > MAX_AGE_MS)
  {
    RunKeepsInv(Initial(rows, now), events);
    PostedIsAnswered(Initial(rows, now), events);
  }

  // In a process, delivered are exactly the rows answered with `ok`, and refused those with `drop`, in order.
  ghost function Answers(result: PostResult, b: Box, events: seq<Timed>, sofar: seq<Row>): seq<Row>
    decreases events
  {
    if events == [] then sofar
    else Answers(result, Step(b, events[0].e, events[0].at), events[1..], NextAnswers(result, b, events[0], sofar))
  }

  // A new process starts its books anew.
  ghost function NextAnswers(result: PostResult, b: Box, t: Timed, sofar: seq<Row>): seq<Row> {
    if t.e.Restart? && b.clock <= t.at && !b.up then []
    else if Ends(b, t, result) then sofar + TheOne(InFlight(b)) else sofar
  }

  ghost function TheOne(rows: set<Row>): seq<Row> {
    if exists r :: rows == {r} then
      var r :| rows == {r};
      [r]
    else []
  }

  lemma TheOneIs(row: Row)
    ensures TheOne({row}) == [row]
  {
    assert {row} == {row};
    var r :| {row} == {r};
    assert row in {r};
  }

  lemma StepBooks(b: Box, t: Timed)
    requires Inv(b)
    ensures var r := Step(b, t.e, t.at);
            && r.books.delivered == NextAnswers(Ok, b, t, b.books.delivered)
            && r.books.refused == NextAnswers(Drop, b, t, b.books.refused)
  {
    if t.e.EndPost? && b.clock <= t.at && Possible(b, t.e) {
      PostDecides(b, t.e.result, t.at);
      var i: nat :| i < |b.entries| && b.pass.posting == Some(b.entries[i].tag)
                    && Answered(b, i, Step(b, t.e, t.at), t.e.result, t.at);
      InFlightIs(b, i);
      TheOneIs(RowOf(b.entries[i]));
    } else if t.e.Restart? {
      assert b.clock <= t.at && !b.up ==> Step(b, t.e, t.at).books == Books(b.disk, [], [], []);
    } else {
      OthersPostNothing(b, t.e, t.at);
    }
  }

  lemma {:induction false} BooksAreAnswers(b: Box, events: seq<Timed>)
    requires Inv(b)
    ensures Run(b, events).books.delivered == Answers(Ok, b, events, b.books.delivered)
    ensures Run(b, events).books.refused == Answers(Drop, b, events, b.books.refused)
    decreases events
  {
    if events != [] {
      StepBooks(b, events[0]);
      StepKeepsInv(b, events[0].e, events[0].at);
      BooksAreAnswers(Step(b, events[0].e, events[0].at), events[1..]);
    }
  }

  // ------------------------------------------------------------------------- pushes, passes and rest

  // A push puts its event last, due at once and not tried, and asks for a write; it waits for nothing.
  lemma PushDecides(b: Box, event: string, now: int)
    requires b.clock <= now && b.up
    ensures var r := Step(b, Push(event), now);
            && r.entries == b.entries + [Entry(b.nextTag, event, now, 0, now)]
            && r.chain == b.chain + [ForPush(Row(b.nextTag, now, event))]
            && r.nextTag == b.nextTag + 1
            && r.pass == b.pass && r.write == b.write && r.disk == b.disk && r.acked == b.acked
            && r.posted == b.posted && r.expired == b.expired && r.droppedCount == b.droppedCount
  {
  }

  // A pass begins with the list as it is, unless one is running or waits for its write; then nothing happens.
  // At its end it waits for a write of its own exactly if it changed anything.
  lemma PassDecides(b: Box, now: int)
    requires b.clock <= now && b.up
    ensures !b.pass.NoPass? ==> Step(b, BeginPass, now) == b.(clock := now)
    ensures b.pass.NoPass? ==>
      Step(b, BeginPass, now) == b.(clock := now, pass := Pass(Tags(b.entries), [], Tags(b.entries), None, false))
    ensures Possible(b, EndPass) ==>
      Step(b, EndPass, now) == if b.pass.changed then b.(clock := now, pass := Closing, chain := b.chain + [ForPass])
                               else b.(clock := now, pass := NoPass)
  {
  }

  // A pass that waits for its write is let go by it, whether the write succeeds or not; the end of any other
  // write leaves the pass alone. Whoever asked, the next write can begin.
  lemma WriteEndDecides(b: Box, now: int)
    requires b.clock <= now && Possible(b, EndWrite)
    ensures var r := Step(b, EndWrite, now);
            && r.write.NoWrite? && r.chain == b.chain && r.entries == b.entries && r.disk == b.disk
            && r.pass == (if b.write.req.ForPass? && b.pass.Closing? then NoPass else b.pass)
            && r.acked == (if b.write.req.ForPush? && b.write.applied then b.acked + {b.write.req.row} else b.acked)
  {
  }

  // A crash leaves the file alone; the next process starts with its rows, in order, each due at once and not
  // tried, and counts what it discards from zero.
  lemma RestartDecides(b: Box, now: int)
    requires b.clock <= now
    ensures b.up ==>
      var r := Step(b, Crash, now);
      !r.up && r.disk == b.disk && r.acked == b.acked && r.posted == b.posted && r.expired == b.expired
    ensures !b.up ==>
      var r := Step(b, Restart, now);
      && r.up && Body(r.entries) == b.disk && r.disk == b.disk && r.droppedCount == 0
      && (forall e :: e in r.entries ==> e.attempts == 0 && e.nextAt == now)
      && r.acked == b.acked && r.posted == b.posted && r.expired == b.expired
  {
    LoadedRows(b.disk, now);
  }

  ghost predicate WriteIsComing(b: Box) {
    b.pass.Closing? ==> ForPass in b.chain || (b.write.Writing? && b.write.req.ForPass?)
  }

  lemma StepKeepsWriteComing(b: Box, e: Event, now: int)
    requires WriteIsComing(b)
    ensures WriteIsComing(Step(b, e, now))
  {
    var r := Step(b, e, now);
    if e.BeginWrite? && b.clock <= now && Possible(b, e) {
      assert forall q :: q in b.chain ==> q == b.chain[0] || q in b.chain[1..];
    }
    if r.pass.Closing? && b.pass.Closing? && ForPass in b.chain && !e.BeginWrite? && !e.Crash? {
      assert forall q :: q in b.chain ==> q in r.chain;
    }
  }

  // No pass waits for ever: the write that lets it go is queued or under way, at every moment of every run.
  lemma {:induction false} PassesEnd(b: Box, events: seq<Timed>)
    requires WriteIsComing(b)
    ensures WriteIsComing(Run(b, events))
    decreases events
  {
    if events != [] {
      StepKeepsWriteComing(b, events[0].e, events[0].at);
      PassesEnd(Step(b, events[0].e, events[0].at), events[1..]);
    }
  }

  // Every write that ended in the run had succeeded.
  ghost predicate WritesSucceed(b: Box, events: seq<Timed>)
    decreases events
  {
    events != [] ==>
      && (events[0].e.EndWrite? && b.write.Writing? ==> b.write.applied)
      && WritesSucceed(Step(b, events[0].e, events[0].at), events[1..])
  }

  // The file is what is in memory, or is being made so, or a write that will make it so is coming.
  ghost predicate OnDisk(b: Box) {
    b.up ==>
      || b.chain != []
      || (b.pass.Pass? && b.pass.changed)
      || (if b.write.Writing? then b.write.body else b.disk) == Body(b.entries)
  }

  lemma StepKeepsOnDisk(b: Box, e: Event, now: int)
    requires Inv(b) && OnDisk(b) && (e.EndWrite? && b.write.Writing? ==> b.write.applied)
    ensures OnDisk(Step(b, e, now))
  {
    if b.clock <= now && Possible(b, e) {
      var b1 := b.(clock := now);
      assert OnDisk(b1);
      match e
      case Visit => VisitKeepsOnDisk(b1);
      case Restart => LoadedRows(b1.disk, now);
      case EndWrite => assert b1.disk == b1.write.body;
      case _ => PlainStepKeepsOnDisk(b1, e);
    }
  }

  lemma VisitKeepsOnDisk(b: Box)
    requires OnDisk(b) && Possible(b, Visit)
    ensures OnDisk(AfterVisit(b))
  {
  }

  // Every other event leaves the list as it is, queues a write, or is noted by the pass.
  lemma PlainStepKeepsOnDisk(b: Box, e: Event)
    requires OnDisk(b) && Possible(b, e) && !e.Visit? && !e.Restart? && !e.EndWrite?
    ensures OnDisk(Perform(b, e))
  {
  }

  lemma {:induction false} RunKeepsOnDisk(b: Box, events: seq<Timed>)
    requires Inv(b) && OnDisk(b) && WritesSucceed(b, events)
    ensures OnDisk(Run(b, events))
    decreases events
  {
    if events != [] {
      StepKeepsOnDisk(b, events[0].e, events[0].at);
      StepKeepsInv(b, events[0].e, events[0].at);
      RunKeepsOnDisk(Step(b, events[0].e, events[0].at), events[1..]);
    }
  }

  // When nothing is under way and no write has failed, the file is exactly the list: what was delivered,
  // refused or discarded is out of it, and what is left is in it, in order.
  lemma RestIsOnDisk(rows: seq<Row>, now: int, events: seq<Timed>)
    requires GoodFile(rows, now) && WritesSucceed(Initial(rows, now), events)
    ensures var b := Run(Initial(rows, now), events);
            b.up && b.chain == [] && b.write.NoWrite? && b.pass.NoPass? ==> b.disk == Body(b.entries)
  {
    RunKeepsOnDisk(Initial(rows, now), events);
  }

  // An entry that is always answered 'retry' is posted at most 150 times in one process.
  lemma AtMost150Posts(rows: seq<Row>, now: int, events: seq<Timed>)
    requires GoodFile(rows, now)
    ensures var b := Run(Initial(rows, now), events);
            && (forall e :: e in b.entries ==> e.attempts <= MAX_POSTS)
            && (b.pass.Pass? && b.pass.posting.Some? ==>
                  exists e :: e in b.entries && e.tag == b.pass.posting.value && e.attempts + 1 <= MAX_POSTS)
  {
    RunKeepsInv(Initial(rows, now), events);
    var b := Run(Initial(rows, now), events);
    if b.pass.Pass? && b.pass.posting.Some? {
      var e :| e in b.entries && e.tag == b.pass.posting.value && e.nextAt <= b.clock && e.attempts < MAX_POSTS;
    }
  }

  // ------------------------------------------------------------------------------------ the class

  // A pass up to its next await: visits until a post is in flight, or the end of the pass. Each visit
  // reads the clock.
  function Advanced(b: Box, ticks: seq<int>): Box
    decreases ticks
  {
    if ticks == [] || !b.pass.Pass? || b.pass.posting.Some? then b
    else if b.pass.todo == [] then Step(b, EndPass, b.clock)
    else Advanced(Step(b, Visit, ticks[0]), ticks[1..])
  }

  // Clock readings enough for every visit the pass may make before its next await.
  ghost predicate EnoughTicks(ticks: seq<int>, todo: seq<nat>, clock: int) {
    && |todo| < |ticks|
    && (forall i :: 0 <= i < |ticks| ==> clock <= ticks[i])
    && (forall i, j :: 0 <= i < j < |ticks| ==> ticks[i] <= ticks[j])
  }

  // Some run from the first start leads here.
  ghost predicate Reachable(b: Box) {
    exists rows, now, events :: GoodFile(rows, now) && b == Run(Initial(rows, now), events)
  }

  lemma {:induction false} RunThenStep(b: Box, events: seq<Timed>, e: Event, now: int)
    ensures Run(b, events + [Timed(e, now)]) == Step(Run(b, events), e, now)
    decreases events
  {
    if events == [] {
      assert Run(Step(b, e, now), []) == Step(b, e, now);
    } else {
      RunThenStep(Step(b, events[0].e, events[0].at), events[1..], e, now);
      assert (events + [Timed(e, now)])[1..] == events[1..] + [Timed(e, now)];
    }
  }

  lemma StepIsReachable(b: Box, e: Event, now: int)
    requires Reachable(b)
    ensures Reachable(Step(b, e, now))
  {
    var rows, start, events :| GoodFile(rows, start) && b == Run(Initial(rows, start), events);
    RunThenStep(Initial(rows, start), events, e, now);
    assert Step(b, e, now) == Run(Initial(rows, start), events + [Timed(e, now)]);
  }

  lemma DownIsIdle(b: Box)
    requires Reachable(b) && !b.up
    ensures b.pass.NoPass? && b.chain == [] && b.write.NoWrite?
  {
    var rows, now, events :| GoodFile(rows, now) && b == Run(Initial(rows, now), events);
    RunKeepsInv(Initial(rows, now), events);
  }

  // What the loop of a pass relies on: an entry whose turn comes is still in the list, and only once.
  lemma TurnIsInList(b: Box)
    requires Reachable(b)
    ensures DistinctEntries(b.entries)
    ensures b.pass.Pass? ==> forall tag :: tag in b.pass.todo ==> IndexOf(b.entries, tag) < |b.entries|
    ensures b.pass.Pass? && b.pass.posting.Some? ==> IndexOf(b.entries, b.pass.posting.value) < |b.entries|
  {
    var rows, now, events :| GoodFile(rows, now) && b == Run(Initial(rows, now), events);
    RunKeepsInv(Initial(rows, now), events);
    forall tag ensures tag in EntryTags(b.entries) <==> IndexOf(b.entries, tag) < |b.entries| {
      TagIsFound(b.entries, tag);
    }
    if b.pass.Pass? && b.pass.posting.Some? {
      var e :| e in b.entries && e.tag == b.pass.posting.value;
    }
  }

  // `filter` by identity takes out one entry, since tags are distinct.
  method Remove(entries: seq<Entry>, tag: nat) returns (left: seq<Entry>)
    requires DistinctEntries(entries) && IndexOf(entries, tag) < |entries|
    ensures left == M.RemoveAt(entries, IndexOf(entries, tag))
  {
    ghost var i := IndexOf(entries, tag);
    left := [];
    for k := 0 to |entries|
      invariant |left| == if k <= i then k else k - 1
      invariant forall j :: 0 <= j < |left| ==> left[j] == entries[if j < i then j else j + 1]
    {
      assert entries[k].tag == tag <==> k == i;
      if entries[k].tag != tag {
        left := left + [entries[k]];
      }
    }
    assert |left| == |M.RemoveAt(entries, i)|;
  }

  method Serialize(entries: seq<Entry>) returns (body: seq<Row>)
    ensures body == Body(entries)
  {
    body := [];
    for k := 0 to |entries|
      invariant |body| == k && forall j :: 0 <= j < k ==> body[j] == RowOf(entries[j])
    {
      body := body + [Row(entries[k].tag, entries[k].at, entries[k].event)];
    }
  }

  class Outbox {
    var entries: seq<Entry>
    var flushing: bool
    var chain: seq<Request>
    var write: Write
    var droppedCount: nat
    var nextTag: nat

    // The suspended pass: what is left of its copy of the list, the entry being posted, its `changed`
    // flag, and whether it waits for its own write.
    var todo: seq<nat>
    var posting: Option<nat>
    var changed: bool
    var closing: bool

    // The file, and everything this and earlier processes did.
    ghost var box: Box

    ghost predicate Valid() reads this {
      && Reachable(box) && box.up
      && box.entries == entries && box.chain == chain && box.write == write
      && box.droppedCount == droppedCount && box.nextTag == nextTag
      && (flushing <==> !box.pass.NoPass?)
      && (closing <==> box.pass.Closing?)
      && (box.pass.Pass? ==> box.pass.todo == todo && box.pass.posting == posting && box.pass.changed == changed)
    }

    // A new process reads the file the last one left.
    constructor (ghost before: Box, rows: seq<Row>, firstTag: nat, now: int)
      requires Reachable(before) && !before.up && before.clock <= now
      requires before.disk == rows && before.nextTag == firstTag
      ensures Valid() && box == Step(before, Restart, now)
    {
      StepIsReachable(before, Restart, now);
      DownIsIdle(before);
      entries := LoadRows(rows, now);
      flushing, closing, changed := false, false, false;
      chain, write, droppedCount, nextTag := [], NoWrite, 0, firstTag;
      todo, posting := [], None;
      box := Step(before, Restart, now);
    }

    method Push(event: string, now: int)
      requires Valid() && box.clock <= now
      modifies this
      ensures Valid() && box == Step(old(box), Event.Push(event), now)
    {
      StepIsReachable(box, Event.Push(event), now);
      entries := entries + [Entry(nextTag, event, now, 0, now)];
      chain := chain + [ForPush(Row(nextTag, now, event))];
      nextTag := nextTag + 1;
      box := Step(box, Event.Push(event), now);
    }

    // The head of the write chain takes its snapshot and starts writing.
    method StartWrite(now: int)
      requires Valid() && box.clock <= now && write.NoWrite? && chain != []
      modifies this
      ensures Valid() && box == Step(old(box), BeginWrite, now)
    {
      StepIsReachable(box, BeginWrite, now);
      var body := Serialize(entries);
      write := Writing(chain[0], body, false);
      chain := chain[1..];
      box := Step(box, BeginWrite, now);
    }

    method RenameTakesPlace(now: int)
      requires Valid() && box.clock <= now && write.Writing? && !write.applied
      modifies this
      ensures Valid() && box == Step(old(box), Rename, now)
      ensures box.disk == old(write).body
    {
      StepIsReachable(box, Rename, now);
      write := write.(applied := true);
      box := Step(box, Rename, now);
    }

    // The write settles; `acknowledged` tells the push that asked for it that it resolved.
    method FinishWrite(now: int) returns (acknowledged: bool)
      requires Valid() && box.clock <= now && write.Writing?
      modifies this
      ensures Valid() && box == Step(old(box), EndWrite, now)
      ensures acknowledged == (old(write).applied && old(write).req.ForPush?)
      ensures acknowledged ==> box.acked == old(box).acked + {old(write).req.row}
    {
      StepIsReachable(box, EndWrite, now);
      acknowledged := write.applied && write.req.ForPush?;
      if write.req.ForPass? && closing {
        closing, flushing := false, false;
      }
      write := NoWrite;
      box := Step(box, EndWrite, now);
    }

    // A pass starts, unless one is running, and goes on to its first post.
    method FlushOnce(now: int, ticks: seq<int>)
      requires Valid() && box.clock <= now && EnoughTicks(ticks, Tags(entries), now)
      modifies this
      ensures Valid()
      ensures old(flushing) ==> box == old(box)
      ensures !old(flushing) ==> box == Advanced(Step(old(box), BeginPass, now), ticks)
    {
      if flushing {
        return;
      }
      StepIsReachable(box, BeginPass, now);
      flushing, changed := true, false;
      posting := None;
      todo := Tags(entries);
      box := Step(box, BeginPass, now);
      Advance(ticks);
    }

    // The answer of the API to the post in flight, and the pass goes on to its next post.
    method PostAnswered(result: PostResult, now: int, ticks: seq<int>)
      requires Valid() && flushing && !closing && posting.Some? && box.clock <= now && EnoughTicks(ticks, todo, now)
      modifies this
      ensures Valid() && box == Advanced(Step(old(box), EndPost(result), now), ticks)
    {
      StepIsReachable(box, EndPost(result), now);
      var tag := posting.value;
      TurnIsInList(box);
      if result == Retry {
        var i := IndexOf(entries, tag);
        var e := entries[i];
        entries := entries[i := e.(attempts := e.attempts + 1, nextAt := now + BackoffMs(e.attempts + 1))];
      } else {
        entries := Remove(entries, tag);
      }
      changed := true;
      posting := None;
      box := Step(box, EndPost(result), now);
      Advance(ticks);
    }

    // The loop of a pass up to its next await.
    method Advance(ticks: seq<int>)
      requires Valid() && flushing && !closing && posting.None? && EnoughTicks(ticks, todo, box.clock)
      modifies this
      ensures Valid() && box == Advanced(old(box), ticks)
    {
      var k := 0;
      while posting.None? && todo != []
        invariant Valid() && flushing && !closing
        invariant 0 <= k < |ticks| && |todo| < |ticks| - k && box.clock <= ticks[k]
        invariant Advanced(box, ticks[k..]) == Advanced(old(box), ticks)
        decreases |todo|
      {
        VisitNext(ticks[k]);
        assert ticks[k..][1..] == ticks[k + 1..];
        k := k + 1;
      }
      if posting.None? {
        EndOfPass();
      }
    }

    // A pass that changed anything writes the file before it lets go.
    method EndOfPass()
      requires Valid() && flushing && !closing && posting.None? && todo == []
      modifies this
      ensures Valid() && box == Step(old(box), EndPass, old(box).clock)
    {
      StepIsReachable(box, EndPass, box.clock);
      box := Step(box, EndPass, box.clock);
      if changed {
        chain := chain + [ForPass];
        closing := true;
      } else {
        flushing := false;
      }
    }

    method VisitNext(now: int)
      requires Valid() && flushing && !closing && posting.None? && todo != [] && box.clock <= now
      modifies this
      ensures Valid() && box == Step(old(box), Visit, now)
      ensures flushing && !closing && todo == old(todo)[1..] && box.clock == now
    {
      ghost var next := Step(box, Visit, now);
      assert Reachable(next) by { StepIsReachable(box, Visit, now); }
      assert next == AfterVisit(box.(clock := now));
      var tag := todo[0];
      assert tag in box.pass.todo;
      TurnIsInList(box);
      todo := todo[1..];
      var e := entries[IndexOf(entries, tag)];
      if now - e.at > MAX_AGE_MS {
        Discard(tag);
      } else if e.nextAt <= now {
        posting := Some(tag);
      }
      box := next;
    }

    method Discard(tag: nat)
      requires DistinctEntries(entries) && IndexOf(entries, tag) < |entries|
      modifies this`entries, this`droppedCount, this`changed
      ensures entries == M.RemoveAt(old(entries), IndexOf(old(entries), tag))
      ensures droppedCount == old(droppedCount) + 1 && changed
    {
      droppedCount := droppedCount + 1;
      entries := Remove(entries, tag);
      changed := true;
    }

    // What the machine promises of its runs, said of this object between any two of its calls. `events` is the
    // run that led here.
    lemma KeepsItsPromises() returns (rows: seq<Row>, now: int, events: seq<Timed>)
      requires Valid()
      ensures GoodFile(rows, now) && box == Run(Initial(rows, now), events)
      ensures forall row :: row in box.acked ==>
        || row in box.disk
        || row in AnsweredWith(Ok, Initial(rows, now), events) || row in AnsweredWith(Drop, Initial(rows, now), events)
        || (row in box.expired && box.clock - row.at > MAX_AGE_MS)
      ensures box.posted ==
        AnsweredWith(Ok, Initial(rows, now), events) + AnsweredWith(Drop, Initial(rows, now), events)
      ensures multiset(box.books.accepted) ==
        multiset(Body(entries)) + multiset(box.books.delivered) + multiset(box.books.refused) + multiset(box.books.aged)
      ensures droppedCount == |box.books.aged|
    {
      rows, now, events :| GoodFile(rows, now) && box == Run(Initial(rows, now), events);
      BooksBalance(rows, now, events);
      RunKeepsInv(Initial(rows, now), events);
      PostedIsAnswered(Initial(rows, now), events);
    }
  }
}
