/**
The ledger of sent messages: an insertion-ordered table from idempotency key to message id with a
time to live and a maximum size, saved to a file and loaded at start-up.
*/
module SendDedupe {
  import opened Options
  import opened Clock
  import opened InsertionMap

  datatype Saved = Saved(msgId: string, expiresAt: int)

  type Table = seq<Item<Saved>>

  predicate Live(e: Item<Saved>, now: int) {
    e.value.expiresAt > now
  }

  function Answer(m: Table, key: string, now: int): Option<string> {
    match Find(m, key)
    case None => None
    case Some(e) => if e.expiresAt <= now then None else Some(e.msgId)
  }

  // Asking for an expired key also forgets it.
  function AfterGet(m: Table, key: string, now: int): Table {
    var e := Find(m, key);
    if e.Some? && e.value.expiresAt <= now then Delete(m, key) else m
  }

  // How many of the oldest entries are beyond the maximum size.
  function Excess(m: Table, max: nat): (n: nat)
    ensures n <= |m|
  {
    if |m| > max then |m| - max else 0
  }

  function Evicted(m: Table, max: nat): Table {
    m[Excess(m, max)..]
  }

  // The table of a `set` before eviction: the key is new again, and last.
  function Full(m: Table, key: string, msgId: string, expiresAt: int): Table {
    Delete(m, key) + [Item(key, Saved(msgId, expiresAt))]
  }

  function AfterSet(m: Table, key: string, msgId: string, now: int, ttl: int, max: nat): Table {
    Evicted(Full(m, key, msgId, now + ttl), max)
  }

  // A key is answered exactly while an entry of it is within its day; asking forgets it only when it is not.
  lemma AnswersWhileLive(m: Table, key: string, now: int)
    requires Distinct(m)
    ensures forall id :: HasLive(m, key, id, now) <==> Answer(m, key, now) == Some(id)
    ensures AfterGet(m, key, now) == if Find(m, key).Some? && Answer(m, key, now).None? then Delete(m, key) else m
  {
    forall e | e in m && e.key == key ensures e == m[IndexOf(m, key)] {
      var i :| 0 <= i < |m| && m[i] == e;
      FindIs(m, i);
    }
  }

  ghost predicate HasLive(m: Table, key: string, id: string, now: int) {
    exists e :: e in m && e.key == key && e.value.msgId == id && now < e.value.expiresAt
  }

  // ---------------------------------------------------------------------------------- the table

  ghost predicate ByExpiry(m: Table) {
    forall i, j :: 0 <= i < j < |m| ==> m[i].value.expiresAt <= m[j].value.expiresAt
  }

  // Every entry was written by a clock that has not gone back.
  ghost predicate Ordered(m: Table, now: int, ttl: int) {
    && Distinct(m) && ByExpiry(m)
    && (forall i :: 0 <= i < |m| ==> m[i].value.expiresAt <= now + ttl)
  }

  lemma DeleteKeepsOrder(m: Table, key: string, now: int, ttl: int)
    requires Ordered(m, now, ttl)
    ensures Ordered(Delete(m, key), now, ttl)
  {
    var k := IndexOf(m, key);
    if k < |m| {
      DeletedKey(m, k);
      RemoveKeepsExpiry(m, k, now + ttl);
    }
  }

  lemma RemoveKeepsExpiry(m: Table, k: nat, last: int)
    requires ByExpiry(m) && k < |m| && forall i :: 0 <= i < |m| ==> m[i].value.expiresAt <= last
    ensures ByExpiry(RemoveAt(m, k))
    ensures forall i :: 0 <= i < |m| - 1 ==> RemoveAt(m, k)[i].value.expiresAt <= last
  {
    var d := RemoveAt(m, k);
    forall a, b | 0 <= a < b < |d| ensures d[a].value.expiresAt <= d[b].value.expiresAt {
      RemovedAt(m, k, a);
      RemovedAt(m, k, b);
    }
    forall i | 0 <= i < |d| ensures d[i].value.expiresAt <= last {
      RemovedAt(m, k, i);
    }
  }

  lemma AppendKeepsOrder(m: Table, key: string, msgId: string, was: int, now: int, ttl: int)
    requires Ordered(m, was, ttl) && was <= now && Find(m, key).None?
    ensures Ordered(m + [Item(key, Saved(msgId, now + ttl))], now, ttl)
  {
    AppendIsExact(m, key, Saved(msgId, now + ttl), key);
  }

  lemma DropKeepsOrder(m: Table, n: nat, now: int, ttl: int)
    requires Ordered(m, now, ttl) && n <= |m|
    ensures Ordered(m[n..], now, ttl)
  {
  }

  lemma SetKeepsOrder(m: Table, key: string, msgId: string, was: int, now: int, ttl: int, max: nat)
    requires Ordered(m, was, ttl) && was <= now
    ensures Ordered(AfterSet(m, key, msgId, now, ttl, max), now, ttl)
  {
    var full := Full(m, key, msgId, now + ttl);
    DeleteKeepsOrder(m, key, was, ttl);
    DeleteIsExact(m, key, key);
    AppendKeepsOrder(Delete(m, key), key, msgId, was, now, ttl);
    DropKeepsOrder(full, Excess(full, max), now, ttl);
  }

  function LiveCount(m: Table, now: int): nat {
    if m == [] then 0 else (if Live(m[0], now) then 1 else 0) + LiveCount(m[1..], now)
  }

  lemma {:induction false} LiveCountOfConcat(a: Table, b: Table, now: int)
    ensures LiveCount(a + b, now) == LiveCount(a, now) + LiveCount(b, now)
  {
    if a == [] {
      assert a + b == b;
    } else {
      assert (a + b)[1..] == a[1..] + b;
      LiveCountOfConcat(a[1..], b, now);
    }
  }

  // In expiry order the live entries are the last ones: dropping the oldest drops expired ones first.
  lemma {:induction false} LiveAreLast(m: Table, n: nat, now: int)
    requires ByExpiry(m) && n <= |m|
    ensures LiveCount(m[n..], now) == if LiveCount(m, now) <= |m| - n then LiveCount(m, now) else |m| - n
    ensures LiveCount(m, now) <= |m|
  {
    if n == 0 {
      assert m[0..] == m;
      LiveAreAtMostAll(m, now);
    } else {
      assert m[1..][n - 1..] == m[n..];
      LiveAreLast(m[1..], n - 1, now);
      if Live(m[0], now) {
        assert forall i :: 0 <= i < |m| ==> Live(m[i], now);
        AllLive(m, now);
      }
    }
  }

  lemma {:induction false} LiveAreAtMostAll(m: Table, now: int)
    ensures LiveCount(m, now) <= |m|
  {
    if m != [] { LiveAreAtMostAll(m[1..], now); }
  }

  // The table of a `set` before eviction: in order, with the new entry last and live.
  lemma FullTable(m: Table, key: string, msgId: string, was: int, now: int, ttl: int)
    requires Ordered(m, was, ttl) && was <= now && ttl > 0
    ensures var full := Full(m, key, msgId, now + ttl);
            Ordered(full, now, ttl) && LiveCount(full, now) == LiveCount(Delete(m, key), now) + 1
  {
    var item := Item(key, Saved(msgId, now + ttl));
    DeleteKeepsOrder(m, key, was, ttl);
    DeleteIsExact(m, key, key);
    AppendKeepsOrder(Delete(m, key), key, msgId, was, now, ttl);
    LiveCountOfConcat(Delete(m, key), [item], now);
    assert LiveCount([item], now) == 1;
  }

  lemma {:induction false} FewerLiveLater(m: Table, was: int, now: int)
    requires was <= now
    ensures LiveCount(m, now) <= LiveCount(m, was)
  {
    if m != [] { FewerLiveLater(m[1..], was, now); }
  }

  lemma {:induction false} AllLive(m: Table, now: int)
    requires forall i :: 0 <= i < |m| ==> Live(m[i], now)
    ensures LiveCount(m, now) == |m|
  {
    if m != [] { AllLive(m[1..], now); }
  }

  // Exactly how many live entries a `set` leaves: all of them, up to the maximum size.
  lemma SetKeepsLiveEntriesExactly(m: Table, key: string, msgId: string, was: int, now: int, ttl: int, max: nat)
    requires Ordered(m, was, ttl) && was <= now && ttl > 0
    ensures var others := LiveCount(Delete(m, key), now);
            LiveCount(AfterSet(m, key, msgId, now, ttl, max), now) == if others + 1 <= max then others + 1 else max
  {
    var full := Full(m, key, msgId, now + ttl);
    FullTable(m, key, msgId, was, now, ttl);
    LiveAreLast(full, Excess(full, max), now);
    assert Evicted(full, max) == full[Excess(full, max)..];
  }

  // Every entry that is live now, but that of the key just set, is still there.
  ghost predicate KeepsLiveEntries(m: Table, m': Table, key: string, now: int) {
    forall e :: e in m && e.key != key && Live(e, now) ==> e in m'
  }

  // A `set` forgets a live entry exactly when the live entries, with the new one, exceed the maximum size:
  // then the entry that expires first goes, even though its day is not over.
  lemma SetForgetsLiveEntryExactly(m: Table, key: string, msgId: string, was: int, now: int, ttl: int, max: nat)
    requires Ordered(m, was, ttl) && was <= now && ttl > 0 && max > 0
    ensures KeepsLiveEntries(m, AfterSet(m, key, msgId, now, ttl, max), key, now) <==>
              LiveCount(Delete(m, key), now) + 1 <= max
  {
    var full := Full(m, key, msgId, now + ttl);
    FullTable(m, key, msgId, was, now, ttl);
    FullMembers(m, key, msgId, now + ttl);
    EvictionForgetsExactly(m, full, now, max);
  }

  // A live key that is kept is found as before.
  lemma KeptEntryIsFound(m: Table, m': Table, key: string, now: int, k: string)
    requires KeepsLiveEntries(m, m', key, now) && Distinct(m') && k != key && Answer(m, k, now).Some?
    ensures Find(m', k) == Find(m, k)
  {
    var e := m[IndexOf(m, k)];
    assert e in m';
    var i :| 0 <= i < |m'| && m'[i] == e;
    FindIs(m', i);
  }

  // What was just set is found.
  lemma SetIsFound(m: Table, key: string, msgId: string, was: int, now: int, ttl: int, max: nat)
    requires Ordered(m, was, ttl) && was <= now && ttl > 0 && max > 0
    ensures Find(AfterSet(m, key, msgId, now, ttl, max), key) == Some(Saved(msgId, now + ttl))
  {
    var full := Full(m, key, msgId, now + ttl);
    FullTable(m, key, msgId, was, now, ttl);
    NewKeyIsFound(full, Excess(full, max));
  }

  lemma SetIsThere(m: Table, key: string, msgId: string, now: int, ttl: int, max: nat)
    requires max > 0
    ensures Item(key, Saved(msgId, now + ttl)) in AfterSet(m, key, msgId, now, ttl, max)
  {
    var full := Full(m, key, msgId, now + ttl);
    var n := Excess(full, max);
    assert full[n..][|full| - 1 - n] == full[|full| - 1];
  }

  lemma NewKeyIsFound(full: Table, n: nat)
    requires Distinct(full) && n < |full|
    ensures Find(full[n..], full[|full| - 1].key) == Some(full[|full| - 1].value)
  {
    assert full[n..][|full| - 1 - n] == full[|full| - 1];
    FindIs(full[n..], |full| - 1 - n);
  }

  // `full` has the entries of `m` but that of its own last key.
  ghost predicate ReplacesLast(m: Table, full: Table) {
    && full != []
    && (forall e :: e in full ==> e in m || e == full[|full| - 1])
    && (forall e :: e in m && e.key != full[|full| - 1].key ==> e in full)
  }

  lemma FullMembers(m: Table, key: string, msgId: string, expiresAt: int)
    requires Distinct(m)
    ensures ReplacesLast(m, Full(m, key, msgId, expiresAt))
  {
    var d := Delete(m, key);
    var i := IndexOf(m, key);
    forall e | e in m && e.key != key ensures e in d {
      var j :| 0 <= j < |m| && m[j] == e;
      if i < |m| { assert d[if j < i then j else j - 1] == e; }
    }
  }

  // Eviction forgets a live entry exactly when there are more live ones than the maximum size.
  lemma EvictionForgetsExactly(m: Table, full: Table, now: int, max: nat)
    requires Distinct(full) && ByExpiry(full) && ReplacesLast(m, full) && max > 0
    ensures KeepsLiveEntries(m, Evicted(full, max), full[|full| - 1].key, now) <==> LiveCount(full, now) <= max
  {
    var n := Excess(full, max);
    var kept := full[n..];
    LiveAreAtMostAll(full, now);
    if LiveCount(full, now) <= max {
      forall e | e in full && Live(e, now) ensures e in kept {
        LiveEntryIsKept(full, n, e, now);
      }
    } else {
      CutEntryIsForgotten(m, full, n, now);
    }
  }

  // Otherwise the entry just before the cut is live, and goes.
  lemma CutEntryIsForgotten(m: Table, full: Table, n: nat, now: int)
    requires Distinct(full) && ByExpiry(full) && ReplacesLast(m, full)
    requires 0 < n < |full| && LiveCount(full, now) > |full| - n
    ensures !KeepsLiveEntries(m, full[n..], full[|full| - 1].key, now)
  {
    var e := full[n - 1];
    CutEntryIsLive(full, n, now);
    assert e in full && e.key != full[|full| - 1].key && e in m;
    assert e !in full[n..] by {
      assert forall j :: 0 <= j < |full[n..]| ==> full[n..][j] == full[n + j] && full[n + j].key != e.key;
    }
  }

  // While the live entries fit into what is kept, none of them is among the dropped ones.
  lemma LiveEntryIsKept(full: Table, n: nat, e: Item<Saved>, now: int)
    requires ByExpiry(full) && n <= |full| && (n == 0 || LiveCount(full, now) <= |full| - n)
    requires e in full && Live(e, now)
    ensures e in full[n..]
  {
    var i :| 0 <= i < |full| && full[i] == e;
    if i < n {
      LiveSuffix(full, i, now);
    } else {
      assert full[n..][i - n] == e;
    }
  }

  lemma FullTableFinds(m: Table, key: string, msgId: string, expiresAt: int, k: string)
    requires Distinct(m) && k != key
    ensures Find(Full(m, key, msgId, expiresAt), k) == Find(m, k)
  {
    DeleteIsExact(m, key, key);
    DeleteIsExact(m, key, k);
    AppendIsExact(Delete(m, key), key, Saved(msgId, expiresAt), k);
  }

  lemma SetAddsOneKey(m: Table, key: string, msgId: string, now: int, ttl: int, max: nat, other: string)
    requires Distinct(m) && other != key && Find(m, other).None?
    ensures Find(AfterSet(m, key, msgId, now, ttl, max), other).None?
  {
    var full := Full(m, key, msgId, now + ttl);
    DeleteIsExact(m, key, key);
    AppendIsExact(Delete(m, key), key, Saved(msgId, now + ttl), key);
    FullTableFinds(m, key, msgId, now + ttl, other);
    DropIsExact(full, Excess(full, max), other);
  }

  lemma SetAddsNoOther(m: Table, key: string, msgId: string, now: int, ttl: int, max: nat, e: Item<Saved>)
    requires e in AfterSet(m, key, msgId, now, ttl, max) && e.key != key
    ensures e in m
  {
    var full := Full(m, key, msgId, now + ttl);
    assert e in full;
    assert e in Delete(m, key);
  }

  lemma KeyIsOnce(m: Table, e: Item<Saved>, f: Item<Saved>)
    requires Distinct(m) && e in m && f in m && e.key == f.key
    ensures e == f
  {
  }

  // Whatever the moment, a write leaves at most one entry more that lives then.
  lemma SetAddsOneLive(m: Table, key: string, msgId: string, now: int, ttl: int, max: nat, at: int)
    ensures LiveCount(AfterSet(m, key, msgId, now, ttl, max), at) <= LiveCount(m, at) + if now + ttl > at then 1 else 0
  {
    var d := Delete(m, key);
    var item := Item(key, Saved(msgId, now + ttl));
    var full := d + [item];
    var n := Excess(full, max);
    DeleteIsFewer(m, key, at);
    LiveCountOfConcat(d, [item], at);
    LiveCountOfConcat(full[..n], full[n..], at);
    assert full[..n] + full[n..] == full;
  }

  // A write of a new key that has room adds exactly one live entry, now and later within its day.
  lemma SetAddsExactlyOne(m: Table, key: string, msgId: string, now: int, ttl: int, max: nat, at: int)
    requires Ordered(m, now, ttl) && Find(m, key).None? && LiveCount(m, now) + 1 <= max && now <= at < now + ttl
    ensures LiveCount(AfterSet(m, key, msgId, now, ttl, max), at) == LiveCount(m, at) + 1
  {
    var item := Item(key, Saved(msgId, now + ttl));
    var full := m + [item];
    assert Full(m, key, msgId, now + ttl) == full;
    AppendKeepsOrder(m, key, msgId, now, now, ttl);
    LiveCountOfConcat(m, [item], at);
    assert LiveCount([item], at) == 1;
    FewerLiveLater(m, now, at);
    LiveAreLast(full, Excess(full, max), at);
  }

  lemma DeleteIsFewer(m: Table, key: string, at: int)
    ensures LiveCount(Delete(m, key), at) <= LiveCount(m, at)
  {
    var i := IndexOf(m, key);
    if i < |m| {
      assert m == m[..i] + [m[i]] + m[i + 1..];
      LiveCountOfConcat(m[..i] + [m[i]], m[i + 1..], at);
      LiveCountOfConcat(m[..i], [m[i]], at);
      LiveCountOfConcat(m[..i], m[i + 1..], at);
    }
  }

  lemma LiveSuffix(m: Table, i: nat, now: int)
    requires ByExpiry(m) && i < |m| && Live(m[i], now)
    ensures LiveCount(m, now) >= |m| - i
  {
    AllLive(m[i..], now);
    LiveCountOfConcat(m[..i], m[i..], now);
    assert m[..i] + m[i..] == m;
  }

  lemma CutEntryIsLive(m: Table, n: nat, now: int)
    requires ByExpiry(m) && 0 < n <= |m| && LiveCount(m, now) > |m| - n
    ensures Live(m[n - 1], now)
  {
    LiveCountOfConcat(m[..n], m[n..], now);
    assert m[..n] + m[n..] == m;
    LiveAreAtMostAll(m[n..], now);
    if !Live(m[n - 1], now) {
      OldEntriesAreDead(m, n, now);
    }
  }

  lemma OldEntriesAreDead(m: Table, n: nat, now: int)
    requires ByExpiry(m) && 0 < n <= |m| && !Live(m[n - 1], now)
    ensures LiveCount(m[..n], now) == 0
  {
    forall i | 0 <= i < n ensures !Live(m[..n][i], now) {
      assert m[i].value.expiresAt <= m[n - 1].value.expiresAt;
    }
    NoneLive(m[..n], now);
  }

  lemma {:induction false} NoneLive(m: Table, now: int)
    requires forall i :: 0 <= i < |m| ==> !Live(m[i], now)
    ensures LiveCount(m, now) == 0
  {
    if m != [] { NoneLive(m[1..], now); }
  }

  // ------------------------------------------------------------------------------------- the file

  // A row of the parsed file. `Broken` is a row whose second part is not an entry; `NotARow` cannot be
  // taken apart at all.
  datatype Row = Good(key: string, value: Saved) | Broken | NotARow

  // What `load` gets: nothing (no file, or not JSON, or not a list), or the rows.
  datatype File = Unreadable | Rows(rows: seq<Row>)

  function Snapshot(m: Table): File {
    Rows(seq(|m|, i requires 0 <= i < |m| => Good(m[i].key, m[i].value)))
  }

  // Rows are taken in order until one cannot be taken apart; the ones before it have been loaded by then.
  function LoadRows(m: Table, rows: seq<Row>, now: int): Table
    decreases rows
  {
    if rows == [] || rows[0].NotARow? then m
    else
      match rows[0]
      case Broken => LoadRows(m, rows[1..], now)
      case Good(k, v) => LoadRows(if v.expiresAt > now then Put(m, k, v) else m, rows[1..], now)
  }

  function Loaded(file: File, now: int): Table {
    match file
    case Unreadable => []
    case Rows(rows) => LoadRows([], rows, now)
  }

  function LiveOnly(m: Table, now: int): Table {
    if m == [] then [] else (if Live(m[0], now) then [m[0]] else []) + LiveOnly(m[1..], now)
  }

  lemma {:induction false} LiveOnlyMembers(m: Table, now: int)
    ensures forall e :: e in LiveOnly(m, now) <==> e in m && Live(e, now)
  {
    if m != [] {
      LiveOnlyMembers(m[1..], now);
      assert forall e :: e in m <==> e == m[0] || e in m[1..];
    }
  }

  lemma HeadIsBefore(m: Table, e: Item<Saved>)
    requires m != [] && Distinct(m) && ByExpiry(m) && e in m[1..]
    ensures e.key != m[0].key && m[0].value.expiresAt <= e.value.expiresAt
  {
    var j :| 0 <= j < |m[1..]| && m[1..][j] == e;
    assert m[j + 1] == e;
  }

  lemma PrependKeepsOrder(head: Item<Saved>, rest: Table, now: int, ttl: int)
    requires Ordered(rest, now, ttl) && head.value.expiresAt <= now + ttl
    requires forall e :: e in rest ==> e.key != head.key && head.value.expiresAt <= e.value.expiresAt
    ensures Ordered([head] + rest, now, ttl)
  {
    assert forall i :: 0 <= i < |rest| ==> rest[i] in rest;
  }

  lemma {:induction false} LiveOnlyKeepsOrder(m: Table, now: int, ttl: int)
    requires Ordered(m, now, ttl)
    ensures Ordered(LiveOnly(m, now), now, ttl)
  {
    if m != [] {
      var rest := LiveOnly(m[1..], now);
      DropKeepsOrder(m, 1, now, ttl);
      LiveOnlyKeepsOrder(m[1..], now, ttl);
      LiveOnlyMembers(m[1..], now);
      forall e | e in rest ensures e.key != m[0].key && m[0].value.expiresAt <= e.value.expiresAt {
        HeadIsBefore(m, e);
      }
      PrependKeepsOrder(m[0], rest, now, ttl);
      assert [] + rest == rest;
    }
  }

  lemma LiveOnlyFinds(m: Table, now: int, key: string)
    requires Distinct(m) && Distinct(LiveOnly(m, now))
    ensures Find(LiveOnly(m, now), key) ==
              var e := Find(m, key); if e.Some? && e.value.expiresAt > now then e else None
  {
    LiveOnlyMembers(m, now);
    var live := LiveOnly(m, now);
    var i := IndexOf(live, key);
    if i < |live| {
      assert live[i] in m;
      var j :| 0 <= j < |m| && m[j] == live[i];
      FindIs(m, j);
    } else {
      assert forall e :: e in live ==> e.key != key;
    }
  }

  lemma {:induction false} LoadOfSnapshot(done: Table, rest: Table, now: int)
    requires Distinct(done + rest)
    ensures LoadRows(LiveOnly(done, now), Snapshot(rest).rows, now) == LiveOnly(done + rest, now)
    decreases rest
  {
    var rows := Snapshot(rest).rows;
    if rest == [] {
      assert done + rest == done && rows == [];
    } else {
      assert rows[0] == Good(rest[0].key, rest[0].value) && rest[0] == Item(rest[0].key, rest[0].value);
      assert Snapshot(rest[1..]).rows == rows[1..];
      assert done + rest == (done + [rest[0]]) + rest[1..];
      LoadOfSnapshot(done + [rest[0]], rest[1..], now);
      LiveOnlyOfAppended(done, rest[0], now);
      forall j | 0 <= j < |done| ensures done[j].key != rest[0].key {
        assert (done + rest)[j].key != (done + rest)[|done|].key;
      }
      NotFoundInLiveOnly(done, now, rest[0].key);
      var loaded := LiveOnly(done, now);
      assert LiveOnly(done + [rest[0]], now) ==
             if Live(rest[0], now) then Put(loaded, rest[0].key, rest[0].value) else loaded;
    }
  }

  lemma {:induction false} LiveOnlyOfAppended(m: Table, e: Item<Saved>, now: int)
    ensures LiveOnly(m + [e], now) == LiveOnly(m, now) + (if Live(e, now) then [e] else [])
  {
    if m != [] {
      assert (m + [e])[1..] == m[1..] + [e];
      LiveOnlyOfAppended(m[1..], e, now);
    }
  }

  lemma {:induction false} NotFoundInLiveOnly(m: Table, now: int, key: string)
    requires forall j :: 0 <= j < |m| ==> m[j].key != key
    ensures IndexOf(LiveOnly(m, now), key) == |LiveOnly(m, now)|
  {
    if m != [] { NotFoundInLiveOnly(m[1..], now, key); }
  }

  lemma LoadOfLive(m: Table, now: int)
    requires Distinct(m)
    ensures Loaded(Snapshot(m), now) == LiveOnly(m, now)
  {
    LoadOfSnapshot([], m, now);
    assert [] + m == m;
  }

  lemma {:induction false} AllLiveOnly(m: Table, now: int)
    requires forall i :: 0 <= i < |m| ==> Live(m[i], now)
    ensures LiveOnly(m, now) == m
  {
    if m != [] { AllLiveOnly(m[1..], now); }
  }

  lemma {:induction false} LiveOnlyIsFewer(m: Table, now: int, at: int)
    ensures LiveCount(LiveOnly(m, now), at) <= LiveCount(m, at)
  {
    if m != [] {
      LiveOnlyIsFewer(m[1..], now, at);
      LiveCountOfConcat(if Live(m[0], now) then [m[0]] else [], LiveOnly(m[1..], now), at);
    }
  }

  lemma {:induction false} LiveOnlyKeepsLive(m: Table, now: int, at: int)
    requires now <= at
    ensures LiveCount(LiveOnly(m, now), at) == LiveCount(m, at)
  {
    if m != [] {
      LiveOnlyKeepsLive(m[1..], now, at);
      LiveCountOfConcat(if Live(m[0], now) then [m[0]] else [], LiveOnly(m[1..], now), at);
    }
  }

  // A table saved and loaded again answers the same for every key, now and at any later time, and is
  // still in expiry order, so eviction still takes the entry that expires first.
  lemma ReloadAgrees(m: Table, now: int, ttl: int, later: int, key: string)
    requires Distinct(m) && now <= later
    ensures Answer(Loaded(Snapshot(m), now), key, later) == Answer(m, key, later)
    ensures Ordered(m, now, ttl) ==> Ordered(Loaded(Snapshot(m), now), now, ttl)
  {
    LoadOfLive(m, now);
    LiveOnlyKeepsDistinct(m, now);
    LiveOnlyFinds(m, now, key);
    if Ordered(m, now, ttl) {
      LiveOnlyKeepsOrder(m, now, ttl);
    }
  }

  lemma {:induction false} LiveOnlyKeepsDistinct(m: Table, now: int)
    requires Distinct(m)
    ensures Distinct(LiveOnly(m, now))
  {
    if m != [] {
      var rest := LiveOnly(m[1..], now);
      LiveOnlyKeepsDistinct(m[1..], now);
      LiveOnlyMembers(m[1..], now);
      forall i | 0 <= i < |rest| ensures rest[i].key != m[0].key {
        assert rest[i] in m[1..];
      }
    }
  }

  lemma {:induction false} LoadOnlyAdds(m: Table, rows: seq<Row>, now: int)
    ensures |m| <= |LoadRows(m, rows, now)|
    decreases rows
  {
    if rows != [] && !rows[0].NotARow? {
      match rows[0]
      case Broken => LoadOnlyAdds(m, rows[1..], now);
      case Good(k, v) => LoadOnlyAdds(if v.expiresAt > now then Put(m, k, v) else m, rows[1..], now);
    }
  }

  // A row that is taken: an entry within its day, with no break before it.
  ghost predicate Taken(rows: seq<Row>, i: nat, now: int) {
    && i < |rows| && rows[i].Good? && rows[i].value.expiresAt > now
    && (forall j :: 0 <= j < i ==> !rows[j].NotARow?)
  }

  // When a file makes the ledger start empty, exactly: when no row of it is taken. That a file is damaged is
  // not enough.
  lemma {:induction false} LoadIsEmptyExactly(rows: seq<Row>, now: int)
    ensures LoadRows([], rows, now) == [] <==> !exists i: nat :: Taken(rows, i, now)
    decreases rows
  {
    if rows != [] && !rows[0].NotARow? {
      var rest := rows[1..];
      if Taken(rows, 0, now) {
        LoadOnlyAdds(Put([], rows[0].key, rows[0].value), rest, now);
      } else {
        LoadIsEmptyExactly(rest, now);
        forall i: nat ensures Taken(rest, i, now) <==> Taken(rows, i + 1, now) {
          assert i < |rest| ==> rest[i] == rows[i + 1];
          assert forall j :: 0 <= j < i < |rest| ==> rest[j] == rows[j + 1];
        }
        if i: nat :| Taken(rows, i, now) {
          assert Taken(rest, i - 1, now);
        }
      }
    }
  }

  lemma EmptyStaysEmpty(file: File, was: int, now: int)
    requires Loaded(file, was) == [] && was <= now
    ensures Loaded(file, now) == []
  {
    if file.Rows? {
      LoadIsEmptyExactly(file.rows, was);
      LoadIsEmptyExactly(file.rows, now);
      assert forall i: nat :: Taken(file.rows, i, now) ==> Taken(file.rows, i, was);
    }
  }

  // A damaged file from which a key survives.
  lemma DamagedFileKeepsRows()
    ensures Loaded(Rows([Good("k", Saved("m", 1)), NotARow]), 0) == [Item("k", Saved("m", 1))]
  {
    assert [Good("k", Saved("m", 1)), NotARow][1..] == [NotARow];
    assert LoadRows(Put([], "k", Saved("m", 1)), [NotARow], 0) == [Item("k", Saved("m", 1))];
  }

  lemma {:induction false} LoadKeepsDistinct(m: Table, rows: seq<Row>, now: int)
    requires Distinct(m)
    ensures Distinct(LoadRows(m, rows, now))
    decreases rows
  {
    if rows != [] && !rows[0].NotARow? {
      match rows[0]
      case Broken => LoadKeepsDistinct(m, rows[1..], now);
      case Good(k, v) => LoadKeepsDistinct(if v.expiresAt > now then Put(m, k, v) else m, rows[1..], now);
    }
  }

  lemma SetKeepsDistinct(m: Table, key: string, msgId: string, now: int, ttl: int, max: nat)
    requires Distinct(m)
    ensures Distinct(AfterSet(m, key, msgId, now, ttl, max))
  {
    DeleteIsExact(m, key, key);
    AppendIsExact(Delete(m, key), key, Saved(msgId, now + ttl), key);
  }

  // ------------------------------------------------------------------------------------ the class

  // A process that loads the file, from the time `clock` on, gives the answers of the table.
  ghost predicate AnswersLike(file: File, m: Table, clock: int) {
    forall now, later, key :: clock <= now <= later ==> Answer(Loaded(file, now), key, later) == Answer(m, key, later)
  }

  lemma SnapshotAnswersLike(m: Table, clock: int)
    requires Distinct(m)
    ensures AnswersLike(Snapshot(m), m, clock)
  {
    forall now, later, key | clock <= now <= later
      ensures Answer(Loaded(Snapshot(m), now), key, later) == Answer(m, key, later)
    {
      ReloadAgrees(m, now, 0, later, key);
    }
  }

  // Forgetting an expired key changes no answer from then on.
  lemma GetKeepsAnswers(file: File, m: Table, key: string, clock: int, now: int)
    requires Distinct(m) && clock <= now
    ensures Distinct(AfterGet(m, key, now))
    ensures forall k, later :: now <= later ==> Answer(AfterGet(m, key, now), k, later) == Answer(m, k, later)
    ensures AnswersLike(file, m, clock) ==> AnswersLike(file, AfterGet(m, key, now), now)
  {
    DeleteIsExact(m, key, key);
    forall k, later | now <= later ensures Answer(AfterGet(m, key, now), k, later) == Answer(m, k, later) {
      DeleteIsExact(m, key, k);
    }
  }

  class SendDedupe {
    const ttlMs: int
    const max: nat
    var entries: Table

    // The write chain: how many calls of `persist` wait for their turn, and what is being written.
    var waiting: nat
    var writing: Option<File>

    // The file; whether the last write failed; whether a key was set since `persist` was last called.
    ghost var disk: File
    ghost var failed: bool
    ghost var dirty: bool
    ghost var clock: int

    ghost predicate Valid() reads this {
      && Distinct(entries)
      && (!dirty && waiting == 0 && writing.Some? ==> AnswersLike(writing.value, entries, clock))
      && (Settled() ==> AnswersLike(disk, entries, clock))
    }

    // Every key that was set has been through `persist`, and the last write succeeded.
    ghost predicate Settled() reads this {
      !dirty && waiting == 0 && writing.None? && !failed
    }

    // `file` is what was found on disk; a ledger without a path starts empty.
    constructor (ttlMs: int, max: nat, file: File, now: int)
      ensures Valid() && entries == Loaded(file, now) && clock == now && disk == file
      ensures this.ttlMs == ttlMs && this.max == max
    {
      this.ttlMs, this.max := ttlMs, max;
      entries := [];
      waiting, writing := 0, None;
      disk, failed, dirty, clock := file, false, true, now;
      new;
      if file.Rows? {
        LoadKeepsDistinct([], file.rows, now);
        entries := LoadAll(file.rows, now);
      }
    }

    method Get(key: string, now: int) returns (msgId: Option<string>)
      requires Valid() && clock <= now
      modifies this`entries, this`clock
      ensures Valid() && clock == now && disk == old(disk)
      ensures msgId == Answer(old(entries), key, now) && entries == AfterGet(old(entries), key, now)
      ensures Ordered(old(entries), now, ttlMs) ==> Ordered(entries, now, ttlMs)
    {
      GetKeepsAnswers(disk, entries, key, clock, now);
      if writing.Some? { GetKeepsAnswers(writing.value, entries, key, clock, now); }
      clock := now;
      var e := Find(entries, key);
      if e.None? {
        return None;
      }
      if e.value.expiresAt <= now {
        if Ordered(entries, now, ttlMs) { DeleteKeepsOrder(entries, key, now, ttlMs); }
        entries := Delete(entries, key);
        return None;
      }
      msgId := Some(e.value.msgId);
    }

    method Set(key: string, msgId: string, now: int)
      requires Valid() && clock <= now
      modifies this`entries, this`dirty, this`clock
      ensures Valid() && clock == now && disk == old(disk)
      ensures entries == AfterSet(old(entries), key, msgId, now, ttlMs, max)
      ensures Ordered(old(entries), now, ttlMs) ==> Ordered(entries, now, ttlMs)
    {
      ghost var was := entries;
      dirty, clock := true, now;
      entries := Delete(entries, key);
      entries := entries + [Item(key, Saved(msgId, now + ttlMs))];
      EvictOldest();
      SetKeepsDistinct(was, key, msgId, now, ttlMs, max);
      if Ordered(was, now, ttlMs) { SetKeepsOrder(was, key, msgId, now, now, ttlMs, max); }
    }

    method EvictOldest()
      modifies this`entries
      ensures entries == Evicted(old(entries), max)
    {
      ghost var full := entries;
      ghost var n := 0;
      while |entries| > max
        invariant n <= |full| && entries == full[n..]
        invariant n == 0 || |entries| >= max
        decreases |entries|
      {
        entries := entries[1..];
        n := n + 1;
      }
    }

    // A write is asked for; it takes its snapshot when its turn comes.
    method Persist()
      requires Valid()
      modifies this`waiting, this`dirty
      ensures Valid() && waiting == old(waiting) + 1 && !dirty
    {
      waiting := waiting + 1;
      dirty := false;
    }

    method StartWrite()
      requires Valid() && waiting > 0 && writing.None?
      modifies this`waiting, this`writing
      ensures Valid() && waiting == old(waiting) - 1 && writing == Some(Snapshot(entries))
    {
      SnapshotAnswersLike(entries, clock);
      waiting := waiting - 1;
      var file := Serialize(entries);
      writing := Some(file);
    }

    // A write that fails leaves the file as it was. Once every key that was set has been through a write
    // that succeeded, a process that starts from the file answers like this one.
    method EndWrite(ok: bool)
      requires Valid() && writing.Some?
      modifies this`writing, this`disk, this`failed
      ensures Valid() && writing == None
      ensures disk == if ok then old(writing).value else old(disk)
      ensures ok && !dirty && waiting == 0 ==> AnswersLike(disk, entries, clock)
    {
      if ok { disk := writing.value; }
      failed := !ok;
      writing := None;
    }
  }

  method Serialize(entries: Table) returns (file: File)
    ensures file == Snapshot(entries)
  {
    var rows := [];
    for i := 0 to |entries|
      invariant |rows| == i
      invariant forall j :: 0 <= j < i ==> rows[j] == Good(entries[j].key, entries[j].value)
    {
      rows := rows + [Good(entries[i].key, entries[i].value)];
    }
    file := Rows(rows);
    assert rows == Snapshot(entries).rows;
  }

  method LoadAll(rows: seq<Row>, now: int) returns (entries: Table)
    ensures entries == LoadRows([], rows, now)
  {
    entries := [];
    var i := 0;
    while i < |rows| && !rows[i].NotARow?
      invariant 0 <= i <= |rows|
      invariant LoadRows([], rows, now) == LoadRows(entries, rows[i..], now)
    {
      assert rows[i..][1..] == rows[i + 1..];
      match rows[i] {
        case Broken =>
        case Good(k, v) =>
          if v.expiresAt > now {
            entries := Put(entries, k, v);
          }
      }
      i := i + 1;
    }
  }
}
