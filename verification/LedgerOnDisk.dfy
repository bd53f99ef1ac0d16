/**
The ledger over the text of its file: the lives of `Restarts`, whose writes put an encoded list on disk and
whose restarts read it back; and one write of the file with all the moments at which a process may die or a
machine lose power.
*/
module LedgerOnDisk {
  import opened Options
  import L = SendDedupe
  import P = SendPath
  import R = Restarts
  import A = AtomicFile

  // Of JSON only this is used: a list of entries can be read back, and no strict prefix of it can be read.
  ghost predicate Codec(enc: seq<L.Row> -> string, dec: string -> L.File) {
    && (forall rows :: Entries(rows) ==> dec(enc(rows)) == L.Rows(rows))
    && (forall rows, n :: Entries(rows) && 0 <= n < |enc(rows)| ==> dec(enc(rows)[..n]) == L.Unreadable)
  }

  predicate Entries(rows: seq<L.Row>) {
    forall row :: row in rows ==> row.Good?
  }

  // The text of the file, if there is one.
  datatype Store = Store(life: R.Life, text: Option<string>)

  function Read(dec: string -> L.File, text: Option<string>): L.File {
    match text
    case None => L.Unreadable
    case Some(t) => dec(t)
  }

  // The first start, over a missing file or one of which nothing is taken.
  function Initial(raw: Option<string>, now: int): Store {
    Store(R.Initial(now), raw)
  }

  function Step(enc: seq<L.Row> -> string, s: Store, e: R.Event, now: int): Store {
    var renames := e.Rename? && s.life.path.clock <= now && s.life.write.Writing?;
    Store(R.Step(s.life, e, now), if renames then Some(enc(L.Snapshot(s.life.write.snapshot).rows)) else s.text)
  }

  function Run(enc: seq<L.Row> -> string, s: Store, events: seq<R.Timed>): Store
    decreases events
  {
    if events == [] then s else Run(enc, Step(enc, s, events[0].e, events[0].at), events[1..])
  }

  lemma {:induction false} LifeRuns(enc: seq<L.Row> -> string, s: Store, events: seq<R.Timed>)
    ensures Run(enc, s, events).life == R.Run(s.life, events)
    decreases events
  {
    if events != [] {
      LifeRuns(enc, Step(enc, s, events[0].e, events[0].at), events[1..]);
    }
  }

  // Whoever loads the text, from now on, gets what the machine has as its file.
  ghost predicate LoadsTheFile(dec: string -> L.File, s: Store) {
    forall now :: s.life.path.clock <= now ==>
      L.Loaded(Read(dec, s.text), now) == L.Loaded(L.Snapshot(s.life.file), now)
  }

  lemma OnlyRenamesTouchTheFile(l: R.Life, e: R.Event, now: int)
    requires !e.Rename?
    ensures R.Step(l, e, now).file == l.file && l.path.clock <= R.Step(l, e, now).path.clock
  {
    if e.Work? && R.CanWork(l, e.e, now) {
      P.StepMovesTheClock(l.path, e.e, now);
    }
  }

  lemma StepLoadsTheFile(enc: seq<L.Row> -> string, dec: string -> L.File, s: Store, e: R.Event, now: int)
    requires Codec(enc, dec) && LoadsTheFile(dec, s)
    ensures LoadsTheFile(dec, Step(enc, s, e, now))
  {
    if e.Rename? {
      assert s.life.write.Writing? ==> Entries(L.Snapshot(s.life.write.snapshot).rows);
    } else {
      OnlyRenamesTouchTheFile(s.life, e, now);
    }
  }

  lemma {:induction false} RunLoadsTheFile(enc: seq<L.Row> -> string, dec: string -> L.File,
                                           s: Store, events: seq<R.Timed>)
    requires Codec(enc, dec) && LoadsTheFile(dec, s)
    ensures LoadsTheFile(dec, Run(enc, s, events))
    decreases events
  {
    if events != [] {
      StepLoadsTheFile(enc, dec, s, events[0].e, events[0].at);
      RunLoadsTheFile(enc, dec, Step(enc, s, events[0].e, events[0].at), events[1..]);
    }
  }

  lemma InitialLoadsTheFile(dec: string -> L.File, raw: Option<string>, now0: int)
    requires L.Loaded(Read(dec, raw), now0) == []
    ensures LoadsTheFile(dec, Initial(raw, now0))
  {
    forall now | now0 <= now ensures L.Loaded(Read(dec, raw), now) == [] {
      L.EmptyStaysEmpty(Read(dec, raw), now0, now);
    }
  }

  // A process that starts loads exactly what it reads from the text.
  lemma RestartLoadsTheText(enc: seq<L.Row> -> string, dec: string -> L.File, raw: Option<string>, now0: int,
                            events: seq<R.Timed>, now: int)
    requires Codec(enc, dec) && L.Loaded(Read(dec, raw), now0) == []
    requires Run(enc, Initial(raw, now0), events).life.path.clock <= now
    ensures var s := Run(enc, Initial(raw, now0), events);
            R.Step(s.life, R.Restart, now).path.ledger == L.Loaded(Read(dec, s.text), now)
  {
    InitialLoadsTheFile(dec, raw, now0);
    RunLoadsTheFile(enc, dec, Initial(raw, now0), events);
  }

  // A confirmed send is in the text of the file until its day is over: whoever loads it finds it.
  lemma ConfirmedIsInTheText(enc: seq<L.Row> -> string, dec: string -> L.File, raw: Option<string>, now0: int,
                             events: seq<R.Timed>, e: R.Entry, now: int)
    requires Codec(enc, dec) && L.Loaded(Read(dec, raw), now0) == [] && R.HaveRoom(R.Initial(now0), events)
    requires var s := Run(enc, Initial(raw, now0), events);
             e in s.life.confirmed && s.life.path.clock <= now && L.Live(e, now)
    ensures e in L.Loaded(Read(dec, Run(enc, Initial(raw, now0), events).text), now)
  {
    var s := Run(enc, Initial(raw, now0), events);
    InitialLoadsTheFile(dec, raw, now0);
    RunLoadsTheFile(enc, dec, Initial(raw, now0), events);
    LifeRuns(enc, Initial(raw, now0), events);
    R.InitialInv(now0);
    R.RunKeepsInv(R.Initial(now0), events);
    assert R.Kept(e, s.life.file, s.life.path.clock);
    L.LoadOfLive(s.life.file, now);
    L.LiveOnlyMembers(s.life.file, now);
  }

  // A text cut anywhere loads as an empty ledger.
  lemma TornTextStartsEmpty(enc: seq<L.Row> -> string, dec: string -> L.File, rows: seq<L.Row>, n: nat, now: int)
    requires Codec(enc, dec) && Entries(rows) && n < |enc(rows)|
    ensures L.Loaded(dec(enc(rows)[..n]), now) == []
  {
  }

  // ------------------------------------------------------------------------------- one write

  function ReadFrom(dec: string -> L.File, files: A.Directory, path: string): L.File {
    Read(dec, if path in files then Some(files[path].data) else None)
  }

  // A write that renamed is read back exactly; one that failed left what was there; and a process that starts
  // at any moment of it reads the old table or the new one.
  method WriteTable(disk: A.Disk, path: string, id: string, m: L.Table, enc: seq<L.Row> -> string,
                    ghost dec: string -> L.File, faults: A.Faults)
    returns (r: A.Outcome)
    requires Codec(enc, dec) && A.TempName(path, id) !in disk.files
    modifies disk
    ensures r == if A.Clean(faults) then A.Renamed else A.Failed
    ensures ReadFrom(dec, disk.files, path) ==
              if r.Renamed? then L.Snapshot(m) else ReadFrom(dec, old(disk.files), path)
    ensures forall k :: |old(disk.trail)| <= k < |disk.trail| ==>
      ReadFrom(dec, disk.trail[k], path) in {ReadFrom(dec, old(disk.files), path), L.Snapshot(m)}
  {
    ghost var before, start := disk.files, |disk.trail|;
    var file := L.Serialize(m);
    assert Entries(file.rows);
    r := A.WriteFileAtomic(disk, path, A.TempName(path, id), enc(file.rows), true, faults);
    forall k | start <= k < |disk.trail|
      ensures ReadFrom(dec, disk.trail[k], path) in {ReadFrom(dec, before, path), L.Snapshot(m)}
    {
      assert A.OldOrNew(before, disk.trail[k], path, enc(file.rows));
    }
  }
}
