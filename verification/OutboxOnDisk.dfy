/**
The outbox over the text of its file: the machine of `Outbox`, whose writes put encoded lines on disk and
whose restarts read them back, from any text whatever at the first start; and one write of the file with all
the moments at which a process may die or a machine lose power.
*/
module OutboxOnDisk {
  import opened Options
  import B = Outbox
  import T = OutboxFile
  import A = AtomicFile

  // What a line holds of an entry.
  datatype Line = Line(at: int, event: string)

  function Plain(rows: seq<B.Row>): seq<Line> {
    seq(|rows|, i requires 0 <= i < |rows| => Line(rows[i].at, rows[i].event))
  }

  // Rows for the lines found at the first start; their tags are their positions.
  function Tagged(lines: seq<Line>): seq<B.Row> {
    seq(|lines|, i requires 0 <= i < |lines| => B.Row(i, lines[i].at, lines[i].event))
  }

  datatype Store = Store(box: B.Box, text: string)

  function Initial(dec: string -> Option<Line>, raw: string, now: int): Store {
    Store(B.Initial(Tagged(T.ReadFile(dec, raw)), now), raw)
  }

  // The rename of a write puts its text in place; nothing else touches the file.
  function Step(enc: Line -> string, s: Store, e: B.Event, now: int): Store {
    var renames := e.Rename? && s.box.clock <= now && B.Possible(s.box, e);
    Store(B.Step(s.box, e, now), if renames then T.Body(enc, Plain(s.box.write.body)) else s.text)
  }

  function Run(enc: Line -> string, s: Store, events: seq<B.Timed>): Store
    decreases events
  {
    if events == [] then s else Run(enc, Step(enc, s, events[0].e, events[0].at), events[1..])
  }

  lemma {:induction false} BoxRuns(enc: Line -> string, s: Store, events: seq<B.Timed>)
    ensures Run(enc, s, events).box == B.Run(s.box, events)
    decreases events
  {
    if events != [] {
      BoxRuns(enc, Step(enc, s, events[0].e, events[0].at), events[1..]);
    }
  }

  lemma OnlyRenamesTouchTheDisk(b: B.Box, e: B.Event, now: int)
    requires !e.Rename?
    ensures B.Step(b, e, now).disk == b.disk
  {
  }

  lemma StepReadsTheRows(enc: Line -> string, dec: string -> Option<Line>, s: Store, e: B.Event, now: int)
    requires T.Codec(enc, dec) && T.ReadFile(dec, s.text) == Plain(s.box.disk)
    ensures var r := Step(enc, s, e, now); T.ReadFile(dec, r.text) == Plain(r.box.disk)
  {
    if e.Rename? {
      if s.box.clock <= now && B.Possible(s.box, e) {
        T.RoundTrip(enc, dec, Plain(s.box.write.body));
      }
    } else {
      OnlyRenamesTouchTheDisk(s.box, e, now);
    }
  }

  // At every moment of every run, reading the text gives the rows the machine has on disk.
  lemma {:induction false} TextReadsTheRows(enc: Line -> string, dec: string -> Option<Line>,
                                            s: Store, events: seq<B.Timed>)
    requires T.Codec(enc, dec) && T.ReadFile(dec, s.text) == Plain(s.box.disk)
    ensures var r := Run(enc, s, events); T.ReadFile(dec, r.text) == Plain(r.box.disk)
    decreases events
  {
    if events != [] {
      StepReadsTheRows(enc, dec, s, events[0].e, events[0].at);
      TextReadsTheRows(enc, dec, Step(enc, s, events[0].e, events[0].at), events[1..]);
    }
  }

  // A process that starts finds in its list exactly what it reads from the text, in order, each entry due at
  // once and not tried yet.
  lemma RestartReadsTheText(enc: Line -> string, dec: string -> Option<Line>, raw: string, now0: int,
                            events: seq<B.Timed>, now: int)
    requires T.Codec(enc, dec)
    requires var s := Run(enc, Initial(dec, raw, now0), events); !s.box.up && s.box.clock <= now
    ensures var s := Run(enc, Initial(dec, raw, now0), events);
            var entries := B.Step(s.box, B.Restart, now).entries;
            && Plain(B.Body(entries)) == T.ReadFile(dec, s.text)
            && (forall e :: e in entries ==> e.attempts == 0 && e.nextAt == now)
  {
    var s := Run(enc, Initial(dec, raw, now0), events);
    assert Plain(Tagged(T.ReadFile(dec, raw))) == T.ReadFile(dec, raw);
    TextReadsTheRows(enc, dec, Initial(dec, raw, now0), events);
    assert B.Step(s.box, B.Restart, now).entries == B.LoadRows(s.box.disk, now);
    B.LoadedRows(s.box.disk, now);
  }

  // An event whose push resolved can be read from the text of the file, with the time of its push, or a post of
  // it was answered with `ok` or `drop`, or it was discarded more than a day after its push; whatever text the first
  // process found.
  lemma AcknowledgedEventIsInTheText(enc: Line -> string, dec: string -> Option<Line>, raw: string, now0: int,
                                     events: seq<B.Timed>, row: B.Row)
    requires T.Codec(enc, dec) && forall line :: line in T.ReadFile(dec, raw) ==> line.at <= now0
    requires row in Run(enc, Initial(dec, raw, now0), events).box.acked
    ensures var s := Run(enc, Initial(dec, raw, now0), events);
            || Line(row.at, row.event) in T.ReadFile(dec, s.text)
            || row in B.AnsweredWith(B.Ok, Initial(dec, raw, now0).box, events)
            || row in B.AnsweredWith(B.Drop, Initial(dec, raw, now0).box, events)
            || (row in s.box.expired && s.box.clock - row.at > B.MAX_AGE_MS)
  {
    var found := T.ReadFile(dec, raw);
    var s := Run(enc, Initial(dec, raw, now0), events);
    assert Plain(Tagged(found)) == found;
    assert forall i :: 0 <= i < |found| ==> found[i] in found;
    TextReadsTheRows(enc, dec, Initial(dec, raw, now0), events);
    BoxRuns(enc, Initial(dec, raw, now0), events);
    B.NoAcknowledgedEventIsLost(Tagged(found), now0, events, row);
    if row in s.box.disk {
      var i :| 0 <= i < |s.box.disk| && s.box.disk[i] == row;
      assert Plain(s.box.disk)[i] == Line(row.at, row.event);
    }
  }

  // ------------------------------------------------------------------------------- one write

  function Reads(dec: string -> Option<Line>, files: A.Directory, path: string): seq<Line> {
    if path in files then T.ReadFile(dec, files[path].data) else []
  }

  // A write that renamed is read back exactly; one that failed left what was there; and a process that starts
  // at any moment of it reads the old entries or the new ones, never a part of them.
  method WriteLines(disk: A.Disk, path: string, id: string, lines: seq<Line>, enc: Line -> string,
                    ghost dec: string -> Option<Line>, faults: A.Faults)
    returns (r: A.Outcome)
    requires T.Codec(enc, dec) && A.TempName(path, id) !in disk.files
    modifies disk
    ensures r == if A.Clean(faults) then A.Renamed else A.Failed
    ensures Reads(dec, disk.files, path) == if r.Renamed? then lines else Reads(dec, old(disk.files), path)
    ensures forall k :: |old(disk.trail)| <= k < |disk.trail| ==>
      Reads(dec, disk.trail[k], path) == Reads(dec, old(disk.files), path) || Reads(dec, disk.trail[k], path) == lines
  {
    ghost var before, start := disk.files, |disk.trail|;
    T.RoundTrip(enc, dec, lines);
    r := A.WriteFileAtomic(disk, path, A.TempName(path, id), T.Body(enc, lines), true, faults);
    forall k | start <= k < |disk.trail|
      ensures Reads(dec, disk.trail[k], path) == Reads(dec, before, path) || Reads(dec, disk.trail[k], path) == lines
    {
      assert A.OldOrNew(before, disk.trail[k], path, T.Body(enc, lines));
    }
  }
}
