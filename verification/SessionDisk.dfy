/**
The disk half of the bridge client: `desired` is the session that must be on disk, and a serial chain
of commands brings the session file to it. Every physical operation has a deadline. An operation past
its deadline is abandoned by the chain but keeps running, so it may still touch the file later; when it
finally settles, one resynchronising command is queued.

Each function below is one uninterrupted stretch of code between two awaits. The environment picks
which stretch runs next and how every physical operation ends.
*/
module SessionDisk {

  // `Startup` is the file found at start-up, not yet read. The number of an account is the identity of
  // its session object.
  datatype Desired = Startup | LoggedOut | Account(id: nat)

  datatype File = Absent | Original | Holds(id: nat)

  // How far a physical operation has come. A save asks whether it is still wanted right before the
  // rename (`Committing` or `Declined`); the rename or the removal itself is the step to `Applied`.
  datatype Stage = Pending | Committing | Declined | Applied

  datatype Op = Save(id: nat, stage: Stage) | Remove(stage: Stage)

  datatype Command = ClearLoggedOut | Resync | Write(id: nat)

  // What the head of the chain is waiting for. `Wiping` is the removal that follows a failed save.
  datatype Running = Idle | Clearing(op: Op) | Saving(op: Op) | Wiping(id: nat, op: Op)

  datatype Disk = Disk(
    desired: Desired,
    file: File,
    chain: seq<Command>,
    running: Running,
    late: seq<Op>,
    resyncPending: bool,
    staleFile: bool,
    saveError: bool,
    nextId: nat)

  datatype Which = Current | Late(k: nat)

  datatype Event =
    | Logout
    | QrLogin
    | RetrySave
    | Begin
    | Check(which: Which)
    | Apply(which: Which)
    | Settle(ok: bool)
    | Timeout
    | LateSettle(k: nat, ok: bool)

  function Initial(file: File): Disk {
    Disk(Startup, file, [], Idle, [], false, false, false, 0)
  }

  function OnDisk(d: Disk, c: Command): Disk {
    d.(chain := d.chain + [c])
  }

  function AfterLogout(d: Disk): Disk {
    OnDisk(d.(saveError := false, desired := LoggedOut), ClearLoggedOut)
  }

  function AfterQrLogin(d: Disk): Disk {
    OnDisk(d.(desired := Account(d.nextId), saveError := false, nextId := d.nextId + 1), Write(d.nextId))
  }

  function AfterRetrySave(d: Disk): Disk {
    if d.saveError && d.desired.Account? then OnDisk(d, Write(d.desired.id)) else d
  }

  function RequestResync(d: Disk): Disk {
    if d.resyncPending then d else OnDisk(d.(resyncPending := true), Resync)
  }

  function BeginWrite(d: Disk, id: nat): Disk {
    if d.desired == Account(id) then d.(running := Saving(Save(id, Pending))) else d
  }

  function BeginCommand(d: Disk, c: Command): Disk {
    match c
    case ClearLoggedOut => d.(running := Clearing(Remove(Pending)))
    case Write(id) => BeginWrite(d, id)
    case Resync =>
      var e := d.(resyncPending := false);
      match d.desired
      case LoggedOut => e.(running := Clearing(Remove(Pending)))
      case Startup => e
      case Account(id) => BeginWrite(e, id)
  }

  function CheckOp(op: Op, desired: Desired): Op {
    if op.Save? && op.stage == Pending
    then op.(stage := if desired == Account(op.id) then Committing else Declined)
    else op
  }

  predicate CanApply(op: Op) {
    match op
    case Save(_, stage) => stage == Committing
    case Remove(stage) => stage == Pending
  }

  function FileAfter(op: Op): File {
    match op
    case Save(id, _) => Holds(id)
    case Remove(_) => Absent
  }

  // A save resolves once renamed or declined; a rejected operation never took effect.
  predicate CanSettle(op: Op, ok: bool) {
    if ok then op.stage == Applied || op.stage == Declined
    else op.stage == Pending || op.stage == Committing
  }

  function WithOp(r: Running, op: Op): Running
    requires !r.Idle?
  {
    match r
    case Clearing(_) => Clearing(op)
    case Saving(_) => Saving(op)
    case Wiping(id, _) => Wiping(id, op)
  }

  predicate Exists(d: Disk, w: Which) {
    match w
    case Current => !d.running.Idle?
    case Late(k) => k < |d.late|
  }

  function OpAt(d: Disk, w: Which): Op
    requires Exists(d, w)
  {
    match w
    case Current => d.running.op
    case Late(k) => d.late[k]
  }

  function ReplaceOp(d: Disk, w: Which, op: Op): Disk
    requires Exists(d, w)
  {
    match w
    case Current => d.(running := WithOp(d.running, op))
    case Late(k) => d.(late := d.late[k := op])
  }

  // The command sees its operation end: `ok` is false for a rejection and for a missed deadline.
  function Conclude(d: Disk, ok: bool): Disk
    requires !d.running.Idle?
  {
    match d.running
    case Clearing(_) => d.(running := Idle, staleFile := !ok)
    case Saving(op) =>
      if !ok then d.(running := Wiping(SavedId(op), Remove(Pending)))
      else d.(running := Idle,
              staleFile := d.staleFile && op.stage != Applied,
              saveError := d.saveError && d.desired != Account(SavedId(op)))
    case Wiping(id, _) =>
      d.(running := Idle, staleFile := !ok, saveError := d.saveError || d.desired == Account(id))
  }

  function SavedId(op: Op): nat {
    match op
    case Save(id, _) => id
    case Remove(_) => 0
  }

  // An event that is not possible in a state leaves the state as it is.
  function Step(d: Disk, e: Event): Disk {
    match e
    case Logout => AfterLogout(d)
    case QrLogin => AfterQrLogin(d)
    case RetrySave => AfterRetrySave(d)
    case Begin =>
      if d.running.Idle? && d.chain != [] then BeginCommand(d.(chain := d.chain[1..]), d.chain[0]) else d
    case Check(w) =>
      if Exists(d, w) then ReplaceOp(d, w, CheckOp(OpAt(d, w), d.desired)) else d
    case Apply(w) =>
      if Exists(d, w) && CanApply(OpAt(d, w))
      then ReplaceOp(d, w, OpAt(d, w).(stage := Applied)).(file := FileAfter(OpAt(d, w)))
      else d
    case Settle(ok) =>
      if !d.running.Idle? && CanSettle(d.running.op, ok) then Conclude(d, ok) else d
    case Timeout =>
      if d.running.Idle? then d else Conclude(d.(late := d.late + [d.running.op]), false)
    case LateSettle(k, ok) =>
      if k < |d.late| && CanSettle(d.late[k], ok)
      then RequestResync(d.(late := d.late[..k] + d.late[k + 1..]))
      else d
  }

  function Run(d: Disk, events: seq<Event>): Disk
    decreases events
  {
    if events == [] then d else Run(Step(d, events[0]), events[1..])
  }

  // Nothing waits in the chain, no command runs, and no abandoned operation is still alive.
  predicate Quiet(d: Disk) {
    d.chain == [] && d.running.Idle? && d.late == []
  }

  predicate Good(d: Disk) {
    match d.desired
    case Startup => true
    case LoggedOut => d.file == Absent || d.staleFile
    case Account(id) => d.file == Holds(id) || (d.saveError && (d.file == Absent || d.staleFile))
  }

  // ---------------------------------------------------------------------------------- invariant

  // Every logout removal still waiting is followed by the save of the session wanted now.
  ghost predicate ClearsAreFollowed(chain: seq<Command>, id: nat) {
    chain != [] ==>
      && (chain[0] == ClearLoggedOut ==> Write(id) in chain[1..])
      && ClearsAreFollowed(chain[1..], id)
  }

  ghost predicate OneResync(chain: seq<Command>, pending: bool) {
    if chain == [] then !pending
    else if chain[0] == Resync then pending && OneResync(chain[1..], false)
    else OneResync(chain[1..], pending)
  }

  // A declined save is one whose session was no longer wanted, and no session is ever wanted twice.
  ghost predicate OpInv(op: Op, d: Disk) {
    && (op.Save? ==> op.id < d.nextId)
    && (op.Remove? ==> op.stage == Pending || op.stage == Applied)
    && (op.Save? && op.stage == Declined ==> d.desired != Account(op.id))
  }

  ghost predicate Fresh(d: Disk) {
    && (d.desired.Account? ==> d.desired.id < d.nextId)
    && (forall c :: c in d.chain && c.Write? ==> c.id < d.nextId)
    && (forall op :: op in d.late ==> OpInv(op, d))
    && (!d.running.Idle? ==> OpInv(d.running.op, d))
    && (d.running.Wiping? ==> d.running.id < d.nextId)
    && (d.running.Saving? ==> d.running.op.Save?)
    && (d.running.Clearing? || d.running.Wiping? ==> d.running.op.Remove?)
  }

  ghost predicate Untouched(d: Disk) {
    d.desired == Startup ==> d.chain == [] && d.running.Idle? && d.late == []
  }

  // The session a running command works for, if it works for one.
  ghost predicate WorksFor(r: Running, id: nat) {
    (r.Saving? && r.op == Save(id, r.op.stage)) || (r.Wiping? && r.id == id)
  }

  // A command overtaken by a newer login or a logout has the newer command behind it.
  ghost predicate Overtaken(d: Disk) {
    match d.desired
    case Startup => true
    case LoggedOut => d.running.Saving? || d.running.Wiping? ==> ClearLoggedOut in d.chain
    case Account(id) =>
      && ClearsAreFollowed(d.chain, id)
      && (!d.running.Idle? && !WorksFor(d.running, id) ==> Write(id) in d.chain)
  }

  // Someone will still bring the file to `desired`.
  ghost predicate RepairDue(d: Disk) {
    || d.late != []
    || Resync in d.chain
    || (match d.desired
        case Startup => false
        case LoggedOut => ClearLoggedOut in d.chain || d.running.Clearing?
        case Account(id) => Write(id) in d.chain || WorksFor(d.running, id))
  }

  // With no abandoned operation around, the file is what the running command last made it.
  ghost predicate Undisturbed(d: Disk) {
    (!d.running.Idle? && d.running.op.stage == Applied && d.late == [] && Resync !in d.chain) ==>
      d.file == FileAfter(d.running.op)
  }

  ghost predicate Inv(d: Disk) {
    && Fresh(d)
    && Untouched(d)
    && OneResync(d.chain, d.resyncPending)
    && Overtaken(d)
    && Undisturbed(d)
    && (RepairDue(d) || Good(d))
  }

  lemma {:induction false} AppendFollowed(chain: seq<Command>, c: Command, id: nat)
    requires c == Write(id) || (c != ClearLoggedOut && ClearsAreFollowed(chain, id))
    ensures ClearsAreFollowed(chain + [c], id)
  {
    if chain != [] {
      assert (chain + [c])[1..] == chain[1..] + [c];
      AppendFollowed(chain[1..], c, id);
    }
  }

  lemma {:induction false} AppendOneResync(chain: seq<Command>, c: Command, pending: bool)
    requires OneResync(chain, pending)
    requires c == Resync ==> !pending
    ensures OneResync(chain + [c], pending || c == Resync)
  {
    if chain != [] {
      assert (chain + [c])[1..] == chain[1..] + [c];
      AppendOneResync(chain[1..], c, pending && chain[0] != Resync);
    }
  }

  lemma {:induction false} ResyncIsPending(chain: seq<Command>, pending: bool)
    requires OneResync(chain, pending)
    ensures Resync in chain <==> pending
  {
    if chain != [] {
      ResyncIsPending(chain[1..], pending && chain[0] != Resync);
    }
  }

  lemma PushKeepsInv(d: Disk, e: Event)
    requires Inv(d)
    requires e == Logout || e == QrLogin || e == RetrySave
    ensures Inv(Step(d, e))
  {
    match e
    case Logout =>
      AppendOneResync(d.chain, ClearLoggedOut, d.resyncPending);
    case QrLogin =>
      AppendOneResync(d.chain, Write(d.nextId), d.resyncPending);
      AppendFollowed(d.chain, Write(d.nextId), d.nextId);
    case RetrySave =>
      if d.saveError && d.desired.Account? {
        AppendOneResync(d.chain, Write(d.desired.id), d.resyncPending);
        AppendFollowed(d.chain, Write(d.desired.id), d.desired.id);
      }
  }

  lemma BeginClearKeepsInv(d: Disk)
    requires Inv(d) && d.running.Idle? && d.chain != [] && d.chain[0] == ClearLoggedOut
    ensures Inv(Step(d, Begin))
  {
    assert forall c :: c in d.chain ==> c == d.chain[0] || c in d.chain[1..];
  }

  lemma BeginWriteKeepsInv(d: Disk)
    requires Inv(d) && d.running.Idle? && d.chain != [] && d.chain[0].Write?
    ensures Inv(Step(d, Begin))
  {
    assert forall c :: c in d.chain ==> c == d.chain[0] || c in d.chain[1..];
  }

  lemma BeginResyncKeepsInv(d: Disk)
    requires Inv(d) && d.running.Idle? && d.chain != [] && d.chain[0] == Resync
    ensures Inv(Step(d, Begin))
  {
    assert forall c :: c in d.chain ==> c == d.chain[0] || c in d.chain[1..];
  }

  lemma CheckKeepsInv(d: Disk, w: Which)
    requires Inv(d) && Exists(d, w)
    ensures Inv(ReplaceOp(d, w, CheckOp(OpAt(d, w), d.desired)))
  {
    if w.Late? {
      var late' := d.late[w.k := CheckOp(OpAt(d, w), d.desired)];
      assert d.late[w.k] in d.late;
      assert forall o :: o in late' ==> o == late'[w.k] || o in d.late;
    }
  }

  lemma ApplyLateKeepsInv(d: Disk, k: nat)
    requires Inv(d) && k < |d.late| && CanApply(d.late[k])
    ensures Inv(Step(d, Apply(Late(k))))
  {
    var late' := d.late[k := d.late[k].(stage := Applied)];
    assert d.late[k] in d.late;
    assert forall o :: o in late' ==> o == late'[k] || o in d.late;
  }

  lemma ApplyCurrentKeepsInv(d: Disk)
    requires Inv(d)
    ensures Inv(Step(d, Apply(Current)))
  {
  }

  lemma ConcludeClearingKeepsInv(d: Disk, ok: bool)
    requires Inv(d) && d.running.Clearing?
    requires ok ==> d.late != [] || d.running.op.stage == Applied
    ensures Inv(Conclude(d, ok))
  {
  }

  lemma ConcludeSavingKeepsInv(d: Disk, ok: bool)
    requires Inv(d) && d.running.Saving?
    requires ok ==> CanSettle(d.running.op, ok)
    ensures Inv(Conclude(d, ok))
  {
  }

  lemma ConcludeWipingKeepsInv(d: Disk, ok: bool)
    requires Inv(d) && d.running.Wiping?
    requires ok ==> d.late != [] || d.running.op.stage == Applied
    ensures Inv(Conclude(d, ok))
  {
  }

  lemma ConcludeKeepsInv(d: Disk, ok: bool)
    requires Inv(d) && !d.running.Idle?
    requires ok ==> CanSettle(d.running.op, ok)
    ensures Inv(Conclude(d, ok))
  {
    match d.running
    case Clearing(_) => ConcludeClearingKeepsInv(d, ok);
    case Saving(_) => ConcludeSavingKeepsInv(d, ok);
    case Wiping(_, _) => ConcludeWipingKeepsInv(d, ok);
  }

  lemma AbandonKeepsInv(d: Disk)
    requires Inv(d) && !d.running.Idle?
    ensures Inv(d.(late := d.late + [d.running.op]))
  {
  }

  lemma LateKeepsInv(d: Disk, k: nat, ok: bool)
    requires Inv(d)
    ensures Inv(Step(d, LateSettle(k, ok)))
  {
    if k < |d.late| {
      var late' := d.late[..k] + d.late[k + 1..];
      assert forall o :: o in late' ==> o in d.late;
    }
    ResyncIsPending(d.chain, d.resyncPending);
    if !d.resyncPending {
      AppendOneResync(d.chain, Resync, false);
      if d.desired.Account? {
        AppendFollowed(d.chain, Resync, d.desired.id);
      }
    }
  }

  lemma StepKeepsInv(d: Disk, e: Event)
    requires Inv(d)
    ensures Inv(Step(d, e))
  {
    match e
    case Logout => PushKeepsInv(d, e);
    case QrLogin => PushKeepsInv(d, e);
    case RetrySave => PushKeepsInv(d, e);
    case Begin =>
      if d.running.Idle? && d.chain != [] {
        match d.chain[0]
        case ClearLoggedOut => BeginClearKeepsInv(d);
        case Write(_) => BeginWriteKeepsInv(d);
        case Resync => BeginResyncKeepsInv(d);
      }
    case Check(w) => if Exists(d, w) { CheckKeepsInv(d, w); }
    case Apply(Current) => ApplyCurrentKeepsInv(d);
    case Apply(Late(k)) => if k < |d.late| && CanApply(d.late[k]) { ApplyLateKeepsInv(d, k); }
    case Settle(ok) =>
      if !d.running.Idle? && CanSettle(d.running.op, ok) { ConcludeKeepsInv(d, ok); }
    case Timeout =>
      if !d.running.Idle? {
        AbandonKeepsInv(d);
        ConcludeKeepsInv(d.(late := d.late + [d.running.op]), false);
      }
    case LateSettle(k, ok) => LateKeepsInv(d, k, ok);
  }

  lemma {:induction false} RunKeepsInv(d: Disk, events: seq<Event>)
    requires Inv(d)
    ensures Inv(Run(d, events))
    decreases events
  {
    if events != [] {
      StepKeepsInv(d, events[0]);
      RunKeepsInv(Step(d, events[0]), events[1..]);
    }
  }

  // Main result: whenever the disk is quiet, the file is what `desired` says, or health reports why not.
  lemma DiskConverges(file: File, events: seq<Event>)
    requires !file.Holds?
    ensures var d := Run(Initial(file), events);
            Quiet(d) ==> Good(d)
  {
    RunKeepsInv(Initial(file), events);
  }

  // ------------------------------------------------------------- a session is never wanted twice

  ghost predicate NewerThan(d': Disk, d: Disk) {
    && d.nextId <= d'.nextId
    && (d'.desired == d.desired || d'.desired == LoggedOut || (d'.desired.Account? && d.nextId <= d'.desired.id))
  }

  lemma StepIsNewer(d: Disk, e: Event)
    ensures NewerThan(Step(d, e), d)
  {
  }

  lemma {:induction false} RunIsNewer(d: Disk, events: seq<Event>)
    ensures NewerThan(Run(d, events), d)
    decreases events
  {
    if events != [] {
      StepIsNewer(d, events[0]);
      RunIsNewer(Step(d, events[0]), events[1..]);
    }
  }

  // Once `desired` leaves a session, or the start-up file, it never comes back to it.
  lemma DesiredNeverReturns(d: Disk, before: seq<Event>, after: seq<Event>)
    requires d.desired.Account? ==> d.desired.id < d.nextId
    requires d.desired != LoggedOut
    ensures var left := Run(d, before);
            left.desired != d.desired ==> Run(left, after).desired != d.desired
  {
    RunIsNewer(d, before);
    RunIsNewer(Run(d, before), after);
  }

  // Nothing happens to the disk before the first login or logout.
  lemma LeavesStartup(d: Disk, e: Event, file: File)
    requires d == Initial(file) || d.desired != Startup
    ensures Step(d, e) == Initial(file) || Step(d, e).desired != Startup
  {
  }

  // ---------------------------------------------------------------------------------- healing

  // The file is exactly what is wanted and health reports nothing about it.
  predicate Exact(d: Disk) {
    match d.desired
    case Startup => true
    case LoggedOut => d.file == Absent && !d.staleFile
    case Account(id) => d.file == Holds(id) && !d.staleFile && !d.saveError
  }

  // What an operation does next when nothing fails any more.
  function Advance(op: Op, w: Which, settled: Event): Event {
    if op.Save? && op.stage == Pending then Check(w)
    else if CanApply(op) then Apply(w)
    else settled
  }

  function Next(d: Disk): Event
    requires !Quiet(d)
  {
    if d.late != [] then Advance(d.late[0], Late(0), LateSettle(0, true))
    else if !d.running.Idle? then Advance(d.running.op, Current, Settle(true))
    else Begin
  }

  function Cost(op: Op): nat {
    match op.stage
    case Pending => 2
    case Committing => 1
    case _ => 0
  }

  function LateCost(d: Disk): nat {
    if d.late == [] then 0 else Cost(d.late[0])
  }

  function RunningCost(d: Disk): nat {
    if d.running.Idle? then 0 else 1 + Cost(d.running.op)
  }

  predicate Less(d': Disk, d: Disk) {
    || |d'.late| < |d.late|
    || (|d'.late| == |d.late| &&
        (LateCost(d') < LateCost(d)
         || (LateCost(d') == LateCost(d) &&
             (|d'.chain| < |d.chain| || (|d'.chain| == |d.chain| && RunningCost(d') < RunningCost(d))))))
  }

  lemma LateIsLess(d: Disk)
    requires d.late != [] && OpInv(d.late[0], d)
    ensures Less(Step(d, Next(d)), d)
  {
    var op := d.late[0];
    var e := Step(d, Next(d));
    if Next(d).LateSettle? {
      assert |e.late| == |d.late| - 1;
    } else {
      assert |e.late| == |d.late| && Cost(e.late[0]) < Cost(op);
    }
  }

  lemma CurrentIsLess(d: Disk)
    requires d.late == [] && !d.running.Idle? && OpInv(d.running.op, d)
    ensures Less(Step(d, Next(d)), d)
  {
    if Next(d).Settle? {
      assert Step(d, Next(d)).running.Idle?;
    }
  }

  lemma NextIsLess(d: Disk)
    requires Fresh(d) && !Quiet(d)
    ensures Less(Step(d, Next(d)), d)
  {
    if d.late != [] {
      assert d.late[0] in d.late;
      LateIsLess(d);
    } else if !d.running.Idle? {
      CurrentIsLess(d);
    }
  }

  // From here on nothing fails and no deadline is missed; logins, logouts and retries go on as they like.
  predicate Smooth(events: seq<Event>) {
    forall i :: 0 <= i < |events| ==> Succeeds(events[i])
  }

  predicate Succeeds(e: Event) {
    !e.Timeout? && (e.Settle? ==> e.ok) && (e.LateSettle? ==> e.ok)
  }

  // A smooth run can always bring the disk to rest.
  lemma {:induction false} SomeRunEnds(d: Disk) returns (events: seq<Event>)
    requires Inv(d)
    ensures Smooth(events) && Quiet(Run(d, events))
    decreases |d.late|, LateCost(d), |d.chain|, RunningCost(d)
  {
    if Quiet(d) {
      return [];
    }
    var e := Step(d, Next(d));
    assert Inv(e) by { StepKeepsInv(d, Next(d)); }
    assert Less(e, d) by { NextIsLess(d); }
    var rest := SomeRunEnds(e);
    events := [Next(d)] + rest;
    assert events[1..] == rest;
  }

  // A rewrite of the file is still to come, or the file is already exact.
  ghost predicate RewriteDue(d: Disk) {
    || d.late != []
    || Resync in d.chain
    || (match d.desired
        case Startup => true
        case LoggedOut => ClearLoggedOut in d.chain || d.running.Clearing?
        case Account(id) => Write(id) in d.chain || (d.running.Saving? && d.running.op == Save(id, d.running.op.stage)))
    || (d.running.Idle? && Exact(d))
  }

  lemma BeginKeepsRewriteDue(d: Disk)
    requires Inv(d) && d.running.Idle? && d.chain != [] && RewriteDue(d)
    ensures RewriteDue(Step(d, Begin))
  {
    assert forall c :: c in d.chain ==> c == d.chain[0] || c in d.chain[1..];
  }

  lemma OperationsKeepRewriteDue(d: Disk, e: Event)
    requires Inv(d) && RewriteDue(d) && (e.Check? || e.Apply? || e == Settle(true))
    ensures RewriteDue(Step(d, e))
  {
  }

  lemma LateSettleKeepsRewriteDue(d: Disk, k: nat, ok: bool)
    requires Inv(d) && RewriteDue(d)
    ensures RewriteDue(Step(d, LateSettle(k, ok)))
  {
    ResyncIsPending(d.chain, d.resyncPending);
  }

  lemma StepKeepsRewriteDue(d: Disk, e: Event)
    requires Inv(d) && RewriteDue(d) && Succeeds(e)
    ensures RewriteDue(Step(d, e))
  {
    match e
    case Begin => if d.running.Idle? && d.chain != [] { BeginKeepsRewriteDue(d); }
    case Check(_) => OperationsKeepRewriteDue(d, e);
    case Apply(_) => OperationsKeepRewriteDue(d, e);
    case Settle(_) => OperationsKeepRewriteDue(d, e);
    case LateSettle(k, ok) => LateSettleKeepsRewriteDue(d, k, ok);
    case _ =>
  }

  lemma {:induction false} SmoothRunKeepsRewriteDue(d: Disk, events: seq<Event>)
    requires Inv(d) && RewriteDue(d) && Smooth(events)
    ensures Inv(Run(d, events)) && RewriteDue(Run(d, events))
    decreases events
  {
    if events != [] {
      assert Succeeds(events[0]) && Smooth(events[1..]);
      StepKeepsInv(d, events[0]);
      StepKeepsRewriteDue(d, events[0]);
      SmoothRunKeepsRewriteDue(Step(d, events[0]), events[1..]);
    }
  }

  // An operation that outlives its deadline cannot spoil the file for good: if nothing fails from some
  // moment on at which one is still alive, then whenever the disk comes to rest, in whatever order things
  // happen until then, the file is exactly `desired` and health reports nothing about it.
  lemma LateOperationsHeal(file: File, before: seq<Event>, after: seq<Event>)
    requires !file.Holds? && Smooth(after)
    requires Run(Initial(file), before).late != []
    ensures var d := Run(Run(Initial(file), before), after);
            Quiet(d) ==> Exact(d)
  {
    RunKeepsInv(Initial(file), before);
    SmoothRunKeepsRewriteDue(Run(Initial(file), before), after);
  }

  // -------------------------------------------------------------------- the chain and its operations

  function Resyncs(chain: seq<Command>): nat {
    if chain == [] then 0 else (if chain[0] == Resync then 1 else 0) + Resyncs(chain[1..])
  }

  lemma {:induction false} OneResyncIsQueued(chain: seq<Command>, pending: bool)
    requires OneResync(chain, pending)
    ensures Resyncs(chain) == if pending then 1 else 0
  {
    if chain != [] {
      OneResyncIsQueued(chain[1..], pending && chain[0] != Resync);
    }
  }

  // However many operations are late, at most one resynchronisation waits in the chain.
  lemma AtMostOneResync(file: File, events: seq<Event>)
    requires !file.Holds?
    ensures var d := Run(Initial(file), events);
            Resyncs(d.chain) == if d.resyncPending then 1 else 0
  {
    RunKeepsInv(Initial(file), events);
    OneResyncIsQueued(Run(Initial(file), events).chain, Run(Initial(file), events).resyncPending);
  }

  // The commands an event asks for, and the command it begins.
  function Asked(d: Disk, e: Event): seq<Command> {
    match e
    case Logout => [ClearLoggedOut]
    case QrLogin => [Write(d.nextId)]
    case RetrySave => if d.saveError && d.desired.Account? then [Write(d.desired.id)] else []
    case LateSettle(k, ok) => if k < |d.late| && CanSettle(d.late[k], ok) && !d.resyncPending then [Resync] else []
    case _ => []
  }

  function Begun(d: Disk, e: Event): seq<Command> {
    if e.Begin? && d.running.Idle? && d.chain != [] then [d.chain[0]] else []
  }

  function AllAsked(d: Disk, events: seq<Event>): seq<Command>
    decreases events
  {
    if events == [] then [] else Asked(d, events[0]) + AllAsked(Step(d, events[0]), events[1..])
  }

  function AllBegun(d: Disk, events: seq<Event>): seq<Command>
    decreases events
  {
    if events == [] then [] else Begun(d, events[0]) + AllBegun(Step(d, events[0]), events[1..])
  }

  lemma StepIsInOrder(d: Disk, e: Event)
    ensures d.chain + Asked(d, e) == Begun(d, e) + Step(d, e).chain
  {
    if e.Check? || e.Apply? || e.Settle? || e.Timeout? {
      OperationsLeaveTheChain(d, e);
    }
  }

  lemma OperationsLeaveTheChain(d: Disk, e: Event)
    requires e.Check? || e.Apply? || e.Settle? || e.Timeout?
    ensures Step(d, e).chain == d.chain
  {
  }

  // Commands begin in the order they were asked for, each of them once, over any run.
  lemma {:induction false} CommandsRunInOrder(d: Disk, events: seq<Event>)
    ensures d.chain + AllAsked(d, events) == AllBegun(d, events) + Run(d, events).chain
    decreases events
  {
    if events != [] {
      var e, r := events[0], Step(d, events[0]);
      StepIsInOrder(d, e);
      CommandsRunInOrder(r, events[1..]);
      Reassociate(d.chain, Asked(d, e), Begun(d, e), r.chain,
                  AllAsked(r, events[1..]), AllBegun(r, events[1..]), Run(r, events[1..]).chain);
    }
  }

  lemma Reassociate(a: seq<Command>, b: seq<Command>, c: seq<Command>, d: seq<Command>,
                    b': seq<Command>, c': seq<Command>, d': seq<Command>)
    requires a + b == c + d && d + b' == c' + d'
    ensures a + (b + b') == (c + c') + d'
  {
    calc {
      a + (b + b');
      (a + b) + b';
      c + (d + b');
      (c + c') + d';
    }
  }

  // A session that is not wanted, is not on disk, and is not just being renamed into place.
  ghost predicate Gone(d: Disk, id: nat) {
    && id < d.nextId && d.desired != Account(id) && d.file != Holds(id)
    && (!d.running.Idle? ==> d.running.op != Save(id, Committing))
    && Save(id, Committing) !in d.late
  }

  lemma StepKeepsGone(d: Disk, e: Event, id: nat)
    requires Gone(d, id)
    ensures Gone(Step(d, e), id)
  {
    match e
    case Check(w) => OperationKeepsGone(d, w, id);
    case Apply(w) => OperationKeepsGone(d, w, id);
    case LateSettle(k, _) =>
      if k < |d.late| { assert forall op :: op in d.late[..k] + d.late[k + 1..] ==> op in d.late; }
    case _ =>
  }

  lemma OperationKeepsGone(d: Disk, w: Which, id: nat)
    requires Gone(d, id)
    ensures Gone(Step(d, Check(w)), id) && Gone(Step(d, Apply(w)), id)
  {
    if w.Late? && w.k < |d.late| { assert d.late[w.k] in d.late; }
  }

  // A session given up by a logout or for another account never comes back to disk, whatever saves of it
  // are still queued, running or late.
  lemma {:induction false} GivenUpSessionStaysGone(d: Disk, events: seq<Event>, id: nat)
    requires Gone(d, id)
    ensures Gone(Run(d, events), id)
    decreases events
  {
    if events != [] {
      StepKeepsGone(d, events[0], id);
      GivenUpSessionStaysGone(Step(d, events[0]), events[1..], id);
    }
  }

  // What a command reports when its operation settles and nothing late interfered: a change that took place
  // is what the file is, and only a failed removal leaves it in doubt; a save error is about the session
  // wanted now, and the command of any other session leaves it alone.
  lemma SettledCommandTellsTheTruth(d: Disk, ok: bool)
    requires Inv(d) && !d.running.Idle? && CanSettle(d.running.op, ok)
    requires d.late == [] && Resync !in d.chain
    ensures var r := Step(d, Settle(ok));
            && (d.running.op.stage == Applied ==> r.running.Idle? && r.file == FileAfter(d.running.op) && !r.staleFile)
            && (r.running.Idle? && d.running.op.stage != Applied ==> r.staleFile == (d.staleFile || !ok))
            && (forall id :: WorksFor(d.running, id) && d.desired == Account(id) && r.running.Idle? ==>
                  (r.saveError <==> r.file != Holds(id) || d.running.Wiping?))
            && ((forall id :: WorksFor(d.running, id) ==> d.desired != Account(id)) ==> r.saveError == d.saveError)
  {
  }

  // ------------------------------------------------------------------------- deadlines and failures

  // The command in front sees its operation fail: it is rejected, or its deadline passes.
  predicate Fails(d: Disk, e: Event) {
    !d.running.Idle? && (e.Timeout? || (e == Settle(false) && CanSettle(d.running.op, false)))
  }

  // What a failed operation leads to. A save is followed at once by a removal for the same session; the end of
  // a removal reports a file that may have stayed, and, after a save, the failed save of the session if it is
  // still wanted. An operation past its deadline goes on as it was; nothing else changes.
  lemma FailureDecides(d: Disk, e: Event)
    requires Inv(d) && Fails(d, e)
    ensures var r := Step(d, e);
            && r.late == (if e.Timeout? then d.late + [d.running.op] else d.late)
            && r.desired == d.desired && r.file == d.file && r.chain == d.chain
            && r.resyncPending == d.resyncPending && r.nextId == d.nextId
            && (match d.running
                case Clearing(_) => r.running.Idle? && r.staleFile && r.saveError == d.saveError
                case Saving(op) =>
                  && r.running == Wiping(op.id, Remove(Pending))
                  && r.staleFile == d.staleFile && r.saveError == d.saveError
                case Wiping(id, _) =>
                  r.running.Idle? && r.staleFile && (r.saveError <==> d.saveError || d.desired == Account(id)))
  {
  }

  // Over any run: whenever a command ends because an operation failed or was too slow, health reports that the
  // file may be stale.
  lemma NoSilentFailure(file: File, events: seq<Event>, e: Event)
    requires !file.Holds? && Fails(Run(Initial(file), events), e)
    ensures var r := Step(Run(Initial(file), events), e);
            r.running.Idle? ==> r.staleFile
  {
    RunKeepsInv(Initial(file), events);
    FailureDecides(Run(Initial(file), events), e);
  }

  // A command that begins: a removal always runs, a save only for the session still wanted, and a
  // resynchronisation does for the session wanted now what is due.
  lemma BeginDecides(d: Disk)
    requires d.running.Idle? && d.chain != []
    ensures var r := Step(d, Begin);
            && r == d.(chain := d.chain[1..], running := r.running, resyncPending := r.resyncPending)
            && (r.resyncPending <==> d.resyncPending && d.chain[0] != Resync)
            && (d.chain[0] == ClearLoggedOut ==> r.running == Clearing(Remove(Pending)))
            && (forall id :: d.chain[0] == Write(id) ==>
                  r.running == if d.desired == Account(id) then Saving(Save(id, Pending)) else Idle)
            && (d.chain[0] == Resync && d.desired == LoggedOut ==> r.running == Clearing(Remove(Pending)))
            && (d.chain[0] == Resync && d.desired == Startup ==> r.running == Idle)
            && (forall id :: d.chain[0] == Resync && d.desired == Account(id) ==>
                  r.running == Saving(Save(id, Pending)))
  {
  }

  // A logout and a login change what is wanted, forget the save error of the session before, and queue one
  // command; a login's session is new. Neither waits for the disk.
  lemma RequestsDecide(d: Disk)
    ensures var out, in_ := Step(d, Logout), Step(d, QrLogin);
            && out == d.(desired := LoggedOut, saveError := false, chain := d.chain + [ClearLoggedOut])
            && in_ == d.(desired := Account(d.nextId), saveError := false, nextId := d.nextId + 1,
                         chain := d.chain + [Write(d.nextId)])
  {
  }

  // A save asks whether it is still wanted exactly once, and goes on exactly if it is.
  lemma CheckDecides(d: Disk)
    requires d.running.Saving? && d.running.op.Save? && d.running.op.stage == Pending
    ensures var r := Step(d, Check(Current));
            && r == d.(running := r.running) && r.running.Saving? && r.running.op.Save?
            && r.running.op.id == d.running.op.id
            && r.running.op.stage == (if d.desired == Account(d.running.op.id) then Committing else Declined)
            && Step(r, Check(Current)) == r
  {
  }

  // ------------------------------------------------------------------------------------ the class

  // `file` is the session file itself; a physical operation is what was handed to the credential store.
  class DiskChain {
    var desired: Desired
    var chain: seq<Command>
    var running: Running
    var late: seq<Op>
    var resyncPending: bool
    var staleFile: bool
    var saveError: bool
    var nextId: nat
    ghost var file: File

    ghost function View(): Disk reads this {
      Disk(desired, file, chain, running, late, resyncPending, staleFile, saveError, nextId)
    }

    predicate Alive(w: Which) reads this {
      match w
      case Current => !running.Idle?
      case Late(k) => k < |late|
    }

    function Operation(w: Which): Op reads this
      requires Alive(w)
    {
      match w
      case Current => running.op
      case Late(k) => late[k]
    }

    constructor (ghost found: File)
      ensures View() == Initial(found)
    {
      desired, chain, running, late := Startup, [], Idle, [];
      resyncPending, staleFile, saveError, nextId := false, false, false, 0;
      file := found;
    }

    method Enqueue(c: Command)
      modifies this
      ensures View() == OnDisk(old(View()), c)
    {
      chain := chain + [c];
    }

    method LogOut()
      modifies this
      ensures View() == Step(old(View()), Logout)
    {
      saveError := false;
      desired := LoggedOut;
      Enqueue(ClearLoggedOut);
    }

    // A QR login has fully succeeded: from here on its session is the one wanted.
    method LogIn() returns (id: nat)
      modifies this
      ensures View() == Step(old(View()), QrLogin) && desired == Account(id) && id == old(nextId)
    {
      id := nextId;
      nextId := nextId + 1;
      desired := Account(id);
      saveError := false;
      Enqueue(Write(id));
    }

    method SaveAgain()
      modifies this
      ensures View() == Step(old(View()), RetrySave)
    {
      var want := desired;
      if !saveError || want == LoggedOut || want == Startup {
        return;
      }
      Enqueue(Write(want.id));
    }

    method Resynchronise()
      modifies this
      ensures View() == RequestResync(old(View()))
    {
      if resyncPending {
        return;
      }
      resyncPending := true;
      Enqueue(Resync);
    }

    method StartWrite(id: nat)
      modifies this
      ensures View() == BeginWrite(old(View()), id)
    {
      if desired != Account(id) {
        return;
      }
      running := Saving(Save(id, Pending));
    }

    // The next command of the chain, up to its first await.
    method RunNext()
      requires running.Idle? && chain != []
      modifies this
      ensures View() == Step(old(View()), Begin)
    {
      var c := chain[0];
      chain := chain[1..];
      match c {
        case ClearLoggedOut =>
          running := Clearing(Remove(Pending));
        case Write(id) =>
          StartWrite(id);
        case Resync =>
          resyncPending := false;
          var want := desired;
          if want == LoggedOut {
            running := Clearing(Remove(Pending));
          } else if want != Startup {
            StartWrite(want.id);
          }
      }
    }

    method Put(w: Which, op: Op)
      requires Alive(w)
      modifies this
      ensures View() == ReplaceOp(old(View()), w, op)
    {
      match w {
        case Current => running := WithOp(running, op);
        case Late(k) => late := late[k := op];
      }
    }

    // The store asks, right before the rename, whether the session is still wanted.
    method AskWanted(w: Which)
      requires Alive(w)
      modifies this
      ensures View() == Step(old(View()), Check(w))
    {
      var op := Operation(w);
      if op.Save? && op.stage == Pending {
        var committed := desired == Account(op.id);
        Put(w, op.(stage := if committed then Committing else Declined));
      }
    }

    // The rename or the removal takes place.
    method Touch(w: Which)
      requires Alive(w) && CanApply(Operation(w))
      modifies this
      ensures View() == Step(old(View()), Apply(w))
    {
      var op := Operation(w);
      Put(w, op.(stage := Applied));
      file := FileAfter(op);
    }

    // The command in front sees its operation end and runs on to its next await or its end.
    method Continue(ok: bool)
      requires !running.Idle?
      modifies this
      ensures View() == Conclude(old(View()), ok)
    {
      match running {
        case Clearing(_) =>
          staleFile := !ok;
          running := Idle;
        case Saving(op) =>
          if !ok {
            running := Wiping(SavedId(op), Remove(Pending));
          } else {
            if op.stage == Applied {
              staleFile := false;
            }
            if desired == Account(SavedId(op)) {
              saveError := false;
            }
            running := Idle;
          }
        case Wiping(id, _) =>
          staleFile := !ok;
          if desired == Account(id) {
            saveError := true;
          }
          running := Idle;
      }
    }

    method Settled(ok: bool)
      requires !running.Idle? && CanSettle(running.op, ok)
      modifies this
      ensures View() == Step(old(View()), Settle(ok))
    {
      Continue(ok);
    }

    // The deadline of the operation in front passes; the operation goes on by itself.
    method TimedOut()
      requires !running.Idle?
      modifies this
      ensures View() == Step(old(View()), Timeout)
      ensures late == old(late) + [old(running).op]
      ensures old(running).Saving? ==> running == Wiping(SavedId(old(running).op), Remove(Pending))
      ensures !old(running).Saving? ==> running.Idle? && staleFile
    {
      late := late + [running.op];
      Continue(false);
    }

    method LateSettled(k: nat, ok: bool)
      requires k < |late| && CanSettle(late[k], ok)
      modifies this
      ensures View() == Step(old(View()), LateSettle(k, ok))
    {
      late := late[..k] + late[k + 1..];
      Resynchronise();
    }
  }
}
