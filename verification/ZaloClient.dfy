/**
The bridge client as an object: the variables the closure keeps, and one method for each stretch of its
code between two awaits. Every method performs exactly one event of the machine in `BridgeClient`, so
whatever is proved of the runs of that machine holds of this object.
*/
module ZaloClient {
  import opened Options
  import D = SessionDisk
  import R = Reconnector
  import C = BridgeClient

  class ZaloClient {
    const disk: D.DiskChain
    const reconnector: R.Reconnector

    var started: bool
    var generation: nat
    var state: C.State
    var stateError: bool
    var api: Option<C.Api>
    var stable: bool
    var attempts: seq<C.Attempt>
    var qrAttempt: Option<nat>

    // The suspended calls and the listeners.
    var pending: C.Pending

    // Every use of credentials and every pushed event so far, and whether no `qrStart` has abandoned a
    // hand-over yet.
    ghost var uses: seq<C.Use>
    ghost var pushed: seq<C.Push>
    ghost var kept: bool

    ghost function View(): C.Client reads this, disk, reconnector {
      C.Client(disk.View(), started, generation, state, stateError, api, reconnector.View(), stable,
               pending, C.Qr(attempts, qrAttempt), uses, pushed)
    }

    ghost predicate Valid() reads this, disk, reconnector {
      reconnector.Valid() && C.Reachable(View(), kept)
    }

    // What every call and callback does: one event of the machine.
    twostate predicate Performed(e: C.Event) reads this, disk, reconnector {
      && View() == C.Step(old(View()), e)
      && kept == (old(kept) && !C.AbandonsHandOver(old(View()), e))
    }

    constructor (ghost file: D.File)
      requires !file.Holds?
      ensures Valid() && View() == C.Initial(file) && kept
      ensures fresh(disk) && fresh(reconnector)
    {
      disk := new D.DiskChain(file);
      reconnector := new R.Reconnector();
      started, generation, state, stateError := false, 0, C.Connecting, false;
      api, stable, attempts, qrAttempt := None, false, [], None;
      pending, uses, pushed, kept := C.Pending({}, map[], map[], {}), [], [], true;
      new;
      assert C.RunsTo(file, [], View(), kept);
    }

    // ---------------------------------------------------------------------------------- helpers

    method SetState(next: C.State, error: bool)
      modifies this`state, this`stateError
      ensures View() == C.SetState(old(View()), next, error)
    {
      state := next;
      stateError := error;
    }

    method Detach()
      modifies this`stable, this`api
      ensures View() == C.Detach(old(View()))
    {
      stable := false;
      api := None;
    }

    method NextGeneration()
      modifies this`generation, this`stable, this`api
      ensures View() == C.NextGeneration(old(View()))
    {
      generation := generation + 1;
      Detach();
    }

    method CallLogin(owner: D.Desired)
      modifies this`pending, this`uses
      ensures View() == C.CallLogin(old(View()), owner)
    {
      pending := C.AddLogin(pending, generation, owner);
      uses := uses + [C.Use(owner, disk.desired)];
    }

    method Connect(initial: bool)
      modifies this`generation, this`stable, this`api, this`state, this`stateError, this`pending, this`uses
      ensures View() == C.Connect(old(View()), initial)
    {
      NextGeneration();
      var want := disk.desired;
      if want == D.LoggedOut {
        SetState(C.NeedQr, stateError);
        return;
      }
      SetState(C.Connecting, if initial then false else stateError);
      if want == D.Startup {
        pending := C.AddLoad(pending, generation);
      } else {
        CallLogin(want);
      }
    }

    // `attach` up to the await of the account info.
    method Attach(owner: D.Desired, qr: Option<nat>)
      modifies this`generation, this`stable, this`api, this`pending, this`uses
      ensures View() == C.Attach(old(View()), owner, qr)
    {
      NextGeneration();
      api := Some(C.Api(generation, owner));
      pending := C.AddAttach(pending, generation, qr);
      uses := uses + [C.Use(owner, disk.desired)];
    }

    method AbandonQr()
      requires qrAttempt.Some? ==> qrAttempt.value < |attempts|
      modifies this`attempts, this`qrAttempt
      ensures View() == old(View()).(qr := C.Abandon(old(View()).qr))
    {
      var a := qrAttempt;
      qrAttempt := None;
      if a == None {
        return;
      }
      attempts := attempts[a.value := attempts[a.value].(abandoned := true, ended := true, armed := false)];
    }

    method Forget(a: nat)
      modifies this`qrAttempt
      ensures View() == old(View()).(qr := C.Forget(old(View()).qr, a))
    {
      if qrAttempt == Some(a) {
        qrAttempt := None;
      }
    }

    method Finish(a: nat)
      requires a < |attempts|
      modifies this`attempts, this`qrAttempt
      ensures View() == old(View()).(qr := C.Finish(old(View()).qr, a))
    {
      attempts := attempts[a := attempts[a].(ended := true, armed := false, phase := C.Over)];
      Forget(a);
    }

    // The end of an attempt that had been abandoned.
    method DropAbandoned(a: nat)
      requires a < |attempts|
      modifies this`attempts
      ensures View() == old(View()).(qr := C.DropAbandoned(old(View()).qr, a))
    {
      attempts := attempts[a := attempts[a].(armed := false, phase := C.Over)];
    }

    // A new attempt takes the place of the current one.
    method OpenAttempt() returns (a: nat)
      requires qrAttempt.Some? ==> qrAttempt.value < |attempts|
      modifies this`attempts, this`qrAttempt
      ensures View() == old(View()).(qr := C.Opened(C.Abandon(old(View()).qr)))
      ensures a == |old(attempts)| < |attempts| && qrAttempt == Some(a) && !attempts[a].ended
    {
      AbandonQr();
      a := |attempts|;
      attempts := attempts + [C.Attempt(false, false, false, true, C.Scanning)];
      qrAttempt := Some(a);
    }

    // ------------------------------------------------------------------------ calls and callbacks

    method Start()
      requires Valid() && !started
      modifies this
      ensures Performed(C.Start) && Valid()
    {
      C.StepIsReachable(View(), kept, C.Start);
      started := true;
      Connect(true);
    }

    method Reconnect()
      requires Valid() && started
      modifies this, reconnector
      ensures Performed(C.Reconnect) && Valid()
    {
      C.StepIsReachable(View(), kept, C.Reconnect);
      reconnector.Reset();
      Connect(false);
    }

    method TimerFires()
      requires Valid() && started && reconnector.timer != 0
      modifies this, reconnector
      ensures Performed(C.TimerFires) && Valid()
    {
      C.StepIsReachable(View(), kept, C.TimerFires);
      reconnector.Fire();
      Connect(false);
    }

    // The session file was read, or could not be: `connect` goes on.
    method Loaded(gen: nat, found: bool, failed: bool)
      requires Valid() && started && gen in pending.loads
      modifies this
      ensures Performed(C.Loaded(gen, found, failed)) && Valid()
    {
      C.StepIsReachable(View(), kept, C.Loaded(gen, found, failed));
      pending := pending.(loads := pending.loads - {gen});
      if gen != generation || disk.desired != D.Startup {
        return;
      }
      if failed || !found {
        SetState(C.NeedQr, failed || stateError);
        return;
      }
      CallLogin(D.Startup);
    }

    method LoggedIn(gen: nat)
      requires Valid() && started && gen in pending.logins
      modifies this, disk
      ensures Performed(C.LoggedIn(gen)) && Valid()
    {
      C.StepIsReachable(View(), kept, C.LoggedIn(gen));
      var want := pending.logins[gen];
      pending := pending.(logins := pending.logins - {gen});
      if gen != generation || disk.desired != want {
        return;
      }
      disk.SaveAgain();
      Attach(want, None);
    }

    method LoginFailed(gen: nat, needQr: bool)
      requires Valid() && started && gen in pending.logins
      modifies this, reconnector
      ensures Performed(C.LoginFailed(gen, needQr)) && Valid()
    {
      C.StepIsReachable(View(), kept, C.LoginFailed(gen, needQr));
      pending := pending.(logins := pending.logins - {gen});
      if gen != generation {
        return;
      }
      if needQr {
        SetState(C.NeedQr, true);
      } else {
        SetState(C.Connecting, true);
        var _ := reconnector.Schedule();
      }
    }

    // `attach` goes on after the account info came, failed or was given up; a QR attempt that waited for
    // it is finished either way.
    method Fetched(gen: nat)
      requires Valid() && started && gen in pending.attaches
      modifies this
      ensures Performed(C.Fetched(gen)) && Valid()
    {
      ghost var next := C.AfterFetch(View(), gen);
      assert C.Step(View(), C.Fetched(gen)) == next;
      assert C.Reachable(next, kept) by { C.StepIsReachable(View(), kept, C.Fetched(gen)); }
      C.AttemptsAreKnown(View(), kept);
      var qr := pending.attaches[gen];
      EndAttach(gen, gen == generation);
      if qr.Some? {
        Finish(qr.value);
      }
    }

    method EndAttach(gen: nat, listen: bool)
      modifies this`pending, this`state, this`stateError
      ensures var was := old(View());
              var ended := was.(pending := C.EndAttach(was.pending, gen, listen));
              var error := was.state == C.Connecting && was.stateError;
              View() == if listen then C.SetState(ended, C.Connecting, error) else ended
    {
      pending := C.EndAttach(pending, gen, listen);
      if listen {
        SetState(C.Connecting, if state == C.Connecting then stateError else false);
      }
    }

    method ListenerConnected(gen: nat)
      requires Valid() && started && gen in pending.listeners
      modifies this
      ensures Performed(C.ListenerConnected(gen)) && Valid()
    {
      C.StepIsReachable(View(), kept, C.ListenerConnected(gen));
      if gen == generation {
        stable := true;
        SetState(C.Connected, false);
      }
    }

    method ListenerDropped(gen: nat, kicked: bool)
      requires Valid() && started && gen in pending.listeners
      modifies this, reconnector
      ensures Performed(C.ListenerDropped(gen, kicked)) && Valid()
      ensures gen == generation && !kicked ==> state == C.Connecting && reconnector.timer != 0 && api == None
      ensures gen == generation && kicked ==> state == C.Kicked && reconnector.timer == 0 && api == None
    {
      C.StepIsReachable(View(), kept, C.ListenerDropped(gen, kicked));
      if gen != generation {
        return;
      }
      Detach();
      if kicked {
        reconnector.Cancel();
        SetState(C.Kicked, true);
        return;
      }
      SetState(C.Connecting, true);
      var _ := reconnector.Schedule();
    }

    // The `message` and `undo` callbacks; `forward` tells whether it is of the chosen group, and not own.
    method ListenerMessage(gen: nat, forward: bool) returns (push: bool)
      requires Valid() && started && gen in pending.listeners
      modifies this
      ensures Performed(C.ListenerMessage(gen, forward)) && Valid()
      ensures push <==> gen == generation && forward
    {
      C.StepIsReachable(View(), kept, C.ListenerMessage(gen, forward));
      push := gen == generation && forward;
      if push {
        pushed := pushed + [C.Push(gen, generation)];
      }
    }

    method StableFires()
      requires Valid() && started && stable
      modifies this, reconnector
      ensures Performed(C.StableFires) && Valid()
    {
      C.StepIsReachable(View(), kept, C.StableFires);
      stable := false;
      reconnector.Reset();
    }

    method Logout()
      requires Valid() && started
      modifies this, reconnector, disk
      ensures Performed(C.Logout) && Valid()
      ensures state == C.NeedQr && api == None && disk.desired == D.LoggedOut
    {
      ghost var next := C.AfterLogout(View());
      assert C.Step(View(), C.Logout) == next;
      assert C.Reachable(next, kept) by { C.StepIsReachable(View(), kept, C.Logout); }
      C.AttemptsAreKnown(View(), kept);
      NextGeneration();
      reconnector.Reset();
      AbandonQr();
      disk.LogOut();
      SetState(C.NeedQr, false);
    }

    // Joins the running attempt, or opens a new one.
    method QrStart() returns (a: nat)
      requires Valid() && started
      modifies this
      ensures Performed(C.QrStart) && Valid()
      ensures qrAttempt == Some(a) && a < |attempts| && !attempts[a].ended
      ensures if C.Running(old(View()).qr) then View() == old(View()) else a == |old(attempts)|
    {
      ghost var next := if C.Running(View().qr) then View() else View().(qr := C.Opened(C.Abandon(View().qr)));
      assert C.Step(View(), C.QrStart) == next;
      C.StepIsReachable(View(), kept, C.QrStart);
      C.AttemptsAreKnown(View(), kept);
      kept := kept && !C.AbandonsHandOver(View(), C.QrStart);
      if qrAttempt.Some? && !attempts[qrAttempt.value].ended {
        return qrAttempt.value;
      }
      a := OpenAttempt();
    }

    method QrFirstImageLate(a: nat)
      requires Valid() && started && a < |attempts| && attempts[a].armed
      modifies this
      ensures Performed(C.QrFirstImageLate(a)) && Valid()
    {
      C.StepIsReachable(View(), kept, C.QrFirstImageLate(a));
      attempts := attempts[a := attempts[a].(armed := false, abandoned := true, ended := true)];
      Forget(a);
    }

    method QrEmits(a: nat, e: C.QrEvent)
      requires Valid() && started && C.Scans(C.Qr(attempts, qrAttempt), a)
      modifies this
      ensures Performed(C.QrEmits(a, e)) && Valid()
    {
      C.StepIsReachable(View(), kept, C.QrEmits(a, e));
      var at := attempts[a];
      if at.abandoned {
        return;
      }
      if e == C.Image {
        at := at.(armed := false);
      }
      if e == C.Expired || e == C.Declined {
        at := at.(armed := false, ended := true);
      }
      if e == C.LoginInfo(true) {
        at := at.(hasCreds := true);
      }
      attempts := attempts[a := at];
    }

    method QrResolved(a: nat)
      requires Valid() && started && C.Scans(C.Qr(attempts, qrAttempt), a)
      modifies this, reconnector, disk
      ensures Performed(C.QrResolved(a)) && Valid()
    {
      ghost var next := C.AfterQrResolved(View(), a);
      assert C.Step(View(), C.QrResolved(a)) == next;
      assert C.Reachable(next, kept) by { C.StepIsReachable(View(), kept, C.QrResolved(a)); }
      if attempts[a].abandoned {
        DropAbandoned(a);
        return;
      }
      if !attempts[a].hasCreds {
        Finish(a);
        return;
      }
      HandOver(a);
    }

    // The login has fully succeeded: its session becomes the one wanted, and its save is queued.
    method HandOver(a: nat)
      requires a < |attempts| && reconnector.Valid()
      modifies this`attempts, reconnector, disk
      ensures reconnector.Valid()
      ensures View() == old(View()).(
        qr := C.SetAttempt(old(View()).qr, a,
                           old(attempts)[a].(armed := false, phase := C.HandingOver(old(disk.nextId)))),
        disk := D.AfterQrLogin(old(disk.View())), timer := R.NEVER)
    {
      var session := disk.LogIn();
      reconnector.Reset();
      attempts := attempts[a := attempts[a].(armed := false, phase := C.HandingOver(session))];
    }

    method QrRejected(a: nat)
      requires Valid() && started && C.Scans(C.Qr(attempts, qrAttempt), a)
      modifies this
      ensures Performed(C.QrRejected(a)) && Valid()
    {
      ghost var next := C.AfterQrRejected(View(), a);
      assert C.Step(View(), C.QrRejected(a)) == next;
      assert C.Reachable(next, kept) by { C.StepIsReachable(View(), kept, C.QrRejected(a)); }
      if attempts[a].abandoned {
        DropAbandoned(a);
        return;
      }
      Finish(a);
    }

    // The save of the session ended, or took longer than the hand-over waits.
    method HandOverDone(a: nat)
      requires Valid() && started && a < |attempts| && attempts[a].phase.HandingOver?
      modifies this
      ensures Performed(C.HandOverDone(a)) && Valid()
    {
      ghost var next := C.AfterHandOver(View(), a);
      assert C.Step(View(), C.HandOverDone(a)) == next;
      assert C.Reachable(next, kept) by { C.StepIsReachable(View(), kept, C.HandOverDone(a)); }
      if attempts[a].abandoned {
        DropAbandoned(a);
        return;
      }
      AttachHandedOver(a);
    }

    method AttachHandedOver(a: nat)
      requires a < |attempts| && attempts[a].phase.HandingOver?
      modifies this`generation, this`stable, this`api, this`pending, this`uses, this`attempts
      ensures var was := old(View());
              View() == C.Attach(
                was.(qr := C.SetAttempt(was.qr, a, was.qr.attempts[a].(phase := C.Attaching(was.generation + 1)))),
                D.Account(was.qr.attempts[a].phase.session), Some(a))
    {
      var session := attempts[a].phase.session;
      attempts := attempts[a := attempts[a].(phase := C.Attaching(generation + 1))];
      Attach(D.Account(session), Some(a));
    }

    // The disk goes on by itself: a command begins, an operation asks, takes place, settles or is late.
    method DiskGoesOn(e: D.Event)
      requires Valid() && started && C.Physical(e)
      modifies disk
      ensures Performed(C.OnDisk(e)) && Valid()
    {
      C.StepIsReachable(View(), kept, C.OnDisk(e));
      match e {
        case Begin =>
          if disk.running.Idle? && disk.chain != [] { disk.RunNext(); }
        case Check(w) =>
          if disk.Alive(w) { disk.AskWanted(w); }
        case Apply(w) =>
          if disk.Alive(w) && D.CanApply(disk.Operation(w)) { disk.Touch(w); }
        case Settle(ok) =>
          if !disk.running.Idle? && D.CanSettle(disk.running.op, ok) { disk.Settled(ok); }
        case Timeout =>
          if !disk.running.Idle? { disk.TimedOut(); }
        case LateSettle(k, ok) =>
          if k < |disk.late| && D.CanSettle(disk.late[k], ok) { disk.LateSettled(k, ok); }
      }
    }

    // What the machine promises of its runs, said of this object between any two of its calls: the file
    // and what is queued for it, the connection and its account, QR attempts, pushed events, and, unless a
    // `qrStart` has abandoned a hand-over, that CONNECTING has something under way.
    lemma KeepsItsPromises()
      requires Valid()
      ensures D.Quiet(disk.View()) ==> D.Good(disk.View())
      ensures D.Resyncs(disk.chain) == if disk.resyncPending then 1 else 0
      ensures api.Some? ==> api.value.gen == generation
      ensures disk.desired == D.LoggedOut ==> api == None
      ensures forall u :: u in uses ==> u.owner == u.wanted && u.owner != D.LoggedOut
      ensures forall a :: 0 <= a < |attempts| && attempts[a].phase != C.Over ==>
                qrAttempt == Some(a) || attempts[a].abandoned
      ensures C.LivePushes(pushed)
      ensures kept ==> C.NotOrphaned(View())
    {
      C.ReachableIsSound(View(), kept);
      D.OneResyncIsQueued(disk.chain, disk.resyncPending);
    }
  }
}
