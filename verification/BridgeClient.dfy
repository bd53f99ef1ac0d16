/**
The connection half of the bridge client: logins, QR attempts, logout and reconnect timers that
interleave around one generation counter, over the disk machine of `SessionDisk`.

As there, each function is one stretch of code between two awaits. Promises that are still pending are
kept in maps from the generation that started them, so a stale continuation is one whose generation is
no longer the current one.
*/
module BridgeClient {
  import opened Options
  import D = SessionDisk
  import R = Reconnector

  datatype State = Connecting | Connected | NeedQr | Kicked

  // A live connection: the generation it was attached under and the session it is logged in as.
  datatype Api = Api(gen: nat, owner: D.Desired)

  // `Scanning`: loginQR is pending. `HandingOver`: logged in, waiting for the first save of the session.
  // `Attaching`: its connection is being attached. `Over`: nothing of the attempt is pending.
  datatype Phase = Scanning | HandingOver(session: nat) | Attaching(gen: nat) | Over

  datatype Attempt = Attempt(ended: bool, abandoned: bool, hasCreds: bool, armed: bool, phase: Phase)

  // One use of credentials: whose they were, and which session was wanted at that instant.
  datatype Use = Use(owner: D.Desired, wanted: D.Desired)

  // One event pushed to the outbox: the generation of the listener it came from, and the current one.
  datatype Push = Push(gen: nat, current: nat)

  // The attempts ever opened, and which one is the current one.
  datatype Qr = Qr(attempts: seq<Attempt>, current: Option<nat>)

  // Promises and listeners by the generation that started them: reads of the session file, logins with
  // the session they are for, attaches with the QR attempt they end, started listeners.
  datatype Pending = Pending(
    loads: set<nat>,
    logins: map<nat, D.Desired>,
    attaches: map<nat, Option<nat>>,
    listeners: set<nat>)

  datatype Client = Client(
    disk: D.Disk,
    started: bool,
    generation: nat,
    state: State,
    stateError: bool,
    api: Option<Api>,
    timer: R.Timer,
    stable: bool,
    pending: Pending,
    qr: Qr,
    uses: seq<Use>,
    pushed: seq<Push>)

  datatype QrEvent = Image | Expired | Scanned | Declined | LoginInfo(complete: bool)

  datatype Event =
    | Start
    | Reconnect
    | TimerFires
    | Loaded(gen: nat, found: bool, failed: bool)
    | LoggedIn(gen: nat)
    | LoginFailed(gen: nat, needQr: bool)
    | Fetched(gen: nat)
    | ListenerConnected(gen: nat)
    | ListenerDropped(gen: nat, kicked: bool)
    | ListenerMessage(gen: nat, forward: bool)
    | StableFires
    | Logout
    | QrStart
    | QrFirstImageLate(a: nat)
    | QrEmits(a: nat, e: QrEvent)
    | QrResolved(a: nat)
    | QrRejected(a: nat)
    | HandOverDone(a: nat)
    | OnDisk(de: D.Event)

  function Initial(file: D.File): Client {
    Client(D.Initial(file), false, 0, Connecting, false, None, R.NEVER, false,
           Pending({}, map[], map[], {}), Qr([], None), [], [])
  }

  // ------------------------------------------------------------------------------- pending promises

  function AddLoad(p: Pending, gen: nat): Pending {
    p.(loads := p.loads + {gen})
  }

  function AddLogin(p: Pending, gen: nat, owner: D.Desired): Pending {
    p.(logins := p.logins[gen := owner])
  }

  function AddAttach(p: Pending, gen: nat, qr: Option<nat>): Pending {
    p.(attaches := p.attaches[gen := qr])
  }

  function EndAttach(p: Pending, gen: nat, listen: bool): Pending {
    p.(attaches := p.attaches - {gen}, listeners := if listen then p.listeners + {gen} else p.listeners)
  }

  // ------------------------------------------------------------------------------------ QR attempts

  function SetAttempt(q: Qr, a: nat, at: Attempt): Qr
    requires a < |q.attempts|
  {
    q.(attempts := q.attempts[a := at])
  }

  function Forget(q: Qr, a: nat): Qr {
    if q.current == Some(a) then q.(current := None) else q
  }

  // The attempt has nothing pending any more and is not the current one.
  function Finish(q: Qr, a: nat): Qr {
    if a < |q.attempts|
    then Forget(SetAttempt(q, a, q.attempts[a].(ended := true, armed := false, phase := Over)), a)
    else q
  }

  // The end of an attempt that had been abandoned: nothing else changes.
  function DropAbandoned(q: Qr, a: nat): Qr
    requires a < |q.attempts|
  {
    SetAttempt(q, a, q.attempts[a].(armed := false, phase := Over))
  }

  function Abandon(q: Qr): Qr {
    if q.current.Some? && q.current.value < |q.attempts| then
      var a := q.current.value;
      Qr(q.attempts[a := q.attempts[a].(abandoned := true, ended := true, armed := false)], None)
    else q.(current := None)
  }

  function Opened(q: Qr): Qr {
    Qr(q.attempts + [Attempt(false, false, false, true, Scanning)], Some(|q.attempts|))
  }

  predicate Running(q: Qr) {
    q.current.Some? && q.current.value < |q.attempts| && !q.attempts[q.current.value].ended
  }

  function FirstImageLate(q: Qr, a: nat): Qr
    requires a < |q.attempts|
  {
    Forget(SetAttempt(q, a, q.attempts[a].(armed := false, abandoned := true, ended := true)), a)
  }

  function AfterQrEvent(q: Qr, a: nat, e: QrEvent): Qr
    requires a < |q.attempts|
  {
    var at := q.attempts[a];
    if at.abandoned then q
    else match e
      case Image => SetAttempt(q, a, at.(armed := false))
      case Expired => SetAttempt(q, a, at.(armed := false, ended := true))
      case Declined => SetAttempt(q, a, at.(armed := false, ended := true))
      case LoginInfo(complete) => SetAttempt(q, a, at.(hasCreds := at.hasCreds || complete))
      case Scanned => q
  }

  // ----------------------------------------------------------------------------------- the client

  function SetState(c: Client, state: State, error: bool): Client {
    c.(state := state, stateError := error)
  }

  function Detach(c: Client): Client {
    c.(stable := false, api := None)
  }

  function NextGeneration(c: Client): Client {
    Detach(c.(generation := c.generation + 1))
  }

  function CallLogin(c: Client, owner: D.Desired): Client {
    c.(pending := AddLogin(c.pending, c.generation, owner), uses := c.uses + [Use(owner, c.disk.desired)])
  }

  function Connect(c: Client, initial: bool): Client {
    var c1 := NextGeneration(c);
    match c.disk.desired
    case LoggedOut => SetState(c1, NeedQr, c1.stateError)
    case Startup => SetState(c1, Connecting, !initial && c1.stateError).(pending := AddLoad(c1.pending, c1.generation))
    case Account(_) => CallLogin(SetState(c1, Connecting, !initial && c1.stateError), c.disk.desired)
  }

  // The part of `attach` before it waits for the account info.
  function Attach(c: Client, owner: D.Desired, qr: Option<nat>): Client {
    var c1 := NextGeneration(c);
    c1.(api := Some(Api(c1.generation, owner)),
        pending := AddAttach(c1.pending, c1.generation, qr),
        uses := c1.uses + [Use(owner, c.disk.desired)])
  }

  function AfterLoad(c: Client, gen: nat, found: bool, failed: bool): Client {
    var c1 := c.(pending := c.pending.(loads := c.pending.loads - {gen}));
    if gen != c.generation || c.disk.desired != D.Startup then c1
    else if failed || !found then SetState(c1, NeedQr, failed || c1.stateError)
    else CallLogin(c1, D.Startup)
  }

  function EndLogin(c: Client, gen: nat): Client {
    c.(pending := c.pending.(logins := c.pending.logins - {gen}))
  }

  function AfterLogin(c: Client, gen: nat): Client
    requires gen in c.pending.logins
  {
    var want := c.pending.logins[gen];
    var c1 := EndLogin(c, gen);
    if gen != c.generation || c.disk.desired != want then c1
    else Attach(c1.(disk := D.AfterRetrySave(c1.disk)), want, None)
  }

  function AfterLoginFailure(c: Client, gen: nat, needQr: bool): Client {
    var c1 := EndLogin(c, gen);
    if gen != c.generation then c1
    else if needQr then SetState(c1, NeedQr, true)
    else SetState(c1, Connecting, true).(timer := R.Scheduled(c1.timer))
  }

  function AfterFetch(c: Client, gen: nat): Client
    requires gen in c.pending.attaches
  {
    var live := gen == c.generation;
    var c1 := c.(
      pending := EndAttach(c.pending, gen, live),
      qr := match c.pending.attaches[gen] { case None => c.qr case Some(a) => Finish(c.qr, a) });
    if live then SetState(c1, Connecting, c1.state == Connecting && c1.stateError) else c1
  }

  function AfterConnected(c: Client, gen: nat): Client {
    if gen != c.generation then c else SetState(c.(stable := true), Connected, false)
  }

  function AfterDrop(c: Client, gen: nat, kicked: bool): Client {
    if gen != c.generation then c
    else if kicked then SetState(Detach(c), Kicked, true).(timer := R.Cancelled(c.timer))
    else SetState(Detach(c), Connecting, true).(timer := R.Scheduled(c.timer))
  }

  // A message or an undo; `forward` tells whether it is of the chosen group, and not the bridge's own.
  function AfterMessage(c: Client, gen: nat, forward: bool): Client {
    if gen != c.generation || !forward then c else c.(pushed := c.pushed + [Push(gen, c.generation)])
  }

  function AfterLogout(c: Client): Client {
    SetState(NextGeneration(c), NeedQr, false).(timer := R.NEVER, qr := Abandon(c.qr), disk := D.AfterLogout(c.disk))
  }

  function AfterQrResolved(c: Client, a: nat): Client
    requires a < |c.qr.attempts|
  {
    var at := c.qr.attempts[a];
    if at.abandoned then c.(qr := DropAbandoned(c.qr, a))
    else if !at.hasCreds then c.(qr := Finish(c.qr, a))
    else
      c.(qr := SetAttempt(c.qr, a, at.(armed := false, phase := HandingOver(c.disk.nextId))),
         disk := D.AfterQrLogin(c.disk),
         timer := R.NEVER)
  }

  function AfterQrRejected(c: Client, a: nat): Client
    requires a < |c.qr.attempts|
  {
    c.(qr := if c.qr.attempts[a].abandoned then DropAbandoned(c.qr, a) else Finish(c.qr, a))
  }

  function AfterHandOver(c: Client, a: nat): Client
    requires a < |c.qr.attempts| && c.qr.attempts[a].phase.HandingOver?
  {
    var at := c.qr.attempts[a];
    if at.abandoned then c.(qr := DropAbandoned(c.qr, a))
    else
      Attach(c.(qr := SetAttempt(c.qr, a, at.(phase := Attaching(c.generation + 1)))),
             D.Account(at.phase.session), Some(a))
  }

  // The disk machine's own events; its logins, logouts and retried saves are made by the client.
  predicate Physical(e: D.Event) {
    !e.Logout? && !e.QrLogin? && !e.RetrySave?
  }

  predicate Scans(q: Qr, a: nat) {
    a < |q.attempts| && q.attempts[a].phase == Scanning
  }

  predicate Enabled(c: Client, e: Event) {
    c.started == !e.Start? && match e
    case TimerFires => c.timer.pending
    case Loaded(gen, _, _) => gen in c.pending.loads
    case LoggedIn(gen) => gen in c.pending.logins
    case LoginFailed(gen, _) => gen in c.pending.logins
    case Fetched(gen) => gen in c.pending.attaches
    case ListenerConnected(gen) => gen in c.pending.listeners
    case ListenerDropped(gen, _) => gen in c.pending.listeners
    case ListenerMessage(gen, _) => gen in c.pending.listeners
    case StableFires => c.stable
    case QrFirstImageLate(a) => a < |c.qr.attempts| && c.qr.attempts[a].armed
    case QrEmits(a, _) => Scans(c.qr, a)
    case QrResolved(a) => Scans(c.qr, a)
    case QrRejected(a) => Scans(c.qr, a)
    case HandOverDone(a) => a < |c.qr.attempts| && c.qr.attempts[a].phase.HandingOver?
    case OnDisk(de) => Physical(de)
    case _ => true
  }

  function Perform(c: Client, e: Event): Client
    requires Enabled(c, e)
  {
    match e
    case Start => Connect(c.(started := true), true)
    case Reconnect => Connect(c.(timer := R.NEVER), false)
    case TimerFires => Connect(c.(timer := R.Cancelled(c.timer)), false)
    case Loaded(gen, found, failed) => AfterLoad(c, gen, found, failed)
    case LoggedIn(gen) => AfterLogin(c, gen)
    case LoginFailed(gen, needQr) => AfterLoginFailure(c, gen, needQr)
    case Fetched(gen) => AfterFetch(c, gen)
    case ListenerConnected(gen) => AfterConnected(c, gen)
    case ListenerDropped(gen, kicked) => AfterDrop(c, gen, kicked)
    case ListenerMessage(gen, forward) => AfterMessage(c, gen, forward)
    case StableFires => c.(stable := false, timer := R.NEVER)
    case Logout => AfterLogout(c)
    case QrStart => if Running(c.qr) then c else c.(qr := Opened(Abandon(c.qr)))
    case QrFirstImageLate(a) => c.(qr := FirstImageLate(c.qr, a))
    case QrEmits(a, qe) => c.(qr := AfterQrEvent(c.qr, a, qe))
    case QrResolved(a) => AfterQrResolved(c, a)
    case QrRejected(a) => AfterQrRejected(c, a)
    case HandOverDone(a) => AfterHandOver(c, a)
    case OnDisk(de) => c.(disk := D.Step(c.disk, de))
  }

  // An event that is not possible in a state leaves the state as it is.
  function Step(c: Client, e: Event): Client {
    if Enabled(c, e) then Perform(c, e) else c
  }

  function Run(c: Client, events: seq<Event>): Client
    decreases events
  {
    if events == [] then c else Run(Step(c, events[0]), events[1..])
  }

  // ------------------------------------------------------------------------------------ invariants

  // What is pending under the current generation `now`, and the connection made under it.
  ghost predicate GenInv(now: nat, p: Pending, api: Option<Api>) {
    && (forall g :: g in p.loads || g in p.logins || g in p.attaches || g in p.listeners ==> g <= now)
    && (now in p.loads ==> now !in p.logins && now !in p.attaches && now !in p.listeners)
    && (now in p.logins ==> now !in p.attaches && now !in p.listeners)
    && (now in p.attaches ==> now !in p.listeners && api.Some?)
    && (api.Some? ==> api.value.gen == now && (now in p.attaches || now in p.listeners))
  }

  ghost predicate TimerInv(c: Client) {
    && (c.generation in c.pending.loads || c.generation in c.pending.logins ==>
          !c.timer.pending && c.state == Connecting)
    && (c.state == NeedQr || c.state == Kicked || !c.started ==> !c.timer.pending)
    && (c.stable ==> c.state == Connected && c.generation in c.pending.listeners)
  }

  ghost predicate AccountInv(desired: D.Desired, api: Option<Api>, logins: map<nat, D.Desired>, uses: seq<Use>) {
    && (desired == D.LoggedOut ==> api.None?)
    && (forall g :: g in logins ==> logins[g] != D.LoggedOut)
    && (forall u :: u in uses ==> u.owner == u.wanted && u.owner != D.LoggedOut)
  }

  ghost predicate AttemptInv(at: Attempt, a: nat, current: Option<nat>,
                             desired: D.Desired, attaches: map<nat, Option<nat>>) {
    && (at.phase != Over ==> at.abandoned || current == Some(a))
    && (at.armed ==> at.phase == Scanning)
    && (at.phase.HandingOver? && !at.abandoned ==> desired == D.Account(at.phase.session))
    && (at.phase.Attaching? ==> at.phase.gen in attaches && attaches[at.phase.gen] == Some(a))
  }

  ghost predicate QrInv(q: Qr, desired: D.Desired, attaches: map<nat, Option<nat>>) {
    && (forall a :: 0 <= a < |q.attempts| ==> AttemptInv(q.attempts[a], a, q.current, desired, attaches))
    && (q.current.Some? ==>
          && q.current.value < |q.attempts|
          && !q.attempts[q.current.value].abandoned
          && q.attempts[q.current.value].phase != Over)
    && (forall g :: g in attaches && attaches[g].Some? ==>
          attaches[g].value < |q.attempts| && q.attempts[attaches[g].value].phase == Attaching(g))
  }

  ghost predicate Core(c: Client) {
    && GenInv(c.generation, c.pending, c.api)
    && TimerInv(c)
    && AccountInv(c.disk.desired, c.api, c.pending.logins, c.uses)
    && QrInv(c.qr, c.disk.desired, c.pending.attaches)
  }

  ghost predicate Inv(c: Client) {
    D.Inv(c.disk) && Core(c)
  }

  // A new generation has nothing pending yet, and takes up at most one promise.
  lemma NewGeneration(now: nat, p: Pending, api: Option<Api>, owner: D.Desired, qr: Option<nat>)
    requires GenInv(now, p, api)
    ensures GenInv(now + 1, p, None)
    ensures GenInv(now + 1, AddLoad(p, now + 1), None)
    ensures GenInv(now + 1, AddLogin(p, now + 1, owner), None)
    ensures GenInv(now + 1, AddAttach(p, now + 1, qr), Some(Api(now + 1, owner)))
    ensures now + 1 !in p.loads && now + 1 !in p.logins && now + 1 !in p.attaches && now + 1 !in p.listeners
  {
  }

  lemma NewUse(desired: D.Desired, api: Option<Api>, logins: map<nat, D.Desired>, uses: seq<Use>, gen: nat, next: Api)
    requires AccountInv(desired, api, logins, uses) && desired != D.LoggedOut
    ensures AccountInv(desired, Some(next), logins, uses + [Use(desired, desired)])
    ensures AccountInv(desired, None, logins[gen := desired], uses + [Use(desired, desired)])
  {
  }

  lemma AbandonKeepsQrInv(q: Qr, desired: D.Desired, desired': D.Desired, attaches: map<nat, Option<nat>>)
    requires QrInv(q, desired, attaches)
    ensures QrInv(Abandon(q), desired', attaches)
  {
  }

  lemma OpenKeepsQrInv(q: Qr, desired: D.Desired, attaches: map<nat, Option<nat>>)
    requires QrInv(q, desired, attaches) && q.current.None?
    ensures QrInv(Opened(q), desired, attaches)
  {
  }

  // An attempt that is over drops out of the invariant, together with the attach it was waiting for.
  lemma OverKeepsQrInv(q: Qr, desired: D.Desired, attaches: map<nat, Option<nat>>, a: nat)
    requires QrInv(q, desired, attaches) && a < |q.attempts|
    ensures QrInv(Finish(q, a), desired, WithoutAttach(q.attempts[a], attaches))
    ensures q.attempts[a].abandoned ==> QrInv(DropAbandoned(q, a), desired, WithoutAttach(q.attempts[a], attaches))
  {
    var left := WithoutAttach(q.attempts[a], attaches);
    var over := q.attempts[a].(ended := true, armed := false, phase := Over);
    SetOverKeepsQrInv(q, desired, attaches, a, over);
    if q.attempts[a].abandoned {
      SetOverKeepsQrInv(q, desired, attaches, a, q.attempts[a].(armed := false, phase := Over));
    }
  }

  function WithoutAttach(at: Attempt, attaches: map<nat, Option<nat>>): map<nat, Option<nat>> {
    if at.phase.Attaching? then attaches - {at.phase.gen} else attaches
  }

  lemma SetOverKeepsQrInv(q: Qr, desired: D.Desired, attaches: map<nat, Option<nat>>, a: nat, over: Attempt)
    requires QrInv(q, desired, attaches) && a < |q.attempts|
    requires over.phase == Over && !over.armed
    ensures QrInv(Forget(SetAttempt(q, a, over), a), desired, WithoutAttach(q.attempts[a], attaches))
  {
  }

  // The parts of the invariant that a new generation touches.
  lemma ConnectKeepsGenInv(c: Client, initial: bool)
    requires GenInv(c.generation, c.pending, c.api)
    ensures var r := Connect(c, initial); GenInv(r.generation, r.pending, r.api)
  {
    NewGeneration(c.generation, c.pending, c.api, c.disk.desired, None);
    var r := Connect(c, initial);
    assert r.generation == c.generation + 1 && r.api == None;
    match c.disk.desired
    case LoggedOut => assert r.pending == c.pending;
    case Startup => assert r.pending == AddLoad(c.pending, r.generation);
    case Account(_) => assert r.pending == AddLogin(c.pending, r.generation, c.disk.desired);
  }

  lemma ConnectKeepsTimerInv(c: Client, initial: bool)
    requires TimerInv(c) && GenInv(c.generation, c.pending, c.api) && !c.timer.pending
    ensures TimerInv(Connect(c, initial))
  {
    NewGeneration(c.generation, c.pending, c.api, c.disk.desired, None);
  }

  lemma ConnectKeepsCore(c: Client, initial: bool)
    requires Core(c) && !c.timer.pending
    ensures Core(Connect(c, initial))
  {
    ConnectKeepsGenInv(c, initial);
    ConnectKeepsTimerInv(c, initial);
    var r := Connect(c, initial);
    assert AccountInv(r.disk.desired, r.api, r.pending.logins, r.uses) by {
      if c.disk.desired.Account? {
        NewUse(c.disk.desired, c.api, c.pending.logins, c.uses, c.generation + 1, Api(0, c.disk.desired));
      }
    }
    assert QrInv(r.qr, r.disk.desired, r.pending.attaches);
  }

  lemma AttachKeepsCore(c: Client, owner: D.Desired)
    requires Core(c) && owner == c.disk.desired && owner != D.LoggedOut
    ensures Core(Attach(c, owner, None))
  {
    NewGeneration(c.generation, c.pending, c.api, owner, None);
    NewUse(owner, c.api, c.pending.logins, c.uses, 0, Api(c.generation + 1, owner));
  }

  lemma LoadKeepsCore(c: Client, gen: nat, found: bool, failed: bool)
    requires Core(c) && c.started && gen in c.pending.loads
    ensures Core(AfterLoad(c, gen, found, failed))
  {
    if c.disk.desired == D.Startup {
      NewUse(c.disk.desired, c.api, c.pending.logins, c.uses, c.generation, Api(0, c.disk.desired));
    }
  }

  lemma LoginKeepsCore(c: Client, gen: nat)
    requires Core(c) && c.started && gen in c.pending.logins
    ensures Core(AfterLogin(c, gen))
  {
    var c1 := EndLogin(c, gen);
    assert Core(c1);
    if gen == c.generation && c.disk.desired == c.pending.logins[gen] {
      AttachKeepsCore(c1.(disk := D.AfterRetrySave(c1.disk)), c.pending.logins[gen]);
    }
  }

  lemma LoginFailureKeepsCore(c: Client, gen: nat, needQr: bool)
    requires Core(c) && c.started && gen in c.pending.logins
    ensures Core(AfterLoginFailure(c, gen, needQr))
  {
  }

  lemma EndAttachKeepsGenInv(now: nat, p: Pending, api: Option<Api>, gen: nat)
    requires GenInv(now, p, api) && gen in p.attaches
    ensures GenInv(now, EndAttach(p, gen, gen == now), api)
  {
  }

  lemma FetchKeepsCore(c: Client, gen: nat)
    requires Core(c) && c.started && gen in c.pending.attaches
    ensures Core(AfterFetch(c, gen))
  {
    EndAttachKeepsGenInv(c.generation, c.pending, c.api, gen);
    match c.pending.attaches[gen]
    case None =>
    case Some(a) => OverKeepsQrInv(c.qr, c.disk.desired, c.pending.attaches, a);
  }

  lemma ConnectedKeepsCore(c: Client, gen: nat)
    requires Core(c) && c.started && gen in c.pending.listeners
    ensures Core(AfterConnected(c, gen))
  {
  }

  lemma DropKeepsCore(c: Client, gen: nat, kicked: bool)
    requires Core(c) && c.started && gen in c.pending.listeners
    ensures Core(AfterDrop(c, gen, kicked))
  {
  }

  lemma LogoutKeepsCore(c: Client)
    requires Core(c)
    ensures Core(AfterLogout(c))
  {
    NewGeneration(c.generation, c.pending, c.api, D.LoggedOut, None);
    AbandonKeepsQrInv(c.qr, c.disk.desired, D.LoggedOut, c.pending.attaches);
  }

  lemma QrStartKeepsCore(c: Client)
    requires Core(c)
    ensures Core(c.(qr := Opened(Abandon(c.qr))))
  {
    AbandonKeepsQrInv(c.qr, c.disk.desired, c.disk.desired, c.pending.attaches);
    OpenKeepsQrInv(Abandon(c.qr), c.disk.desired, c.pending.attaches);
  }

  lemma QrEventKeepsQrInv(q: Qr, desired: D.Desired, attaches: map<nat, Option<nat>>, a: nat, e: QrEvent)
    requires QrInv(q, desired, attaches) && Scans(q, a)
    ensures QrInv(AfterQrEvent(q, a, e), desired, attaches)
    ensures QrInv(FirstImageLate(q, a), desired, attaches)
  {
  }

  lemma HandOverBeginsQrInv(q: Qr, desired: D.Desired, attaches: map<nat, Option<nat>>, a: nat, id: nat)
    requires QrInv(q, desired, attaches) && Scans(q, a) && !q.attempts[a].abandoned
    ensures QrInv(SetAttempt(q, a, q.attempts[a].(armed := false, phase := HandingOver(id))), D.Account(id), attaches)
  {
  }

  lemma QrResolvedKeepsCore(c: Client, a: nat)
    requires Core(c) && Scans(c.qr, a)
    ensures Core(AfterQrResolved(c, a))
  {
    OverKeepsQrInv(c.qr, c.disk.desired, c.pending.attaches, a);
    if !c.qr.attempts[a].abandoned {
      HandOverBeginsQrInv(c.qr, c.disk.desired, c.pending.attaches, a, c.disk.nextId);
    }
  }

  lemma QrRejectedKeepsCore(c: Client, a: nat)
    requires Core(c) && Scans(c.qr, a)
    ensures Core(AfterQrRejected(c, a))
  {
    OverKeepsQrInv(c.qr, c.disk.desired, c.pending.attaches, a);
  }

  lemma AttachBeginsQrInv(q: Qr, desired: D.Desired, attaches: map<nat, Option<nat>>, a: nat, gen: nat)
    requires QrInv(q, desired, attaches) && gen !in attaches
    requires a < |q.attempts| && q.attempts[a].phase.HandingOver? && !q.attempts[a].abandoned
    ensures QrInv(SetAttempt(q, a, q.attempts[a].(phase := Attaching(gen))), desired, attaches[gen := Some(a)])
  {
  }

  lemma HandOverAttachKeepsCore(c: Client, a: nat)
    requires Core(c) && a < |c.qr.attempts| && WillAttach(c.qr.attempts[a])
    ensures Core(AfterHandOver(c, a))
  {
    NewGeneration(c.generation, c.pending, c.api, c.disk.desired, Some(a));
    AttachBeginsQrInv(c.qr, c.disk.desired, c.pending.attaches, a, c.generation + 1);
    NewUse(c.disk.desired, c.api, c.pending.logins, c.uses, 0, Api(c.generation + 1, c.disk.desired));
  }

  lemma HandOverKeepsCore(c: Client, a: nat)
    requires Core(c) && a < |c.qr.attempts| && c.qr.attempts[a].phase.HandingOver?
    ensures Core(AfterHandOver(c, a))
  {
    if c.qr.attempts[a].abandoned {
      OverKeepsQrInv(c.qr, c.disk.desired, c.pending.attaches, a);
    } else {
      HandOverAttachKeepsCore(c, a);
    }
  }

  lemma QrStepKeepsCore(c: Client, e: Event)
    requires Core(c) && Enabled(c, e)
    requires e.QrStart? || e.QrFirstImageLate? || e.QrEmits? || e.QrResolved? || e.QrRejected? || e.HandOverDone?
    ensures Core(Step(c, e))
  {
    match e
    case QrStart => if !Running(c.qr) { QrStartKeepsCore(c); }
    case QrFirstImageLate(a) => QrEventKeepsQrInv(c.qr, c.disk.desired, c.pending.attaches, a, Scanned);
    case QrEmits(a, qe) => QrEventKeepsQrInv(c.qr, c.disk.desired, c.pending.attaches, a, qe);
    case QrResolved(a) => QrResolvedKeepsCore(c, a);
    case QrRejected(a) => QrRejectedKeepsCore(c, a);
    case HandOverDone(a) => HandOverKeepsCore(c, a);
  }

  lemma StepKeepsCore(c: Client, e: Event)
    requires Core(c) && Enabled(c, e)
    ensures Core(Step(c, e))
  {
    match e
    case Start => ConnectKeepsCore(c.(started := true), true);
    case Reconnect => ConnectKeepsCore(c.(timer := R.NEVER), false);
    case TimerFires => ConnectKeepsCore(c.(timer := R.Cancelled(c.timer)), false);
    case Loaded(gen, found, failed) => LoadKeepsCore(c, gen, found, failed);
    case LoggedIn(gen) => LoginKeepsCore(c, gen);
    case LoginFailed(gen, needQr) => LoginFailureKeepsCore(c, gen, needQr);
    case Fetched(gen) => FetchKeepsCore(c, gen);
    case ListenerConnected(gen) => ConnectedKeepsCore(c, gen);
    case ListenerDropped(gen, kicked) => DropKeepsCore(c, gen, kicked);
    case ListenerMessage(gen, forward) => assert AfterMessage(c, gen, forward) == c.(pushed := Step(c, e).pushed);
    case StableFires =>
    case Logout => LogoutKeepsCore(c);
    case OnDisk(de) => assert D.Step(c.disk, de).desired == c.disk.desired;
    case _ => QrStepKeepsCore(c, e);
  }

  // What a step of the client does to the disk machine: at most one of its own events.
  function DiskEvent(c: Client, e: Event): Option<D.Event>
    requires Enabled(c, e)
  {
    match e
    case Logout => Some(D.Logout)
    case QrResolved(a) =>
      if c.qr.attempts[a].abandoned || !c.qr.attempts[a].hasCreds then None else Some(D.QrLogin)
    case LoggedIn(gen) =>
      if gen != c.generation || c.disk.desired != c.pending.logins[gen] then None else Some(D.RetrySave)
    case OnDisk(de) => Some(de)
    case _ => None
  }

  lemma DiskOnlyStepsByItsEvents(c: Client, e: Event)
    requires Enabled(c, e)
    ensures Step(c, e).disk == match DiskEvent(c, e) { case None => c.disk case Some(de) => D.Step(c.disk, de) }
  {
  }

  lemma StepKeepsInv(c: Client, e: Event)
    requires Inv(c)
    ensures Inv(Step(c, e))
  {
    if Enabled(c, e) {
      StepKeepsCore(c, e);
      DiskOnlyStepsByItsEvents(c, e);
      match DiskEvent(c, e)
      case None =>
      case Some(de) => D.StepKeepsInv(c.disk, de);
    }
  }

  lemma {:induction false} RunKeepsInv(c: Client, events: seq<Event>)
    requires Inv(c)
    ensures Inv(Run(c, events))
    decreases events
  {
    if events != [] {
      StepKeepsInv(c, events[0]);
      RunKeepsInv(Step(c, events[0]), events[1..]);
    }
  }

  // ---------------------------------------------------------------------------------- main results

  // Whatever logins, logouts, reconnects and QR attempts interleave with slow and failing disk
  // operations, a quiet disk holds what `desired` says or health reports why not.
  lemma DiskConverges(file: D.File, events: seq<Event>)
    requires !file.Holds?
    ensures var d := Run(Initial(file), events).disk;
            D.Quiet(d) ==> D.Good(d)
  {
    RunKeepsInv(Initial(file), events);
  }

  // Every login call and every attach, over the whole run, used the session wanted at that instant; a
  // live connection belongs to the current generation; and a logged-out client has no connection.
  lemma OnlyTheDesiredAccount(file: D.File, events: seq<Event>)
    requires !file.Holds?
    ensures var c := Run(Initial(file), events);
            && (forall u :: u in c.uses ==> u.owner == u.wanted && u.owner != D.LoggedOut)
            && (c.api.Some? ==> c.api.value.gen == c.generation)
            && (c.disk.desired == D.LoggedOut ==> c.api.None?)
  {
    RunKeepsInv(Initial(file), events);
  }

  // Which attempt an event belongs to.
  function AttemptOf(e: Event): Option<nat> {
    match e
    case QrFirstImageLate(a) => Some(a)
    case QrEmits(a, _) => Some(a)
    case QrResolved(a) => Some(a)
    case QrRejected(a) => Some(a)
    case HandOverDone(a) => Some(a)
    case _ => None
  }

  // The generation a continuation or callback belongs to.
  function Owner(e: Event): Option<nat> {
    match e
    case Loaded(gen, _, _) => Some(gen)
    case LoggedIn(gen) => Some(gen)
    case LoginFailed(gen, _) => Some(gen)
    case Fetched(gen) => Some(gen)
    case ListenerConnected(gen) => Some(gen)
    case ListenerDropped(gen, _) => Some(gen)
    case ListenerMessage(gen, _) => Some(gen)
    case _ => None
  }

  // A step that only takes note that something is over: it stops being pending, and a QR attempt that
  // waited for it ends. No state, connection, timer or session changes, and nothing is pushed.
  ghost predicate Silent(c: Client, e: Event) {
    var r := Step(c, e);
    && r == c.(pending := r.pending, qr := r.qr)
    && r.pending.listeners == c.pending.listeners
    && r.pending.loads <= c.pending.loads
    && r.pending.logins.Items <= c.pending.logins.Items
    && r.pending.attaches.Items <= c.pending.attaches.Items
    && (!e.Fetched? ==> r.qr == c.qr)
  }

  lemma StaleIsSilent(c: Client, e: Event)
    requires Owner(e).Some? && Owner(e).value != c.generation
    ensures Silent(c, e)
  {
  }

  predicate MayBeginGeneration(e: Event) {
    e.Start? || e.Reconnect? || e.TimerFires? || e.LoggedIn? || e.Logout? || e.HandOverDone?
  }

  lemma OthersKeepGeneration(c: Client, e: Event)
    requires Enabled(c, e) && !MayBeginGeneration(e)
    ensures Step(c, e).generation == c.generation
  {
  }

  lemma GenerationGrows(c: Client, e: Event)
    ensures c.generation <= Step(c, e).generation
  {
    if Enabled(c, e) && !MayBeginGeneration(e) {
      OthersKeepGeneration(c, e);
    }
  }

  // Once a newer generation has begun, every continuation and callback of an older one is silent, in every
  // later state: a login result, an attach, a message, a drop.
  lemma {:induction false} StaleForGood(c: Client, events: seq<Event>, e: Event)
    requires Owner(e).Some? && Owner(e).value < c.generation
    ensures Silent(Run(c, events), e)
    decreases events
  {
    if events == [] {
      StaleIsSilent(c, e);
    } else {
      GenerationGrows(c, events[0]);
      StaleForGood(Step(c, events[0]), events[1..], e);
    }
  }

  ghost predicate LivePushes(pushed: seq<Push>) {
    forall p :: p in pushed ==> p.gen == p.current
  }

  lemma OthersDoNotPush(c: Client, e: Event)
    requires Enabled(c, e) && !e.ListenerMessage?
    ensures Step(c, e).pushed == c.pushed
  {
  }

  lemma StepKeepsPushesLive(c: Client, e: Event)
    requires LivePushes(c.pushed)
    ensures LivePushes(Step(c, e).pushed)
  {
    if Enabled(c, e) && !e.ListenerMessage? {
      OthersDoNotPush(c, e);
    }
  }

  // Every event ever pushed came from the listener of the generation that was current at that instant.
  lemma {:induction false} OnlyLiveListenersPush(c: Client, events: seq<Event>)
    requires LivePushes(c.pushed)
    ensures LivePushes(Run(c, events).pushed)
    decreases events
  {
    if events != [] {
      StepKeepsPushesLive(c, events[0]);
      OnlyLiveListenersPush(Step(c, events[0]), events[1..]);
    }
  }

  // --------------------------------------------------------------------- CONNECTING is not orphaned

  // A QR login that succeeded and will attach its connection once its session is saved.
  predicate WillAttach(at: Attempt) {
    at.phase.HandingOver? && !at.abandoned
  }

  ghost predicate HandOverPending(q: Qr) {
    exists a :: 0 <= a < |q.attempts| && WillAttach(q.attempts[a])
  }

  // Something other than a hand-over will still move the client out of CONNECTING.
  predicate Driven(c: Client) {
    || (c.generation in c.pending.loads && c.disk.desired == D.Startup)
    || (c.generation in c.pending.logins && c.pending.logins[c.generation] == c.disk.desired)
    || c.generation in c.pending.attaches
    || (c.generation in c.pending.listeners && c.api.Some?)
    || c.timer.pending
  }

  ghost predicate NotOrphaned(c: Client) {
    c.started && c.state == Connecting ==> Driven(c) || HandOverPending(c.qr)
  }

  // The one way to orphan it: a QR code expired or was declined, the login behind it succeeded all the
  // same, and a new attempt is opened while that login waits for its save.
  predicate AbandonsHandOver(c: Client, e: Event) {
    && e.QrStart?
    && c.started && c.state == Connecting
    && !Driven(c)
    && c.qr.current.Some? && c.qr.current.value < |c.qr.attempts|
    && c.qr.attempts[c.qr.current.value].ended
  }

  predicate CurrentHandsOver(q: Qr) {
    q.current.Some? && q.current.value < |q.attempts| && WillAttach(q.attempts[q.current.value])
  }

  lemma OnlyTheCurrentAttemptHandsOver(q: Qr, desired: D.Desired, attaches: map<nat, Option<nat>>)
    requires QrInv(q, desired, attaches)
    ensures HandOverPending(q) <==> CurrentHandsOver(q)
  {
    if CurrentHandsOver(q) {
      assert WillAttach(q.attempts[q.current.value]);
    }
  }

  predicate Safe(c: Client) {
    c.started && c.state == Connecting ==> Driven(c) || CurrentHandsOver(c.qr)
  }

  lemma QrStepIsSafe(c: Client, e: Event)
    requires Core(c) && Safe(c) && Enabled(c, e)
    requires e.QrStart? || AttemptOf(e).Some?
    ensures Safe(Step(c, e)) <==> !AbandonsHandOver(c, e)
  {
    match e
    case QrFirstImageLate(a) => assert Scans(c.qr, a);
    case _ =>
  }

  lemma ConnectIsSafe(c: Client, initial: bool)
    ensures Safe(Connect(c, initial))
  {
  }

  lemma ContinuationIsSafe(c: Client, gen: nat, found: bool, failed: bool, needQr: bool)
    requires Safe(c)
    ensures gen in c.pending.loads ==> Safe(AfterLoad(c, gen, found, failed))
    ensures gen in c.pending.logins ==> Safe(AfterLogin(c, gen)) && Safe(AfterLoginFailure(c, gen, needQr))
  {
  }

  lemma FetchIsSafe(c: Client, gen: nat)
    requires Safe(c) && gen in c.pending.attaches
    requires GenInv(c.generation, c.pending, c.api) && QrInv(c.qr, c.disk.desired, c.pending.attaches)
    ensures Safe(AfterFetch(c, gen))
  {
  }

  lemma StepIsSafe(c: Client, e: Event)
    requires TimerInv(c) && GenInv(c.generation, c.pending, c.api)
    requires QrInv(c.qr, c.disk.desired, c.pending.attaches)
    requires Safe(c) && Enabled(c, e)
    requires AttemptOf(e).None? && !e.QrStart?
    ensures Safe(Step(c, e))
  {
    match e
    case Start => ConnectIsSafe(c.(started := true), true);
    case Reconnect => ConnectIsSafe(c.(timer := R.NEVER), false);
    case TimerFires => ConnectIsSafe(c.(timer := R.Cancelled(c.timer)), false);
    case Loaded(gen, found, failed) => ContinuationIsSafe(c, gen, found, failed, false);
    case LoggedIn(gen) => ContinuationIsSafe(c, gen, false, false, false);
    case LoginFailed(gen, needQr) => ContinuationIsSafe(c, gen, false, false, needQr);
    case Fetched(gen) => FetchIsSafe(c, gen);
    case OnDisk(de) => assert D.Step(c.disk, de).desired == c.disk.desired;
    case _ =>
  }

  // Exactly that step orphans the client, in any reachable state.
  lemma OrphanedExactly(c: Client, e: Event)
    requires Inv(c) && NotOrphaned(c)
    ensures NotOrphaned(Step(c, e)) <==> !AbandonsHandOver(c, e)
  {
    var r := Step(c, e);
    StepKeepsInv(c, e);
    OnlyTheCurrentAttemptHandsOver(c.qr, c.disk.desired, c.pending.attaches);
    OnlyTheCurrentAttemptHandsOver(r.qr, r.disk.desired, r.pending.attaches);
    assert Safe(r) <==> !AbandonsHandOver(c, e) by {
      if Enabled(c, e) {
        if e.QrStart? || AttemptOf(e).Some? {
          QrStepIsSafe(c, e);
        } else {
          StepIsSafe(c, e);
        }
      }
    }
  }

  ghost predicate NeverOrphaned(c: Client, events: seq<Event>)
    decreases events
  {
    NotOrphaned(c) && (events != [] ==> NeverOrphaned(Step(c, events[0]), events[1..]))
  }

  predicate NeverAbandonsHandOver(c: Client, events: seq<Event>)
    decreases events
  {
    events != [] ==> !AbandonsHandOver(c, events[0]) && NeverAbandonsHandOver(Step(c, events[0]), events[1..])
  }

  // A run never shows an orphaned CONNECTING exactly when it never takes that step.
  lemma {:induction false} NeverOrphanedExactly(c: Client, events: seq<Event>)
    requires Inv(c) && NotOrphaned(c)
    ensures NeverOrphaned(c, events) <==> NeverAbandonsHandOver(c, events)
    decreases events
  {
    if events != [] {
      var r := Step(c, events[0]);
      OrphanedExactly(c, events[0]);
      if NotOrphaned(r) {
        StepKeepsInv(c, events[0]);
        NeverOrphanedExactly(r, events[1..]);
      } else {
        assert !NeverOrphaned(r, events[1..]);
      }
    }
  }

  // zca-js answers the abort that follows an expired or declined code: such a login never succeeds.
  predicate Obedient(c: Client, e: Event) {
    e.QrResolved? && Scans(c.qr, e.a) && c.qr.attempts[e.a].ended ==> c.qr.attempts[e.a].abandoned
  }

  predicate ObedientRun(c: Client, events: seq<Event>)
    decreases events
  {
    events != [] ==> Obedient(c, events[0]) && ObedientRun(Step(c, events[0]), events[1..])
  }

  predicate OpenHandOvers(attempts: seq<Attempt>) {
    forall a :: 0 <= a < |attempts| && WillAttach(attempts[a]) ==> !attempts[a].ended
  }

  lemma SetKeepsHandOversOpen(attempts: seq<Attempt>, a: nat, at: Attempt)
    requires a < |attempts| && OpenHandOvers(attempts) && (WillAttach(at) ==> !at.ended)
    ensures OpenHandOvers(attempts[a := at]) && (WillAttach(attempts[a]) ==> !attempts[a].ended)
  {
  }

  // Every step changes the record of one attempt at most, or opens a new one.
  lemma StepKeepsHandOversOpen(c: Client, e: Event)
    requires Core(c) && OpenHandOvers(c.qr.attempts) && Obedient(c, e) && AttemptOf(e).Some? && Enabled(c, e)
    ensures OpenHandOvers(Step(c, e).qr.attempts)
  {
    var a := AttemptOf(e).value;
    var attempts' := Step(c, e).qr.attempts;
    assert attempts' == c.qr.attempts[a := attempts'[a]];
    SetKeepsHandOversOpen(c.qr.attempts, a, attempts'[a]);
  }

  lemma OtherStepKeepsHandOversOpen(c: Client, e: Event)
    requires QrInv(c.qr, c.disk.desired, c.pending.attaches)
    requires OpenHandOvers(c.qr.attempts) && AttemptOf(e).None? && Enabled(c, e)
    ensures OpenHandOvers(Step(c, e).qr.attempts)
  {
    var q := c.qr;
    if e.Fetched? && c.pending.attaches[e.gen].Some? {
      var a := c.pending.attaches[e.gen].value;
      SetKeepsHandOversOpen(q.attempts, a, Finish(q, a).attempts[a]);
    } else if e.Logout? || e.QrStart? {
      if q.current.Some? {
        SetKeepsHandOversOpen(q.attempts, q.current.value, Abandon(q).attempts[q.current.value]);
      }
    } else if !e.Fetched? {
      OtherEventsKeepQr(c, e);
    }
  }

  // With an obedient zca-js, CONNECTING always has something that will move the client out of it.
  lemma {:induction false} ObedientRunsAreNeverOrphaned(c: Client, events: seq<Event>)
    requires Inv(c) && NotOrphaned(c) && OpenHandOvers(c.qr.attempts) && ObedientRun(c, events)
    ensures NeverOrphaned(c, events)
    decreases events
  {
    if events != [] {
      var e := events[0];
      OnlyTheCurrentAttemptHandsOver(c.qr, c.disk.desired, c.pending.attaches);
      assert !AbandonsHandOver(c, e);
      OrphanedExactly(c, e);
      StepKeepsInv(c, e);
      if Enabled(c, e) {
        if AttemptOf(e).Some? { StepKeepsHandOversOpen(c, e); } else { OtherStepKeepsHandOversOpen(c, e); }
      }
      ObedientRunsAreNeverOrphaned(Step(c, e), events[1..]);
    }
  }

  // From the start of the process: CONNECTING is never orphaned if expired or declined codes never log
  // in; in general exactly if no qrStart abandons a hand-over.
  lemma ConnectingIsNeverOrphaned(file: D.File, events: seq<Event>)
    requires !file.Holds?
    ensures NeverOrphaned(Initial(file), events) <==> NeverAbandonsHandOver(Initial(file), events)
    ensures ObedientRun(Initial(file), events) ==> NeverOrphaned(Initial(file), events)
  {
    NeverOrphanedExactly(Initial(file), events);
    if ObedientRun(Initial(file), events) {
      ObedientRunsAreNeverOrphaned(Initial(file), events);
    }
  }

  const SCANNED: seq<Event> := [Start, QrStart, QrEmits(0, Expired), QrEmits(0, LoginInfo(true)), QrResolved(0)]

  // The code of the first attempt expired, and the login that had been confirmed on it succeeded.
  const HANDING_OVER: Client :=
    Initial(D.Original).(
      started := true, generation := 1,
      disk := D.AfterQrLogin(D.Initial(D.Original)),
      pending := Pending({1}, map[], map[], {}),
      qr := Qr([Attempt(true, false, true, false, HandingOver(0))], Some(0)))

  lemma ReachHandOver()
    ensures Run(Initial(D.Original), SCANNED) == HANDING_OVER
  {
    var c0 := Initial(D.Original);
    var c1 := c0.(started := true, generation := 1, pending := Pending({1}, map[], map[], {}));
    assert Step(c0, Start) == c1;
    var c2 := c1.(qr := Qr([Attempt(false, false, false, true, Scanning)], Some(0)));
    assert Step(c1, QrStart) == c2;
    var c3 := c1.(qr := Qr([Attempt(true, false, false, false, Scanning)], Some(0)));
    assert Step(c2, QrEmits(0, Expired)) == c3;
    var c4 := c1.(qr := Qr([Attempt(true, false, true, false, Scanning)], Some(0)));
    assert Step(c3, QrEmits(0, LoginInfo(true))) == c4;
    assert Step(c4, QrResolved(0)) == HANDING_OVER;
    assert SCANNED[1..][1..][1..][1..] == [QrResolved(0)];
    assert Run(c4, [QrResolved(0)]) == Run(HANDING_OVER, []);
  }

  // Without that assumption the client can be left in CONNECTING for good: the start-up login gives way
  // to the QR session, and the next qrStart abandons the hand-over of that session.
  lemma OrphanedRunExists()
    ensures !NotOrphaned(Run(Run(Initial(D.Original), SCANNED), [Loaded(1, true, false), QrStart]))
  {
    ReachHandOver();
    var c := HANDING_OVER.(pending := Pending({}, map[], map[], {}));
    assert Step(HANDING_OVER, Loaded(1, true, false)) == c;
    var r := Step(c, QrStart);
    assert r.qr.attempts[0].abandoned && r.qr.attempts[1].phase == Scanning;
    assert Run(c, [QrStart]) == Run(r, []);
  }

  // ------------------------------------------------------------------ a live connection is not dropped

  // No reconnect is scheduled while a connection is attached.
  predicate Calm(c: Client) {
    c.api.Some? ==> !c.timer.pending
  }

  // The hand-over attaches without cancelling a reconnect scheduled while it waited for the save.
  predicate AttachesUnderTimer(c: Client, e: Event) {
    && Enabled(c, e) && e.HandOverDone? && c.timer.pending
    && WillAttach(c.qr.attempts[e.a])
  }

  lemma CalmExactly(c: Client, e: Event)
    requires Core(c) && Calm(c)
    ensures Calm(Step(c, e)) <==> !AttachesUnderTimer(c, e)
  {
  }

  ghost predicate AlwaysCalm(c: Client, events: seq<Event>)
    decreases events
  {
    Calm(c) && (events != [] ==> AlwaysCalm(Step(c, events[0]), events[1..]))
  }

  predicate NeverAttachesUnderTimer(c: Client, events: seq<Event>)
    decreases events
  {
    events != [] ==> !AttachesUnderTimer(c, events[0]) && NeverAttachesUnderTimer(Step(c, events[0]), events[1..])
  }

  lemma {:induction false} AlwaysCalmExactly(c: Client, events: seq<Event>)
    requires Inv(c) && Calm(c)
    ensures AlwaysCalm(c, events) <==> NeverAttachesUnderTimer(c, events)
    decreases events
  {
    if events != [] {
      var r := Step(c, events[0]);
      CalmExactly(c, events[0]);
      if Calm(r) {
        StepKeepsInv(c, events[0]);
        AlwaysCalmExactly(r, events[1..]);
      } else {
        assert !AlwaysCalm(r, events[1..]);
      }
    }
  }

  // From the start of the process: no reconnect is ever pending beside a live connection, exactly if no
  // hand-over attaches under a pending one.
  lemma ConnectionsAreLeftAlone(file: D.File, events: seq<Event>)
    requires !file.Holds?
    ensures AlwaysCalm(Initial(file), events) <==> NeverAttachesUnderTimer(Initial(file), events)
  {
    AlwaysCalmExactly(Initial(file), events);
  }

  // When that happens, the reconnect timer drops the new connection instead of leaving it alone.
  lemma TimerDropsLiveConnection(c: Client)
    requires c.started && c.timer.pending && c.api.Some?
    ensures var r := Step(c, TimerFires); r.api.None? && r.generation == c.generation + 1 && r.state != Connected
  {
  }

  lemma FailedReconnect(c: Client, id: nat)
    requires c.started && c.disk.desired == D.Account(id)
    ensures var r := Step(Step(c, Reconnect), LoginFailed(c.generation + 1, false));
            r.started && r.timer.pending && r.qr == c.qr
  {
    var c1 := Step(c, Reconnect);
    assert c1 == Connect(c.(timer := R.NEVER), false);
    assert c.generation + 1 in c1.pending.logins && c1.generation == c.generation + 1;
    assert Step(c1, LoginFailed(c1.generation, false)) == AfterLoginFailure(c1, c1.generation, false);
  }

  // That step is taken by real runs: a reconnect fails while a QR login waits for its save.
  lemma HandOverUnderTimerExists()
    ensures AttachesUnderTimer(Run(Run(Initial(D.Original), SCANNED), [Reconnect, LoginFailed(2, false)]),
                               HandOverDone(0))
  {
    ReachHandOver();
    FailedReconnect(HANDING_OVER, 0);
    var c1 := Step(HANDING_OVER, Reconnect);
    var c2 := Step(c1, LoginFailed(2, false));
    assert [Reconnect, LoginFailed(2, false)][1..] == [LoginFailed(2, false)];
    assert Run(c1, [LoginFailed(2, false)]) == Run(c2, []) == c2;
    assert c2.qr.attempts[0] == Attempt(true, false, true, false, HandingOver(0));
  }

  // -------------------------------------------------------------------------------- QR exclusivity

  // Every loginQR still running, waiting or attaching other than the current attempt is abandoned.
  lemma OthersAreAbandoned(file: D.File, events: seq<Event>, a: nat)
    requires !file.Holds?
    ensures var q := Run(Initial(file), events).qr;
            a < |q.attempts| && q.attempts[a].phase != Over ==> q.current == Some(a) || q.attempts[a].abandoned
  {
    RunKeepsInv(Initial(file), events);
  }

  // However late the events and the result of an abandoned attempt arrive, they change nothing but the
  // record of that attempt, and it stays abandoned.
  lemma AbandonedIsSilent(c: Client, e: Event, a: nat)
    requires Core(c) && AttemptOf(e) == Some(a)
    requires a < |c.qr.attempts| && c.qr.attempts[a].abandoned
    ensures var r := Step(c, e);
            && r == c.(qr := r.qr)
            && r.qr.current == c.qr.current
            && (exists at :: r.qr.attempts == c.qr.attempts[a := at] && at.abandoned)
  {
    var r := Step(c, e);
    assert r.qr.attempts == c.qr.attempts[a := r.qr.attempts[a]];
  }

  ghost predicate KeepsAbandoned(q: Qr, q': Qr) {
    && |q.attempts| <= |q'.attempts|
    && forall a :: 0 <= a < |q.attempts| && q.attempts[a].abandoned ==> q'.attempts[a].abandoned
  }

  lemma QrOperationsKeepAbandoned(q: Qr, a: nat, e: QrEvent)
    ensures KeepsAbandoned(q, Finish(q, a)) && KeepsAbandoned(q, Abandon(q)) && KeepsAbandoned(q, Opened(Abandon(q)))
    ensures a < |q.attempts| ==>
      && KeepsAbandoned(q, DropAbandoned(q, a)) && KeepsAbandoned(q, FirstImageLate(q, a))
      && KeepsAbandoned(q, AfterQrEvent(q, a, e))
  {
  }

  lemma OtherEventsKeepQr(c: Client, e: Event)
    requires Enabled(c, e) && AttemptOf(e).None? && !e.Fetched? && !e.Logout? && !e.QrStart?
    ensures Step(c, e).qr == c.qr
  {
  }

  lemma AbandonedStays(c: Client, e: Event)
    requires Enabled(c, e)
    ensures KeepsAbandoned(c.qr, Step(c, e).qr)
  {
    if AttemptOf(e).Some? {
      AttemptEventsKeepAbandoned(c, e);
    } else if e.Fetched? {
      var qr := c.pending.attaches[e.gen];
      if qr.Some? { QrOperationsKeepAbandoned(c.qr, qr.value, Scanned); }
    } else if e.Logout? || e.QrStart? {
      QrOperationsKeepAbandoned(c.qr, 0, Scanned);
    } else {
      OtherEventsKeepQr(c, e);
    }
  }

  lemma AttemptEventsKeepAbandoned(c: Client, e: Event)
    requires Enabled(c, e) && AttemptOf(e).Some?
    ensures KeepsAbandoned(c.qr, Step(c, e).qr)
  {
    QrOperationsKeepAbandoned(c.qr, AttemptOf(e).value, if e.QrEmits? then e.e else Scanned);
  }

  lemma {:induction false} AbandonedForGood(c: Client, events: seq<Event>, a: nat)
    requires a < |c.qr.attempts| && c.qr.attempts[a].abandoned
    ensures a < |Run(c, events).qr.attempts| && Run(c, events).qr.attempts[a].abandoned
    decreases events
  {
    if events != [] {
      if Enabled(c, events[0]) { AbandonedStays(c, events[0]); }
      AbandonedForGood(Step(c, events[0]), events[1..], a);
    }
  }

  // --------------------------------------------------------------------------- logout and start-up

  predicate LogsInByQr(c: Client, e: Event) {
    Enabled(c, e) && DiskEvent(c, e) == Some(D.QrLogin)
  }

  predicate NoQrLogin(c: Client, events: seq<Event>)
    decreases events
  {
    events != [] ==> !LogsInByQr(c, events[0]) && NoQrLogin(Step(c, events[0]), events[1..])
  }

  lemma StaysLoggedOut(c: Client, e: Event)
    requires c.disk.desired == D.LoggedOut && !LogsInByQr(c, e)
    ensures Step(c, e).disk.desired == D.LoggedOut
  {
    if Enabled(c, e) { DiskOnlyStepsByItsEvents(c, e); }
  }

  // After a logout there is no connection until a QR attempt that was not abandoned succeeds.
  lemma {:induction false} LoggedOutUntilQrLogin(c: Client, events: seq<Event>)
    requires Inv(c) && c.disk.desired == D.LoggedOut && NoQrLogin(c, events)
    ensures Run(c, events).disk.desired == D.LoggedOut && Run(c, events).api.None?
    decreases events
  {
    if events != [] {
      StepKeepsInv(c, events[0]);
      StaysLoggedOut(c, events[0]);
      LoggedOutUntilQrLogin(Step(c, events[0]), events[1..]);
    }
  }

  lemma StepLeavesStartup(c: Client, e: Event, file: D.File)
    requires c.disk == D.Initial(file) || c.disk.desired != D.Startup
    ensures Step(c, e).disk == D.Initial(file) || Step(c, e).disk.desired != D.Startup
  {
    if Enabled(c, e) {
      DiskOnlyStepsByItsEvents(c, e);
      match DiskEvent(c, e)
      case None =>
      case Some(de) => D.LeavesStartup(c.disk, de, file);
    }
  }

  // While the start-up session is wanted nothing has touched the session file.
  lemma {:induction false} StartupFileIsUntouched(c: Client, events: seq<Event>, file: D.File)
    requires c.disk == D.Initial(file) || c.disk.desired != D.Startup
    ensures Run(c, events).disk.desired == D.Startup ==> Run(c, events).disk == D.Initial(file)
    decreases events
  {
    if events != [] {
      StepLeavesStartup(c, events[0], file);
      StartupFileIsUntouched(Step(c, events[0]), events[1..], file);
    }
  }

  // The session file is read only while the start-up session is wanted, and the credentials read are
  // used only while it still is.
  lemma ReadsOnlyForStartup(c: Client, e: Event)
    requires Enabled(c, e)
    ensures !(Step(c, e).pending.loads <= c.pending.loads) ==> c.disk.desired == D.Startup
    ensures e.Loaded? && Step(c, e).uses != c.uses ==> Step(c, e).uses == c.uses + [Use(D.Startup, D.Startup)]
  {
    if e.Start? || e.Reconnect? || e.TimerFires? {
    } else {
      assert Step(c, e).pending.loads <= c.pending.loads;
    }
  }

  // ------------------------------------------------------------------------------ what health shows

  // QR attempts, messages, disk operations and the stability timer change neither the state nor its error.
  lemma QuietEventsKeepState(c: Client, e: Event)
    requires Enabled(c, e)
    requires AttemptOf(e).Some? || e.QrStart? || e.OnDisk? || e.StableFires? || e.ListenerMessage?
    ensures Step(c, e).state == c.state && Step(c, e).stateError == c.stateError
  {
  }

  // CONNECTED is shown only when the listener of the current generation says so, KICKED only when it says
  // that somebody else opened a session.
  lemma StateIsTheListeners(c: Client, e: Event)
    requires Enabled(c, e)
    ensures c.state != Connected ==> (Step(c, e).state == Connected <==> e == ListenerConnected(c.generation))
    ensures c.state != Kicked ==> (Step(c, e).state == Kicked <==> e == ListenerDropped(c.generation, true))
  {
    if AttemptOf(e).Some? || e.QrStart? || e.OnDisk? || e.StableFires? || e.ListenerMessage? {
      QuietEventsKeepState(c, e);
    }
  }

  predicate Connects(e: Event) {
    e.Start? || e.Reconnect? || e.TimerFires?
  }

  // NEED_QR is entered when the start-up session cannot be read, when a login asks for it, by a logout, and by
  // a connect while logged out; by nothing else.
  lemma NeedQrIsEntered(c: Client, e: Event)
    requires Enabled(c, e) && c.state != NeedQr
    ensures Step(c, e).state == NeedQr <==>
      || (e.Loaded? && e.gen == c.generation && c.disk.desired == D.Startup && (e.failed || !e.found))
      || e == LoginFailed(c.generation, true)
      || e.Logout?
      || (Connects(e) && c.disk.desired == D.LoggedOut)
  {
    if AttemptOf(e).Some? || e.QrStart? || e.OnDisk? || e.StableFires? || e.ListenerMessage? {
      QuietEventsKeepState(c, e);
    }
  }

  // What makes the client report an error of its own.
  predicate Fails(c: Client, e: Event) {
    || (e.Loaded? && e.failed && e.gen == c.generation && c.disk.desired == D.Startup)
    || (e.LoginFailed? && e.gen == c.generation)
    || (e.ListenerDropped? && e.gen == c.generation)
  }

  // What makes an error go away: a logout, a connection that is up, or a new listener that takes the place
  // of anything but a connection being tried; retrying alone does not.
  predicate Recovers(c: Client, e: Event) {
    || e.Logout? || (e.Start? && c.disk.desired != D.LoggedOut)
    || e == ListenerConnected(c.generation)
    || (e == Fetched(c.generation) && c.state != Connecting)
  }

  lemma ErrorIsShownExactly(c: Client, e: Event)
    requires Enabled(c, e)
    ensures Step(c, e).stateError <==> Fails(c, e) || (c.stateError && !Recovers(c, e))
  {
    if AttemptOf(e).Some? || e.QrStart? || e.OnDisk? || e.StableFires? || e.ListenerMessage? {
      QuietEventsKeepState(c, e);
    }
  }

  // The events after which the next reconnect is as quick as the first.
  predicate ResetsBackoff(c: Client, e: Event)
    requires Enabled(c, e)
  {
    || e.Reconnect? || e.StableFires? || e.Logout?
    || (e.QrResolved? && !c.qr.attempts[e.a].abandoned && c.qr.attempts[e.a].hasCreds)
  }

  // A socket that flaps backs off: connecting and dropping again never resets the delay, and each timer
  // that is scheduled waits longer than the one before, up to the cap.
  lemma FlappingBacksOff(c: Client, e: Event)
    requires Enabled(c, e)
    ensures ResetsBackoff(c, e) ==> Step(c, e).timer == R.NEVER
    ensures !ResetsBackoff(c, e) ==> c.timer.attempt <= Step(c, e).timer.attempt <= c.timer.attempt + 1
    ensures !ResetsBackoff(c, e) && !c.timer.pending ==>
              (Step(c, e).timer.pending <==> Step(c, e).timer.attempt == c.timer.attempt + 1)
  {
  }

  // ---------------------------------------------------------------------------- what each event does

  // A connect begins a generation without a connection, and reads the file or logs in with the session in
  // memory; a client that is logged out does neither.
  lemma ConnectDecides(c: Client, e: Event)
    requires Enabled(c, e) && Connects(e)
    ensures var r := Step(c, e);
            && r.started && r.generation == c.generation + 1 && r.api == None && !r.stable
            && r.disk == c.disk && r.qr == c.qr && r.pushed == c.pushed
            && r.pending.attaches == c.pending.attaches && r.pending.listeners == c.pending.listeners
            && r.state == (if c.disk.desired == D.LoggedOut then NeedQr else Connecting)
            && r.pending.loads == c.pending.loads + (if c.disk.desired == D.Startup then {c.generation + 1} else {})
            && r.pending.logins ==
                 (if c.disk.desired.Account? then c.pending.logins[c.generation + 1 := c.disk.desired]
                  else c.pending.logins)
            && r.timer == (if e.Reconnect? then R.Timer(false, 0)
                           else if e.TimerFires? then R.Timer(false, c.timer.attempt) else c.timer)
  {
  }

  // The read of the file at start-up leads to a login with what was found, or to NEED_QR.
  lemma LoadDecides(c: Client, found: bool, failed: bool)
    requires Enabled(c, Loaded(c.generation, found, failed)) && c.disk.desired == D.Startup
    ensures var r := Step(c, Loaded(c.generation, found, failed));
            && c.generation !in r.pending.loads && r.generation == c.generation
            && r.api == c.api && r.timer == c.timer && r.disk == c.disk && r.qr == c.qr
            && r.pending.attaches == c.pending.attaches && r.pending.listeners == c.pending.listeners
            && (if found && !failed then
                  r.state == c.state && r.pending.logins == c.pending.logins[c.generation := D.Startup]
                else
                  r.state == NeedQr && r.pending.logins == c.pending.logins)
  {
  }

  // A login of the wanted session attaches its connection, and saves the session again if its save had failed.
  lemma LoginDecides(c: Client)
    requires Enabled(c, LoggedIn(c.generation)) && c.pending.logins[c.generation] == c.disk.desired
    ensures var r := Step(c, LoggedIn(c.generation));
            && r.generation == c.generation + 1 && !r.stable
            && r.api == Some(Api(c.generation + 1, c.disk.desired))
            && r.pending.attaches == c.pending.attaches[c.generation + 1 := None]
            && c.generation !in r.pending.logins
            && r.disk == D.Step(c.disk, D.RetrySave)
            && r.state == c.state && r.timer == c.timer && r.qr == c.qr
  {
  }

  // A login that failed asks for a QR code or is tried again.
  lemma LoginFailureDecides(c: Client, needQr: bool)
    requires Enabled(c, LoginFailed(c.generation, needQr))
    ensures var r := Step(c, LoginFailed(c.generation, needQr));
            && c.generation !in r.pending.logins && r.stateError
            && r.generation == c.generation && r.api == c.api && r.disk == c.disk && r.qr == c.qr
            && (if needQr then r.state == NeedQr && r.timer == c.timer
                else r.state == Connecting && r.timer.pending
                     && r.timer.attempt == (if c.timer.pending then c.timer.attempt else c.timer.attempt + 1))
  {
  }

  // A current attach starts its listener; one that a newer generation overtook does not. Either way the QR
  // attempt that waited for it is over.
  lemma FetchDecides(c: Client, gen: nat)
    requires Core(c) && Enabled(c, Fetched(gen))
    ensures var r := Step(c, Fetched(gen));
            && gen !in r.pending.attaches && r.api == c.api && r.timer == c.timer && r.disk == c.disk
            && r.pending.listeners == c.pending.listeners + (if gen == c.generation then {gen} else {})
            && r.state == (if gen == c.generation then Connecting else c.state)
            && (c.pending.attaches[gen] == None ==> r.qr == c.qr)
            && (forall a :: c.pending.attaches[gen] == Some(a) ==>
                  && a < |r.qr.attempts| && r.qr.attempts[a].ended && r.qr.attempts[a].phase == Over
                  && r.qr.current != Some(a))
  {
  }

  // What the listener of the current generation reports. A connection that is up is CONNECTED and on its way to
  // being stable. One that dropped is gone; unless somebody else took the account over, a reconnect is pending.
  lemma ListenerDecides(c: Client, kicked: bool)
    requires c.started && c.generation in c.pending.listeners
    ensures Step(c, ListenerConnected(c.generation)) == c.(state := Connected, stateError := false, stable := true)
    ensures var r := Step(c, ListenerDropped(c.generation, kicked));
            && r.api == None && !r.stable && r.stateError
            && r.generation == c.generation && r.disk == c.disk && r.qr == c.qr && r.pending == c.pending
            && (if kicked then r.state == Kicked && r.timer == R.Timer(false, c.timer.attempt)
                else r.state == Connecting && r.timer.pending
                     && r.timer.attempt == (if c.timer.pending then c.timer.attempt else c.timer.attempt + 1))
  {
  }

  // A message of the current listener that is to be forwarded is pushed, whatever the state; no other is.
  lemma MessageDecides(c: Client, gen: nat, forward: bool)
    requires c.started && gen in c.pending.listeners
    ensures Step(c, ListenerMessage(gen, forward)) ==
              if gen == c.generation && forward then c.(pushed := c.pushed + [Push(gen, gen)]) else c
  {
  }

  // A minute of stable connection makes the next reconnect as quick as the first.
  lemma StableDecides(c: Client)
    requires Enabled(c, StableFires)
    ensures Step(c, StableFires) == c.(stable := false, timer := R.Timer(false, 0))
  {
  }

  // A logout takes effect at once: no connection, no reconnect, no QR attempt, nothing wanted.
  lemma LogoutDecides(c: Client)
    requires Core(c) && c.started
    ensures var r := Step(c, Logout);
            && r.generation == c.generation + 1 && r.api == None && !r.stable
            && r.state == NeedQr && !r.stateError && r.timer == R.Timer(false, 0)
            && r.disk == D.Step(c.disk, D.Logout) && r.pending == c.pending
            && r.qr.current == None && |r.qr.attempts| == |c.qr.attempts|
            && (forall a :: 0 <= a < |c.qr.attempts| ==>
                  if c.qr.current == Some(a)
                  then r.qr.attempts[a] == c.qr.attempts[a].(abandoned := true, ended := true, armed := false)
                  else r.qr.attempts[a] == c.qr.attempts[a])
  {
  }

  // `qrStart` joins a running attempt; else it abandons the current one, if any, and opens a new one whose
  // 20-second timer runs.
  lemma QrStartDecides(c: Client)
    requires Core(c) && c.started
    ensures var r := Step(c, QrStart);
            && r == c.(qr := r.qr)
            && (if c.qr.current.Some? && !c.qr.attempts[c.qr.current.value].ended then r == c
                else
                  && r.qr.current == Some(|c.qr.attempts|) && |r.qr.attempts| == |c.qr.attempts| + 1
                  && r.qr.attempts[|c.qr.attempts|] == Attempt(false, false, false, true, Scanning)
                  && (forall a :: 0 <= a < |c.qr.attempts| ==>
                        if c.qr.current == Some(a)
                        then r.qr.attempts[a] == c.qr.attempts[a].(abandoned := true, ended := true, armed := false)
                        else r.qr.attempts[a] == c.qr.attempts[a]))
  {
  }

  // What zca-js reports of an attempt that is not abandoned. A first image, and an expired or declined code,
  // stop the 20-second timer; the latter two end the attempt; complete login info is kept.
  lemma QrEventDecides(c: Client, a: nat, e: QrEvent)
    requires Enabled(c, QrEmits(a, e)) && !c.qr.attempts[a].abandoned
    ensures var r := Step(c, QrEmits(a, e));
            var was, at := c.qr.attempts[a], r.qr.attempts[a];
            && r == c.(qr := Qr(c.qr.attempts[a := at], c.qr.current))
            && (at.armed <==> was.armed && !e.Image? && !e.Expired? && !e.Declined?)
            && (at.ended <==> was.ended || e.Expired? || e.Declined?)
            && (at.hasCreds <==> was.hasCreds || e == LoginInfo(true))
            && !at.abandoned && at.phase == was.phase
  {
  }

  // An attempt without an image after 20 seconds is abandoned.
  lemma FirstImageDecides(c: Client, a: nat)
    requires Enabled(c, QrFirstImageLate(a))
    ensures var r := Step(c, QrFirstImageLate(a));
            && r == c.(qr := Qr(c.qr.attempts[a := r.qr.attempts[a]], r.qr.current))
            && r.qr.attempts[a] == c.qr.attempts[a].(abandoned := true, ended := true, armed := false)
            && r.qr.current == (if c.qr.current == Some(a) then None else c.qr.current)
  {
  }

  // A QR login that resolved with its login info becomes the wanted session, is saved, and stops a pending
  // reconnect; it stays the current attempt while it waits for the save. One without login info, and one that
  // was rejected, ends and changes nothing else.
  lemma QrLoginDecides(c: Client, a: nat)
    requires Core(c) && c.started && Scans(c.qr, a) && !c.qr.attempts[a].abandoned
    ensures var r := Step(c, QrResolved(a));
            if c.qr.attempts[a].hasCreds then
              && r == c.(disk := D.Step(c.disk, D.QrLogin), timer := R.Timer(false, 0),
                         qr := Qr(c.qr.attempts[a := r.qr.attempts[a]], c.qr.current))
              && r.disk.desired == D.Account(c.disk.nextId)
              && r.qr.attempts[a] == c.qr.attempts[a].(armed := false, phase := HandingOver(c.disk.nextId))
            else EndsAttempt(c, r, a)
    ensures EndsAttempt(c, Step(c, QrRejected(a)), a)
  {
  }

  ghost predicate EndsAttempt(c: Client, r: Client, a: nat)
    requires a < |c.qr.attempts|
  {
    && |r.qr.attempts| == |c.qr.attempts|
    && r == c.(qr := Qr(c.qr.attempts[a := r.qr.attempts[a]], r.qr.current))
    && r.qr.attempts[a] == c.qr.attempts[a].(ended := true, armed := false, phase := Over)
    && r.qr.current == (if c.qr.current == Some(a) then None else c.qr.current)
  }

  // When its save is over, or has taken five seconds, the login attaches its connection as the session it
  // became.
  lemma HandOverDecides(c: Client, a: nat)
    requires Enabled(c, HandOverDone(a)) && !c.qr.attempts[a].abandoned
    ensures var r := Step(c, HandOverDone(a));
            var owner := D.Account(c.qr.attempts[a].phase.session);
            && r.generation == c.generation + 1 && !r.stable && r.api == Some(Api(c.generation + 1, owner))
            && r.pending.attaches == c.pending.attaches[c.generation + 1 := Some(a)]
            && r.qr == Qr(c.qr.attempts[a := c.qr.attempts[a].(phase := Attaching(c.generation + 1))], c.qr.current)
            && r.disk == c.disk && r.state == c.state && r.timer == c.timer
  {
  }

  // ---------------------------------------------------------------------------- reachable clients

  // Some run of a new process leads here; if `kept`, one in which no `qrStart` abandons a hand-over.
  ghost predicate Reachable(c: Client, kept: bool) {
    exists file: D.File, events :: RunsTo(file, events, c, kept)
  }

  ghost predicate RunsTo(file: D.File, events: seq<Event>, c: Client, kept: bool) {
    !file.Holds? && c == Run(Initial(file), events) && (kept ==> NeverAbandonsHandOver(Initial(file), events))
  }

  lemma {:induction false} RunThenStep(c: Client, events: seq<Event>, e: Event)
    ensures Run(c, events + [e]) == Step(Run(c, events), e)
    ensures NeverAbandonsHandOver(c, events) && !AbandonsHandOver(Run(c, events), e) ==>
              NeverAbandonsHandOver(c, events + [e])
    decreases events
  {
    if events == [] {
      assert Run(Step(c, e), []) == Step(c, e);
      assert [e][1..] == [];
    } else {
      RunThenStep(Step(c, events[0]), events[1..], e);
      assert (events + [e])[1..] == events[1..] + [e];
    }
  }

  lemma StepIsReachable(c: Client, kept: bool, e: Event)
    requires Reachable(c, kept)
    ensures Reachable(Step(c, e), kept && !AbandonsHandOver(c, e))
  {
    var file: D.File, events :| RunsTo(file, events, c, kept);
    RunThenStep(Initial(file), events, e);
    assert RunsTo(file, events + [e], Step(c, e), kept && !AbandonsHandOver(c, e));
  }

  // Indices into the list of attempts are in range.
  lemma AttemptsAreKnown(c: Client, kept: bool)
    requires Reachable(c, kept)
    ensures c.qr.current.Some? ==> c.qr.current.value < |c.qr.attempts|
    ensures forall g :: g in c.pending.attaches && c.pending.attaches[g].Some? ==>
              c.pending.attaches[g].value < |c.qr.attempts|
  {
    var file: D.File, events :| RunsTo(file, events, c, kept);
    RunKeepsInv(Initial(file), events);
  }

  lemma {:induction false} NeverOrphanedAtTheEnd(c: Client, events: seq<Event>)
    requires NeverOrphaned(c, events)
    ensures NotOrphaned(Run(c, events))
    decreases events
  {
    if events != [] {
      NeverOrphanedAtTheEnd(Step(c, events[0]), events[1..]);
    }
  }

  // Whatever a reachable client has been through, these hold of it.
  lemma ReachableIsSound(c: Client, kept: bool)
    requires Reachable(c, kept)
    ensures Inv(c) && LivePushes(c.pushed)
    ensures kept ==> NotOrphaned(c)
  {
    var file: D.File, events :| RunsTo(file, events, c, kept);
    RunKeepsInv(Initial(file), events);
    OnlyLiveListenersPush(Initial(file), events);
    if kept {
      NeverOrphanedExactly(Initial(file), events);
      NeverOrphanedAtTheEnd(Initial(file), events);
    }
  }
}
