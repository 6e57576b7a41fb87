/**
 * WebSocket API requests of the Gate connector: many calling threads, one IO
 * thread, two mutexes, a map of promises, timeouts, teardown and reconnect.
 */
module GateProtocol {
  import opened Options

  /** A result message: the request id it names, its status, and its body. */
  datatype Response = Response(id: nat, status: string, body: string)

  /** How a promise was resolved: by a response, or by the fail-all after losing a socket. */
  datatype Resolution = ByResponse(r: Response) | ByFailAll(epoch: nat)

  /** What a call of ws_api_request ends with. */
  datatype Outcome =
    | NotConnected | SendThrew | NoSocket | TimedOut
    | Returned(body: string) | Threw(body: string) | Disconnected

  /** Any 2xx status is success: the future yields the value, otherwise it rethrows. */
  function OutcomeOf(r: Resolution): Outcome {
    match r
    case ByFailAll(_) => Disconnected
    case ByResponse(m) => if m.status != "" && m.status[0] == '2' then Returned(m.body) else Threw(m.body)
  }

  /** Where the IO thread is. */
  datatype Io =
    | Down
    | Opened
    | LoggingIn
    | Receiving
    | Got(r: Response)
    | Holding(r: Response)
    | Erasing(id: nat)
    | TearReady
    | TearPtr
    | TearFail
    | Failing(todo: set<nat>)
    | Stopped

  /** Where a calling thread is inside ws_api_request, and its request id. */
  datatype Caller =
    | Outside
    | Numbered(id: nat)
    | Registered(id: nat)
    | Sending(id: nat)
    | Unsent(id: nat)
    | Waiting(id: nat)
    | Expired(id: nat)

  datatype Thread = IoThread | CallerThread(c: nat)

  datatype CallResult = CallResult(id: nat, outcome: Outcome)

  /**
   * The history of a run: sentOn is the socket each request went out on, failed the last
   * socket whose fail-all is complete, resolved every resolution in order, owner the caller
   * each id was handed to, orphans the requests whose send threw, results every finished
   * call that had taken an id, deadSends the requests sent through a dangling pointer, late
   * those whose promise was already resolved when their send finished.
   */
  datatype Log = Log(
    sentOn: map<nat, nat>, failed: nat, resolved: seq<(nat, Resolution)>,
    owner: map<nat, nat>, orphans: set<nat>, results: seq<CallResult>, deadSends: seq<nat>,
    late: set<nat>)

  /**
   * Shared memory, the threads, and the history. The WsClient that the socket pointer
   * stands for is a local of the IO thread: live says that it exists. What a send through
   * the pointer does after that is undefined in C++; here it sends or throws like any other.
   */
  datatype State = State(
    connected: bool, wsReady: bool, counter: nat,
    pending: set<nat>, promises: map<nat, Option<Resolution>>,
    pendingLock: Option<Thread>, sendLock: Option<Thread>,
    socket: Option<nat>, live: bool, epoch: nat,
    io: Io, callers: seq<Caller>, log: Log)

  datatype Action =
    | SetConnected(b: bool)
    // IO thread
    | Open | PublishPtr | Login(ok: bool) | Receive(r: Response) | LockPending | Malformed | Lookup | Erase
    | Drop | ClearReady | ClearPtr | BeginFail | FailOne(id: nat) | EndFail | Stop | Restart
    // callers
    | TakeId(c: nat) | Register(c: nat) | BeginSend(c: nat) | FinishSend(c: nat, throws: bool)
    | Withdraw(c: nat) | Wake(c: nat) | TimeOut(c: nat) | Expire(c: nat)

  function Initial(callers: nat): State {
    State(false, false, 0, {}, map[], None, None, None, false, 0, Down, seq(callers, i => Outside),
          Log(map[], 0, [], map[], {}, [], [], {}))
  }

  // ----- actions of the IO thread ----------------------------------------------

  function Resolved(l: Log, id: nat, r: Resolution): Log {
    l.(resolved := l.resolved + [(id, r)])
  }

  /** Connecting, receiving and tearing down. A lock taken and given back at once is one action. */
  function SocketStep(s: State, a: Action): State {
    match a
    case Open =>
      if s.io.Down? then s.(io := Opened, epoch := s.epoch + 1, live := true) else s
    case PublishPtr =>
      if s.io.Opened? && s.sendLock.None? then s.(io := LoggingIn, socket := Some(s.epoch)) else s
    case Login(ok) =>
      if s.io.LoggingIn? && s.sendLock.None? then
        s.(counter := s.counter + 1, io := if ok then Receiving else TearReady, wsReady := ok,
           live := ok)
      else s
    case Receive(r) =>
      if s.io.Receiving? then s.(io := Got(r)) else s
    case Drop =>
      if s.io.Down? || s.io.Opened? || s.io.LoggingIn? || s.io.Receiving? then
        s.(io := TearReady, live := false)
      else s
    case ClearReady =>
      if s.io.TearReady? then s.(io := TearPtr, wsReady := false) else s
    case ClearPtr =>
      if s.io.TearPtr? && s.sendLock.None? then s.(io := TearFail, socket := None) else s
    case Stop =>
      if s.io.Down? then s.(io := Stopped) else s
    case Restart =>
      if s.io.Stopped? then s.(io := Down) else s
    case _ => s
  }

  /** Resolving promises: one response, or all of them after losing the socket, under the pending mutex. */
  function PromiseStep(s: State, a: Action): State {
    match a
    case LockPending =>
      if s.io.Got? && s.pendingLock.None? then s.(io := Holding(s.io.r), pendingLock := Some(IoThread)) else s
    case Malformed =>
      if s.io.Got? || s.io.Holding? then s.(io := TearReady, pendingLock := None, live := false) else s
    case Lookup =>
      if !s.io.Holding? then s
      else if s.io.r.id in s.pending then
        var id, r := s.io.r.id, ByResponse(s.io.r);
        s.(promises := s.promises[id := Some(r)], log := Resolved(s.log, id, r), io := Erasing(id))
      else s.(io := Receiving, pendingLock := None)
    case Erase =>
      if s.io.Erasing? then s.(pending := s.pending - {s.io.id}, io := Receiving, pendingLock := None) else s
    case BeginFail =>
      if s.io.TearFail? && s.pendingLock.None? then
        s.(io := Failing(s.pending), pendingLock := Some(IoThread))
      else s
    case FailOne(id) =>
      if s.io.Failing? && id in s.io.todo then
        var r := ByFailAll(s.epoch);
        s.(promises := s.promises[id := Some(r)], log := Resolved(s.log, id, r), io := Failing(s.io.todo - {id}))
      else s
    case EndFail =>
      if s.io.Failing? && s.io.todo == {} then
        s.(io := Down, pending := {}, pendingLock := None, log := s.log.(failed := s.epoch))
      else s
    case _ => s
  }

  predicate OfPromises(a: Action) {
    a.LockPending? || a.Malformed? || a.Lookup? || a.Erase? || a.BeginFail? || a.FailOne? || a.EndFail?
  }

  // ----- actions of a caller ---------------------------------------------------

  /** A call that had taken an id ends. */
  function Finished(l: Log, id: nat, o: Outcome): Log {
    l.(results := l.results + [CallResult(id, o)])
  }

  /** The socket pointer is set, but its object has been destroyed. */
  predicate Dangling(s: State) {
    s.socket.Some? && !s.live
  }

  function Sends(s: State, id: nat): Log {
    if Dangling(s) then s.log.(deadSends := s.log.deadSends + [id]) else s.log
  }

  function SentOn(l: Log, id: nat, socket: nat, late: bool): Log {
    l.(sentOn := l.sentOn[id := socket], late := if late then l.late + {id} else l.late - {id})
  }

  function Orphaned(l: Log, id: nat): Log {
    l.(orphans := l.orphans + {id})
  }

  function CallerStep(s: State, c: nat, a: Action): State
    requires c < |s.callers|
  {
    var me := s.callers[c];
    match a
    case TakeId(_) =>
      if me.Outside? && s.connected then
        var id := s.counter + 1;
        s.(counter := id, log := s.log.(owner := s.log.owner[id := c]), callers := s.callers[c := Numbered(id)])
      else s
    case Register(_) =>
      if me.Numbered? && s.pendingLock.None? then
        s.(pending := s.pending + {me.id}, promises := s.promises[me.id := None],
           callers := s.callers[c := Registered(me.id)])
      else s
    case BeginSend(_) =>
      if me.Registered? && s.sendLock.None? then
        s.(sendLock := Some(CallerThread(c)), callers := s.callers[c := Sending(me.id)])
      else s
    case FinishSend(_, throws) =>
      if !me.Sending? then s
      else if s.socket.None? then s.(sendLock := None, callers := s.callers[c := Unsent(me.id)])
      else if throws then
        s.(sendLock := None, callers := s.callers[c := Outside],
           log := Orphaned(Finished(Sends(s, me.id), me.id, SendThrew), me.id))
      else
        s.(sendLock := None, callers := s.callers[c := Waiting(me.id)],
           log := SentOn(Sends(s, me.id), me.id, s.socket.value, IsResolved(s, me.id)))
    case Withdraw(_) =>
      if me.Unsent? && s.pendingLock.None? then
        s.(pending := s.pending - {me.id}, callers := s.callers[c := Outside], log := Finished(s.log, me.id, NoSocket))
      else s
    case Wake(_) =>
      if me.Waiting? && me.id in s.promises && s.promises[me.id].Some? then
        s.(callers := s.callers[c := Outside], log := Finished(s.log, me.id, OutcomeOf(s.promises[me.id].value)))
      else s
    case TimeOut(_) =>
      if me.Waiting? && me.id in s.promises && s.promises[me.id].None? then
        s.(callers := s.callers[c := Expired(me.id)])
      else s
    case Expire(_) =>
      if me.Expired? && s.pendingLock.None? then
        s.(pending := s.pending - {me.id}, callers := s.callers[c := Outside], log := Finished(s.log, me.id, TimedOut))
      else s
    case _ => s
  }

  predicate OfCaller(a: Action) {
    a.TakeId? || a.Register? || a.BeginSend? || a.FinishSend? || a.Withdraw? || a.Wake? || a.TimeOut? || a.Expire?
  }

  function Step(s: State, a: Action): State {
    if a.SetConnected? then s.(connected := a.b)
    else if OfCaller(a) then (if a.c < |s.callers| then CallerStep(s, a.c, a) else s)
    else if OfPromises(a) then PromiseStep(s, a)
    else SocketStep(s, a)
  }

  function Run(s: State, actions: seq<Action>): State
    decreases |actions|
  {
    if actions == [] then s
    else Step(Run(s, actions[..|actions| - 1]), actions[|actions| - 1])
  }

  // ----- the invariant ---------------------------------------------------------

  predicate Unresolved(s: State, id: nat) {
    id in s.promises && s.promises[id].None?
  }

  predicate IsResolved(s: State, id: nat) {
    id in s.promises && s.promises[id].Some?
  }

  /** What holds of one calling thread. */
  predicate CallerOk(s: State, c: nat)
    requires c < |s.callers|
  {
    var me := s.callers[c];
    && (me.Sending? <==> s.sendLock == Some(CallerThread(c)))
    && (me.Outside? ||
         (&& me.id <= s.counter && me.id in s.log.owner && s.log.owner[me.id] == c && me.id !in s.log.orphans
          && (me.Numbered? <==> me.id !in s.promises)
          && (Unresolved(s, me.id) ==> me.id in s.pending)
          && ((me.Waiting? || me.Expired?) && Unresolved(s, me.id) ==>
               me.id in s.log.sentOn && s.log.failed < s.log.sentOn[me.id] <= s.epoch)))
  }

  ghost predicate CallersInv(s: State) {
    forall c :: 0 <= c < |s.callers| ==> CallerOk(s, c)
  }

  ghost predicate IdsInv(s: State) {
    && (forall id :: id in s.promises ==> id <= s.counter)
    && (forall id :: id in s.pending ==> id in s.promises)
    && (forall id :: id in s.log.orphans ==> id in s.promises)
  }

  /** Who holds which mutex, and when the socket pointer is set. */
  ghost predicate LocksInv(s: State) {
    && (s.pendingLock == if s.io.Holding? || s.io.Erasing? || s.io.Failing? then Some(IoThread) else None)
    && (s.sendLock.Some? ==> s.sendLock.value.CallerThread? && s.sendLock.value.c < |s.callers|)
    && (s.socket.Some? ==> s.socket.value == s.epoch && s.log.failed < s.epoch)
    && (s.io.Down? || s.io.Opened? || s.io.TearFail? || s.io.Failing? || s.io.Stopped? ==> s.socket.None?)
    && (s.io.Opened? ==> s.log.failed < s.epoch)
    && s.log.failed <= s.epoch
  }

  /** Promises in the map are unresolved, except those the IO thread is removing under the lock. */
  ghost predicate PendingInv(s: State) {
    && (forall id :: id in s.pending && IsResolved(s, id) ==>
          (s.io.Erasing? && id == s.io.id) || (s.io.Failing? && id !in s.io.todo))
    && (s.io.Failing? ==> forall id :: id in s.io.todo ==> id in s.pending && Unresolved(s, id))
    && (s.io.Failing? ==> forall id :: id in s.pending && id !in s.io.todo ==> IsResolved(s, id))
    && (s.io.Erasing? ==> s.io.id in s.pending && IsResolved(s, s.io.id))
  }

  /** One logged resolution: of its own promise, by its own response or a fail-all. */
  ghost predicate LogOk(s: State, e: (nat, Resolution)) {
    && e.0 in s.promises && s.promises[e.0] == Some(e.1)
    && (e.1.ByResponse? ==> e.1.r.id == e.0)
    && (e.1.ByFailAll? ==> e.1.epoch <= s.epoch)
  }

  ghost predicate ResolvedInv(s: State) {
    && (forall k :: 0 <= k < |s.log.resolved| ==> LogOk(s, s.log.resolved[k]))
    && (forall j, k :: 0 <= j < k < |s.log.resolved| ==> s.log.resolved[j].0 != s.log.resolved[k].0)
  }

  /** Every unresolved entry of the map belongs to a caller still inside, or to a call whose send threw. */
  ghost predicate EntriesInv(s: State) {
    forall id :: id in s.pending && Unresolved(s, id) ==>
      id in s.log.orphans || (id in s.log.owner && s.log.owner[id] < |s.callers| && Owns(s.callers[s.log.owner[id]], id))
  }

  predicate Owns(c: Caller, id: nat) {
    !c.Outside? && c.id == id
  }

  predicate ResultOk(s: State, r: CallResult) {
    r.outcome.Returned? || r.outcome.Threw? || r.outcome.Disconnected? ==>
      IsResolved(s, r.id) && r.outcome == OutcomeOf(s.promises[r.id].value)
  }

  ghost predicate ResultsInv(s: State) {
    forall k :: 0 <= k < |s.log.results| ==> ResultOk(s, s.log.results[k])
  }

  ghost predicate Inv(s: State) {
    CallersInv(s) && IdsInv(s) && LocksInv(s) && PendingInv(s) && ResolvedInv(s) && EntriesInv(s) && ResultsInv(s)
  }

  // ----- socket actions --------------------------------------------------------

  lemma SocketStepKeepsInv(s: State, a: Action)
    requires Inv(s)
    ensures Inv(SocketStep(s, a))
  {
    hide OutcomeOf;
    var t := SocketStep(s, a);
    SocketStepFrame(s, a);
    SocketStepKeepsIo(s, a);
    SocketStepKeepsLocks(s, a);
    hide SocketStep, LocksInv;
    forall c | 0 <= c < |t.callers| ensures CallerOk(t, c) {
      assert CallerOk(s, c);
    }
    forall k | 0 <= k < |t.log.resolved| ensures LogOk(t, t.log.resolved[k]) {
      assert LogOk(s, s.log.resolved[k]);
    }
    forall k | 0 <= k < |t.log.results| ensures ResultOk(t, t.log.results[k]) {
      assert ResultOk(s, s.log.results[k]);
    }
  }

  /** They leave the promises, the callers and all of the history alone. */
  lemma SocketStepFrame(s: State, a: Action)
    ensures var t := SocketStep(s, a);
            && t == s.(io := t.io, counter := t.counter, socket := t.socket, epoch := t.epoch, wsReady := t.wsReady, live := t.live)
            && t.counter >= s.counter && t.epoch >= s.epoch
  {
  }

  /** The IO thread is resolving promises. */
  predicate UnderLock(io: Io) {
    io.Erasing? || io.Failing? || io.Holding?
  }

  lemma SocketStepKeepsIo(s: State, a: Action)
    ensures var t := SocketStep(s, a);
            UnderLock(s.io) || UnderLock(t.io) ==> t.io == s.io && t.epoch == s.epoch
  {
  }

  lemma SocketStepKeepsLocks(s: State, a: Action)
    requires LocksInv(s)
    ensures LocksInv(SocketStep(s, a))
  {
  }

  // ----- promise actions -------------------------------------------------------

  lemma PromiseStepFrame(s: State, a: Action)
    ensures var t := PromiseStep(s, a);
            t.callers == s.callers && t.log.results == s.log.results && t.epoch == s.epoch
  {
  }

  lemma PromiseStepKeepsCaller(s: State, a: Action, c: nat)
    requires Inv(s) && c < |s.callers|
    ensures PromiseStep(s, a).callers == s.callers && CallerOk(PromiseStep(s, a), c)
  {
    hide PromiseStep, CallerOk, Inv;
    PromiseStepFrame(s, a);
    if a.BeginFail? || a.FailOne? || a.EndFail? {
      FailingKeepsCaller(s, a, c);
    } else {
      RespondingKeepsCaller(s, a, c);
    }
  }

  lemma FailingKeepsCaller(s: State, a: Action, c: nat)
    requires Inv(s) && c < |s.callers| && (a.BeginFail? || a.FailOne? || a.EndFail?)
    requires PromiseStep(s, a).callers == s.callers
    ensures CallerOk(PromiseStep(s, a), c)
  {
    hide CallersInv, ResolvedInv, EntriesInv, ResultsInv, OutcomeOf, LocksInv;
    CallersOk(s, c);
  }

  lemma RespondingKeepsCaller(s: State, a: Action, c: nat)
    requires Inv(s) && c < |s.callers| && !a.BeginFail? && !a.FailOne? && !a.EndFail?
    requires PromiseStep(s, a).callers == s.callers
    ensures CallerOk(PromiseStep(s, a), c)
  {
    hide CallersInv, ResolvedInv, EntriesInv, ResultsInv, OutcomeOf, LocksInv;
    CallersOk(s, c);
  }

  lemma PromiseStepKeepsIds(s: State, a: Action)
    requires Inv(s)
    ensures IdsInv(PromiseStep(s, a))
  {
    hide CallersInv, ResolvedInv, EntriesInv, ResultsInv, OutcomeOf, LocksInv, CallerOk;
  }

  lemma PromiseStepKeepsLocks(s: State, a: Action)
    requires Inv(s)
    ensures LocksInv(PromiseStep(s, a))
  {
    hide CallersInv, ResolvedInv, EntriesInv, ResultsInv, OutcomeOf, PendingInv, IdsInv, CallerOk;
  }

  lemma PromiseStepKeepsPending(s: State, a: Action)
    requires Inv(s)
    ensures PendingInv(PromiseStep(s, a)) && EntriesInv(PromiseStep(s, a))
  {
    hide CallersInv, ResolvedInv, ResultsInv, OutcomeOf, LocksInv;
  }

  /** The IO thread only ever resolves a promise that is unresolved. */
  lemma ResolveOnce(s: State, a: Action)
    requires Inv(s)
    ensures var t := PromiseStep(s, a);
            || (t.log.resolved == s.log.resolved && t.promises == s.promises)
            || (exists id, r :: Unresolved(s, id) && LogOk(t, (id, r))
                 && t.log.resolved == s.log.resolved + [(id, r)] && t.promises == s.promises[id := Some(r)])
  {
    hide CallersInv, ResolvedInv, EntriesInv, ResultsInv, OutcomeOf, LocksInv, CallerOk, PromiseStep;
    if a.Lookup? && s.io.Holding? && s.io.r.id in s.pending {
      assert Unresolved(s, s.io.r.id);
      ResolvedNow(s, a, s.io.r.id, ByResponse(s.io.r));
    } else if a.FailOne? && s.io.Failing? && a.id in s.io.todo {
      assert Unresolved(s, a.id);
      ResolvedNow(s, a, a.id, ByFailAll(s.epoch));
    } else {
      NothingResolved(s, a);
    }
  }

  /** The two actions that resolve a promise. */
  lemma ResolvedNow(s: State, a: Action, id: nat, r: Resolution)
    requires (a.Lookup? && s.io.Holding? && id in s.pending && s.io.r.id == id && r == ByResponse(s.io.r))
          || (a == FailOne(id) && s.io.Failing? && id in s.io.todo && r == ByFailAll(s.epoch))
    ensures var t := PromiseStep(s, a);
            && t.log.resolved == s.log.resolved + [(id, r)] && t.promises == s.promises[id := Some(r)]
            && LogOk(t, (id, r))
  {
  }

  lemma NothingResolved(s: State, a: Action)
    requires !(a.Lookup? && s.io.Holding? && s.io.r.id in s.pending)
    requires !(a.FailOne? && s.io.Failing? && a.id in s.io.todo)
    ensures var t := PromiseStep(s, a); t.log.resolved == s.log.resolved && t.promises == s.promises
  {
  }

  lemma PromiseStepKeepsResolved(s: State, a: Action)
    requires Inv(s)
    ensures ResolvedInv(PromiseStep(s, a)) && ResultsInv(PromiseStep(s, a))
  {
    hide PromiseStep, CallersInv, EntriesInv, PendingInv, LocksInv, IdsInv, OutcomeOf, CallerOk;
    var t := PromiseStep(s, a);
    ResolveOnce(s, a);
    PromiseStepFrame(s, a);
    if !(t.log.resolved == s.log.resolved && t.promises == s.promises) {
      var id, r :| Unresolved(s, id) && LogOk(t, (id, r))
                 && t.log.resolved == s.log.resolved + [(id, r)] && t.promises == s.promises[id := Some(r)];
      forall k | 0 <= k < |s.log.resolved| ensures s.log.resolved[k].0 != id && LogOk(t, s.log.resolved[k]) {
        assert LogOk(s, s.log.resolved[k]);
      }
    } else {
      forall k | 0 <= k < |s.log.resolved| ensures LogOk(t, s.log.resolved[k]) {
        assert LogOk(s, s.log.resolved[k]);
      }
    }
    forall k | 0 <= k < |t.log.results| ensures ResultOk(t, t.log.results[k]) {
      assert ResultOk(s, s.log.results[k]);
    }
  }

  lemma PromiseStepKeepsInv(s: State, a: Action)
    requires Inv(s)
    ensures Inv(PromiseStep(s, a))
  {
    PromiseStepKeepsIds(s, a);
    PromiseStepKeepsLocks(s, a);
    PromiseStepKeepsPending(s, a);
    PromiseStepKeepsResolved(s, a);
    hide CallerOk, PromiseStep, IdsInv, LocksInv, PendingInv, ResolvedInv, EntriesInv, ResultsInv;
    var t := PromiseStep(s, a);
    PromiseStepFrame(s, a);
    forall c | 0 <= c < |t.callers| ensures CallerOk(t, c) {
      PromiseStepKeepsCaller(s, a, c);
    }
  }

  // ----- caller actions --------------------------------------------------------

  lemma CallerKeepsItself(s: State, c: nat, a: Action)
    requires Inv(s) && c < |s.callers|
    ensures CallerOk(CallerStep(s, c, a), c)
  {
    hide CallersInv, ResolvedInv, EntriesInv, ResultsInv, OutcomeOf, PendingInv;
    CallersOk(s, c);
  }

  lemma CallerKeepsOther(s: State, c: nat, a: Action, d: nat)
    requires Inv(s) && c < |s.callers| && d < |s.callers| && c != d
    ensures CallerOk(CallerStep(s, c, a), d)
  {
    hide CallerStep, CallerOk, Inv;
    if Enters(a) {
      EnteringKeepsOther(s, c, a, d);
    } else if a.BeginSend? || a.FinishSend? {
      SendingKeepsOther(s, c, a, d);
    } else {
      LeavingKeepsOther(s, c, a, d);
    }
  }

  /** The caller takes an id and registers. */
  predicate Enters(a: Action) {
    a.TakeId? || a.Register?
  }

  lemma EnteringKeepsOther(s: State, c: nat, a: Action, d: nat)
    requires Inv(s) && c < |s.callers| && d < |s.callers| && c != d && Enters(a)
    ensures CallerOk(CallerStep(s, c, a), d)
  {
    hide CallersInv, ResolvedInv, EntriesInv, ResultsInv, OutcomeOf, PendingInv, LocksInv, IdsInv;
    CallersOk(s, c);
    CallersOk(s, d);
  }

  lemma SendingKeepsOther(s: State, c: nat, a: Action, d: nat)
    requires Inv(s) && c < |s.callers| && d < |s.callers| && c != d && (a.BeginSend? || a.FinishSend?)
    ensures CallerOk(CallerStep(s, c, a), d)
  {
    hide CallersInv, ResolvedInv, EntriesInv, ResultsInv, OutcomeOf, PendingInv, LocksInv, IdsInv;
    CallersOk(s, c);
    CallersOk(s, d);
    hide CallerOk;
    SendersDiffer(s, c, d);
    SendingLeaves(s, c, a);
    CallerOkCarries(s, CallerStep(s, c, a), d);
  }

  /** Two callers never own the same request. */
  lemma SendersDiffer(s: State, c: nat, d: nat)
    requires c < |s.callers| && d < |s.callers| && c != d && CallerOk(s, c) && CallerOk(s, d)
    ensures !s.callers[c].Outside? && !s.callers[d].Outside? ==> s.callers[c].id != s.callers[d].id
    ensures s.callers[c].Sending? ==> s.sendLock == Some(CallerThread(c))
    ensures s.sendLock.None? || s.callers[c].Sending? ==> !s.callers[d].Sending?
  {
  }

  /** What the two actions of a send can change. */
  lemma SendingLeaves(s: State, c: nat, a: Action)
    requires c < |s.callers| && (a.BeginSend? || a.FinishSend?)
    ensures var t, me := CallerStep(s, c, a), s.callers[c];
            && t.promises == s.promises && t.pending == s.pending && t.counter == s.counter && t.epoch == s.epoch
            && t.log.owner == s.log.owner && t.log.failed == s.log.failed
            && (t == s || (!me.Outside? && t.callers == s.callers[c := t.callers[c]]
                  && t.log.orphans <= s.log.orphans + {me.id}
                  && (forall id :: id in s.log.sentOn && id != me.id ==>
                        id in t.log.sentOn && t.log.sentOn[id] == s.log.sentOn[id])
                  && ((s.sendLock.None? && t.sendLock == Some(CallerThread(c)))
                      || (me.Sending? && t.sendLock.None?))))
  {
  }

  lemma CallerOkCarries(s: State, t: State, d: nat)
    requires d < |s.callers| == |t.callers| && t.callers[d] == s.callers[d] && CallerOk(s, d)
    requires t.promises == s.promises && t.pending == s.pending && t.counter == s.counter && t.epoch == s.epoch
    requires t.log.owner == s.log.owner && t.log.failed == s.log.failed
    requires s.callers[d].Sending? <==> t.sendLock == Some(CallerThread(d))
    requires var me := s.callers[d]; !me.Outside? ==>
               && me.id !in t.log.orphans
               && (me.id in s.log.sentOn ==> me.id in t.log.sentOn && t.log.sentOn[me.id] == s.log.sentOn[me.id])
    ensures CallerOk(t, d)
  {
  }

  lemma LeavingKeepsOther(s: State, c: nat, a: Action, d: nat)
    requires Inv(s) && c < |s.callers| && d < |s.callers| && c != d
    requires !Enters(a) && !a.BeginSend? && !a.FinishSend?
    ensures CallerOk(CallerStep(s, c, a), d)
  {
    hide CallersInv, ResolvedInv, EntriesInv, ResultsInv, OutcomeOf, PendingInv, LocksInv, IdsInv;
    CallersOk(s, c);
    CallersOk(s, d);
  }

  lemma CallerKeepsLocks(s: State, c: nat, a: Action)
    requires Inv(s) && c < |s.callers|
    ensures IdsInv(CallerStep(s, c, a)) && LocksInv(CallerStep(s, c, a))
  {
    hide CallerStep, IdsInv, LocksInv;
    CallerKeepsIds(s, c, a);
    CallerKeepsMutexes(s, c, a);
  }

  lemma CallerKeepsIds(s: State, c: nat, a: Action)
    requires Inv(s) && c < |s.callers|
    ensures IdsInv(CallerStep(s, c, a))
  {
    hide CallersInv, ResolvedInv, EntriesInv, ResultsInv, OutcomeOf, PendingInv, LocksInv, Dangling;
    CallersOk(s, c);
    hide CallerOk;
    if !s.callers[c].Outside? {
      OwnId(s, c);
    }
  }

  lemma OwnId(s: State, c: nat)
    requires c < |s.callers| && CallerOk(s, c) && !s.callers[c].Outside?
    ensures var me := s.callers[c];
            me.id <= s.counter && me.id in s.log.owner && (me.Numbered? <==> me.id !in s.promises)
  {
  }

  lemma CallerKeepsMutexes(s: State, c: nat, a: Action)
    requires Inv(s) && c < |s.callers|
    ensures LocksInv(CallerStep(s, c, a))
  {
    hide CallersInv, ResolvedInv, EntriesInv, ResultsInv, OutcomeOf, PendingInv, IdsInv, Dangling;
    CallersOk(s, c);
  }

  lemma CallerKeepsPending(s: State, c: nat, a: Action)
    requires Inv(s) && c < |s.callers|
    ensures PendingInv(CallerStep(s, c, a))
  {
    hide CallersInv, ResolvedInv, EntriesInv, ResultsInv, OutcomeOf;
    CallersOk(s, c);
  }

  lemma CallersOk(s: State, c: nat)
    requires Inv(s) && c < |s.callers|
    ensures CallerOk(s, c)
  {
  }

  /** Callers resolve nothing; registering only adds an unresolved promise under a new id. */
  lemma CallerKeepsPromises(s: State, c: nat, a: Action)
    requires Inv(s) && c < |s.callers|
    ensures var t := CallerStep(s, c, a);
            && t.log.resolved == s.log.resolved && t.epoch == s.epoch
            && (forall id :: id in s.promises ==> id in t.promises && t.promises[id] == s.promises[id])
  {
    hide CallersInv, EntriesInv, OutcomeOf, PendingInv, LocksInv, IdsInv, ResolvedInv, ResultsInv;
    CallersOk(s, c);
  }

  /** At most one call finishes, with what its own promise says. */
  lemma CallerAddsOwnResult(s: State, c: nat, a: Action)
    requires Inv(s) && c < |s.callers|
    ensures var t := CallerStep(s, c, a);
            t.log.results == s.log.results || exists r :: ResultOk(s, r) && t.log.results == s.log.results + [r]
  {
    hide CallersInv, EntriesInv, OutcomeOf, PendingInv, LocksInv, IdsInv, ResolvedInv, ResultsInv, CallerOk;
    var t := CallerStep(s, c, a);
    if t.log.results != s.log.results {
      var r := t.log.results[|s.log.results|];
      assert ResultOk(s, r) && t.log.results == s.log.results + [r];
    }
  }

  lemma CallerKeepsResolved(s: State, c: nat, a: Action)
    requires Inv(s) && c < |s.callers|
    ensures ResolvedInv(CallerStep(s, c, a)) && ResultsInv(CallerStep(s, c, a))
  {
    hide CallersInv, EntriesInv, OutcomeOf, PendingInv, LocksInv, IdsInv, CallerStep;
    CallerKeepsPromises(s, c, a);
    CallerAddsOwnResult(s, c, a);
    var t := CallerStep(s, c, a);
    forall k | 0 <= k < |t.log.resolved| ensures LogOk(t, t.log.resolved[k]) {
      assert LogOk(s, s.log.resolved[k]);
    }
    forall k | 0 <= k < |t.log.results| ensures ResultOk(t, t.log.results[k]) {
      assert k < |s.log.results| ==> ResultOk(s, s.log.results[k]);
    }
  }

  lemma CallerKeepsEntries(s: State, c: nat, a: Action)
    requires Inv(s) && c < |s.callers|
    ensures EntriesInv(CallerStep(s, c, a))
  {
    hide CallerStep, Inv, EntriesInv;
    if Enters(a) {
      EnteringKeepsEntries(s, c, a);
    } else {
      GoingKeepsEntries(s, c, a);
    }
  }

  lemma EnteringKeepsEntries(s: State, c: nat, a: Action)
    requires Inv(s) && c < |s.callers| && Enters(a)
    ensures EntriesInv(CallerStep(s, c, a))
  {
    hide CallersInv, ResolvedInv, ResultsInv, OutcomeOf, LocksInv, PendingInv;
    CallersOk(s, c);
  }

  lemma GoingKeepsEntries(s: State, c: nat, a: Action)
    requires Inv(s) && c < |s.callers| && !Enters(a)
    ensures EntriesInv(CallerStep(s, c, a))
  {
    hide CallersInv, ResolvedInv, ResultsInv, OutcomeOf, LocksInv, PendingInv, IdsInv;
    CallersOk(s, c);
  }

  lemma CallerStepKeepsInv(s: State, c: nat, a: Action)
    requires Inv(s) && c < |s.callers|
    ensures Inv(CallerStep(s, c, a))
  {
    hide CallerOk, CallerStep, IdsInv, LocksInv, PendingInv, ResolvedInv, EntriesInv, ResultsInv;
    var t := CallerStep(s, c, a);
    CallerKeepsLocks(s, c, a);
    CallerKeepsPending(s, c, a);
    CallerKeepsResolved(s, c, a);
    CallerKeepsEntries(s, c, a);
    SameCallers(s, c, a);
    forall d | 0 <= d < |t.callers| ensures CallerOk(t, d) {
      if d == c { CallerKeepsItself(s, d, a); } else { CallerKeepsOther(s, c, a, d); }
    }
  }

  lemma StepKeepsInv(s: State, a: Action)
    requires Inv(s)
    ensures Inv(Step(s, a))
  {
    hide Inv, SocketStep, PromiseStep, CallerStep;
    if a.SetConnected? {
      ConnectedKeepsInv(s, a.b);
    } else if OfCaller(a) {
      if a.c < |s.callers| {
        CallerStepKeepsInv(s, a.c, a);
      }
    } else if OfPromises(a) {
      PromiseStepKeepsInv(s, a);
    } else {
      SocketStepKeepsInv(s, a);
    }
  }

  lemma SameCallers(s: State, c: nat, a: Action)
    requires c < |s.callers|
    ensures |CallerStep(s, c, a).callers| == |s.callers|
  {
  }

  lemma ConnectedKeepsInv(s: State, b: bool)
    requires Inv(s)
    ensures Inv(s.(connected := b))
  {
    var t := s.(connected := b);
    forall c | 0 <= c < |t.callers| ensures CallerOk(t, c) {
      assert CallerOk(s, c);
    }
    forall k | 0 <= k < |t.log.resolved| ensures LogOk(t, t.log.resolved[k]) {
      assert LogOk(s, s.log.resolved[k]);
    }
    forall k | 0 <= k < |t.log.results| ensures ResultOk(t, t.log.results[k]) {
      assert ResultOk(s, s.log.results[k]);
    }
  }

  /** Every interleaving of callers, responses, timeouts, teardowns and reconnects keeps the invariant. */
  lemma {:induction false} RunKeepsInv(callers: nat, actions: seq<Action>)
    ensures Inv(Run(Initial(callers), actions))
  {
    if actions != [] {
      hide Inv, Step;
      RunKeepsInv(callers, actions[..|actions| - 1]);
      StepKeepsInv(Run(Initial(callers), actions[..|actions| - 1]), actions[|actions| - 1]);
    }
  }

  // ----- what every run promises -----------------------------------------------

  /** With the pending mutex free, every promise in the map is unresolved. */
  lemma PendingAreUnresolved(callers: nat, actions: seq<Action>)
    ensures var s := Run(Initial(callers), actions);
            s.pendingLock.None? ==> forall id :: id in s.pending ==> Unresolved(s, id)
  {
    hide Run;
    RunKeepsInv(callers, actions);
  }

  /** Each promise is resolved at most once, and only by a response naming its own id or by a fail-all. */
  lemma ResolvedAtMostOnce(callers: nat, actions: seq<Action>)
    ensures var s := Run(Initial(callers), actions);
            && (forall j, k :: 0 <= j < k < |s.log.resolved| ==> s.log.resolved[j].0 != s.log.resolved[k].0)
            && (forall k :: 0 <= k < |s.log.resolved| && s.log.resolved[k].1.ByResponse? ==>
                  s.log.resolved[k].1.r.id == s.log.resolved[k].0)
  {
    hide Run, CallersInv, EntriesInv, PendingInv;
    RunKeepsInv(callers, actions);
    var s := Run(Initial(callers), actions);
    assert forall k :: 0 <= k < |s.log.resolved| ==> LogOk(s, s.log.resolved[k]);
  }

  /** No later action changes what a promise was resolved with. */
  lemma ResolutionIsFinal(s: State, a: Action, id: nat)
    requires Inv(s) && IsResolved(s, id)
    ensures var t := Step(s, a);
            IsResolved(t, id) && t.promises[id] == s.promises[id]
  {
    hide CallersInv, ResolvedInv, EntriesInv, ResultsInv, OutcomeOf;
    if OfCaller(a) && a.c < |s.callers| {
      CallersOk(s, a.c);
    } else if OfPromises(a) {
      ResolveOnce(s, a);
    }
  }

  /**
   * A caller blocked on an unresolved promise still has its map entry, and sent on a
   * socket whose fail-all has not run: no waiter is ever forgotten.
   */
  lemma BlockedCallerIsReachable(callers: nat, actions: seq<Action>, c: nat)
    requires c < |Run(Initial(callers), actions).callers|
    ensures var s := Run(Initial(callers), actions);
            var me := s.callers[c];
            me.Waiting? && Unresolved(s, me.id) ==>
              me.id in s.pending && me.id in s.log.sentOn && s.log.failed < s.log.sentOn[me.id] <= s.epoch
    ensures var s := Run(Initial(callers), actions);
            s.callers[c].Waiting? ==> s.callers[c].id in s.promises
  {
    hide Run, ResolvedInv, EntriesInv, ResultsInv;
    RunKeepsInv(callers, actions);
    CallersOk(Run(Initial(callers), actions), c);
  }

  /** When a fail-all completes, nobody is left blocked on an unresolved promise and the map is empty. */
  lemma FailAllReleasesEveryone(s: State)
    requires Inv(s) && s.io.Failing? && s.io.todo == {}
    ensures var t := Step(s, EndFail);
            && t.io.Down? && t.pending == {} && t.log.failed == t.epoch
            && forall c :: 0 <= c < |t.callers| && t.callers[c].Waiting? ==> IsResolved(t, t.callers[c].id)
  {
    hide ResolvedInv, EntriesInv, ResultsInv, OutcomeOf;
    var t := Step(s, EndFail);
    forall c | 0 <= c < |t.callers| && t.callers[c].Waiting? ensures IsResolved(t, t.callers[c].id) {
      CallersOk(s, c);
    }
  }

  /** A call that returned or rethrew got exactly what the response to its own id said. */
  lemma ResultsAreOwn(callers: nat, actions: seq<Action>, k: nat)
    requires k < |Run(Initial(callers), actions).log.results|
    ensures var s := Run(Initial(callers), actions);
            var r := s.log.results[k];
            r.outcome.Returned? || r.outcome.Threw? || r.outcome.Disconnected? ==>
              IsResolved(s, r.id) && r.outcome == OutcomeOf(s.promises[r.id].value)
  {
    hide Run, CallersInv, EntriesInv, PendingInv, ResolvedInv, OutcomeOf;
    RunKeepsInv(callers, actions);
    var s := Run(Initial(callers), actions);
    assert ResultOk(s, s.log.results[k]);
  }

  /** An unresolved map entry without a caller inside is one whose send threw. */
  lemma EntriesAreAccountedFor(callers: nat, actions: seq<Action>, id: nat)
    ensures var s := Run(Initial(callers), actions);
            id in s.pending && Unresolved(s, id) ==>
              id in s.log.orphans || exists c :: 0 <= c < |s.callers| && Owns(s.callers[c], id)
  {
    hide Run, CallersInv, PendingInv, ResolvedInv, ResultsInv;
    RunKeepsInv(callers, actions);
  }

  /**
   * Only a caller in the middle of its send holds the send mutex, and finishing the
   * send releases it without waiting for the other mutex.
   */
  lemma SendHolderCanMove(s: State, throws: bool)
    requires Inv(s) && s.sendLock.Some?
    ensures s.sendLock.value.CallerThread? && s.sendLock.value != IoThread
    ensures Step(s, FinishSend(s.sendLock.value.c, throws)).sendLock.None?
  {
    hide ResolvedInv, EntriesInv, ResultsInv, OutcomeOf, PendingInv, IdsInv;
    CallersOk(s, s.sendLock.value.c);
  }

  /**
   * Only the IO thread ever holds the pending mutex across actions, and it can always
   * go on without waiting: with the lemma above, no thread holds both, and there is no deadlock.
   */
  lemma PendingHolderCanMove(s: State, id: nat)
    requires Inv(s) && s.pendingLock.Some?
    ensures s.pendingLock.value == IoThread
    ensures match s.io
      case Holding(_) => Step(s, Lookup).io.Erasing? || Step(s, Lookup).pendingLock.None?
      case Erasing(_) => Step(s, Erase).pendingLock.None?
      case Failing(todo) =>
        if todo == {} then Step(s, EndFail).pendingLock.None?
        else id in todo ==> Step(s, FailOne(id)).io == Failing(todo - {id})
      case _ => false
  {
    hide CallersInv, ResolvedInv, EntriesInv, ResultsInv, OutcomeOf, PendingInv, IdsInv;
  }

  /** Exactly while the IO thread is inside the block that declares it does the WsClient exist. */
  predicate InBlock(io: Io) {
    io.Opened? || io.LoggingIn? || io.Receiving? || io.Got? || UnderResponse(io)
  }

  predicate UnderResponse(io: Io) {
    io.Holding? || io.Erasing?
  }

  lemma {:induction false} LiveInBlock(callers: nat, actions: seq<Action>)
    ensures var s := Run(Initial(callers), actions); s.live <==> InBlock(s.io)
  {
    if actions != [] {
      hide SocketStep, PromiseStep, CallerStep;
      LiveInBlock(callers, actions[..|actions| - 1]);
      var s, a := Run(Initial(callers), actions[..|actions| - 1]), actions[|actions| - 1];
      SocketKeepsLive(s, a);
      PromiseKeepsLive(s, a);
      if OfCaller(a) && a.c < |s.callers| {
        CallerLeavesIo(s, a.c, a);
      }
    }
  }

  lemma SocketKeepsLive(s: State, a: Action)
    requires s.live <==> InBlock(s.io)
    ensures SocketStep(s, a).live <==> InBlock(SocketStep(s, a).io)
  {
  }

  lemma PromiseKeepsLive(s: State, a: Action)
    requires s.live <==> InBlock(s.io)
    ensures PromiseStep(s, a).live <==> InBlock(PromiseStep(s, a).io)
  {
  }

  lemma CallerLeavesIo(s: State, c: nat, a: Action)
    requires c < |s.callers|
    ensures CallerStep(s, c, a).live == s.live && CallerStep(s, c, a).io == s.io
  {
  }

  /**
   * A send goes through the pointer to a destroyed object exactly when a caller reaches its
   * send between the end of the IO thread's block and the clearing of the pointer.
   */
  lemma DeadSendExactlyWhen(callers: nat, actions: seq<Action>, c: nat, throws: bool)
    requires c < |Run(Initial(callers), actions).callers|
    ensures var s := Run(Initial(callers), actions);
            var t := Step(s, FinishSend(c, throws));
            if s.callers[c].Sending? && s.socket.Some? && (s.io.TearReady? || s.io.TearPtr?) then
              t.log.deadSends == s.log.deadSends + [s.callers[c].id]
            else
              t.log.deadSends == s.log.deadSends
  {
    hide Run, CallersInv, ResolvedInv, EntriesInv, PendingInv, ResultsInv, IdsInv;
    RunKeepsInv(callers, actions);
    LiveInBlock(callers, actions);
  }

  /** The window is real: a request sent in it goes to a destroyed object, and its caller waits for an answer. */
  lemma DeadSendCanHappen() returns (actions: seq<Action>)
    ensures var s := Run(Initial(1), actions);
            s.log.deadSends == [2] && s.callers == [Waiting(2)]
  {
    hide Step;
    var s := Initial(1);
    DeadSendSchedule();
    actions := [];
    actions := Then(s, actions, Open);
    actions := Then(s, actions, PublishPtr);
    actions := Then(s, actions, Login(true));
    actions := Then(s, actions, SetConnected(true));
    actions := Then(s, actions, TakeId(0));
    actions := Then(s, actions, Register(0));
    actions := Then(s, actions, BeginSend(0));
    actions := Then(s, actions, Drop);
    actions := Then(s, actions, FinishSend(0, false));
  }

  lemma DeadSendSchedule()
    ensures var up := Step(Step(Step(Step(Initial(1), Open), PublishPtr), Login(true)), SetConnected(true));
            var sending := Step(Step(Step(up, TakeId(0)), Register(0)), BeginSend(0));
            var s := Step(Step(sending, Drop), FinishSend(0, false));
            s.log.deadSends == [2] && s.callers == [Waiting(2)]
  {
    hide Step;
    SocketOpens();
    SocketIsUp();
    CallerSends();
    SocketDrops();
  }

  /** Connected on the first socket, with one caller that has done nothing yet, or is about to send request 2. */
  function SocketUp(sending: bool): State {
    if sending then
      State(true, true, 2, {2}, map[2 := None], None, Some(CallerThread(0)), Some(1), true, 1, Receiving, [Sending(2)],
            Log(map[], 0, [], map[2 := 0], {}, [], [], {}))
    else
      State(true, true, 1, {}, map[], None, None, Some(1), true, 1, Receiving, [Outside],
            Log(map[], 0, [], map[], {}, [], [], {}))
  }

  lemma SocketOpens()
    ensures Step(Step(Initial(1), Open), PublishPtr)
         == SocketUp(false).(connected := false, wsReady := false, counter := 0, io := LoggingIn)
  {
    assert Initial(1).callers == [Outside];
  }

  lemma SocketIsUp()
    ensures var s := SocketUp(false).(connected := false, wsReady := false, counter := 0, io := LoggingIn);
            Step(Step(s, Login(true)), SetConnected(true)) == SocketUp(false)
  {
  }

  lemma CallerSends()
    ensures Step(Step(Step(SocketUp(false), TakeId(0)), Register(0)), BeginSend(0)) == SocketUp(true)
  {
    assert [Outside][0 := Numbered(2)] == [Numbered(2)];
    assert [Numbered(2)][0 := Registered(2)] == [Registered(2)];
    assert [Registered(2)][0 := Sending(2)] == [Sending(2)];
    assert {} + {2} == {2};
  }

  lemma SocketDrops()
    ensures var s := Step(Step(SocketUp(true), Drop), FinishSend(0, false));
            s.log.deadSends == [2] && s.callers == [Waiting(2)]
  {
    assert [Sending(2)][0 := Waiting(2)] == [Waiting(2)];
  }

  lemma Then(s: State, xs: seq<Action>, a: Action) returns (ys: seq<Action>)
    ensures ys == xs + [a] && Run(s, ys) == Step(Run(s, xs), a)
  {
    ys := xs + [a];
    assert ys[..|xs|] == xs;
  }

  // ----- requests that outlive their socket ---------------------------------------

  /** A fail-all that has resolved a promise is complete, or the one under way. */
  ghost predicate EpochsOk(s: State) {
    forall id :: id in s.promises && s.promises[id].Some? && s.promises[id].value.ByFailAll? ==>
      EpochOk(s, s.promises[id].value.epoch)
  }

  predicate EpochOk(s: State, e: nat) {
    e <= s.log.failed || (s.io.Failing? && e == s.epoch)
  }

  /** A request sent on a later socket than the one whose fail-all resolved it was resolved before it was sent. */
  predicate LateOk(s: State, id: nat)
    requires id in s.log.sentOn
  {
    && s.log.sentOn[id] <= s.epoch
    && (id in s.log.late ==> IsResolved(s, id))
    && (IsResolved(s, id) && s.promises[id].value.ByFailAll? ==>
          (s.log.sentOn[id] > s.promises[id].value.epoch <==> id in s.log.late))
  }

  ghost predicate SentOk(s: State) {
    && (forall id :: id in s.log.late ==> id in s.log.sentOn)
    && (forall id :: id in s.log.sentOn ==> LateOk(s, id))
  }

  predicate WaitsForSent(s: State, c: Caller) {
    c.Waiting? || c.Expired? ==> c.id in s.log.sentOn
  }

  predicate AnswersSent(s: State, r: CallResult) {
    r.outcome.Returned? || r.outcome.Threw? || r.outcome.Disconnected? || r.outcome.TimedOut? ==> r.id in s.log.sentOn
  }

  ghost predicate WaitersSent(s: State) {
    && (forall c :: 0 <= c < |s.callers| ==> WaitsForSent(s, s.callers[c]))
    && (forall k :: 0 <= k < |s.log.results| ==> AnswersSent(s, s.log.results[k]))
  }

  ghost predicate LateInv(s: State) {
    EpochsOk(s) && SentOk(s) && WaitersSent(s)
  }

  lemma SocketKeepsLate(s: State, a: Action)
    requires LateInv(s)
    ensures LateInv(SocketStep(s, a))
  {
    SocketStepFrame(s, a);
    SocketStepKeepsIo(s, a);
    hide SocketStep;
    var t := SocketStep(s, a);
    forall id | id in t.log.sentOn ensures LateOk(t, id) {
      assert LateOk(s, id);
    }
    forall k | 0 <= k < |t.log.results| ensures AnswersSent(t, t.log.results[k]) {
      assert AnswersSent(s, s.log.results[k]);
    }
    forall c | 0 <= c < |t.callers| ensures WaitsForSent(t, t.callers[c]) {
      assert WaitsForSent(s, s.callers[c]);
    }
  }

  lemma PromiseLeavesSent(s: State, a: Action)
    ensures var t := PromiseStep(s, a);
            t.log.sentOn == s.log.sentOn && t.log.late == s.log.late
  {
  }

  /** A complete fail-all stays complete, and one that resolves a promise is under way. */
  lemma EpochCarries(s: State, a: Action, e: nat)
    requires LocksInv(s)
    ensures EpochOk(s, e) ==> EpochOk(PromiseStep(s, a), e)
    ensures a.FailOne? && s.io.Failing? && a.id in s.io.todo ==> EpochOk(PromiseStep(s, a), s.epoch)
  {
  }

  lemma PromiseKeepsLate(s: State, a: Action)
    requires Inv(s) && LateInv(s)
    ensures LateInv(PromiseStep(s, a))
  {
    PromiseLeavesSent(s, a);
    PromiseStepFrame(s, a);
    forall e: nat ensures EpochOk(s, e) ==> EpochOk(PromiseStep(s, a), e) {
      EpochCarries(s, a, e);
    }
    EpochCarries(s, a, s.epoch);
    hide PromiseStep, CallersInv, ResolvedInv, EntriesInv, ResultsInv, OutcomeOf, LocksInv, CallerOk, EpochOk;
    var t := PromiseStep(s, a);
    if a.Lookup? && s.io.Holding? && s.io.r.id in s.pending {
      assert Unresolved(s, s.io.r.id);
      ResolvedNow(s, a, s.io.r.id, ByResponse(s.io.r));
      ResolvingKeepsSent(s, t, s.io.r.id, ByResponse(s.io.r));
    } else if a.FailOne? && s.io.Failing? && a.id in s.io.todo {
      assert Unresolved(s, a.id);
      ResolvedNow(s, a, a.id, ByFailAll(s.epoch));
      ResolvingKeepsSent(s, t, a.id, ByFailAll(s.epoch));
    } else {
      NothingResolved(s, a);
      forall id | id in t.log.sentOn ensures LateOk(t, id) {
        assert LateOk(s, id);
      }
    }
    forall k | 0 <= k < |t.log.results| ensures AnswersSent(t, t.log.results[k]) {
      assert AnswersSent(s, s.log.results[k]);
    }
    forall c | 0 <= c < |t.callers| ensures WaitsForSent(t, t.callers[c]) {
      assert WaitsForSent(s, s.callers[c]);
    }
  }

  /** Resolving an unresolved promise, by a response or by the fail-all of the present epoch, makes no request late. */
  lemma ResolvingKeepsSent(s: State, t: State, id: nat, r: Resolution)
    requires SentOk(s) && Unresolved(s, id) && (r.ByFailAll? ==> r.epoch == s.epoch)
    requires t.promises == s.promises[id := Some(r)] && t.epoch == s.epoch
    requires t.log.sentOn == s.log.sentOn && t.log.late == s.log.late
    ensures SentOk(t)
  {
    forall x | x in t.log.sentOn ensures LateOk(t, x) {
      assert LateOk(s, x);
    }
  }

  lemma CallerKeepsLate(s: State, c: nat, a: Action)
    requires Inv(s) && LateInv(s) && c < |s.callers|
    ensures LateInv(CallerStep(s, c, a))
  {
    hide CallerStep, Inv, LateInv;
    if a.FinishSend? {
      SendKeepsLate(s, c, a);
    } else {
      OtherKeepsLate(s, c, a);
    }
  }

  /** The end of a send: nothing, a withdrawal to come, a throw, or a request on the present socket. */
  lemma SendChanges(s: State, c: nat, a: Action)
    requires c < |s.callers| && a.FinishSend?
    ensures var t, me := CallerStep(s, c, a), s.callers[c];
            && t.promises == s.promises && t.epoch == s.epoch && t.io == s.io && t.log.failed == s.log.failed
            && t.callers == s.callers[c := t.callers[c]]
            && if t.callers[c].Waiting? && !me.Waiting? then
                 && me.Sending? && s.socket.Some? && t.callers[c].id == me.id && t.log.results == s.log.results
                 && t.log.sentOn == s.log.sentOn[me.id := s.socket.value]
                 && t.log.late == if IsResolved(s, me.id) then s.log.late + {me.id} else s.log.late - {me.id}
               else
                 && t.log.sentOn == s.log.sentOn && t.log.late == s.log.late
                 && (t.callers[c] == me || t.callers[c].Unsent? || t.callers[c].Outside?)
                 && (t.log.results == s.log.results || t.log.results == s.log.results + [CallResult(me.id, SendThrew)])
  {
  }

  /** A request on the present socket is late exactly if its promise is resolved. */
  lemma SentNow(s: State, t: State, id: nat)
    requires SentOk(s) && EpochsOk(s) && LocksInv(s) && s.socket.Some?
    requires t.promises == s.promises && t.epoch == s.epoch
    requires t.log.sentOn == s.log.sentOn[id := s.socket.value]
    requires t.log.late == if IsResolved(s, id) then s.log.late + {id} else s.log.late - {id}
    ensures SentOk(t)
  {
    forall x | x in t.log.sentOn ensures LateOk(t, x) {
      assert x != id ==> LateOk(s, x);
    }
  }

  lemma SendKeepsLate(s: State, c: nat, a: Action)
    requires Inv(s) && LateInv(s) && c < |s.callers| && a.FinishSend?
    ensures LateInv(CallerStep(s, c, a))
  {
    hide CallerStep, CallersInv, ResolvedInv, EntriesInv, ResultsInv, PendingInv, IdsInv;
    SendChanges(s, c, a);
    var t := CallerStep(s, c, a);
    if t.callers[c].Waiting? && !s.callers[c].Waiting? {
      SentNow(s, t, s.callers[c].id);
    } else {
      forall id | id in t.log.sentOn ensures LateOk(t, id) {
        assert LateOk(s, id);
      }
    }
    hide SentOk, LocksInv;
    forall d | 0 <= d < |t.callers| ensures WaitsForSent(t, t.callers[d]) {
      assert WaitsForSent(s, s.callers[d]);
    }
    forall k | 0 <= k < |t.log.results| ensures AnswersSent(t, t.log.results[k]) {
      assert k < |s.log.results| ==> AnswersSent(s, s.log.results[k]);
    }
  }

  /** The other actions of a caller send nothing; at most they register a promise, or end a call that has sent. */
  lemma OtherLeavesSent(s: State, c: nat, a: Action)
    requires Inv(s) && LateInv(s) && c < |s.callers| && !a.FinishSend?
    ensures var t := CallerStep(s, c, a);
            && t.log.sentOn == s.log.sentOn && t.log.late == s.log.late && t.log.failed == s.log.failed
            && t.epoch == s.epoch && t.io == s.io
            && t.callers == s.callers[c := t.callers[c]] && WaitsForSent(s, t.callers[c])
  {
    hide CallersInv, ResolvedInv, EntriesInv, ResultsInv, OutcomeOf, CallerOk, PendingInv, IdsInv, LocksInv, SentOk, EpochsOk;
    assert WaitsForSent(s, s.callers[c]);
  }

  lemma OtherAddsResult(s: State, c: nat, a: Action)
    requires LateInv(s) && c < |s.callers| && !a.FinishSend?
    ensures var t := CallerStep(s, c, a);
            t.log.results == s.log.results || exists r :: AnswersSent(s, r) && t.log.results == s.log.results + [r]
  {
    hide OutcomeOf, SentOk, EpochsOk;
    assert WaitsForSent(s, s.callers[c]);
    var t := CallerStep(s, c, a);
    if t.log.results != s.log.results {
      var r := t.log.results[|s.log.results|];
      assert AnswersSent(s, r) && t.log.results == s.log.results + [r];
    }
  }

  /** The only promise a caller adds is unresolved and under a new id. */
  lemma OtherKeepsResolved(s: State, c: nat, a: Action)
    requires Inv(s) && c < |s.callers|
    ensures var t := CallerStep(s, c, a);
            forall id :: IsResolved(s, id) || IsResolved(t, id) ==>
              IsResolved(s, id) && IsResolved(t, id) && t.promises[id] == s.promises[id]
  {
    hide CallersInv, ResolvedInv, EntriesInv, ResultsInv, OutcomeOf, PendingInv, IdsInv, LocksInv;
    CallersOk(s, c);
  }

  lemma OtherKeepsLate(s: State, c: nat, a: Action)
    requires Inv(s) && LateInv(s) && c < |s.callers| && !a.FinishSend?
    ensures LateInv(CallerStep(s, c, a))
  {
    hide CallerStep, Inv;
    OtherLeavesSent(s, c, a);
    OtherAddsResult(s, c, a);
    OtherKeepsResolved(s, c, a);
    var t := CallerStep(s, c, a);
    forall id | id in t.log.sentOn ensures LateOk(t, id) {
      assert LateOk(s, id);
    }
    forall id | id in t.promises && t.promises[id].Some? && t.promises[id].value.ByFailAll?
      ensures EpochOk(t, t.promises[id].value.epoch)
    {
      assert IsResolved(t, id);
    }
    forall d | 0 <= d < |t.callers| ensures WaitsForSent(t, t.callers[d]) {
      assert WaitsForSent(s, s.callers[d]);
    }
    forall k | 0 <= k < |t.log.results| ensures AnswersSent(t, t.log.results[k]) {
      assert k < |s.log.results| ==> AnswersSent(s, s.log.results[k]);
    }
  }

  lemma {:induction false} RunKeepsLate(callers: nat, actions: seq<Action>)
    ensures LateInv(Run(Initial(callers), actions))
  {
    if actions != [] {
      hide SocketStep, PromiseStep, CallerStep, Inv, LateInv;
      var s, a := Run(Initial(callers), actions[..|actions| - 1]), actions[|actions| - 1];
      RunKeepsLate(callers, actions[..|actions| - 1]);
      RunKeepsInv(callers, actions[..|actions| - 1]);
      if a.SetConnected? {
        ConnectedKeepsLate(s, a.b);
      } else if OfCaller(a) {
        if a.c < |s.callers| {
          CallerKeepsLate(s, a.c, a);
        }
      } else if OfPromises(a) {
        PromiseKeepsLate(s, a);
      } else {
        SocketKeepsLate(s, a);
      }
    }
  }

  lemma ConnectedKeepsLate(s: State, b: bool)
    requires LateInv(s)
    ensures LateInv(s.(connected := b))
  {
    var t := s.(connected := b);
    forall id | id in t.log.sentOn ensures LateOk(t, id) {
      assert LateOk(s, id);
    }
    forall c | 0 <= c < |t.callers| ensures WaitsForSent(t, t.callers[c]) {
      assert WaitsForSent(s, s.callers[c]);
    }
    forall k | 0 <= k < |t.log.results| ensures AnswersSent(t, t.log.results[k]) {
      assert AnswersSent(s, s.log.results[k]);
    }
  }

  /**
   * A call that ends with Disconnected did send its request, and a fail-all resolved it. The
   * request went out on a later socket than the one that fail-all was for if and only if
   * its promise was already resolved when the send finished.
   */
  lemma DisconnectedThoughSent(callers: nat, actions: seq<Action>, k: nat)
    requires k < |Run(Initial(callers), actions).log.results|
    requires Run(Initial(callers), actions).log.results[k].outcome.Disconnected?
    ensures var s := Run(Initial(callers), actions);
            var id := s.log.results[k].id;
            && id in s.log.sentOn && IsResolved(s, id) && s.promises[id].value.ByFailAll?
            && (s.log.sentOn[id] > s.promises[id].value.epoch <==> id in s.log.late)
  {
    hide Run, CallersInv, EntriesInv, PendingInv, ResolvedInv, LocksInv, IdsInv;
    RunKeepsInv(callers, actions);
    RunKeepsLate(callers, actions);
    var s := Run(Initial(callers), actions);
    assert ResultOk(s, s.log.results[k]) && AnswersSent(s, s.log.results[k]);
    assert LateOk(s, s.log.results[k].id);
  }

  /**
   * It happens: a caller that registers, sleeps through a teardown and a reconnect and then
   * sends is told Disconnected, although its request went out on the live second socket.
   */
  lemma LateRequestIsDisowned() returns (actions: seq<Action>)
    ensures var s := Run(Initial(1), actions);
            && s.log.results == [CallResult(2, Disconnected)] && s.log.sentOn == map[2 := 2]
            && s.live && s.socket == Some(2) && s.log.failed == 1 && s.log.deadSends == []
  {
    hide Step;
    var s := Initial(1);
    SocketOpens();
    SocketIsUp();
    LateRegisters();
    LateTearsDown();
    LateFails();
    LateReconnects();
    LateSends();
    actions := [];
    actions := Then(s, actions, Open);
    actions := Then(s, actions, PublishPtr);
    actions := Then(s, actions, Login(true));
    actions := Then(s, actions, SetConnected(true));
    actions := Then(s, actions, TakeId(0));
    actions := Then(s, actions, Register(0));
    actions := Then(s, actions, Drop);
    actions := Then(s, actions, ClearReady);
    actions := Then(s, actions, ClearPtr);
    actions := Then(s, actions, BeginFail);
    actions := Then(s, actions, FailOne(2));
    actions := Then(s, actions, EndFail);
    actions := Then(s, actions, Open);
    actions := Then(s, actions, PublishPtr);
    actions := Then(s, actions, Login(true));
    actions := Then(s, actions, BeginSend(0));
    actions := Then(s, actions, FinishSend(0, false));
    actions := Then(s, actions, Wake(0));
  }

  /** Request 2 is registered, not yet sent, and still unresolved. */
  function LateWaiting(up: bool): State {
    var log := Log(map[], 0, [], map[2 := 0], {}, [], [], {});
    if up then
      State(true, true, 2, {2}, map[2 := None], None, None, Some(1), true, 1, Receiving, [Registered(2)], log)
    else
      State(true, false, 2, {2}, map[2 := None], None, None, None, false, 1, TearFail, [Registered(2)], log)
  }

  /** Request 2 has been failed with the first socket; the second is down or up. */
  function LateFailed(up: bool): State {
    var r := ByFailAll(1);
    var log := Log(map[], 1, [(2, r)], map[2 := 0], {}, [], [], {});
    if up then
      State(true, true, 3, {}, map[2 := Some(r)], None, None, Some(2), true, 2, Receiving, [Registered(2)], log)
    else
      State(true, false, 2, {}, map[2 := Some(r)], None, None, None, false, 1, Down, [Registered(2)], log)
  }

  lemma LateRegisters()
    ensures Step(Step(SocketUp(false), TakeId(0)), Register(0)) == LateWaiting(true)
  {
    assert [Outside][0 := Numbered(2)] == [Numbered(2)];
    assert [Numbered(2)][0 := Registered(2)] == [Registered(2)];
    assert {} + {2} == {2};
  }

  lemma LateTearsDown()
    ensures Step(Step(Step(LateWaiting(true), Drop), ClearReady), ClearPtr) == LateWaiting(false)
  {
  }

  lemma LateFails()
    ensures Step(Step(Step(LateWaiting(false), BeginFail), FailOne(2)), EndFail) == LateFailed(false)
  {
    hide Step;
    LateFailStarts();
    LateFailEnds();
  }

  lemma LateFailStarts()
    ensures Step(LateWaiting(false), BeginFail)
         == LateWaiting(false).(io := Failing({2}), pendingLock := Some(IoThread))
  {
  }

  lemma LateFailEnds()
    ensures var s := LateWaiting(false).(io := Failing({2}), pendingLock := Some(IoThread));
            Step(Step(s, FailOne(2)), EndFail) == LateFailed(false)
  {
    assert {2} - {2} == {};
    var t := Step(LateWaiting(false).(io := Failing({2}), pendingLock := Some(IoThread)), FailOne(2));
    assert t.promises == map[2 := Some(ByFailAll(1))] && t.log.resolved == [(2, ByFailAll(1))];
  }

  lemma LateReconnects()
    ensures Step(Step(Step(LateFailed(false), Open), PublishPtr), Login(true)) == LateFailed(true)
  {
  }

  /** Request 2 has gone out on the second socket. */
  function LateSent(): State {
    var s := LateFailed(true);
    s.(callers := [Waiting(2)], log := s.log.(sentOn := map[2 := 2], late := {2}))
  }

  lemma LateSends()
    ensures var s := Step(Step(Step(LateFailed(true), BeginSend(0)), FinishSend(0, false)), Wake(0));
            && s.log.results == [CallResult(2, Disconnected)] && s.log.sentOn == map[2 := 2]
            && s.live && s.socket == Some(2) && s.log.failed == 1 && s.log.deadSends == []
  {
    hide Step;
    LateSendStarts();
    LateSendEnds();
    LateWakes();
  }

  lemma LateSendStarts()
    ensures Step(LateFailed(true), BeginSend(0))
         == LateFailed(true).(callers := [Sending(2)], sendLock := Some(CallerThread(0)))
  {
    assert [Registered(2)][0 := Sending(2)] == [Sending(2)];
  }

  lemma LateSendEnds()
    ensures Step(LateFailed(true).(callers := [Sending(2)], sendLock := Some(CallerThread(0))), FinishSend(0, false))
         == LateSent()
  {
    assert [Sending(2)][0 := Waiting(2)] == [Waiting(2)];
    assert {} + {2} == {2};
  }

  lemma LateWakes()
    ensures var s := Step(LateSent(), Wake(0));
            && s.log.results == [CallResult(2, Disconnected)] && s.log.sentOn == map[2 := 2]
            && s.live && s.socket == Some(2) && s.log.failed == 1 && s.log.deadSends == []
  {
  }

  // ----- what calls end with -------------------------------------------------------

  /** Nothing has gone out for the request yet. */
  predicate NotYetSent(c: Caller) {
    c.Numbered? || c.Registered? || c.Sending? || c.Unsent?
  }

  predicate CallerFresh(s: State, c: Caller) {
    NotYetSent(c) ==> c.id !in s.log.sentOn
  }

  /** A finished call: its caller has moved on, and its outcome says how far it got. */
  predicate EndOk(s: State, r: CallResult) {
    && r.id in s.log.owner && r.id <= s.counter
    && s.log.owner[r.id] < |s.callers| && !Owns(s.callers[s.log.owner[r.id]], r.id)
    && !r.outcome.NotConnected?
    && (r.outcome.SendThrew? <==> r.id in s.log.orphans)
    && (r.outcome.NoSocket? <==> r.id !in s.log.sentOn && r.id !in s.log.orphans)
  }

  ghost predicate EndsInv(s: State) {
    && (forall c :: 0 <= c < |s.callers| ==> CallerFresh(s, s.callers[c]))
    && (forall id :: id in s.log.sentOn ==> id <= s.counter)
    && (forall k :: 0 <= k < |s.log.results| ==> EndOk(s, s.log.results[k]))
    && (forall j, k :: 0 <= j < k < |s.log.results| ==> s.log.results[j].id != s.log.results[k].id)
  }

  /** The step leaves all calls as they are. */
  predicate LeavesCalls(s: State, t: State) {
    && t.callers == s.callers && t.log.results == s.log.results && t.log.sentOn == s.log.sentOn
    && t.log.owner == s.log.owner && t.log.orphans == s.log.orphans && t.counter >= s.counter
  }

  lemma IoLeavesCalls(s: State, a: Action)
    ensures LeavesCalls(s, SocketStep(s, a)) && LeavesCalls(s, PromiseStep(s, a))
  {
    SocketStepFrame(s, a);
    PromiseStepFrame(s, a);
    PromiseLeavesSent(s, a);
    PromiseLeavesOwners(s, a);
    hide SocketStep, PromiseStep;
  }

  lemma PromiseLeavesOwners(s: State, a: Action)
    ensures var t := PromiseStep(s, a);
            t.log.owner == s.log.owner && t.log.orphans == s.log.orphans && t.counter == s.counter
  {
  }

  lemma LeavingKeepsEnds(s: State, t: State)
    requires EndsInv(s) && LeavesCalls(s, t)
    ensures EndsInv(t)
  {
    forall c | 0 <= c < |t.callers| ensures CallerFresh(t, t.callers[c]) {
      assert CallerFresh(s, s.callers[c]);
    }
    forall k | 0 <= k < |t.log.results| ensures EndOk(t, t.log.results[k]) {
      assert EndOk(s, s.log.results[k]);
    }
  }

  /** What an action of caller c does to its call: it takes a new id, goes on with its own, or ends it. */
  ghost predicate MovesCall(s: State, c: nat, t: State)
    requires c < |s.callers| == |t.callers|
  {
    var me, you := s.callers[c], t.callers[c];
    if me.Outside? then
      && t.log.results == s.log.results && t.log.sentOn == s.log.sentOn && t.log.orphans == s.log.orphans
      && you == Numbered(s.counter + 1) && t.counter == s.counter + 1
      && t.log.owner == s.log.owner[s.counter + 1 := c]
    else
      && t.counter == s.counter && t.log.owner == s.log.owner
      && (you.Outside? || you.id == me.id)
      && (forall id :: id != me.id ==>
            && (id in t.log.sentOn <==> id in s.log.sentOn) && (id in t.log.orphans <==> id in s.log.orphans))
      && (forall id :: id in s.log.sentOn ==> id in t.log.sentOn)
      && (me.id in t.log.sentOn ==> me.id in s.log.sentOn || !NotYetSent(you))
      && (NotYetSent(you) ==> NotYetSent(me))
      && (you.Outside? ==> exists o :: t.log.results == s.log.results + [CallResult(me.id, o)] && Ends(t, me.id, o))
      && (!you.Outside? ==> t.log.results == s.log.results)
  }

  predicate Ends(s: State, id: nat, o: Outcome) {
    && !o.NotConnected?
    && (o.SendThrew? <==> id in s.log.orphans)
    && (o.NoSocket? <==> id !in s.log.sentOn && id !in s.log.orphans)
  }

  /** What is known of a caller inside before its next action. */
  predicate CallerKnows(s: State, me: Caller) {
    me.Outside? || (me.id !in s.log.orphans && (NotYetSent(me) <==> me.id !in s.log.sentOn))
  }

  lemma CallersInside(s: State, c: nat)
    requires Inv(s) && WaitersSent(s) && EndsInv(s) && c < |s.callers|
    ensures CallerKnows(s, s.callers[c])
  {
    hide CallersInv, ResolvedInv, EntriesInv, ResultsInv, PendingInv, IdsInv, LocksInv, EndOk;
    CallersOk(s, c);
    assert WaitsForSent(s, s.callers[c]) && CallerFresh(s, s.callers[c]);
  }

  lemma CallerMovesCall(s: State, c: nat, a: Action)
    requires c < |s.callers| && CallerKnows(s, s.callers[c])
    ensures var t := CallerStep(s, c, a);
            && |t.callers| == |s.callers| && t.callers == s.callers[c := t.callers[c]]
            && (t == s || MovesCall(s, c, t))
  {
    hide CallerStep, MovesCall;
    if a.TakeId? || a.Register? || a.BeginSend? || a.TimeOut? {
      GoesOn(s, c, a);
    } else if a.FinishSend? {
      EndsSend(s, c, a);
    } else {
      Leaves(s, c, a);
    }
  }

  lemma GoesOn(s: State, c: nat, a: Action)
    requires c < |s.callers| && CallerKnows(s, s.callers[c])
    requires a.TakeId? || a.Register? || a.BeginSend? || a.TimeOut?
    ensures var t := CallerStep(s, c, a);
            && |t.callers| == |s.callers| && t.callers == s.callers[c := t.callers[c]]
            && (t == s || MovesCall(s, c, t))
  {
  }

  lemma EndsSend(s: State, c: nat, a: Action)
    requires c < |s.callers| && CallerKnows(s, s.callers[c]) && a.FinishSend?
    ensures var t := CallerStep(s, c, a);
            && |t.callers| == |s.callers| && t.callers == s.callers[c := t.callers[c]]
            && (t == s || MovesCall(s, c, t))
  {
    var me, t := s.callers[c], CallerStep(s, c, a);
    if me.Sending? && t.callers[c].Outside? {
      assert Ends(t, me.id, SendThrew);
    }
  }

  lemma Leaves(s: State, c: nat, a: Action)
    requires c < |s.callers| && CallerKnows(s, s.callers[c])
    requires !a.TakeId? && !a.Register? && !a.BeginSend? && !a.TimeOut? && !a.FinishSend?
    ensures var t := CallerStep(s, c, a);
            && |t.callers| == |s.callers| && t.callers == s.callers[c := t.callers[c]]
            && (t == s || MovesCall(s, c, t))
  {
    var me, t := s.callers[c], CallerStep(s, c, a);
    if t != s {
      var o := t.log.results[|s.log.results|].outcome;
      assert t.log.results == s.log.results + [CallResult(me.id, o)];
      assert Ends(t, me.id, o);
    }
  }

  /** A call that has ended stays as it is when another goes on. */
  lemma EndStays(s: State, c: nat, t: State, r: CallResult)
    requires Inv(s) && EndOk(s, r) && c < |s.callers| == |t.callers|
    requires t.callers == s.callers[c := t.callers[c]] && MovesCall(s, c, t)
    ensures EndOk(t, r) && (Owns(s.callers[c], r.id) ==> false)
  {
    hide CallersInv, ResolvedInv, EntriesInv, ResultsInv, PendingInv, IdsInv, LocksInv;
    CallersOk(s, c);
  }

  lemma MovingKeepsEnds(s: State, c: nat, t: State)
    requires Inv(s) && EndsInv(s) && c < |s.callers| == |t.callers|
    requires t.callers == s.callers[c := t.callers[c]] && MovesCall(s, c, t)
    ensures EndsInv(t)
  {
    hide CallersInv, ResolvedInv, EntriesInv, ResultsInv, PendingInv, IdsInv, LocksInv, EndOk;
    CallersOk(s, c);
    var me := s.callers[c];
    forall d | 0 <= d < |t.callers| ensures CallerFresh(t, t.callers[d]) {
      CallersOk(s, d);
      assert CallerFresh(s, s.callers[d]) && CallerFresh(s, me);
    }
    forall k | 0 <= k < |s.log.results| ensures EndOk(t, s.log.results[k]) && !Owns(me, s.log.results[k].id) {
      EndStays(s, c, t, s.log.results[k]);
    }
    if !me.Outside? && t.callers[c].Outside? {
      var o :| t.log.results == s.log.results + [CallResult(me.id, o)] && Ends(t, me.id, o);
      NewEnd(s, c, t, o);
    }
  }

  lemma NewEnd(s: State, c: nat, t: State, o: Outcome)
    requires Inv(s) && c < |s.callers| == |t.callers| && !s.callers[c].Outside? && t.callers[c].Outside?
    requires MovesCall(s, c, t) && Ends(t, s.callers[c].id, o)
    ensures EndOk(t, CallResult(s.callers[c].id, o))
  {
    hide CallersInv, ResolvedInv, EntriesInv, ResultsInv, PendingInv, IdsInv, LocksInv;
    CallersOk(s, c);
  }

  lemma {:induction false} RunKeepsEnds(callers: nat, actions: seq<Action>)
    ensures EndsInv(Run(Initial(callers), actions))
  {
    if actions != [] {
      hide SocketStep, PromiseStep, CallerStep, Inv, EndsInv, MovesCall, LeavesCalls, CallerKnows;
      var before, a := actions[..|actions| - 1], actions[|actions| - 1];
      var s := Run(Initial(callers), before);
      RunKeepsEnds(callers, before);
      RunKeepsInv(callers, before);
      RunKeepsLate(callers, before);
      if a.SetConnected? {
        ConnectedLeavesCalls(s, a.b);
        LeavingKeepsEnds(s, s.(connected := a.b));
      } else if OfCaller(a) {
        if a.c < |s.callers| {
          CallersInside(s, a.c);
          CallerMovesCall(s, a.c, a);
          if CallerStep(s, a.c, a) != s {
            MovingKeepsEnds(s, a.c, CallerStep(s, a.c, a));
          }
        }
      } else {
        IoLeavesCalls(s, a);
        LeavingKeepsEnds(s, if OfPromises(a) then PromiseStep(s, a) else SocketStep(s, a));
      }
    }
  }

  lemma ConnectedLeavesCalls(s: State, b: bool)
    ensures LeavesCalls(s, s.(connected := b))
  {
  }

  /**
   * A call finishes at most once. It ends with the exception of its own send exactly if that
   * threw, with "not connected" exactly if nothing went out, and otherwise its request did go out.
   */
  lemma CallsEndOnce(callers: nat, actions: seq<Action>)
    ensures var s := Run(Initial(callers), actions);
            && (forall j, k :: 0 <= j < k < |s.log.results| ==> s.log.results[j].id != s.log.results[k].id)
            && (forall k :: 0 <= k < |s.log.results| ==>
                  var r := s.log.results[k];
                  && (r.outcome.SendThrew? <==> r.id in s.log.orphans)
                  && (r.outcome.NoSocket? <==> r.id !in s.log.sentOn && r.id !in s.log.orphans))
  {
    hide Run;
    RunKeepsEnds(callers, actions);
    var s := Run(Initial(callers), actions);
    forall k | 0 <= k < |s.log.results| ensures EndOk(s, s.log.results[k]) {
    }
  }

  /** A promise resolved by a response was resolved by one that names its id. */
  ghost predicate OwnAnswers(s: State) {
    forall id :: IsResolved(s, id) && s.promises[id].value.ByResponse? ==> s.promises[id].value.r.id == id
  }

  lemma {:induction false} RunKeepsOwnAnswers(callers: nat, actions: seq<Action>)
    ensures OwnAnswers(Run(Initial(callers), actions))
  {
    if actions != [] {
      hide SocketStep, PromiseStep, CallerStep, Inv;
      var before, a := actions[..|actions| - 1], actions[|actions| - 1];
      var s := Run(Initial(callers), before);
      RunKeepsOwnAnswers(callers, before);
      RunKeepsInv(callers, before);
      if a.SetConnected? {
      } else if OfCaller(a) {
        if a.c < |s.callers| {
          OtherKeepsResolved(s, a.c, a);
        }
      } else if OfPromises(a) {
        ResolveOnce(s, a);
      } else {
        SocketStepFrame(s, a);
      }
    }
  }

  /**
   * A call whose request was answered returns the body if the status begins with 2 and throws
   * it otherwise, unless its wait had timed out: over every run, whatever else happened.
   */
  lemma AnsweredCallsEndWithTheAnswer(callers: nat, actions: seq<Action>, k: nat)
    requires k < |Run(Initial(callers), actions).log.results|
    ensures var s := Run(Initial(callers), actions);
            var r := s.log.results[k];
            IsResolved(s, r.id) && s.promises[r.id].value.ByResponse?
            && !r.outcome.TimedOut? && !r.outcome.NoSocket? && !r.outcome.SendThrew? ==>
              var m := s.promises[r.id].value.r;
              && m.id == r.id && r.id in s.log.sentOn
              && (r.outcome.Returned? <==> |m.status| > 0 && m.status[0] == '2')
              && (r.outcome.Returned? ==> r.outcome.body == m.body)
              && (!r.outcome.Returned? ==> r.outcome == Threw(m.body))
  {
    hide Run, CallersInv, EntriesInv, PendingInv, ResolvedInv, LocksInv, IdsInv;
    RunKeepsInv(callers, actions);
    RunKeepsEnds(callers, actions);
    RunKeepsOwnAnswers(callers, actions);
    var s := Run(Initial(callers), actions);
    assert ResultOk(s, s.log.results[k]) && EndOk(s, s.log.results[k]);
  }

  function Answer(s: State, id: nat): Outcome
    requires IsResolved(s, id)
  {
    OutcomeOf(s.promises[id].value)
  }

  /**
   * Once its promise is resolved, a waiting caller can only go on waiting or leave with what
   * the resolution says: the response's body by its status, or the loss of the socket.
   */
  lemma ResolvedWaiterGetsItsAnswer(s: State, a: Action, c: nat)
    requires Inv(s) && c < |s.callers| && s.callers[c].Waiting? && IsResolved(s, s.callers[c].id)
    ensures var id := s.callers[c].id;
            var t := Step(s, a);
            && |t.callers| == |s.callers|
            && (t.callers[c] != s.callers[c] ==>
                  t.callers[c].Outside? && t.log.results == s.log.results + [CallResult(id, Answer(s, id))])
    ensures var id, r := s.callers[c].id, s.promises[s.callers[c].id].value;
            && (r.ByFailAll? ==> Answer(s, id).Disconnected?)
            && (r.ByResponse? && |r.r.status| > 0 && r.r.status[0] == '2' ==> Answer(s, id) == Returned(r.r.body))
            && (r.ByResponse? && !(|r.r.status| > 0 && r.r.status[0] == '2') ==> Answer(s, id) == Threw(r.r.body))
  {
    SocketStepFrame(s, a);
    PromiseStepFrame(s, a);
    hide SocketStep, PromiseStep, Inv, CallerStep;
    if OfCaller(a) && a.c < |s.callers| {
      ResolvedWaiterMoves(s, a, c);
    }
  }

  lemma ResolvedWaiterMoves(s: State, a: Action, c: nat)
    requires a.TakeId? || a.Register? || a.BeginSend? || a.FinishSend? || a.Withdraw? || a.Wake? || a.TimeOut? || a.Expire?
    requires a.c < |s.callers| && c < |s.callers| && s.callers[c].Waiting? && IsResolved(s, s.callers[c].id)
    ensures var id := s.callers[c].id;
            var t := CallerStep(s, a.c, a);
            && |t.callers| == |s.callers|
            && (t.callers[c] != s.callers[c] ==>
                  t.callers[c].Outside? && t.log.results == s.log.results + [CallResult(id, Answer(s, id))])
  {
    hide OutcomeOf;
  }

  // ----- being ready ---------------------------------------------------------------

  /** While ws_ready_ is set the pointer is too, and the login has gone out; while responses are received it is set. */
  predicate ReadyOk(s: State) {
    && (s.wsReady ==> s.socket == Some(s.epoch) && (s.io.TearReady? || Receives(s.io)))
    && (Receives(s.io) ==> s.wsReady && s.socket == Some(s.epoch))
    && (s.io.LoggingIn? ==> s.socket == Some(s.epoch))
  }

  /** The receive loop. */
  predicate Receives(io: Io) {
    io.Receiving? || io.Got? || UnderResponse(io)
  }

  lemma {:induction false} ReadyMeansLoggedIn(callers: nat, actions: seq<Action>)
    ensures ReadyOk(Run(Initial(callers), actions))
  {
    if actions != [] {
      hide SocketStep, PromiseStep, CallerStep, ReadyOk;
      ReadyMeansLoggedIn(callers, actions[..|actions| - 1]);
      var s, a := Run(Initial(callers), actions[..|actions| - 1]), actions[|actions| - 1];
      IoKeepsReady(s, a);
      if OfCaller(a) && a.c < |s.callers| {
        CallerKeepsReady(s, a.c, a);
      }
    } else {
      NotReadyYet(callers);
    }
  }

  lemma NotReadyYet(callers: nat)
    ensures ReadyOk(Initial(callers))
  {
  }

  lemma IoKeepsReady(s: State, a: Action)
    requires ReadyOk(s)
    ensures ReadyOk(SocketStep(s, a)) && ReadyOk(PromiseStep(s, a))
    ensures forall b :: ReadyOk(s.(connected := b))
  {
  }

  lemma CallerKeepsReady(s: State, c: nat, a: Action)
    requires ReadyOk(s) && c < |s.callers|
    ensures ReadyOk(CallerStep(s, c, a))
  {
  }

  /** ws_ready_ is raised by a login that has gone out, and by nothing else. */
  lemma ReadyIsRaisedByLogin(s: State, a: Action)
    requires !s.wsReady && Step(s, a).wsReady
    ensures a == Login(true) && s.io.LoggingIn? && Step(s, a).io.Receiving?
  {
    if OfCaller(a) && a.c < |s.callers| {
      CallerLeavesReady(s, a.c, a);
    }
    hide CallerStep;
  }

  lemma CallerLeavesReady(s: State, c: nat, a: Action)
    requires c < |s.callers|
    ensures CallerStep(s, c, a).wsReady == s.wsReady
  {
  }

  /** Until connected_ is set, every call is turned away before it takes an id. */
  lemma {:induction false} NobodyEntersUnconnected(callers: nat, actions: seq<Action>)
    requires forall i :: 0 <= i < |actions| && actions[i].SetConnected? ==> !actions[i].b
    ensures var s := Run(Initial(callers), actions);
            && !s.connected && s.log.owner == map[] && s.log.results == [] && s.log.sentOn == map[]
            && forall c :: 0 <= c < |s.callers| ==> s.callers[c].Outside?
  {
    if actions != [] {
      hide SocketStep, PromiseStep, CallerStep;
      var before, a := actions[..|actions| - 1], actions[|actions| - 1];
      var s := Run(Initial(callers), before);
      NobodyEntersUnconnected(callers, before);
      IoLeavesCalls(s, a);
      SocketStepFrame(s, a);
      PromiseLeavesConnected(s, a);
      if OfCaller(a) && a.c < |s.callers| {
        UnconnectedCaller(s, a.c, a);
      }
    }
  }

  lemma PromiseLeavesConnected(s: State, a: Action)
    ensures PromiseStep(s, a).connected == s.connected
  {
  }

  lemma UnconnectedCaller(s: State, c: nat, a: Action)
    requires c < |s.callers| && s.callers[c].Outside? && !s.connected
    ensures CallerStep(s, c, a) == s
  {
  }

  // ----- no deadlock -----------------------------------------------------------

  /** The action can be taken. */
  predicate Enabled(s: State, a: Action) {
    Step(s, a) != s
  }

  /**
   * In every reachable state a caller inside ws_api_request has an enabled action, or it
   * waits on a mutex whose holder has one.
   */
  lemma CallerOrHolderCanMove(callers: nat, actions: seq<Action>, c: nat) returns (a: Action)
    requires var s := Run(Initial(callers), actions); c < |s.callers| && !s.callers[c].Outside?
    ensures var s := Run(Initial(callers), actions);
            && Enabled(s, a)
            && ((OfCaller(a) && a.c == c)
                || (s.pendingLock == Some(IoThread) && OfPromises(a))
                || (a.FinishSend? && s.sendLock == Some(CallerThread(a.c))))
  {
    hide Run, Step;
    RunKeepsInv(callers, actions);
    var s := Run(Initial(callers), actions);
    CallersKnow(s, c);
    match s.callers[c]
    case Numbered(_) => a := PendingUserCanMove(s, c, Register(c));
    case Unsent(_) => a := PendingUserCanMove(s, c, Withdraw(c));
    case Expired(_) => a := PendingUserCanMove(s, c, Expire(c));
    case Registered(_) =>
      if s.sendLock.None? {
        a := BeginSend(c);
        FreeSendEnables(s, c);
      } else {
        a := SenderCanMove(s);
      }
    case Sending(_) => a := SenderCanMove(s);
    case Waiting(id) =>
      a := if s.promises[id].Some? then Wake(c) else TimeOut(c);
      WaiterCanMove(s, c);
  }

  lemma CallersKnow(s: State, c: nat)
    requires Inv(s) && c < |s.callers|
    ensures s.callers[c].Waiting? ==> s.callers[c].id in s.promises
    ensures s.callers[c].Sending? ==> s.sendLock == Some(CallerThread(c))
  {
    hide LocksInv, PendingInv, ResolvedInv, EntriesInv, ResultsInv, IdsInv;
    CallersOk(s, c);
  }

  lemma PendingUserCanMove(s: State, c: nat, mine: Action) returns (a: Action)
    requires Inv(s) && c < |s.callers|
    requires (mine == Register(c) && s.callers[c].Numbered?) || (mine == Withdraw(c) && s.callers[c].Unsent?)
          || (mine == Expire(c) && s.callers[c].Expired?)
    ensures Enabled(s, a)
    ensures a == mine || (s.pendingLock == Some(IoThread) && OfPromises(a))
  {
    hide Step;
    if s.pendingLock.None? {
      a := mine;
      FreePendingEnables(s, c, mine);
    } else {
      a := PendingHolderMove(s);
    }
  }

  lemma FreePendingEnables(s: State, c: nat, mine: Action)
    requires c < |s.callers| && s.pendingLock.None?
    requires (mine == Register(c) && s.callers[c].Numbered?) || (mine == Withdraw(c) && s.callers[c].Unsent?)
          || (mine == Expire(c) && s.callers[c].Expired?)
    ensures Enabled(s, mine)
  {
    assert Step(s, mine).callers[c] != s.callers[c];
  }

  lemma FreeSendEnables(s: State, c: nat)
    requires c < |s.callers| && s.callers[c].Registered? && s.sendLock.None?
    ensures Enabled(s, BeginSend(c))
  {
    assert Step(s, BeginSend(c)).sendLock.Some?;
  }

  lemma WaiterCanMove(s: State, c: nat)
    requires c < |s.callers| && s.callers[c].Waiting? && s.callers[c].id in s.promises
    ensures Enabled(s, if s.promises[s.callers[c].id].Some? then Wake(c) else TimeOut(c))
  {
    var a := if s.promises[s.callers[c].id].Some? then Wake(c) else TimeOut(c);
    assert Step(s, a).callers[c] != s.callers[c];
  }

  lemma SenderCanMove(s: State) returns (a: Action)
    requires Inv(s) && s.sendLock.Some?
    ensures Enabled(s, a) && a.FinishSend? && s.sendLock == Some(CallerThread(a.c))
  {
    hide Step;
    SendHolderCanMove(s, false);
    a := FinishSend(s.sendLock.value.c, false);
  }

  /** While the IO thread holds the pending mutex, its next action is enabled. */
  lemma PendingHolderMove(s: State) returns (a: Action)
    requires Inv(s) && s.pendingLock.Some?
    ensures s.pendingLock == Some(IoThread) && OfPromises(a) && Enabled(s, a)
  {
    hide CallersInv, ResolvedInv, EntriesInv, ResultsInv, OutcomeOf, PendingInv, IdsInv, SocketStep, CallerStep;
    match s.io
    case Holding(_) => a := Lookup;
    case Erasing(_) => a := Erase;
    case Failing(todo) =>
      if todo == {} {
        a := EndFail;
      } else {
        var id :| id in todo;
        a := FailOne(id);
        assert Step(s, a).io == Failing(todo - {id});
      }
    case _ =>
  }

  /** The IO thread itself can go on, or be started again, or waits for a send that can finish. */
  lemma IoOrSenderCanMove(callers: nat, actions: seq<Action>) returns (a: Action)
    ensures var s := Run(Initial(callers), actions);
            && Enabled(s, a)
            && (!(OfCaller(a) || a.SetConnected?) || (a.FinishSend? && s.sendLock == Some(CallerThread(a.c))))
  {
    hide Run;
    RunKeepsInv(callers, actions);
    var s := Run(Initial(callers), actions);
    if s.pendingLock.Some? {
      a := PendingHolderMove(s);
    } else if (s.io.Opened? || s.io.LoggingIn? || s.io.TearPtr?) && s.sendLock.Some? {
      a := SenderCanMove(s);
    } else {
      a := FreeIoMoves(s);
    }
  }

  lemma FreeIoMoves(s: State) returns (a: Action)
    requires LocksInv(s) && s.pendingLock.None?
    requires s.io.Opened? || s.io.LoggingIn? || s.io.TearPtr? ==> s.sendLock.None?
    ensures Enabled(s, a) && !(OfCaller(a) || a.SetConnected?)
  {
    a := match s.io
      case Down => Open
      case Opened => PublishPtr
      case LoggingIn => Login(true)
      case Receiving => Drop
      case Got(_) => LockPending
      case TearReady => ClearReady
      case TearPtr => ClearPtr
      case Stopped => Restart
      case _ => BeginFail;
    assert Step(s, a).io != s.io;
  }

  // ----- the map of promises as an object --------------------------------------

  /** The state shared by a std::promise and its future. */
  class Promise {
    var state: Option<Resolution>

    constructor ()
      ensures state == None
    {
      state := None;
    }

    /** set_value and set_exception throw on a promise that already has a state. */
    method Set(r: Resolution)
      requires state.None?
      modifies this
      ensures state == Some(r)
    {
      state := Some(r);
    }
  }

  /** Machine actions under the pending mutex, taken in one go. */
  function AfterResponse(s: State): State {
    var t := Step(s, Lookup);
    if t.io.Erasing? then Step(t, Erase) else t
  }

  /** pending_requests_, as touched under pending_mutex_; s is the state of the machine it belongs to. */
  class PendingRequests {
    var entries: map<nat, Promise>

    ghost predicate Valid()
      reads this, entries.Values
    {
      && (forall id :: id in entries ==> entries[id].state.None?)
      && Apart()
    }

    ghost predicate Apart()
      reads this
    {
      forall i, j :: i in entries && j in entries && i != j ==> entries[i] != entries[j]
    }

    /** The entries are the machine's pending requests, each with its promise. */
    ghost predicate Linked(s: State)
      reads this, entries.Values
    {
      && entries.Keys == s.pending
      && forall id :: id in entries ==> id in s.promises && s.promises[id] == entries[id].state
    }

    constructor (callers: nat)
      ensures Valid() && entries == map[] && Linked(Initial(callers))
    {
      entries := map[];
    }

    method Register(id: nat, ghost c: nat, ghost s: State) returns (p: Promise)
      requires Valid() && id !in entries
      requires Linked(s) && c < |s.callers| && s.callers[c] == Numbered(id) && s.pendingLock.None?
      modifies this
      ensures Valid() && fresh(p) && p.state.None? && entries == old(entries)[id := p]
      ensures Linked(Step(s, Action.Register(c)))
    {
      p := new Promise();
      entries := entries[id := p];
    }

    /** Withdrawal after a failed send, and the end of a timed-out wait. */
    method Withdraw(id: nat, ghost c: nat, ghost s: State)
      requires Valid()
      requires Linked(s) && c < |s.callers| && s.pendingLock.None?
      requires s.callers[c] == Unsent(id) || s.callers[c] == Expired(id)
      modifies this
      ensures Valid() && entries == old(entries) - {id}
      ensures Linked(Step(s, if s.callers[c].Unsent? then Action.Withdraw(c) else Expire(c)))
    {
      entries := entries - {id};
    }

    /** The request branch of on_ws_message: fulfil the promise of that id, if it is still there, and drop the entry. */
    method OnResponse(r: Response, ghost s: State)
      requires Valid() && Linked(s) && s.io == Holding(r)
      modifies this, entries.Values
      ensures Valid() && entries == old(entries) - {r.id}
      ensures r.id in old(entries) ==> old(entries)[r.id].state == Some(ByResponse(r))
      ensures forall id :: id in old(entries) && id != r.id ==> old(entries)[id].state.None?
      ensures Linked(AfterResponse(s))
    {
      if r.id in entries {
        entries[r.id].Set(ByResponse(r));
        entries := entries - {r.id};
      }
    }

    /** Every promise in the map gets the exception, then the map is cleared; run are the machine's actions. */
    method FailPendingRequests(epoch: nat, ghost s: State) returns (ghost run: seq<Action>)
      requires Valid() && Linked(s) && s.io.TearFail? && s.pendingLock.None? && s.epoch == epoch
      modifies this, entries.Values
      ensures Valid() && entries == map[]
      ensures forall id :: id in old(entries) ==> old(entries)[id].state == Some(ByFailAll(epoch))
      ensures (forall i :: 0 <= i < |run| ==> OfPromises(run[i])) && Run(s, run).io.Down? && Linked(Run(s, run))
      ensures forall id :: id in old(entries) ==>
        id in Run(s, run).promises && Run(s, run).promises[id] == old(entries)[id].state
    {
      hide Run;
      run := FailAll(s);
      var todo := entries.Keys;
      while todo != {}
        invariant todo <= entries.Keys && entries == old(entries) && Apart()
        invariant forall id :: id in entries ==>
          entries[id].state == if id in todo then None else Some(ByFailAll(epoch))
        decreases |todo|
      {
        var id :| id in todo;
        entries[id].Set(ByFailAll(epoch));
        todo := todo - {id};
      }
      entries := map[];
    }
  }

  /** The machine's fail-all, from the lock to the release. */
  lemma FailAll(s: State) returns (run: seq<Action>)
    requires s.io.TearFail? && s.pendingLock.None?
    ensures forall i :: 0 <= i < |run| ==> OfPromises(run[i])
    ensures var t := Run(s, run);
            && t.io.Down? && t.pending == {}
            && forall id :: id in s.pending ==> id in t.promises && t.promises[id] == Some(ByFailAll(s.epoch))
  {
    hide Step, Run;
    run := Begin(s);
    var todo := s.pending;
    while todo != {}
      invariant todo <= s.pending && forall i :: 0 <= i < |run| ==> OfPromises(run[i])
      invariant var t := Run(s, run);
        && t.io == Failing(todo) && t.epoch == s.epoch
        && forall id :: id in s.pending - todo ==> id in t.promises && t.promises[id] == Some(ByFailAll(s.epoch))
      decreases |todo|
    {
      var id :| id in todo;
      FailOneStep(Run(s, run), id);
      run := Then(s, run, FailOne(id));
      todo := todo - {id};
    }
    EndFailStep(Run(s, run));
    run := Then(s, run, EndFail);
  }

  lemma Begin(s: State) returns (run: seq<Action>)
    requires s.io.TearFail? && s.pendingLock.None?
    ensures run == [BeginFail]
    ensures Run(s, run).io == Failing(s.pending) && Run(s, run).epoch == s.epoch
  {
    run := Then(s, [], BeginFail);
  }

  lemma FailOneStep(s: State, id: nat)
    requires s.io.Failing? && id in s.io.todo
    ensures var t := Step(s, FailOne(id));
            && t.io == Failing(s.io.todo - {id}) && t.epoch == s.epoch && t.pending == s.pending
            && t.promises == s.promises[id := Some(ByFailAll(s.epoch))]
  {
  }

  lemma EndFailStep(s: State)
    requires s.io.Failing? && s.io.todo == {}
    ensures Step(s, EndFail).io.Down? && Step(s, EndFail).pending == {} && Step(s, EndFail).promises == s.promises
  {
  }

  // ----- handling a response -------------------------------------------------------

  /**
   * From the message to the next receive: the promise of that id is fulfilled and its entry
   * dropped if it is still there; a response nobody waits for any more changes nothing at all.
   */
  lemma ResponseIsHandled(s: State)
    requires s.io.Got? && s.pendingLock.None?
    ensures var id, t := s.io.r.id, AfterResponse(Step(s, LockPending));
            && t.io.Receiving? && t.pendingLock.None?
            && t.connected == s.connected && t.wsReady == s.wsReady && t.counter == s.counter
            && t.socket == s.socket && t.live == s.live && t.epoch == s.epoch && t.callers == s.callers
            && (if id in s.pending then
                  && t.pending == s.pending - {id} && t.promises == s.promises[id := Some(ByResponse(s.io.r))]
                  && t.log.resolved == s.log.resolved + [(id, ByResponse(s.io.r))]
                else t.pending == s.pending && t.promises == s.promises && t.log == s.log)
  {
    hide SocketStep, CallerStep;
    var t := Step(s, LockPending);
    assert t == s.(io := Holding(s.io.r), pendingLock := Some(IoThread));
  }

  // ----- losing the socket ---------------------------------------------------------

  lemma {:induction false} RunAppend(s: State, xs: seq<Action>, ys: seq<Action>)
    ensures Run(s, xs + ys) == Run(Run(s, xs), ys)
    decreases |ys|
  {
    hide Step;
    if ys == [] {
      assert xs + ys == xs;
    } else {
      RunAppend(s, xs, ys[..|ys| - 1]);
      assert (xs + ys)[..|xs + ys| - 1] == xs + ys[..|ys| - 1];
    }
  }

  /** The IO thread is on a socket, or trying to get one, and about to look at what comes next. */
  predicate CanLose(io: Io) {
    io.Down? || io.Opened? || io.LoggingIn? || io.Receiving? || io.Got? || io.Holding?
  }

  /** An exception of the socket, or of a response that makes no sense, while it is being handled too. */
  lemma Loses(s: State) returns (a: Action)
    requires LocksInv(s) && CanLose(s.io)
    ensures !OfCaller(a) && !a.SetConnected?
    ensures var t := Step(s, a);
            && t.io.TearReady? && t.pendingLock.None? && t.sendLock == s.sendLock
            && t.pending == s.pending && t.promises == s.promises && t.epoch == s.epoch
  {
    a := if s.io.Got? || s.io.Holding? then Malformed else Drop;
  }

  lemma Clears(s: State)
    requires s.io.TearReady? && s.sendLock.None?
    ensures var t := Step(Step(s, ClearReady), ClearPtr);
            && t.io.TearFail? && !t.wsReady && t.socket.None? && t.pendingLock == s.pendingLock
            && t.pending == s.pending && t.promises == s.promises && t.epoch == s.epoch
  {
  }

  /**
   * Losing the socket ends every wait: from any reachable state in which that can happen with
   * no send under way, the IO thread's own actions lead to a state without socket in which
   * every promise that was in the map has failed.
   */
  lemma TeardownFailsEverybody(callers: nat, actions: seq<Action>) returns (more: seq<Action>)
    requires var s := Run(Initial(callers), actions); CanLose(s.io) && s.sendLock.None?
    ensures forall i :: 0 <= i < |more| ==> !OfCaller(more[i]) && !more[i].SetConnected?
    ensures var s, t := Run(Initial(callers), actions), Run(Initial(callers), actions + more);
            && t.io.Down? && t.pending == {}
            && forall id :: id in s.pending ==>
                 Unresolved(s, id) && id in t.promises && t.promises[id] == Some(ByFailAll(s.epoch))
  {
    hide Step, Run, CallersInv, ResolvedInv, EntriesInv, ResultsInv, OutcomeOf;
    RunKeepsInv(callers, actions);
    var s := Run(Initial(callers), actions);
    var a := Loses(s);
    Clears(Step(s, a));
    more := Then(s, [], a);
    more := Then(s, more, ClearReady);
    more := Then(s, more, ClearPtr);
    NothingRun(s);
    var fail := FailAll(Run(s, more));
    RunAppend(s, more, fail);
    more := more + fail;
    RunAppend(Initial(callers), actions, more);
  }

  lemma NothingRun(s: State)
    ensures Run(s, []) == s
  {
  }
}
