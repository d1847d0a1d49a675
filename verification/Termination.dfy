/**
  Distributed termination of one version of the server.

  The workers of a version share three anonymous datagram queues: a token per
  accepted session, a token per active worker, and pings.  Every operation on
  them is non-blocking and separate from the decision that depends on it, so
  the protocol is modelled as a transition system in which each system call of
  each worker is one step, and the steps of all workers interleave freely.
 */
module Termination {

  /** Where a worker is between two of its system calls. */
  datatype Pc =
    | User                    // in the application, outside the wrapper
    | Announce                // accept4 returned, session token not yet sent
    | TakeSession             // close returned, session token not yet taken
    | PeekActive              // activation token sent, queue not yet peeked
    | Detect                  // about to peek the session queue
    | Scan                    // session queue seen empty, about to scan the binds
    | Wait                    // detection failed: in, or on the way into, the kernel wait
    | Handle(wake: bool, due: set<nat>)
                              // handling a batch that still holds a ping event (`wake`)
                              // and the readiness events of the binds in `due`
    | Retire                  // detection succeeded, about to take a worker token
    | PeekRetired             // worker token taken, queue not yet peeked
    | Kill                    // saw the worker queue empty
    | Ping                    // saw the worker queue non-empty
    | Sigwait                 // pinged; waits to be killed

  /** What accept4 and close see of a session: whether it is on descriptor 0, and whether it is an AF_INET stream. */
  datatype Session = Session(zero: bool, inet: bool)

  /** What is on descriptor 0: no session, one that is an AF_INET stream, or another one. */
  datatype Zero = Free | Inet | Foreign

  datatype Worker = Worker(
    pc: Pc,
    live: bool,               // dsu_live_epoll
    open: nat,                // open sessions on positive descriptors that are AF_INET streams,
    foreign: nat,             // and that are not
    zero: Zero,
    sent: nat,                // activation tokens sent so far
    taken: nat,               // worker tokens taken so far
    ready: seq<bool>,         // per bind
    conns: seq<nat>)          // per bind, number of open internal connections

  datatype State = State(
    ws: seq<Worker>,
    sessions: nat,            // session tokens queued
    tokens: nat,              // worker tokens queued
    pings: nat,               // pings queued
    latch: seq<bool>,         // per bind: a datagram lies unread on readyfd
    killed: bool)

  datatype Action =
    | Accept4(w: nat, x: Session)
    | SendSession(w: nat)
    | CloseSession(w: nat, x: Session)
    | RecvSession(w: nat)
    | EpollWait(w: nat)
    | PeekActivation(w: nat)
    | PeekSessions(w: nat)
    | ScanBinds(w: nat)
    | Wake(w: nat, ping: bool, due: set<nat>)
    | RecvPing(w: nat)
    | AcceptConn(w: nat, b: nat)
    | ConnEof(w: nat, b: nat)
    | ConnReady(w: nat, b: nat)
    | ObserveLatch(w: nat, b: nat)
    | Return(w: nat)
    | Restart(w: nat)
    | TakeWorker(w: nat)
    | PeekWorkers(w: nat)
    | KillGroup(w: nat)
    | SendPing(w: nat)

  /** The scan of the binds: every one is ready and has no internal connection. */
  predicate Drained(w: Worker) {
    && (forall b :: 0 <= b < |w.ready| ==> w.ready[b])
    && (forall b :: 0 <= b < |w.conns| ==> w.conns[b] == 0)
  }

  function Take(n: nat): nat {
    if n > 0 then n - 1 else 0
  }

  /** All open sessions of a worker. */
  function Serving(w: Worker): nat {
    w.open + w.foreign + if w.zero == Free then 0 else 1
  }

  predicate HasSession(w: Worker, x: Session) {
    if x.zero then w.zero == (if x.inet then Inet else Foreign)
    else if x.inet then w.open > 0
    else w.foreign > 0
  }

  /** accept4 announces a session unless its descriptor is 0. */
  function Accepted(w: Worker, x: Session): Worker {
    if x.zero then w.(zero := if x.inet then Inet else Foreign)
    else if x.inet then w.(pc := Announce, open := w.open + 1)
    else w.(pc := Announce, foreign := w.foreign + 1)
  }

  /** close takes a token for an AF_INET stream, whether or not one was sent for it. */
  function Closed(w: Worker, x: Session): Worker
    requires HasSession(w, x)
  {
    var pc := if x.inet then TakeSession else w.pc;
    if x.zero then w.(pc := pc, zero := Free)
    else if x.inet then w.(pc := pc, open := w.open - 1)
    else w.(pc := pc, foreign := w.foreign - 1)
  }

  predicate HasBind(s: State, w: Worker, b: nat) {
    b < |s.latch| == |w.ready| == |w.conns|
  }

  predicate Enabled(s: State, a: Action) {
    && !s.killed
    && a.w < |s.ws|
    && var w := s.ws[a.w];
       match a
       case Accept4(_, x) => w.pc == User && (x.zero ==> w.zero == Free)
       case SendSession(_) => w.pc == Announce
       case CloseSession(_, x) => w.pc == User && HasSession(w, x)
       case RecvSession(_) => w.pc == TakeSession
       case EpollWait(_) => w.pc == User
       case PeekActivation(_) => w.pc == PeekActive
       case PeekSessions(_) => w.pc == Detect
       case ScanBinds(_) => w.pc == Scan
       case Wake(_, ping, due) =>
         && w.pc == Wait
         && (ping ==> s.pings > 0)
         && (forall b :: b in due ==> HasBind(s, w, b) && s.latch[b] && !w.ready[b])
       case RecvPing(_) => w.pc.Handle? && w.pc.wake
       case AcceptConn(_, b) => w.pc.Handle? && HasBind(s, w, b) && !w.ready[b]
       case ConnEof(_, b) => w.pc.Handle? && HasBind(s, w, b) && w.conns[b] > 0
       case ConnReady(_, b) => w.pc.Handle? && HasBind(s, w, b) && w.conns[b] > 0
       case ObserveLatch(_, b) => w.pc.Handle? && b in w.pc.due && HasBind(s, w, b)
       case Return(_) => w.pc == Handle(false, {})
       case Restart(_) => w.pc == Handle(false, {})
       case TakeWorker(_) => w.pc == Retire
       case PeekWorkers(_) => w.pc == PeekRetired
       case KillGroup(_) => w.pc == Kill
       case SendPing(_) => w.pc == Ping
  }

  /** Entry of the wrapper: activate on the first call, then detect termination. */
  function Enter(s: State, i: nat): State
    requires i < |s.ws|
  {
    var w := s.ws[i];
    if w.live then s.(ws := s.ws[i := w.(pc := Detect)])
    else s.(ws := s.ws[i := w.(pc := PeekActive, sent := w.sent + 1)], tokens := s.tokens + 1)
  }

  function Apply(s: State, a: Action): State
    requires Enabled(s, a)
  {
    var i := a.w;
    var w := s.ws[i];
    match a
    case Accept4(_, x) => s.(ws := s.ws[i := Accepted(w, x)])
    case SendSession(_) => s.(ws := s.ws[i := w.(pc := User)], sessions := s.sessions + 1)
    case CloseSession(_, x) => s.(ws := s.ws[i := Closed(w, x)])
    case RecvSession(_) => s.(ws := s.ws[i := w.(pc := User)], sessions := Take(s.sessions))
    case EpollWait(_) => Enter(s, i)
    case PeekActivation(_) => s.(ws := s.ws[i := w.(pc := Detect, live := s.tokens > 0)])
    case PeekSessions(_) => s.(ws := s.ws[i := w.(pc := if s.sessions > 0 then Wait else Scan)])
    case ScanBinds(_) => s.(ws := s.ws[i := w.(pc := if Drained(w) then Retire else Wait)])
    case Wake(_, ping, due) => s.(ws := s.ws[i := w.(pc := Handle(ping, due))])
    case RecvPing(_) => s.(ws := s.ws[i := w.(pc := Handle(false, w.pc.due))], pings := Take(s.pings))
    case AcceptConn(_, b) => s.(ws := s.ws[i := w.(conns := w.conns[b := w.conns[b] + 1])])
    case ConnEof(_, b) => s.(ws := s.ws[i := w.(conns := w.conns[b := w.conns[b] - 1])])
    case ConnReady(_, b) =>
      s.(ws := s.ws[i := w.(conns := w.conns[b := w.conns[b] - 1])], latch := s.latch[b := true])
    case ObserveLatch(_, b) =>
      s.(ws := s.ws[i := w.(pc := w.pc.(due := w.pc.due - {b}), ready := w.ready[b := true])])
    case Return(_) => s.(ws := s.ws[i := w.(pc := User)])
    case Restart(_) => Enter(s, i)
    case TakeWorker(_) =>
      if s.tokens > 0 then s.(ws := s.ws[i := w.(pc := PeekRetired, taken := w.taken + 1)], tokens := s.tokens - 1)
      else s.(ws := s.ws[i := w.(pc := PeekRetired)])
    case PeekWorkers(_) => s.(ws := s.ws[i := w.(pc := if s.tokens > 0 then Ping else Kill)])
    case KillGroup(_) => s.(killed := true)
    case SendPing(_) => s.(ws := s.ws[i := w.(pc := Sigwait)], pings := s.pings + 1)
  }

  /** A freshly started version: nobody active, every queue empty, no bind ready. */
  predicate Init(s: State) {
    && |s.latch| > 0
    && s.sessions == s.tokens == s.pings == 0
    && !s.killed
    && (forall b :: 0 <= b < |s.latch| ==> !s.latch[b])
    && (forall i :: 0 <= i < |s.ws| ==> FreshWorker(s.ws[i], |s.latch|))
  }

  predicate FreshWorker(w: Worker, binds: nat) {
    && w.pc == User && !w.live && w.open == w.foreign == w.sent == w.taken == 0 && w.zero == Free
    && |w.ready| == |w.conns| == binds
    && (forall b :: 0 <= b < binds ==> !w.ready[b] && w.conns[b] == 0)
  }

  /** `acts` can be executed one after the other from `s`. */
  predicate Executable(s: State, acts: seq<Action>)
    decreases acts
  {
    acts == [] || (Enabled(s, acts[0]) && Executable(Apply(s, acts[0]), acts[1..]))
  }

  function Exec(s: State, acts: seq<Action>): State
    requires Executable(s, acts)
    decreases acts
  {
    if acts == [] then s else Exec(Apply(s, acts[0]), acts[1..])
  }

  /**
    What a version meets: which workers may accept a session before they
    activate, whether a session may get descriptor 0, and whether there may be
    sessions that are not AF_INET streams.
   */
  datatype Site = Site(early: set<nat>, zero: bool, foreign: bool)

  predicate Fits(s: State, a: Action, site: Site)
    requires Enabled(s, a)
  {
    a.Accept4? ==>
      && (Activated(s.ws[a.w]) || a.w in site.early)
      && (a.x.zero ==> site.zero)
      && (!a.x.inet ==> site.foreign)
  }

  /** A run in which all sessions fit the site. */
  predicate Within(s: State, acts: seq<Action>, site: Site)
    requires Executable(s, acts)
    decreases acts
  {
    acts == [] || (Fits(s, acts[0], site) && Within(Apply(s, acts[0]), acts[1..], site))
  }

  // ----- Sums over workers -----

  /** 1 between accept4 and sending its token. */
  function Unannounced(w: Worker): int { if w.pc == Announce then 1 else 0 }

  /** 1 between close and taking its token. */
  function Untaken(w: Worker): int { if w.pc == TakeSession then 1 else 0 }

  function OpenSessions(w: Worker): int { Serving(w) }

  /** What a worker adds to the session queue's balance, and to the worker queue. */
  function SessionShare(w: Worker): int { w.open + w.foreign + Untaken(w) - Unannounced(w) }
  function TokenShare(w: Worker): int { w.sent - w.taken }

  function Sum(ws: seq<Worker>, f: Worker -> int): int {
    if ws == [] then 0 else f(ws[0]) + Sum(ws[1..], f)
  }

  lemma {:induction false} SumUpdate(ws: seq<Worker>, f: Worker -> int, i: nat, w: Worker)
    requires i < |ws|
    ensures Sum(ws[i := w], f) == Sum(ws, f) - f(ws[i]) + f(w)
  {
    if i == 0 {
      assert ws[i := w][1..] == ws[1..];
    } else {
      assert ws[i := w][1..] == ws[1..][i - 1 := w];
      SumUpdate(ws[1..], f, i - 1, w);
    }
  }

  /** A sum of non-negative terms bounds each of them. */
  lemma {:induction false} SumBounds(ws: seq<Worker>, f: Worker -> int, i: nat)
    requires i < |ws|
    requires forall j :: 0 <= j < |ws| ==> f(ws[j]) >= 0
    ensures f(ws[i]) <= Sum(ws, f)
    decreases ws
  {
    SumNonNegative(ws[1..], f);
    if i > 0 {
      SumBounds(ws[1..], f, i - 1);
    }
  }

  lemma {:induction false} SumNonNegative(ws: seq<Worker>, f: Worker -> int)
    requires forall j :: 0 <= j < |ws| ==> f(ws[j]) >= 0
    ensures Sum(ws, f) >= 0
  {
    if ws != [] {
      SumNonNegative(ws[1..], f);
    }
  }

  lemma {:induction false} SumZero(ws: seq<Worker>, f: Worker -> int)
    requires forall j :: 0 <= j < |ws| ==> f(ws[j]) == 0
    ensures Sum(ws, f) == 0
  {
    if ws != [] {
      SumZero(ws[1..], f);
    }
  }

  // ----- The invariant -----

  /** Past detection: nothing but retiring is left to do. */
  predicate Past(w: Worker) {
    w.pc in {Retire, PeekRetired, Kill, Ping, Sigwait}
  }

  predicate Activated(w: Worker) { w.sent > 0 }

  /** Committed to block: only an event can make it run again. */
  predicate Blocked(w: Worker) { w.pc == Wait }

  /** Runs on by itself. */
  predicate Running(w: Worker) {
    w.pc !in {Wait, Sigwait}
  }

  predicate WorkerOk(latch: seq<bool>, w: Worker) {
    && |w.ready| == |w.conns| == |latch|
    && (w.pc == Announce ==> w.open + w.foreign > 0)
    && w.sent <= 1
    && (Activated(w) <==> w.live || w.pc == PeekActive)
    && (w.pc !in {User, Announce, TakeSession} ==> Activated(w))
    && (w.pc == PeekActive ==> !w.live)
    && w.taken == (if w.pc in {PeekRetired, Kill, Ping, Sigwait} then 1 else 0)
    && (Past(w) ==> Drained(w))
    && (forall b :: 0 <= b < |w.ready| && w.ready[b] ==> latch[b])
    && (w.pc.Handle? ==> forall b :: b in w.pc.due ==> b < |latch| && latch[b] && !w.ready[b])
  }

  /** Conservation of the worker tokens. */
  predicate Conserved(s: State) {
    s.tokens == Sum(s.ws, TokenShare)
  }

  /** The session tokens queued beyond those of the open sessions on positive descriptors. */
  function Surplus(s: State): int {
    s.sessions - Sum(s.ws, SessionShare)
  }

  /** An empty worker queue is being noticed. */
  predicate KillNoticed(s: State) {
    s.tokens == 0 && (exists i :: 0 <= i < |s.ws| && Activated(s.ws[i]))
    ==> exists i :: 0 <= i < |s.ws| && s.ws[i].pc in {PeekRetired, Kill}
  }

  /** Somebody who is not waiting for a ping, or can be woken by something else. */
  predicate Witness(w: Worker) {
    Running(w) || (Blocked(w) && !Drained(w))
  }

  /** A worker that could terminate does not sleep unnoticed. */
  predicate WakeupNoticed(s: State) {
    s.sessions == 0 && (exists i :: 0 <= i < |s.ws| && Blocked(s.ws[i]) && Drained(s.ws[i]))
    ==> s.pings > 0 || exists i :: 0 <= i < |s.ws| && Witness(s.ws[i])
  }

  predicate Inv(s: State) {
    && |s.latch| > 0
    && (forall i :: 0 <= i < |s.ws| ==> WorkerOk(s.latch, s.ws[i]))
    && Conserved(s)
    && KillNoticed(s)
    && WakeupNoticed(s)
  }

  lemma InitInv(s: State)
    requires Init(s)
    ensures Inv(s) && Surplus(s) == 0
  {
    SumZero(s.ws, SessionShare);
    SumZero(s.ws, TokenShare);
  }

  /** No share is negative, so the sum covers each. */
  lemma SharesCovered(s: State, i: nat)
    requires i < |s.ws| && forall j :: 0 <= j < |s.ws| ==> WorkerOk(s.latch, s.ws[j])
    ensures 0 <= SessionShare(s.ws[i]) <= s.sessions - Surplus(s)
    ensures Conserved(s) ==> TokenShare(s.ws[i]) <= s.tokens
  {
    SumBounds(s.ws, SessionShare, i);
    SumBounds(s.ws, TokenShare, i);
  }

  predicate InHandler(a: Action) {
    a.AcceptConn? || a.ConnEof? || a.ConnReady? || a.ObserveLatch? || a.RecvPing? || a.Wake? || a.Return? || a.Restart?
  }

  predicate InApplication(a: Action) {
    a.Accept4? || a.SendSession? || a.CloseSession? || a.RecvSession?
  }

  /** The worker that takes the step keeps its local invariant: in the handler, */
  lemma StepHandler(s: State, a: Action)
    requires Enabled(s, a) && InHandler(a) && WorkerOk(s.latch, s.ws[a.w])
    ensures var t := Apply(s, a); WorkerOk(t.latch, t.ws[a.w])
  {
  }

  /** in the application, */
  lemma StepApplication(s: State, a: Action)
    requires Enabled(s, a) && InApplication(a) && WorkerOk(s.latch, s.ws[a.w])
    ensures var t := Apply(s, a); WorkerOk(t.latch, t.ws[a.w])
  {
  }

  /** and at the queues, which hold its own token. */
  lemma StepQueues(s: State, a: Action)
    requires Enabled(s, a) && !InHandler(a) && !InApplication(a)
    requires WorkerOk(s.latch, s.ws[a.w]) && TokenShare(s.ws[a.w]) <= s.tokens
    ensures var t := Apply(s, a); WorkerOk(t.latch, t.ws[a.w])
  {
    if a.PeekActivation? || a.TakeWorker? {
      assert TokenShare(s.ws[a.w]) == 1;
    }
  }

  /** The latches only ever get set, so the others keep theirs. */
  lemma StepWorkers(s: State, a: Action)
    requires Inv(s) && Enabled(s, a)
    ensures var t := Apply(s, a); forall i :: 0 <= i < |t.ws| ==> WorkerOk(t.latch, t.ws[i])
  {
    var t := Apply(s, a);
    assert WorkerOk(s.latch, s.ws[a.w]);
    if InHandler(a) {
      StepHandler(s, a);
    } else if InApplication(a) {
      StepApplication(s, a);
    } else {
      SharesCovered(s, a.w);
      StepQueues(s, a);
    }
    StepFrame(s, a);
    forall i | 0 <= i < |t.ws| ensures WorkerOk(t.latch, t.ws[i]) {
      assert WorkerOk(s.latch, s.ws[i]);
    }
  }

  /** A step changes only its own worker, and latches are never reset. */
  lemma StepFrame(s: State, a: Action)
    requires Enabled(s, a)
    ensures var t := Apply(s, a);
      && |t.ws| == |s.ws| && |t.latch| == |s.latch|
      && (forall i :: 0 <= i < |s.ws| && i != a.w ==> t.ws[i] == s.ws[i])
      && (forall b :: 0 <= b < |s.latch| && s.latch[b] ==> t.latch[b])
  {
  }

  /** What a step does to the surplus of session tokens. */
  function Change(s: State, a: Action): int
    requires Enabled(s, a)
  {
    match a
    case CloseSession(_, x) => if x.zero && x.inet then -1 else if !x.zero && !x.inet then 1 else 0
    case RecvSession(_) => if s.sessions == 0 then 1 else 0
    case _ => 0
  }

  lemma HandlerShares(s: State, a: Action)
    requires Enabled(s, a) && InHandler(a)
    ensures var t := Apply(s, a); var w, w' := s.ws[a.w], t.ws[a.w];
      && t.sessions == s.sessions && SessionShare(w') == SessionShare(w)
      && t.tokens - s.tokens == TokenShare(w') - TokenShare(w)
  {
  }

  lemma QueueShares(s: State, a: Action)
    requires Enabled(s, a) && !InHandler(a)
    ensures var t := Apply(s, a); var w, w' := s.ws[a.w], t.ws[a.w];
      && t.sessions - s.sessions == SessionShare(w') - SessionShare(w) + Change(s, a)
      && t.tokens - s.tokens == TokenShare(w') - TokenShare(w)
  {
  }

  lemma StepSums(s: State, a: Action)
    requires Enabled(s, a)
    ensures var t := Apply(s, a); var w, w' := s.ws[a.w], t.ws[a.w];
      && Sum(t.ws, SessionShare) == Sum(s.ws, SessionShare) - SessionShare(w) + SessionShare(w')
      && Sum(t.ws, TokenShare) == Sum(s.ws, TokenShare) - TokenShare(w) + TokenShare(w')
  {
    var t := Apply(s, a);
    StepFrame(s, a);
    assert t.ws == s.ws[a.w := t.ws[a.w]];
    SumUpdate(s.ws, SessionShare, a.w, t.ws[a.w]);
    SumUpdate(s.ws, TokenShare, a.w, t.ws[a.w]);
  }

  /**
    Every system call keeps both balances, with three exceptions: closing a
    session that is not an AF_INET stream leaves its token behind, closing one
    on descriptor 0 takes a token that was not sent for it, and a take may find
    nothing.
   */
  lemma StepConserved(s: State, a: Action)
    requires Enabled(s, a)
    ensures Surplus(Apply(s, a)) == Surplus(s) + Change(s, a)
    ensures Conserved(s) ==> Conserved(Apply(s, a))
  {
    if InHandler(a) {
      HandlerShares(s, a);
    } else {
      QueueShares(s, a);
    }
    StepSums(s, a);
  }

  /** What a step of worker i can do to the worker queue and to those who watch it. */
  predicate WatchKept(s: State, t: State, i: nat) {
    && i < |s.ws| == |t.ws|
    && (forall j :: 0 <= j < |s.ws| && j != i ==> t.ws[j] == s.ws[j])
    && (t.tokens == 0 && (s.tokens > 0 || s.ws[i].pc in {PeekRetired, Kill}) ==> t.ws[i].pc in {PeekRetired, Kill})
    && (t.tokens == 0 && Activated(t.ws[i]) ==> Activated(s.ws[i]))
  }

  lemma StepWatchKept(s: State, a: Action)
    requires Enabled(s, a)
    ensures WatchKept(s, Apply(s, a), a.w)
  {
  }

  lemma WatchNotices(s: State, t: State, i: nat)
    requires WatchKept(s, t, i) && KillNoticed(s)
    ensures KillNoticed(t)
  {
    if t.tokens == 0 && t.ws[i].pc !in {PeekRetired, Kill} && exists j :: 0 <= j < |t.ws| && Activated(t.ws[j]) {
      var j :| 0 <= j < |t.ws| && Activated(t.ws[j]);
      assert Activated(s.ws[j]);
      var k :| 0 <= k < |s.ws| && s.ws[k].pc in {PeekRetired, Kill};
      assert t.ws[k].pc in {PeekRetired, Kill};
    }
  }

  lemma StepKillNoticed(s: State, a: Action)
    requires Inv(s) && Enabled(s, a)
    ensures KillNoticed(Apply(s, a))
  {
    StepWatchKept(s, a);
    WatchNotices(s, Apply(s, a), a.w);
  }

  /**
    Blocking is what could go wrong here: it follows either a session token
    seen, or binds seen unfinished.  Any other step leaves its worker running
    or a ping behind.
   */
  lemma StepWitness(s: State, a: Action)
    requires Enabled(s, a)
    ensures var t := Apply(s, a); t.sessions > 0 || t.pings > 0 || Witness(t.ws[a.w])
  {
    if InHandler(a) {
      assert s.ws[a.w].pc.Handle? || s.ws[a.w].pc == Wait;
    }
  }

  lemma StepWakeupNoticed(s: State, a: Action)
    requires Enabled(s, a)
    ensures WakeupNoticed(Apply(s, a))
  {
    StepWitness(s, a);
    StepFrame(s, a);
  }

  lemma StepInv(s: State, a: Action)
    requires Inv(s) && Enabled(s, a)
    ensures Inv(Apply(s, a))
  {
    StepWorkers(s, a);
    StepConserved(s, a);
    assert |Apply(s, a).latch| > 0 by {
      StepFrame(s, a);
    }
    StepKillNoticed(s, a);
    StepWakeupNoticed(s, a);
  }

  lemma {:induction false} RunInv(s: State, acts: seq<Action>)
    requires Inv(s) && Executable(s, acts)
    ensures Inv(Exec(s, acts))
    decreases acts
  {
    if acts != [] {
      StepInv(s, acts[0]);
      RunInv(Apply(s, acts[0]), acts[1..]);
    }
  }

  lemma ReachableInv(s0: State, acts: seq<Action>)
    requires Init(s0) && Executable(s0, acts)
    ensures Inv(Exec(s0, acts))
  {
    InitInv(s0);
    RunInv(s0, acts);
  }

  lemma {:induction false} RunSize(s: State, acts: seq<Action>)
    requires Executable(s, acts)
    ensures var t := Exec(s, acts); |t.ws| == |s.ws| && |t.latch| == |s.latch|
    decreases acts
  {
    if acts != [] {
      StepFrame(s, acts[0]);
      RunSize(Apply(s, acts[0]), acts[1..]);
    }
  }

  // ----- What a state remembers of the run -----

  /** What the step does to the latches, and to the bind b of worker i. */
  lemma StepBind(s: State, a: Action, i: nat, b: nat)
    requires Inv(s) && Enabled(s, a) && i < |s.ws| && b < |s.latch|
    ensures var t := Apply(s, a);
      && |t.ws| == |s.ws| && |t.latch| == |s.latch| && WorkerOk(s.latch, s.ws[i]) && WorkerOk(t.latch, t.ws[i])
      && (t.latch[b] <==> s.latch[b] || (a.ConnReady? && a.b == b))
      && (t.ws[i].ready[b] <==> s.ws[i].ready[b] || a == ObserveLatch(i, b))
      && t.ws[i].conns[b] + (if a == ConnEof(i, b) || a == ConnReady(i, b) then 1 else 0) ==
         s.ws[i].conns[b] + (if a == AcceptConn(i, b) then 1 else 0)
  {
    StepFrame(s, a);
    StepWorkers(s, a);
    assert WorkerOk(s.latch, s.ws[i]) && WorkerOk(s.latch, s.ws[a.w]);
    StepLatch(s, a, b);
    if a.w == i {
      if InHandler(a) {
        HandlerBind(s, a, b);
      } else {
        ElsewhereBind(s, a);
      }
    }
  }

  lemma StepLatch(s: State, a: Action, b: nat)
    requires Enabled(s, a) && b < |s.latch|
    ensures var t := Apply(s, a); b < |t.latch| && (t.latch[b] <==> s.latch[b] || (a.ConnReady? && a.b == b))
  {
  }

  lemma ElsewhereBind(s: State, a: Action)
    requires Enabled(s, a) && !InHandler(a)
    ensures var w, w' := s.ws[a.w], Apply(s, a).ws[a.w]; w'.ready == w.ready && w'.conns == w.conns
  {
  }

  lemma HandlerBind(s: State, a: Action, b: nat)
    requires Enabled(s, a) && InHandler(a) && WorkerOk(s.latch, s.ws[a.w]) && b < |s.latch|
    ensures var w, w' := s.ws[a.w], Apply(s, a).ws[a.w];
      && |w'.ready| == |w'.conns| == |s.latch|
      && (w'.ready[b] <==> w.ready[b] || a == ObserveLatch(a.w, b))
      && w'.conns[b] + (if a == ConnEof(a.w, b) || a == ConnReady(a.w, b) then 1 else 0) ==
         w.conns[b] + (if a == AcceptConn(a.w, b) then 1 else 0)
  {
  }

  /** A ready message for bind b was read in the run. */
  ghost predicate ReadyRead(acts: seq<Action>, b: nat) {
    exists w: nat :: ConnReady(w, b) in acts
  }

  /** A run, from its first step. */
  lemma Unfold(acts: seq<Action>, a: Action)
    requires acts != []
    ensures multiset(acts)[a] == multiset(acts[1..])[a] + if acts[0] == a then 1 else 0
    ensures a in acts <==> a == acts[0] || a in acts[1..]
  {
    assert acts == [acts[0]] + acts[1..];
  }

  lemma {:induction false} RunBinds(s: State, acts: seq<Action>, i: nat, b: nat)
    requires Inv(s) && Executable(s, acts) && i < |s.ws| && b < |s.latch|
    ensures var t := Exec(s, acts);
      |t.ws| == |s.ws| && |t.latch| == |s.latch| && WorkerOk(s.latch, s.ws[i]) && WorkerOk(t.latch, t.ws[i])
    ensures var t := Exec(s, acts); var w, w' := s.ws[i], t.ws[i];
      && (t.latch[b] <==> s.latch[b] || ReadyRead(acts, b))
      && (w'.ready[b] <==> w.ready[b] || ObserveLatch(i, b) in acts)
      && w'.conns[b] + multiset(acts)[ConnEof(i, b)] + multiset(acts)[ConnReady(i, b)] ==
         w.conns[b] + multiset(acts)[AcceptConn(i, b)]
    decreases acts
  {
    if acts == [] {
      assert WorkerOk(s.latch, s.ws[i]);
    } else {
      var a := acts[0];
      StepInv(s, a);
      StepBind(s, a, i, b);
      RunBinds(Apply(s, a), acts[1..], i, b);
      Unfold(acts, ObserveLatch(i, b));
      Unfold(acts, AcceptConn(i, b));
      Unfold(acts, ConnEof(i, b));
      Unfold(acts, ConnReady(i, b));
      ReadyUnfold(acts, b);
    }
  }

  lemma ReadyUnfold(acts: seq<Action>, b: nat)
    requires acts != []
    ensures ReadyRead(acts, b) <==> (acts[0].ConnReady? && acts[0].b == b) || ReadyRead(acts[1..], b)
  {
    if ReadyRead(acts[1..], b) {
      var w: nat :| ConnReady(w, b) in acts[1..];
      Unfold(acts, ConnReady(w, b));
    }
    if ReadyRead(acts, b) {
      var w: nat :| ConnReady(w, b) in acts;
      Unfold(acts, ConnReady(w, b));
    }
    if acts[0].ConnReady? && acts[0].b == b {
      assert ConnReady(acts[0].w, b) in acts;
    }
  }

  /**
    In every reachable state: a latch is set if and only if a ready message for
    its bind was read, a worker is ready on a bind if and only if it has
    observed the latch, and it holds as many internal connections as it has
    accepted and not closed, on a hangup or on ready.
   */
  lemma BindHistory(s0: State, acts: seq<Action>, i: nat, b: nat)
    requires Init(s0) && Executable(s0, acts) && i < |s0.ws| && b < |s0.latch|
    ensures var t := Exec(s0, acts);
      && i < |t.ws| && b < |t.latch| == |t.ws[i].ready| == |t.ws[i].conns|
      && (t.latch[b] <==> ReadyRead(acts, b))
      && (t.ws[i].ready[b] <==> ObserveLatch(i, b) in acts)
      && multiset(acts)[AcceptConn(i, b)] ==
         t.ws[i].conns[b] + multiset(acts)[ConnEof(i, b)] + multiset(acts)[ConnReady(i, b)]
  {
    InitInv(s0);
    RunBinds(s0, acts, i, b);
    assert FreshWorker(s0.ws[i], |s0.latch|);
  }

  /**
    A worker accepts an internal connection only before it has observed the
    latch of the bind, and observes it once, after a ready message was read.
   */
  lemma BindOrder(s0: State, acts: seq<Action>, i: nat, b: nat)
    requires Init(s0) && Executable(s0, acts) && i < |s0.ws| && b < |s0.latch|
    ensures Enabled(Exec(s0, acts), AcceptConn(i, b)) ==> ObserveLatch(i, b) !in acts
    ensures Enabled(Exec(s0, acts), ObserveLatch(i, b)) ==> ReadyRead(acts, b) && ObserveLatch(i, b) !in acts
  {
    BindHistory(s0, acts, i, b);
    ReachableInv(s0, acts);
    var t := Exec(s0, acts);
    assert WorkerOk(t.latch, t.ws[i]);
  }

  /** Nobody retires before a ready message has been read for every bind. */
  lemma PastNeedsReady(s0: State, acts: seq<Action>, i: nat, b: nat)
    requires Init(s0) && Executable(s0, acts) && i < |s0.ws| && b < |s0.latch|
    ensures i < |Exec(s0, acts).ws| && (Past(Exec(s0, acts).ws[i]) ==> ReadyRead(acts, b))
  {
    BindHistory(s0, acts, i, b);
    ReachableInv(s0, acts);
    var t := Exec(s0, acts);
    assert WorkerOk(t.latch, t.ws[i]);
  }

  lemma StepBatch(s: State, a: Action, i: nat)
    requires Enabled(s, a) && i < |s.ws| && s.ws[i].pc.Handle? && a != Return(i) && a != Restart(i)
    ensures i < |Apply(s, a).ws|
    ensures var pc, pc' := s.ws[i].pc, Apply(s, a).ws[i].pc;
      && pc'.Handle?
      && (pc'.wake <==> pc.wake && a != RecvPing(i))
      && forall b: nat :: b in pc'.due <==> b in pc.due && a != ObserveLatch(i, b)
  {
    StepFrame(s, a);
  }

  lemma {:induction false} RunBatch(s: State, acts: seq<Action>, i: nat, b: nat)
    requires Executable(s, acts) && i < |s.ws| && s.ws[i].pc.Handle? && Return(i) !in acts && Restart(i) !in acts
    ensures i < |Exec(s, acts).ws|
    ensures var pc, pc' := s.ws[i].pc, Exec(s, acts).ws[i].pc;
      && pc'.Handle?
      && (pc'.wake <==> pc.wake && RecvPing(i) !in acts)
      && (b in pc'.due <==> b in pc.due && ObserveLatch(i, b) !in acts)
    decreases acts
  {
    if acts != [] {
      StepBatch(s, acts[0], i);
      Unfold(acts, RecvPing(i));
      Unfold(acts, ObserveLatch(i, b));
      assert forall a :: a in acts[1..] ==> a in acts;
      RunBatch(Apply(s, acts[0]), acts[1..], i, b);
    }
  }

  /**
    A worker leaves no event of a batch unhandled: before it returns to the
    application or waits again, it has received the ping it was woken by and
    observed every latch that was reported.
   */
  lemma BatchHandled(s: State, i: nat, ping: bool, due: set<nat>, acts: seq<Action>, b: nat)
    requires Enabled(s, Wake(i, ping, due)) && Executable(Apply(s, Wake(i, ping, due)), acts)
    requires Return(i) !in acts && Restart(i) !in acts
    requires var t := Exec(Apply(s, Wake(i, ping, due)), acts); Enabled(t, Return(i)) || Enabled(t, Restart(i))
    ensures (ping ==> RecvPing(i) in acts) && (b in due ==> ObserveLatch(i, b) in acts)
  {
    var t := Apply(s, Wake(i, ping, due));
    assert t.ws[i].pc == Handle(ping, due);
    RunBatch(t, acts, i, b);
  }

  /** What is left of worker i's connections on the binds below n; the others are closed one by one. */
  lemma {:induction false} CloseAll(s: State, i: nat, n: nat) returns (acts: seq<Action>)
    requires Inv(s) && !s.killed && i < |s.ws| && s.ws[i].pc.Handle? && n <= |s.latch|
    ensures Executable(s, acts) && forall k :: 0 <= k < |acts| ==> acts[k].ConnEof? && acts[k].w == i
    ensures var t := Exec(s, acts);
      && |t.ws| == |s.ws| && t == s.(ws := s.ws[i := s.ws[i].(conns := t.ws[i].conns)]) && |t.ws[i].conns| == |s.latch|
      && forall b :: 0 <= b < n ==> t.ws[i].conns[b] == 0
    decreases n, if n > 0 && WorkerOk(s.latch, s.ws[i]) then s.ws[i].conns[n - 1] else 0
  {
    assert WorkerOk(s.latch, s.ws[i]);
    acts := [];
    if n > 0 {
      if s.ws[i].conns[n - 1] > 0 {
        var t := Apply(s, ConnEof(i, n - 1));
        StepInv(s, ConnEof(i, n - 1));
        var rest := CloseAll(t, i, n);
        acts := [ConnEof(i, n - 1)] + rest;
        assert acts[0] == ConnEof(i, n - 1) && acts[1..] == rest;
      } else {
        acts := CloseAll(s, i, n - 1);
        KeepsZero(s, acts, i, n - 1);
      }
    }
  }

  /** A run of hangups opens no connection. */
  lemma {:induction false} KeepsZero(s: State, acts: seq<Action>, i: nat, b: nat)
    requires Inv(s) && Executable(s, acts) && forall k :: 0 <= k < |acts| ==> acts[k].ConnEof?
    requires i < |s.ws| && b < |s.latch| && WorkerOk(s.latch, s.ws[i]) && s.ws[i].conns[b] == 0
    ensures var t := Exec(s, acts); i < |t.ws| && b < |t.ws[i].conns| && t.ws[i].conns[b] == 0
    decreases acts
  {
    if acts != [] {
      StepInv(s, acts[0]);
      StepBind(s, acts[0], i, b);
      KeepsZero(Apply(s, acts[0]), acts[1..], i, b);
    }
  }

  /** A worker that handles a batch can get rid of all its internal connections when their clients hang up. */
  lemma HangUpsDrain(s0: State, before: seq<Action>, i: nat) returns (acts: seq<Action>)
    requires Init(s0) && Executable(s0, before)
    requires var s := Exec(s0, before); !s.killed && i < |s.ws| && s.ws[i].pc.Handle?
    ensures Executable(Exec(s0, before), acts) && forall k :: 0 <= k < |acts| ==> acts[k].ConnEof? && acts[k].w == i
    ensures var t := Exec(Exec(s0, before), acts);
      |t.ws| == |Exec(s0, before).ws| && forall b :: 0 <= b < |t.ws[i].conns| ==> t.ws[i].conns[b] == 0
  {
    ReachableInv(s0, before);
    acts := CloseAll(Exec(s0, before), i, |Exec(s0, before).latch|);
  }

  /** How many sessions of a kind a worker has open. */
  function OpenOf(w: Worker, x: Session): nat {
    if x.zero then (if HasSession(w, x) then 1 else 0) else if x.inet then w.open else w.foreign
  }

  lemma StepSession(s: State, a: Action, i: nat, x: Session)
    requires Enabled(s, a) && i < |s.ws|
    ensures i < |Apply(s, a).ws|
    ensures var w, w' := s.ws[i], Apply(s, a).ws[i];
      && OpenOf(w', x) + (if a == CloseSession(i, x) then 1 else 0) ==
         OpenOf(w, x) + (if a == Accept4(i, x) then 1 else 0)
      && (Activated(w') <==> Activated(w) || (!w.live && (a == EpollWait(i) || a == Restart(i))))
  {
    StepFrame(s, a);
    if a.w == i {
      if InApplication(a) {
        ApplicationSession(s, a, x);
      } else {
        ElsewhereSession(s, a);
      }
    }
  }

  lemma ElsewhereSession(s: State, a: Action)
    requires Enabled(s, a) && !InApplication(a)
    ensures var w, w' := s.ws[a.w], Apply(s, a).ws[a.w];
      && w'.open == w.open && w'.foreign == w.foreign && w'.zero == w.zero
      && (Activated(w') <==> Activated(w) || (!w.live && (a == EpollWait(a.w) || a == Restart(a.w))))
  {
  }

  lemma ApplicationSession(s: State, a: Action, x: Session)
    requires Enabled(s, a) && InApplication(a)
    ensures var w, w' := s.ws[a.w], Apply(s, a).ws[a.w];
      && OpenOf(w', x) + (if a == CloseSession(a.w, x) then 1 else 0) ==
         OpenOf(w, x) + (if a == Accept4(a.w, x) then 1 else 0)
      && w'.sent == w.sent
  {
  }

  lemma {:induction false} RunSessions(s: State, acts: seq<Action>, i: nat, x: Session)
    requires Inv(s) && Executable(s, acts) && i < |s.ws|
    ensures i < |Exec(s, acts).ws|
    ensures var w, w' := s.ws[i], Exec(s, acts).ws[i];
      && OpenOf(w', x) + multiset(acts)[CloseSession(i, x)] == OpenOf(w, x) + multiset(acts)[Accept4(i, x)]
      && (Activated(w') <==> Activated(w) || EpollWait(i) in acts)
      && (Exec(s, acts).killed <==> s.killed || exists k: nat :: KillGroup(k) in acts)
    decreases acts
  {
    if acts != [] {
      var a := acts[0];
      StepInv(s, a);
      StepSession(s, a, i, x);
      assert WorkerOk(s.latch, s.ws[i]);
      RunSessions(Apply(s, a), acts[1..], i, x);
      Unfold(acts, Accept4(i, x));
      Unfold(acts, CloseSession(i, x));
      Unfold(acts, EpollWait(i));
      KilledUnfold(s, acts);
    }
  }

  lemma KilledUnfold(s: State, acts: seq<Action>)
    requires Executable(s, acts) && acts != []
    ensures Apply(s, acts[0]).killed <==> acts[0].KillGroup?
    ensures (exists k: nat :: KillGroup(k) in acts) <==>
        acts[0].KillGroup? || exists k: nat :: KillGroup(k) in acts[1..]
  {
    if k: nat :| KillGroup(k) in acts {
      Unfold(acts, KillGroup(k));
    }
    if k: nat :| KillGroup(k) in acts[1..] {
      Unfold(acts, KillGroup(k));
    }
    if acts[0].KillGroup? {
      assert KillGroup(acts[0].w) in acts;
    }
  }

  /**
    In every reachable state a worker has as many sessions of each kind open as
    it has accepted and not closed, it counts as active if and only if it has
    called the wrapper, and the version is dead if and only if somebody has
    killed it.
   */
  lemma SessionHistory(s0: State, acts: seq<Action>, i: nat, x: Session)
    requires Init(s0) && Executable(s0, acts) && i < |s0.ws|
    ensures i < |Exec(s0, acts).ws|
    ensures var w := Exec(s0, acts).ws[i];
      && multiset(acts)[Accept4(i, x)] == OpenOf(w, x) + multiset(acts)[CloseSession(i, x)]
      && (Activated(w) <==> EpollWait(i) in acts)
      && (Exec(s0, acts).killed <==> exists k: nat :: KillGroup(k) in acts)
  {
    InitInv(s0);
    assert FreshWorker(s0.ws[i], |s0.latch|);
    RunSessions(s0, acts, i, x);
  }

  // ----- The session queue from below: no session on descriptor 0 -----

  /** Every open session has its token queued or on the way, and nobody passes detection with one. */
  predicate Covered(s: State) {
    Surplus(s) >= 0 && forall i :: 0 <= i < |s.ws| ==> WorkerCovered(s.ws[i])
  }

  predicate WorkerCovered(w: Worker) {
    w.zero == Free && (w.pc == Scan || Past(w) ==> Serving(w) == 0)
  }

  lemma StepCovered(s: State, a: Action)
    requires Inv(s) && Covered(s) && Enabled(s, a) && (a.Accept4? ==> !a.x.zero)
    ensures Covered(Apply(s, a)) && Surplus(Apply(s, a)) == Surplus(s) + Leak(a)
  {
    assert WorkerCovered(s.ws[a.w]);
    SharesCovered(s, a.w);
    StepConserved(s, a);
    ChangeIsLeak(s, a);
    StepFrame(s, a);
    if InHandler(a) {
      StepHandlerCovered(s, a);
    } else {
      StepQueuesCovered(s, a);
    }
  }

  /** Every close with a token to take follows an announced session, and every take finds one. */
  lemma ChangeIsLeak(s: State, a: Action)
    requires Enabled(s, a) && WorkerCovered(s.ws[a.w]) && SessionShare(s.ws[a.w]) <= s.sessions
    ensures Change(s, a) == Leak(a)
  {
  }

  lemma StepHandlerCovered(s: State, a: Action)
    requires Enabled(s, a) && InHandler(a) && WorkerCovered(s.ws[a.w])
    ensures WorkerCovered(Apply(s, a).ws[a.w])
  {
  }

  lemma StepQueuesCovered(s: State, a: Action)
    requires Enabled(s, a) && !InHandler(a) && (a.Accept4? ==> !a.x.zero) && WorkerCovered(s.ws[a.w])
    requires SessionShare(s.ws[a.w]) <= s.sessions
    ensures WorkerCovered(Apply(s, a).ws[a.w])
  {
    if a.PeekSessions? && s.sessions == 0 {
      assert SessionShare(s.ws[a.w]) == Serving(s.ws[a.w]);
    }
  }

  /** 1 if the step closes a session on a positive descriptor whose token is never taken. */
  function Leak(a: Action): nat {
    if a.CloseSession? && !a.x.zero && !a.x.inet then 1 else 0
  }

  function Leaks(acts: seq<Action>): nat {
    if acts == [] then 0 else Leak(acts[0]) + Leaks(acts[1..])
  }

  lemma {:induction false} RunCovered(s: State, acts: seq<Action>, site: Site)
    requires Inv(s) && Covered(s) && Executable(s, acts) && Within(s, acts, site) && !site.zero
    ensures Covered(Exec(s, acts)) && Surplus(Exec(s, acts)) == Surplus(s) + Leaks(acts)
    decreases acts
  {
    if acts != [] {
      StepCovered(s, acts[0]);
      StepInv(s, acts[0]);
      RunCovered(Apply(s, acts[0]), acts[1..], site);
    }
  }

  lemma ReachableCovered(s0: State, acts: seq<Action>, site: Site)
    requires Init(s0) && Executable(s0, acts) && Within(s0, acts, site) && !site.zero
    ensures Covered(Exec(s0, acts)) && Surplus(Exec(s0, acts)) == Leaks(acts)
  {
    InitInv(s0);
    RunCovered(s0, acts, site);
  }

  // ----- The session queue from above: every session an AF_INET stream -----

  /** Only open sessions keep tokens queued. */
  predicate Bounded(s: State) {
    Surplus(s) <= 0 && forall i :: 0 <= i < |s.ws| ==> s.ws[i].foreign == 0
  }

  lemma StepBounded(s: State, a: Action)
    requires Inv(s) && Bounded(s) && Enabled(s, a) && (a.Accept4? ==> a.x.inet)
    ensures Bounded(Apply(s, a))
  {
    StepConserved(s, a);
    StepFrame(s, a);
    NoForeign(s, a);
    if a.RecvSession? && s.sessions == 0 {
      assert WorkerOk(s.latch, s.ws[a.w]);
      SharesCovered(s, a.w);
    }
  }

  lemma NoForeign(s: State, a: Action)
    requires Enabled(s, a) && s.ws[a.w].foreign == 0 && (a.Accept4? ==> a.x.inet)
    ensures Apply(s, a).ws[a.w].foreign == 0 && (Change(s, a) <= 0 || (a.RecvSession? && s.sessions == 0))
  {
  }

  lemma {:induction false} RunBounded(s: State, acts: seq<Action>, site: Site)
    requires Inv(s) && Bounded(s) && Executable(s, acts) && Within(s, acts, site) && !site.foreign
    ensures Bounded(Exec(s, acts))
    decreases acts
  {
    if acts != [] {
      StepBounded(s, acts[0]);
      StepInv(s, acts[0]);
      RunBounded(Apply(s, acts[0]), acts[1..], site);
    }
  }

  lemma ReachableBounded(s0: State, acts: seq<Action>, site: Site)
    requires Init(s0) && Executable(s0, acts) && Within(s0, acts, site) && !site.foreign
    ensures Bounded(Exec(s0, acts))
  {
    InitInv(s0);
    RunBounded(s0, acts, site);
  }

  // ----- The invariant when sessions are accepted by active workers only -----

  /** A worker that never activated is in the application, and holds no session. */
  predicate AtHome(w: Worker) {
    Activated(w) || (w.pc == User && Serving(w) == 0)
  }

  /** A worker that could terminate does not sleep unnoticed by the active ones. */
  predicate ActiveNoticed(s: State) {
    s.sessions == 0 && (exists i :: 0 <= i < |s.ws| && Blocked(s.ws[i]) && Drained(s.ws[i]))
    ==> s.pings > 0 || exists i :: 0 <= i < |s.ws| && Activated(s.ws[i]) && Witness(s.ws[i])
  }

  predicate InvActive(s: State) {
    Inv(s) && (forall i :: 0 <= i < |s.ws| ==> AtHome(s.ws[i])) && ActiveNoticed(s)
  }

  /** The worker that takes the step is active afterwards, so only active ones are left to notice. */
  lemma StepActive(s: State, a: Action)
    requires InvActive(s) && Enabled(s, a) && (a.Accept4? ==> Activated(s.ws[a.w]))
    ensures Activated(Apply(s, a).ws[a.w])
  {
    assert AtHome(s.ws[a.w]) && WorkerOk(s.latch, s.ws[a.w]);
  }

  lemma StepActiveNoticed(s: State, a: Action)
    requires InvActive(s) && Enabled(s, a) && (a.Accept4? ==> Activated(s.ws[a.w]))
    ensures ActiveNoticed(Apply(s, a))
  {
    StepActive(s, a);
    StepWitness(s, a);
    StepFrame(s, a);
  }

  lemma StepInvActive(s: State, a: Action)
    requires InvActive(s) && Enabled(s, a) && (a.Accept4? ==> Activated(s.ws[a.w]))
    ensures InvActive(Apply(s, a))
  {
    StepInv(s, a);
    StepActive(s, a);
    StepActiveNoticed(s, a);
    StepFrame(s, a);
  }

  lemma {:induction false} RunInvActive(s: State, acts: seq<Action>, site: Site)
    requires InvActive(s) && Executable(s, acts) && Within(s, acts, site) && site.early == {}
    ensures InvActive(Exec(s, acts))
    decreases acts
  {
    if acts != [] {
      StepInvActive(s, acts[0]);
      RunInvActive(Apply(s, acts[0]), acts[1..], site);
    }
  }

  lemma ReachableActive(s0: State, acts: seq<Action>, site: Site)
    requires Init(s0) && Executable(s0, acts) && Within(s0, acts, site) && site.early == {}
    ensures InvActive(Exec(s0, acts))
  {
    InitInv(s0);
    RunInvActive(s0, acts, site);
  }

  // ----- Main results -----

  /**
    Both queues balance in every reachable state.  As long as no session is on
    descriptor 0, what is queued too much is what was left behind by closed
    sessions that were no AF_INET streams.
   */
  lemma TokensConserved(s0: State, acts: seq<Action>, site: Site)
    requires Init(s0) && Executable(s0, acts) && Within(s0, acts, site) && !site.zero
    ensures var s := Exec(s0, acts);
      && s.sessions + Sum(s.ws, Unannounced) == Sum(s.ws, OpenSessions) + Sum(s.ws, Untaken) + Leaks(acts)
      && s.tokens == Sum(s.ws, TokenShare)
  {
    ReachableInv(s0, acts);
    ReachableCovered(s0, acts, site);
    var s := Exec(s0, acts);
    assert forall i :: 0 <= i < |s.ws| ==> WorkerCovered(s.ws[i]);
    SumSplit(s.ws);
  }

  lemma {:induction false} SumSplit(ws: seq<Worker>)
    requires forall i :: 0 <= i < |ws| ==> ws[i].zero == Free
    ensures Sum(ws, SessionShare) == Sum(ws, OpenSessions) + Sum(ws, Untaken) - Sum(ws, Unannounced)
  {
    if ws != [] {
      SumSplit(ws[1..]);
    }
  }

  /**
    The non-blocking receives that take a token always find one unless a
    session is on descriptor 0, and the peek after activation always finds a
    token, so no worker activates twice.
   */
  lemma TakesSucceed(s0: State, acts: seq<Action>, site: Site, i: nat)
    requires Init(s0) && Executable(s0, acts) && Within(s0, acts, site) && i < |s0.ws|
    ensures var s := Exec(s0, acts);
      && |s.ws| == |s0.ws|
      && s.ws[i].sent <= 1
      && (s.ws[i].pc == TakeSession && !site.zero ==> s.sessions > 0)
      && (s.ws[i].pc == Retire ==> s.tokens > 0)
      && (s.ws[i].pc == PeekActive ==> s.tokens > 0)
  {
    ReachableInv(s0, acts);
    RunSize(s0, acts);
    SharesCovered(Exec(s0, acts), i);
    if !site.zero {
      ReachableCovered(s0, acts, site);
    }
  }

  /** Nothing is lost by a kill: no session is open, and everybody active has passed detection. */
  predicate SafeToKill(s: State) {
    forall i :: 0 <= i < |s.ws| ==>
      Serving(s.ws[i]) == 0 && (Activated(s.ws[i]) ==> Finished(s.ws[i]))
  }

  /** Worker k is about to peek an empty worker queue, and so to decide to kill. */
  predicate Decides(s: State, k: nat) {
    !s.killed && k < |s.ws| && s.ws[k].pc == PeekRetired && s.tokens == 0
  }

  /** Past detection, and rightly so. */
  predicate Finished(w: Worker) {
    Past(w) && Serving(w) == 0 && HandedOver(w)
  }

  /** A newer version serves all binds, and no connection to it is open. */
  predicate HandedOver(w: Worker) {
    |w.ready| == |w.conns| && forall b :: 0 <= b < |w.ready| ==> w.ready[b] && w.conns[b] == 0
  }

  /** Retiring is final: no bind becomes unready, and no session or internal connection comes or goes. */
  lemma {:induction false} PastForever(s: State, acts: seq<Action>, i: nat)
    requires Inv(s) && Executable(s, acts) && i < |s.ws| && Past(s.ws[i])
    ensures var t := Exec(s, acts);
      |t.ws| == |s.ws| && Past(t.ws[i]) && HandedOver(t.ws[i]) && Serving(t.ws[i]) == Serving(s.ws[i])
    decreases acts
  {
    assert WorkerOk(s.latch, s.ws[i]);
    if acts != [] {
      StepInv(s, acts[0]);
      StepFrame(s, acts[0]);
      PastForever(Apply(s, acts[0]), acts[1..], i);
    }
  }

  /** Whoever is active when the queue is seen empty has passed detection. */
  lemma DecisionCoversActive(s: State, i: nat)
    requires Inv(s) && s.tokens == 0 && i < |s.ws| && Activated(s.ws[i])
    ensures Past(s.ws[i])
  {
    SharesCovered(s, i);
  }

  /** In any run at all, an active worker has drained its binds when the decision is taken. */
  lemma DecisionDrained(s0: State, before: seq<Action>, k: nat, i: nat)
    requires Init(s0) && Executable(s0, before)
    requires var s := Exec(s0, before); Decides(s, k) && i < |s.ws| && Activated(s.ws[i])
    ensures var s := Exec(s0, before); Past(s.ws[i]) && HandedOver(s.ws[i])
  {
    ReachableInv(s0, before);
    DecisionCoversActive(Exec(s0, before), i);
    assert WorkerOk(Exec(s0, before).latch, Exec(s0, before).ws[i]);
  }

  /**
    Kill safety.  When killpg runs, every worker that was active at the moment
    of the decision holds no session, has passed detection, has all its binds
    ready and no internal connection, whatever happened since the decision;
    provided that until then no session was accepted on descriptor 0.
   */
  lemma KillSafety(s0: State, before: seq<Action>, site: Site, after: seq<Action>, k: nat, i: nat)
    requires Init(s0) && Executable(s0, before) && Within(s0, before, site) && !site.zero
    requires var s := Exec(s0, before); Decides(s, k) && i < |s.ws| && Activated(s.ws[i]) && Executable(s, after)
    ensures var t := Exec(Exec(s0, before), after);
      i < |t.ws| && Finished(t.ws[i])
  {
    ReachableInv(s0, before);
    ReachableCovered(s0, before, site);
    var s := Exec(s0, before);
    DecisionCoversActive(s, i);
    assert WorkerCovered(s.ws[i]);
    PastForever(s, after, i);
  }

  /** Every killpg that can follow the decision of k is safe. */
  ghost predicate KillsSafely(s: State, k: nat) {
    forall acts: seq<Action> {:trigger Executable(s, acts)} ::
      Executable(s, acts) && Enabled(Exec(s, acts), KillGroup(k)) ==> SafeToKill(Exec(s, acts))
  }

  predicate AllActivated(s: State) {
    forall i :: 0 <= i < |s.ws| ==> Activated(s.ws[i])
  }

  /**
    A decision to kill is safe exactly when every worker was active by then
    and none of them held a session: a worker that activates between the
    decision and killpg is killed while it serves, and a session that was not
    seen by detection is cut.
   */
  lemma KillSafeIff(s0: State, before: seq<Action>, k: nat)
    requires Init(s0) && Executable(s0, before) && Decides(Exec(s0, before), k)
    ensures var s := Exec(s0, before);
      KillsSafely(s, k) <==> AllActivated(s) && forall i :: 0 <= i < |s.ws| ==> Serving(s.ws[i]) == 0
  {
    ReachableInv(s0, before);
    var s := Exec(s0, before);
    if v: nat :| v < |s.ws| && !Activated(s.ws[v]) {
      LateActivation(s, k, v);
    } else if v: nat :| v < |s.ws| && Serving(s.ws[v]) > 0 {
      CutSession(s, k, v);
    } else {
      forall acts: seq<Action> | Executable(s, acts) && Enabled(Exec(s, acts), KillGroup(k))
        ensures SafeToKill(Exec(s, acts))
      {
        RunSize(s, acts);
        forall i | 0 <= i < |s.ws| ensures Finished(Exec(s, acts).ws[i]) {
          DecisionCoversActive(s, i);
          PastForever(s, acts, i);
        }
      }
    }
  }

  /** Without a session on descriptor 0 no session can be missed, and the first half decides. */
  lemma KillSafeIffAllActive(s0: State, before: seq<Action>, site: Site, k: nat)
    requires Init(s0) && Executable(s0, before) && Within(s0, before, site) && !site.zero
    requires Decides(Exec(s0, before), k)
    ensures KillsSafely(Exec(s0, before), k) <==> AllActivated(Exec(s0, before))
  {
    KillSafeIff(s0, before, k);
    var s := Exec(s0, before);
    if AllActivated(s) {
      forall i | 0 <= i < |s.ws| ensures Serving(s.ws[i]) == 0 {
        KillSafety(s0, before, site, [], k, i);
      }
    }
  }

  lemma {:induction false} RunSnoc(s: State, acts: seq<Action>, a: Action)
    requires Executable(s, acts) && Enabled(Exec(s, acts), a)
    ensures Executable(s, acts + [a]) && Exec(s, acts + [a]) == Apply(Exec(s, acts), a)
    decreases acts
  {
    if acts == [] {
      assert acts + [a] == [a] && [a][1..] == [];
      assert Executable(Apply(s, a), []);
    } else {
      assert (acts + [a])[1..] == acts[1..] + [a];
      RunSnoc(Apply(s, acts[0]), acts[1..], a);
    }
  }

  /** A worker that never activated can always come back to the application, and then activate. */
  lemma ActivateLate(s: State, acts: seq<Action>, v: nat) returns (more: seq<Action>)
    requires Executable(s, acts)
    requires var t := Exec(s, acts); Inv(t) && !t.killed && v < |t.ws| && !Activated(t.ws[v])
    ensures Executable(s, more)
    ensures var t, u := Exec(s, acts), Exec(s, more);
      && !u.killed && |u.ws| == |t.ws| && Activated(u.ws[v]) && !Past(u.ws[v])
      && forall i :: 0 <= i < |t.ws| && i != v ==> u.ws[i] == t.ws[i]
  {
    more := acts;
    var t := Exec(s, acts);
    assert WorkerOk(t.latch, t.ws[v]);
    if t.ws[v].pc != User {
      var back := if t.ws[v].pc == Announce then SendSession(v) else RecvSession(v);
      RunSnoc(s, acts, back);
      StepFrame(t, back);
      more := acts + [back];
    }
    RunSnoc(s, more, EpollWait(v));
    StepFrame(Exec(s, more), EpollWait(v));
    more := more + [EpollWait(v)];
  }

  /** The decision itself: k sees the queue empty, and nobody else moves. */
  lemma Decision(s: State, k: nat) returns (acts: seq<Action>)
    requires Inv(s) && Decides(s, k)
    ensures Executable(s, acts)
    ensures var t := Exec(s, acts);
      && Inv(t) && !t.killed && |t.ws| == |s.ws| && t.ws[k] == s.ws[k].(pc := Kill)
      && forall i :: 0 <= i < |s.ws| && i != k ==> t.ws[i] == s.ws[i]
  {
    acts := [PeekWorkers(k)];
    assert Executable(s, []) && [] + [PeekWorkers(k)] == [PeekWorkers(k)];
    RunSnoc(s, [], PeekWorkers(k));
    StepInv(s, PeekWorkers(k));
  }

  /** The run that goes wrong: k decides, v returns to its loop and activates, k kills. */
  lemma LateActivation(s: State, k: nat, v: nat)
    requires Inv(s) && Decides(s, k) && v < |s.ws| && !Activated(s.ws[v])
    ensures !KillsSafely(s, k)
  {
    assert WorkerOk(s.latch, s.ws[k]);
    var decided := Decision(s, k);
    var acts := ActivateLate(s, decided, v);
    assert Enabled(Exec(s, acts), KillGroup(k));
    assert !SafeToKill(Exec(s, acts));
  }

  /** And the other one: k decides and kills while v holds a session. */
  lemma CutSession(s: State, k: nat, v: nat)
    requires Inv(s) && Decides(s, k) && v < |s.ws| && Serving(s.ws[v]) > 0
    ensures !KillsSafely(s, k)
  {
    var acts := Decision(s, k);
    assert Serving(Exec(s, acts).ws[v]) > 0;
    assert Enabled(Exec(s, acts), KillGroup(k));
    assert !SafeToKill(Exec(s, acts));
  }

  /**
    No lost kill.  Once every active worker has taken its token back, one of
    them is about to see the empty queue or has decided to kill.
   */
  lemma NoLostKill(s0: State, acts: seq<Action>)
    requires Init(s0) && Executable(s0, acts)
    requires var s := Exec(s0, acts);
      && (exists i :: 0 <= i < |s.ws| && Activated(s.ws[i]))
      && (forall i :: 0 <= i < |s.ws| && Activated(s.ws[i]) ==> s.ws[i].taken > 0)
    ensures var s := Exec(s0, acts); exists i :: 0 <= i < |s.ws| && s.ws[i].pc in {PeekRetired, Kill}
  {
    ReachableInv(s0, acts);
    var s := Exec(s0, acts);
    forall i | 0 <= i < |s.ws| ensures TokenShare(s.ws[i]) == 0 {
      assert WorkerOk(s.latch, s.ws[i]);
    }
    SumZero(s.ws, TokenShare);
  }

  /** Something will make the worker run again by itself: an unseen latch, or an open internal connection. */
  predicate HasWork(s: State, w: Worker) {
    && w.pc == Wait
    && |w.ready| == |w.conns| == |s.latch|
    && exists b :: 0 <= b < |s.latch| && ((s.latch[b] && !w.ready[b]) || w.conns[b] > 0)
  }

  /** Somebody active notices that worker i could terminate: a ping is queued, or another worker runs or has work. */
  predicate Noticed(s: State, i: nat) {
    s.pings > 0 ||
    exists j :: 0 <= j < |s.ws| && j != i && Activated(s.ws[j]) && (Running(s.ws[j]) || HasWork(s, s.ws[j]))
  }

  /** Worker i sleeps although it could terminate. */
  predicate CouldTerminate(s: State, i: nat) {
    i < |s.ws| && Blocked(s.ws[i]) && HandedOver(s.ws[i]) && s.sessions == 0
  }

  /**
    No lost wakeup.  When sessions are accepted by active workers only, and a
    blocked worker could terminate, then a ping is queued, or another active
    worker runs, or another blocked worker still has a latch or an internal
    connection to handle.
   */
  lemma NoLostWakeup(s0: State, acts: seq<Action>, site: Site, i: nat)
    requires Init(s0) && Executable(s0, acts) && Within(s0, acts, site) && site.early == {}
    requires CouldTerminate(Exec(s0, acts), i)
    ensures Noticed(Exec(s0, acts), i)
  {
    ReachableActive(s0, acts, site);
    var s := Exec(s0, acts);
    assert WorkerOk(s.latch, s.ws[i]);
    if s.pings == 0 {
      var j :| 0 <= j < |s.ws| && Activated(s.ws[j]) && Witness(s.ws[j]);
      assert WorkerOk(s.latch, s.ws[j]);
      if !Running(s.ws[j]) {
        UndrainedHasWork(s, i, j);
      }
    }
  }

  lemma UndrainedHasWork(s: State, i: nat, j: nat)
    requires i < |s.ws| && j < |s.ws| && Blocked(s.ws[j]) && !Drained(s.ws[j]) && Drained(s.ws[i])
    requires WorkerOk(s.latch, s.ws[i]) && WorkerOk(s.latch, s.ws[j])
    ensures HasWork(s, s.ws[j])
  {
    var b :| 0 <= b < |s.latch| && (!s.ws[j].ready[b] || s.ws[j].conns[b] != 0);
    assert s.ws[i].ready[b] && s.latch[b];
  }

  /** In any run at all, the one that notices may also be a process that never entered the wrapper. */
  lemma WakeupOrNewcomer(s0: State, acts: seq<Action>, i: nat)
    requires Init(s0) && Executable(s0, acts) && CouldTerminate(Exec(s0, acts), i)
    ensures var s := Exec(s0, acts);
      s.pings > 0 || exists j :: 0 <= j < |s.ws| && j != i && (Running(s.ws[j]) || HasWork(s, s.ws[j]))
  {
    ReachableInv(s0, acts);
    var s := Exec(s0, acts);
    assert WorkerOk(s.latch, s.ws[i]);
    if s.pings == 0 {
      var j :| 0 <= j < |s.ws| && Witness(s.ws[j]);
      assert WorkerOk(s.latch, s.ws[j]);
      if !Running(s.ws[j]) {
        UndrainedHasWork(s, i, j);
      }
    }
  }

  // ----- A drained version terminates -----

  /** The update is complete and no client is left: every latch set, no open session, no internal connection. */
  predicate Quiet(s: State) {
    && (forall b :: 0 <= b < |s.latch| ==> s.latch[b])
    && (forall i :: 0 <= i < |s.ws| ==> QuietWorker(s.ws[i]))
  }

  predicate QuietWorker(w: Worker) {
    Serving(w) == 0 && w.pc != TakeSession && forall b :: 0 <= b < |w.conns| ==> w.conns[b] == 0
  }

  /** A step without outside help: no new client, and only wakeups that a ping or a latch causes. */
  predicate QuietStep(s: State, a: Action) {
    && Enabled(s, a)
    && !a.Accept4? && !a.AcceptConn?
    && (a.Wake? ==> a.ping || a.due != {})
  }

  predicate QuietRun(s: State, acts: seq<Action>)
    decreases acts
  {
    acts == [] || (QuietStep(s, acts[0]) && QuietRun(Apply(s, acts[0]), acts[1..]))
  }

  lemma QuietKept(s: State, a: Action)
    requires Inv(s) && Quiet(s) && QuietStep(s, a)
    ensures Quiet(Apply(s, a))
  {
    var w := s.ws[a.w];
    assert QuietWorker(w) && WorkerOk(s.latch, w);
    StepFrame(s, a);
    assert QuietWorker(Apply(s, a).ws[a.w]);
  }

  /** With no client left, nothing is queued that keeps a worker from terminating. */
  lemma QuietQueue(s: State)
    requires Inv(s) && Bounded(s) && Quiet(s)
    ensures s.sessions == 0
  {
    forall i | 0 <= i < |s.ws| ensures SessionShare(s.ws[i]) == 0 {
      assert WorkerOk(s.latch, s.ws[i]) && QuietWorker(s.ws[i]);
    }
    SumZero(s.ws, SessionShare);
  }

  predicate SomeActive(s: State) {
    exists i :: 0 <= i < |s.ws| && Activated(s.ws[i])
  }

  /** An active worker can take a step without outside help. */
  ghost predicate CanGoOn(s: State) {
    exists a :: QuietStep(s, a) && Activated(s.ws[a.w])
  }

  /** A quiet version with an active worker is never stuck before it is killed: one of them can go on. */
  lemma QuietProgress(s: State)
    requires InvActive(s) && Bounded(s) && Quiet(s) && !s.killed && SomeActive(s)
    ensures CanGoOn(s)
  {
    QuietQueue(s);
    if i: nat :| i < |s.ws| && Activated(s.ws[i]) && Running(s.ws[i]) {
      RunningStep(s, i);
    } else {
      SomebodyLeft(s);
      var i: nat :| i < |s.ws| && Activated(s.ws[i]) && s.ws[i].pc != Sigwait;
      assert s.ws[i].pc == Wait;
      if Drained(s.ws[i]) && s.pings > 0 {
        assert QuietStep(s, Wake(i, true, {}));
      } else {
        var j: nat :| j < |s.ws| && Activated(s.ws[j]) && Blocked(s.ws[j]) && !Drained(s.ws[j]);
        LatchStep(s, j);
      }
    }
  }

  lemma {:induction false} SumPositive(ws: seq<Worker>, f: Worker -> int) returns (i: nat)
    requires Sum(ws, f) > 0
    ensures i < |ws| && f(ws[i]) > 0
  {
    if f(ws[0]) > 0 {
      i := 0;
    } else {
      i := SumPositive(ws[1..], f);
      i := i + 1;
    }
  }

  /** The last worker to retire does not end up waiting. */
  lemma SomebodyLeft(s: State)
    requires Inv(s) && SomeActive(s)
    ensures exists i :: 0 <= i < |s.ws| && Activated(s.ws[i]) && s.ws[i].pc != Sigwait
  {
    if s.tokens > 0 {
      var i := SumPositive(s.ws, TokenShare);
      assert WorkerOk(s.latch, s.ws[i]);
    } else {
      var i :| 0 <= i < |s.ws| && s.ws[i].pc in {PeekRetired, Kill};
      assert WorkerOk(s.latch, s.ws[i]);
    }
  }

  lemma RunningStep(s: State, i: nat)
    requires Inv(s) && Quiet(s) && !s.killed && i < |s.ws| && Running(s.ws[i])
    requires Activated(s.ws[i])
    ensures CanGoOn(s)
  {
    var w := s.ws[i];
    assert WorkerOk(s.latch, w) && QuietWorker(w);
    match w.pc
    case User => assert QuietStep(s, EpollWait(i));
    case PeekActive => assert QuietStep(s, PeekActivation(i));
    case Detect => assert QuietStep(s, PeekSessions(i));
    case Scan => assert QuietStep(s, ScanBinds(i));
    case Handle(wake, due) =>
      if wake {
        assert QuietStep(s, RecvPing(i));
      } else if due != {} {
        var b :| b in due;
        assert QuietStep(s, ObserveLatch(i, b));
      } else {
        assert QuietStep(s, Return(i));
      }
    case Retire => assert QuietStep(s, TakeWorker(i));
    case PeekRetired => assert QuietStep(s, PeekWorkers(i));
    case Kill => assert QuietStep(s, KillGroup(i));
    case Ping => assert QuietStep(s, SendPing(i));
  }

  lemma LatchStep(s: State, j: nat)
    requires Inv(s) && Quiet(s) && !s.killed && j < |s.ws| && Blocked(s.ws[j]) && !Drained(s.ws[j])
    ensures CanGoOn(s)
  {
    assert WorkerOk(s.latch, s.ws[j]) && QuietWorker(s.ws[j]);
    var b: nat :| b < |s.ws[j].ready| && !s.ws[j].ready[b];
    assert s.latch[b];
    assert QuietStep(s, Wake(j, false, {b}));
  }

  /** How far a worker is from blocking again or being done; lowest with a batch in hand. */
  function Rank(w: Worker): int {
    match w.pc
    case Handle(wake, due) => if wake || due != {} then 0 else 9
    case User => 8
    case Announce => 8
    case TakeSession => 8
    case PeekActive => 7
    case Detect => 6
    case Scan => 5
    case Wait => 1
    case Retire => 4
    case PeekRetired => 3
    case Kill => 2
    case Ping => 2
    case Sigwait => 1
  }

  function Count(bs: seq<bool>): nat {
    if bs == [] then 0 else (if bs[0] then 0 else 1) + Count(bs[1..])
  }

  lemma {:induction false} CountUpdate(bs: seq<bool>, b: nat)
    requires b < |bs| && !bs[b]
    ensures Count(bs[b := true]) == Count(bs) - 1
  {
    if b == 0 {
      assert bs[b := true][1..] == bs[1..];
    } else {
      assert bs[b := true][1..] == bs[1..][b - 1 := true];
      CountUpdate(bs[1..], b - 1);
    }
  }

  function Unseen(w: Worker): int { Count(w.ready) }
  function WillPing(w: Worker): int { if w.pc == Sigwait then 0 else 1 }
  function Woken(w: Worker): int { if w.pc.Handle? && w.pc.wake then 1 else 0 }

  /** Workers woken by a ping that somebody else has already consumed. */
  function Stale(s: State): int { if s.pings == 0 then Sum(s.ws, Woken) else 0 }

  /**
    Unseen latches, pings sent or still to be sent, stale wakeups, and ranks.
    A consumed ping pays for all the wakeups it made stale.
   */
  function Measure(s: State): int {
    var n := |s.ws|;
    10 * Sum(s.ws, Unseen) + 10 * (n + 1) * Budget(s) + 10 * Stale(s) + Sum(s.ws, Rank)
  }

  lemma {:induction false} SumBounded(ws: seq<Worker>, f: Worker -> int, m: nat)
    requires forall w :: 0 <= f(w) <= m
    ensures 0 <= Sum(ws, f) <= m * |ws|
  {
    if ws != [] {
      SumBounded(ws[1..], f, m);
      assert m * |ws| == m + m * |ws[1..]|;
    }
  }

  lemma MeasureNonNegative(s: State)
    ensures Measure(s) >= 0
  {
    SumBounded(s.ws, Rank, 9);
    SumBounded(s.ws, Woken, 1);
    SumBounded(s.ws, WillPing, 1);
    SumNonNegative(s.ws, Unseen);
  }

  lemma MeasureUpdate(s: State, a: Action)
    requires Enabled(s, a)
    ensures var t := Apply(s, a); var w, w' := s.ws[a.w], t.ws[a.w];
      && Sum(t.ws, Unseen) == Sum(s.ws, Unseen) - Unseen(w) + Unseen(w')
      && Sum(t.ws, WillPing) == Sum(s.ws, WillPing) - WillPing(w) + WillPing(w')
      && Sum(t.ws, Woken) == Sum(s.ws, Woken) - Woken(w) + Woken(w')
      && Sum(t.ws, Rank) == Sum(s.ws, Rank) - Rank(w) + Rank(w')
      && 0 <= Sum(s.ws, Woken) <= |s.ws|
  {
    var t := Apply(s, a);
    assert t.ws == s.ws[a.w := t.ws[a.w]];
    SumUpdate(s.ws, Unseen, a.w, t.ws[a.w]);
    SumUpdate(s.ws, WillPing, a.w, t.ws[a.w]);
    SumUpdate(s.ws, Woken, a.w, t.ws[a.w]);
    SumUpdate(s.ws, Rank, a.w, t.ws[a.w]);
    SumBounded(s.ws, Woken, 1);
  }

  function Budget(s: State): int { s.pings + Sum(s.ws, WillPing) }

  /** The four ways in which a quiet step makes progress. */
  predicate Progress(s: State, t: State) {
    var u, b, st, r := Sum(s.ws, Unseen), Budget(s), Stale(s), Sum(s.ws, Rank);
    var u', b', st', r' := Sum(t.ws, Unseen), Budget(t), Stale(t), Sum(t.ws, Rank);
    || (u' == u && b' == b && st' <= st && r' < r)
    || (u' < u && b' == b && st' <= st && r' <= r + 9)
    || (u' == u && b' == b - 1 && st' <= st + |s.ws| && r' <= r + 9)
    || (u' == u && b' == b && st' < st && r' <= r + 9)
  }

  lemma ProgressMeasure(s: State, t: State)
    requires |t.ws| == |s.ws| && Progress(s, t)
    ensures Measure(t) < Measure(s)
  {
    var n := |s.ws|;
    if Budget(t) == Budget(s) - 1 {
      assert 10 * (n + 1) * Budget(t) == 10 * (n + 1) * Budget(s) - 10 * (n + 1);
    }
  }

  /** Consuming a ping, or finding it gone, and seeing a latch pay for another round of the loop. */
  lemma BatchProgress(s: State, a: Action)
    requires Inv(s) && Quiet(s) && QuietStep(s, a) && (a.RecvPing? || a.ObserveLatch?)
    ensures Progress(s, Apply(s, a))
  {
    var w, t := s.ws[a.w], Apply(s, a);
    assert WorkerOk(s.latch, w);
    MeasureUpdate(s, a);
    if a.ObserveLatch? {
      CountUpdate(w.ready, a.b);
    }
  }

  /** All other steps lower the rank, and a ping sent was already counted. */
  lemma RankProgress(s: State, a: Action)
    requires Inv(s) && Quiet(s) && QuietStep(s, a) && !a.RecvPing? && !a.ObserveLatch? && !a.KillGroup?
    ensures Progress(s, Apply(s, a))
  {
    MeasureUpdate(s, a);
    assert WorkerOk(s.latch, s.ws[a.w]) && QuietWorker(s.ws[a.w]);
    if InHandler(a) {
      HandlerRankDrops(s, a);
    } else {
      QueueRankDrops(s, a);
    }
    PingsCounted(s, a);
  }

  lemma HandlerRankDrops(s: State, a: Action)
    requires QuietStep(s, a) && InHandler(a) && !a.RecvPing? && !a.ObserveLatch?
    requires WorkerOk(s.latch, s.ws[a.w]) && QuietWorker(s.ws[a.w])
    ensures var t := Apply(s, a); var w, w' := s.ws[a.w], t.ws[a.w]; Rank(w') < Rank(w) && Unseen(w') == Unseen(w)
  {
  }

  lemma QueueRankDrops(s: State, a: Action)
    requires QuietStep(s, a) && !InHandler(a) && !a.KillGroup?
    requires WorkerOk(s.latch, s.ws[a.w]) && QuietWorker(s.ws[a.w])
    ensures var t := Apply(s, a); var w, w' := s.ws[a.w], t.ws[a.w]; Rank(w') < Rank(w) && Unseen(w') == Unseen(w)
  {
  }

  lemma PingsCounted(s: State, a: Action)
    requires QuietStep(s, a) && !a.RecvPing? && !a.ObserveLatch? && !a.KillGroup?
    ensures var t := Apply(s, a); var w, w' := s.ws[a.w], t.ws[a.w];
      && t.pings + WillPing(w') == s.pings + WillPing(w)
      && t.pings >= s.pings
      && (s.pings == 0 ==> Woken(w') == Woken(w))
  {
  }

  lemma StepMeasure(s: State, a: Action)
    requires Inv(s) && Quiet(s) && QuietStep(s, a) && !a.KillGroup?
    ensures Measure(Apply(s, a)) < Measure(s)
  {
    if a.RecvPing? || a.ObserveLatch? {
      BatchProgress(s, a);
    } else {
      RankProgress(s, a);
    }
    StepFrame(s, a);
    ProgressMeasure(s, Apply(s, a));
  }

  lemma {:induction false} QuietRunBound(s: State, acts: seq<Action>)
    requires Inv(s) && Quiet(s) && QuietRun(s, acts)
    ensures Executable(s, acts) && |acts| <= Measure(s) + 1
    ensures Inv(Exec(s, acts)) && Quiet(Exec(s, acts))
    decreases acts
  {
    MeasureNonNegative(s);
    if acts != [] {
      var t := Apply(s, acts[0]);
      StepInv(s, acts[0]);
      QuietKept(s, acts[0]);
      if acts[0].KillGroup? {
        assert acts[1..] == [] && Exec(s, acts) == Exec(t, []) == t;
      } else {
        StepMeasure(s, acts[0]);
        QuietRunBound(t, acts[1..]);
      }
    }
  }

  /**
    A version with nothing left to serve terminates.  From every reachable
    state where the update is complete and no client is left, its workers run
    on without outside help for a bounded number of steps.
   */
  lemma DrainedVersionEnds(s0: State, acts: seq<Action>, more: seq<Action>)
    requires Init(s0) && Executable(s0, acts) && Quiet(Exec(s0, acts))
    requires QuietRun(Exec(s0, acts), more)
    ensures |more| <= Measure(Exec(s0, acts)) + 1
  {
    ReachableInv(s0, acts);
    QuietRunBound(Exec(s0, acts), more);
  }

  lemma StepQuietActive(s: State, a: Action)
    requires InvActive(s) && Bounded(s) && Quiet(s) && QuietStep(s, a)
    ensures var t := Apply(s, a); InvActive(t) && Bounded(t) && Quiet(t) && SomeActive(t)
  {
    StepInvActive(s, a);
    StepBounded(s, a);
    QuietKept(s, a);
    StepActive(s, a);
  }

  lemma {:induction false} QuietRunActive(s: State, acts: seq<Action>)
    requires InvActive(s) && Bounded(s) && Quiet(s) && QuietRun(s, acts) && SomeActive(s)
    ensures Executable(s, acts)
    ensures var t := Exec(s, acts); InvActive(t) && Bounded(t) && Quiet(t) && SomeActive(t)
    decreases acts
  {
    if acts != [] {
      StepQuietActive(s, acts[0]);
      QuietRunActive(Apply(s, acts[0]), acts[1..]);
    }
  }

  /**
    And they end in killpg, provided that somebody is active and that only
    active workers accepted sessions, all of them AF_INET streams.  A run
    without outside help is bounded, and as long as it has not killed the
    version an active worker can go on, without waiting for anybody to
    activate; so each run that cannot be continued has killed it.
   */
  lemma DrainedVersionDies(s0: State, acts: seq<Action>, site: Site, more: seq<Action>)
    requires Init(s0) && Executable(s0, acts) && Within(s0, acts, site) && site.early == {} && !site.foreign
    requires Quiet(Exec(s0, acts)) && SomeActive(Exec(s0, acts)) && QuietRun(Exec(s0, acts), more)
    ensures var s := Exec(s0, acts);
      && Executable(s, more) && |more| <= Measure(s) + 1
      && (Exec(s, more).killed <==> !CanGoOn(Exec(s, more)))
  {
    ReachableActive(s0, acts, site);
    ReachableBounded(s0, acts, site);
    var s := Exec(s0, acts);
    QuietRunBound(s, more);
    QuietRunActive(s, more);
    if !Exec(s, more).killed {
      QuietProgress(Exec(s, more));
    }
  }

  /** Only active workers take part in the run. */
  predicate ByActive(s: State, acts: seq<Action>)
    decreases acts
  {
    acts == [] ||
      (Enabled(s, acts[0]) && Activated(s.ws[acts[0].w]) && ByActive(Apply(s, acts[0]), acts[1..]))
  }

  /** From any such state active workers alone bring the version to its end. */
  lemma {:induction false} RunToKill(s: State) returns (acts: seq<Action>)
    requires InvActive(s) && Bounded(s) && Quiet(s) && SomeActive(s) && !s.killed
    ensures QuietRun(s, acts) && ByActive(s, acts) && Executable(s, acts) && Exec(s, acts).killed
    decreases Measure(s)
  {
    MeasureNonNegative(s);
    QuietProgress(s);
    var a :| QuietStep(s, a) && Activated(s.ws[a.w]);
    if a.KillGroup? {
      acts := FirstStep(s, a, []);
    } else {
      StepQuietActive(s, a);
      StepMeasure(s, a);
      NotKilled(s, a);
      var rest := RunToKill(Apply(s, a));
      acts := FirstStep(s, a, rest);
    }
  }

  lemma NotKilled(s: State, a: Action)
    requires Enabled(s, a) && !a.KillGroup?
    ensures !Apply(s, a).killed
  {
  }

  lemma FirstStep(s: State, a: Action, rest: seq<Action>) returns (acts: seq<Action>)
    requires QuietStep(s, a) && Activated(s.ws[a.w])
    requires var t := Apply(s, a); QuietRun(t, rest) && ByActive(t, rest) && Executable(t, rest) && Exec(t, rest).killed
    ensures QuietRun(s, acts) && ByActive(s, acts) && Executable(s, acts) && Exec(s, acts).killed
  {
    acts := [a] + rest;
    assert acts[0] == a && acts[1..] == rest;
  }

  // ----- The exact condition, and the runs that fail -----

  lemma {:induction false} WithinSnoc(s: State, acts: seq<Action>, a: Action, site: Site)
    requires Executable(s, acts) && Within(s, acts, site) && Enabled(Exec(s, acts), a) && Fits(Exec(s, acts), a, site)
    ensures Executable(s, acts + [a]) && Within(s, acts + [a], site)
    ensures Exec(s, acts + [a]) == Apply(Exec(s, acts), a)
    decreases acts
  {
    RunSnoc(s, acts, a);
    if acts == [] {
      assert acts + [a] == [a] && [a][1..] == [];
      assert Executable(Apply(s, a), []);
    } else {
      assert (acts + [a])[1..] == acts[1..] + [a] && (acts + [a])[0] == acts[0];
      WithinSnoc(Apply(s, acts[0]), acts[1..], a, site);
    }
  }

  /** The two workers of a run that matter, what is queued, and whether the latch of the one bind is set. */
  datatype View = View(we: Worker, wv: Worker, sessions: nat, tokens: nat, latched: bool)

  /** Workers e, if there is one, and v of n are as in the view; the others have done nothing, and no ping was sent. */
  predicate Duo(s: State, n: nat, e: nat, v: nat, x: View) {
    && v < n && e != v
    && |s.ws| == n && (e < n ==> s.ws[e] == x.we) && s.ws[v] == x.wv
    && (forall i :: 0 <= i < n && i != e && i != v ==> s.ws[i] == Idle())
    && s.sessions == x.sessions && s.tokens == x.tokens && s.pings == 0 && s.latch == [x.latched] && !s.killed
  }

  /** A worker that has not entered the wrapper. */
  function Idle(): Worker {
    Worker(User, false, 0, 0, Free, 0, 0, [false], [0])
  }

  /** A worker that has activated, at pc. */
  function Active(pc: Pc, ready: bool, conns: nat): Worker {
    Worker(pc, true, 0, 0, Free, 1, 0, [ready], [conns])
  }

  /** Worker v alone has activated; it waits, or handles a batch. */
  function Alone(pc: Pc, ready: bool, conns: nat, latched: bool): View {
    View(Idle(), Active(pc, ready, conns), 0, 1, latched)
  }

  predicate Reaches(s0: State, acts: seq<Action>, site: Site, n: nat, e: nat, v: nat, x: View) {
    Executable(s0, acts) && Within(s0, acts, site) && Duo(Exec(s0, acts), n, e, v, x)
  }

  /** One more step of the run. */
  lemma Go(s0: State, acts: seq<Action>, site: Site, n: nat, e: nat, v: nat, x: View, a: Action, y: View)
    returns (more: seq<Action>)
    requires Reaches(s0, acts, site, n, e, v, x)
    requires var s := Exec(s0, acts); Enabled(s, a) && Duo(Apply(s, a), n, e, v, y) && Fits(s, a, site)
    ensures Reaches(s0, more, site, n, e, v, y)
  {
    WithinSnoc(s0, acts, a, site);
    more := acts + [a];
  }

  /** Worker v enters the wrapper and waits. */
  lemma EnterAndWait(n: nat, e: nat, v: nat, site: Site) returns (s0: State, acts: seq<Action>)
    requires v < n && e != v
    ensures Init(s0) && |s0.ws| == n && Reaches(s0, acts, site, n, e, v, Alone(Wait, false, 0, false))
  {
    s0, acts := State(seq(n, _ => Idle()), 0, 0, 0, [false], false), [];
    assert forall i :: 0 <= i < n ==> FreshWorker(s0.ws[i], 1);
    var x0 := View(Idle(), Idle(), 0, 0, false);
    assert Reaches(s0, acts, site, n, e, v, x0);
    var x1 := View(Idle(), Idle().(pc := PeekActive, sent := 1), 0, 1, false);
    acts := Go(s0, acts, site, n, e, v, x0, EpollWait(v), x1);
    acts := Go(s0, acts, site, n, e, v, x1, PeekActivation(v), Alone(Detect, false, 0, false));
    acts := Detection(s0, acts, site, n, e, v, Alone(Detect, false, 0, false), Wait);
  }

  /** With no token queued, worker v detects: it waits on if its bind is not ready, and retires otherwise. */
  lemma Detection(s0: State, acts: seq<Action>, site: Site, n: nat, e: nat, v: nat, x: View, pc: Pc)
    returns (more: seq<Action>)
    requires Reaches(s0, acts, site, n, e, v, x) && x.sessions == 0
    requires |x.wv.ready| == 1 && x.wv == Active(Detect, x.wv.ready[0], 0).(zero := x.wv.zero)
    requires pc == if x.wv.ready[0] then Retire else Wait
    ensures Reaches(s0, more, site, n, e, v, x.(wv := x.wv.(pc := pc)))
  {
    var scan := x.(wv := x.wv.(pc := Scan));
    assert Drained(scan.wv) <==> x.wv.ready[0];
    more := Go(s0, acts, site, n, e, v, x, PeekSessions(v), scan);
    more := Go(s0, more, site, n, e, v, scan, ScanBinds(v), x.(wv := x.wv.(pc := pc)));
  }

  /** Worker v accepts the connection of the next version and takes its ready message, */
  lemma TakeReady(s0: State, acts: seq<Action>, n: nat, e: nat, v: nat, site: Site) returns (more: seq<Action>)
    requires Reaches(s0, acts, site, n, e, v, Alone(Handle(false, {}), false, 0, false))
    ensures Reaches(s0, more, site, n, e, v, Alone(Handle(false, {}), false, 0, true))
  {
    var idle, one := Alone(Handle(false, {}), false, 0, false), Alone(Handle(false, {}), false, 1, false);
    more := Go(s0, acts, site, n, e, v, idle, AcceptConn(v, 0), one);
    more := Go(s0, more, site, n, e, v, one, ConnReady(v, 0), Alone(Handle(false, {}), false, 0, true));
  }

  /** and detects again after it. */
  lemma HandleReady(s0: State, acts: seq<Action>, n: nat, e: nat, v: nat, site: Site) returns (more: seq<Action>)
    requires Reaches(s0, acts, site, n, e, v, Alone(Wait, false, 0, false))
    ensures Reaches(s0, more, site, n, e, v, Alone(Detect, false, 0, true))
  {
    var idle, done := Alone(Handle(false, {}), false, 0, false), Alone(Handle(false, {}), false, 0, true);
    more := Go(s0, acts, site, n, e, v, Alone(Wait, false, 0, false), Wake(v, false, {}), idle);
    more := TakeReady(s0, more, n, e, v, site);
    more := Go(s0, more, site, n, e, v, done, Restart(v), Alone(Detect, false, 0, true));
  }

  /** Worker v observes the latch. */
  lemma SeeLatch(s0: State, acts: seq<Action>, n: nat, e: nat, v: nat, site: Site) returns (more: seq<Action>)
    requires Reaches(s0, acts, site, n, e, v, Alone(Wait, false, 0, true))
    ensures Reaches(s0, more, site, n, e, v, Alone(Handle(false, {}), true, 0, true))
  {
    var due := Alone(Handle(false, {0}), false, 0, true);
    more := Go(s0, acts, site, n, e, v, Alone(Wait, false, 0, true), Wake(v, false, {0}), due);
    assert {0} - {0} == {} && [false][0 := true] == [true];
    more := Go(s0, more, site, n, e, v, due, ObserveLatch(v, 0), Alone(Handle(false, {}), true, 0, true));
  }

  /** Worker v alone goes through the handover. */
  lemma HandOver(n: nat, e: nat, v: nat, site: Site) returns (s0: State, acts: seq<Action>)
    requires v < n && e != v
    ensures Init(s0) && |s0.ws| == n && Reaches(s0, acts, site, n, e, v, Alone(Handle(false, {}), true, 0, true))
  {
    s0, acts := EnterAndWait(n, e, v, site);
    acts := HandleReady(s0, acts, n, e, v, site);
    acts := Detection(s0, acts, site, n, e, v, Alone(Detect, false, 0, true), Wait);
    acts := SeeLatch(s0, acts, n, e, v, site);
  }

  /** And returns to the application. */
  lemma BackHome(n: nat, e: nat, v: nat, site: Site) returns (s0: State, acts: seq<Action>)
    requires v < n && e != v
    ensures Init(s0) && |s0.ws| == n && Reaches(s0, acts, site, n, e, v, Alone(User, true, 0, true))
  {
    s0, acts := HandOver(n, e, v, site);
    acts := Go(s0, acts, site, n, e, v, Alone(Handle(false, {}), true, 0, true), Return(v), Alone(User, true, 0, true));
  }

  /** Worker e, which never activates, accepts and closes a session; v sees its token and sleeps on. */
  lemma Oversleep(n: nat, e: nat, v: nat, site: Site) returns (s0: State, acts: seq<Action>)
    requires e < n && v < n && e != v && e in site.early
    ensures Init(s0) && |s0.ws| == n && Reaches(s0, acts, site, n, e, v, Alone(Wait, true, 0, true))
  {
    s0, acts := HandOver(n, e, v, site);
    var x := Alone(Handle(false, {}), true, 0, true);
    var accepted := x.(we := Idle().(pc := Announce, open := 1));
    var sent := x.(we := Idle().(open := 1), sessions := 1);
    acts := Go(s0, acts, site, n, e, v, x, Accept4(e, Session(false, true)), accepted);
    acts := Go(s0, acts, site, n, e, v, accepted, SendSession(e), sent);
    acts := Go(s0, acts, site, n, e, v, sent, Restart(v), sent.(wv := Active(Detect, true, 0)));
    acts := SleepOn(s0, acts, n, e, v, site, sent.(wv := Active(Detect, true, 0)));
  }

  lemma SleepOn(s0: State, acts: seq<Action>, n: nat, e: nat, v: nat, site: Site, x: View) returns (more: seq<Action>)
    requires x == View(Idle().(open := 1), Active(Detect, true, 0), 1, 1, true)
    requires e < n && Reaches(s0, acts, site, n, e, v, x)
    ensures Reaches(s0, more, site, n, e, v, Alone(Wait, true, 0, true))
  {
    var waiting := x.(wv := Active(Wait, true, 0));
    var closed := waiting.(we := Idle().(pc := TakeSession));
    more := Go(s0, acts, site, n, e, v, x, PeekSessions(v), waiting);
    more := Go(s0, more, site, n, e, v, waiting, CloseSession(e, Session(false, true)), closed);
    more := Go(s0, more, site, n, e, v, closed, RecvSession(e), Alone(Wait, true, 0, true));
  }

  /** Where v waits though nobody is served and no ping is queued, no active worker can go on. */
  lemma Asleep(s: State, n: nat, e: nat, v: nat, sessions: nat)
    requires Duo(s, n, e, v, Alone(Wait, true, 0, true).(sessions := sessions))
    ensures Quiet(s) && SomeActive(s) && !s.killed && !CanGoOn(s) && s.sessions == sessions
  {
    forall i | 0 <= i < n && i != v ensures s.ws[i] == Idle() {
    }
    assert Activated(s.ws[v]);
    assert !CanGoOn(s) by {
      if a :| QuietStep(s, a) && Activated(s.ws[a.w]) {
        assert s.ws[a.w] == Active(Wait, true, 0);
        NoWake(s, a);
      }
    }
  }

  lemma NoWake(s: State, a: Action)
    requires Enabled(s, a) && s.ws[a.w] == Active(Wait, true, 0) && s.pings == 0 && |s.latch| == 1
    ensures !QuietStep(s, a)
  {
    if a.Wake? {
      assert forall b :: b !in a.due;
    }
  }

  /**
    The run that fails: a worker accepts and closes a session before it ever
    activates, and another one, which could terminate, sleeps for good.
   */
  lemma LostWakeup(n: nat, e: nat, v: nat, site: Site) returns (s0: State, acts: seq<Action>)
    requires e < n && v < n && e != v && e in site.early
    ensures Init(s0) && |s0.ws| == n && Executable(s0, acts) && Within(s0, acts, site)
    ensures var s := Exec(s0, acts);
      && CouldTerminate(s, v) && !Noticed(s, v)
      && Quiet(s) && SomeActive(s) && !s.killed && !CanGoOn(s)
  {
    s0, acts := Oversleep(n, e, v, site);
    Asleep(Exec(s0, acts), n, e, v, 0);
  }

  /** An active worker accepts and closes a session that is no AF_INET stream: its token stays. */
  lemma LeaveToken(n: nat, e: nat, v: nat, site: Site) returns (s0: State, acts: seq<Action>)
    requires v < n && e != v && site.foreign
    ensures Init(s0) && |s0.ws| == n
    ensures Reaches(s0, acts, site, n, e, v, Alone(User, true, 0, true).(sessions := 1))
  {
    s0, acts := BackHome(n, e, v, site);
    var x := Alone(User, true, 0, true);
    var accepted := x.(wv := x.wv.(pc := Announce, foreign := 1));
    var sent := x.(wv := x.wv.(foreign := 1), sessions := 1);
    acts := Go(s0, acts, site, n, e, v, x, Accept4(v, Session(false, false)), accepted);
    acts := Go(s0, acts, site, n, e, v, accepted, SendSession(v), sent);
    acts := Go(s0, acts, site, n, e, v, sent, CloseSession(v, Session(false, false)), x.(sessions := 1));
  }

  /** The other run that fails: after such a session a version without clients waits for good, whoever is active. */
  lemma StuckOnToken(n: nat, v: nat, site: Site) returns (s0: State, acts: seq<Action>)
    requires v < n && site.foreign
    ensures Init(s0) && |s0.ws| == n && Executable(s0, acts) && Within(s0, acts, site)
    ensures var s := Exec(s0, acts);
      s.sessions == 1 && Quiet(s) && SomeActive(s) && !s.killed && !CanGoOn(s)
  {
    var x := Alone(User, true, 0, true).(sessions := 1);
    s0, acts := LeaveToken(n, v + 1, v, site);
    var detect := x.(wv := Active(Detect, true, 0));
    acts := Go(s0, acts, site, n, v + 1, v, x, EpollWait(v), detect);
    acts := Go(s0, acts, site, n, v + 1, v, detect, PeekSessions(v), x.(wv := Active(Wait, true, 0)));
    Asleep(Exec(s0, acts), n, v + 1, v, 1);
  }

  /** In no run of n workers within the site is a wakeup lost. */
  ghost predicate NeverAsleep(n: nat, site: Site) {
    forall s0: State, acts: seq<Action>, i: nat {:trigger Executable(s0, acts), Noticed(Exec(s0, acts), i)} ::
      && Init(s0) && |s0.ws| == n && Executable(s0, acts) && Within(s0, acts, site)
      && CouldTerminate(Exec(s0, acts), i) ==>
      Noticed(Exec(s0, acts), i)
  }

  /** In no such run is a quiet version stuck although a worker is active. */
  ghost predicate NeverStuck(n: nat, site: Site) {
    forall s0: State, acts: seq<Action> {:trigger Executable(s0, acts)} ::
      && Init(s0) && |s0.ws| == n && Executable(s0, acts) && Within(s0, acts, site)
      && Quiet(Exec(s0, acts)) && SomeActive(Exec(s0, acts)) && !Exec(s0, acts).killed ==>
      CanGoOn(Exec(s0, acts))
  }

  /** Only active workers accept, or there is just one worker. */
  predicate Prompt(n: nat, site: Site) {
    n < 2 || forall w :: w in site.early ==> w >= n
  }

  lemma {:induction false} NobodyEarly(s: State, acts: seq<Action>, site: Site)
    requires Executable(s, acts) && Within(s, acts, site) && forall w :: w in site.early ==> w >= |s.ws|
    ensures Within(s, acts, site.(early := {}))
    decreases acts
  {
    if acts != [] {
      StepFrame(s, acts[0]);
      NobodyEarly(Apply(s, acts[0]), acts[1..], site);
    }
  }

  /**
    No wakeup is lost if and only if no worker accepts a session before it
    activates; a worker alone may.
   */
  lemma NoLostWakeupIff(n: nat, site: Site)
    ensures NeverAsleep(n, site) <==> Prompt(n, site)
  {
    if Prompt(n, site) {
      forall s0: State, acts: seq<Action>, i: nat
        | && Init(s0) && |s0.ws| == n && Executable(s0, acts) && Within(s0, acts, site)
          && CouldTerminate(Exec(s0, acts), i)
        ensures Noticed(Exec(s0, acts), i)
      {
        if n < 2 {
          RunSize(s0, acts);
          WakeupOrNewcomer(s0, acts, i);
        } else {
          NobodyEarly(s0, acts, site);
          NoLostWakeup(s0, acts, site.(early := {}), i);
        }
      }
    } else {
      var e :| e in site.early && e < n;
      var v: nat := if e == 0 then 1 else 0;
      var s0, acts := LostWakeup(n, e, v, site);
    }
  }

  /** A worker alone that is active meets the stronger invariant anyway. */
  lemma AloneIsActive(s: State)
    requires Inv(s) && |s.ws| == 1 && SomeActive(s)
    ensures InvActive(s)
  {
    assert Activated(s.ws[0]);
  }

  /**
    A drained version with an active worker can always go on to its end if and
    only if the same holds and all sessions were AF_INET streams.
   */
  lemma DrainedVersionDiesIff(n: nat, site: Site)
    ensures NeverStuck(n, site) <==> n == 0 || (Prompt(n, site) && !site.foreign)
  {
    if n > 0 && site.foreign {
      var s0, acts := StuckOnToken(n, 0, site);
    } else if Prompt(n, site) {
      forall s0: State, acts: seq<Action>
        | && Init(s0) && |s0.ws| == n && Executable(s0, acts) && Within(s0, acts, site)
          && Quiet(Exec(s0, acts)) && SomeActive(Exec(s0, acts)) && !Exec(s0, acts).killed
        ensures CanGoOn(Exec(s0, acts))
      {
        RunSize(s0, acts);
        ReachableBounded(s0, acts, site);
        if n < 2 {
          ReachableInv(s0, acts);
          AloneIsActive(Exec(s0, acts));
        } else {
          NobodyEarly(s0, acts, site);
          ReachableActive(s0, acts, site.(early := {}));
        }
        QuietProgress(Exec(s0, acts));
      }
    } else {
      var e :| e in site.early && e < n;
      var v: nat := if e == 0 then 1 else 0;
      var s0, acts := LostWakeup(n, e, v, site);
    }
  }

  /** Worker v, with or without a session that was not announced, detects and takes its token back. */
  lemma Retires(s0: State, acts: seq<Action>, site: Site, n: nat, e: nat, v: nat, zero: Zero)
    returns (more: seq<Action>)
    requires Reaches(s0, acts, site, n, e, v, View(Idle(), Active(Detect, true, 0).(zero := zero), 0, 1, true))
    ensures Reaches(s0, more, site, n, e, v,
                    View(Idle(), Active(PeekRetired, true, 0).(zero := zero, taken := 1), 0, 0, true))
  {
    var x := View(Idle(), Active(Detect, true, 0).(zero := zero), 0, 1, true);
    more := Detection(s0, acts, site, n, e, v, x, Retire);
    var taken := View(Idle(), Active(PeekRetired, true, 0).(zero := zero, taken := 1), 0, 0, true);
    more := Go(s0, more, site, n, e, v, x.(wv := x.wv.(pc := Retire)), TakeWorker(v), taken);
  }

  /**
    A run from the start to a decision to kill while worker e has not
    activated: v goes through the handover alone and takes its token back.
   */
  lemma DecidesAlone(n: nat, e: nat, v: nat, site: Site) returns (s0: State, acts: seq<Action>)
    requires e < n && v < n && e != v
    ensures Init(s0) && |s0.ws| == n && Executable(s0, acts) && Within(s0, acts, site)
    ensures var s := Exec(s0, acts); |s.ws| == n && Decides(s, v) && !Activated(s.ws[e]) && !KillsSafely(s, v)
  {
    s0, acts := HandOver(n, e, v, site);
    var x := Alone(Handle(false, {}), true, 0, true);
    acts := Go(s0, acts, site, n, e, v, x, Restart(v), Alone(Detect, true, 0, true));
    acts := Retires(s0, acts, site, n, e, v, Free);
    ReachableInv(s0, acts);
    LateActivation(Exec(s0, acts), v, e);
  }

  /** A worker accepts a session on descriptor 0. */
  lemma AcceptOnZero(n: nat, e: nat, v: nat, site: Site) returns (s0: State, acts: seq<Action>)
    requires v < n && e != v && site.zero
    ensures Init(s0) && |s0.ws| == n
    ensures Reaches(s0, acts, site, n, e, v, View(Idle(), Active(User, true, 0).(zero := Inet), 0, 1, true))
  {
    s0, acts := BackHome(n, e, v, site);
    var x := Alone(User, true, 0, true);
    acts := Go(s0, acts, site, n, e, v, x, Accept4(v, Session(true, true)), x.(wv := x.wv.(zero := Inet)));
  }

  /** The run that fails with everybody active: the only worker serves on descriptor 0 and decides to kill. */
  lemma DecidesWithSession(site: Site) returns (s0: State, acts: seq<Action>)
    requires site.zero
    ensures Init(s0) && Executable(s0, acts) && Within(s0, acts, site)
    ensures var s := Exec(s0, acts);
      |s.ws| == 1 && Decides(s, 0) && AllActivated(s) && Serving(s.ws[0]) == 1 && !KillsSafely(s, 0)
  {
    s0, acts := AcceptOnZero(1, 1, 0, site);
    var x := View(Idle(), Active(User, true, 0).(zero := Inet), 0, 1, true);
    acts := Go(s0, acts, site, 1, 1, 0, x, EpollWait(0), x.(wv := x.wv.(pc := Detect)));
    acts := Retires(s0, acts, site, 1, 1, 0, Inet);
    ReachableInv(s0, acts);
    CutSession(Exec(s0, acts), 0, 0);
  }

  /** Every decision taken with all workers active, in a run within the site, is safe. */
  ghost predicate AlwaysSafe(site: Site) {
    forall s0: State, acts: seq<Action>, k: nat {:trigger Executable(s0, acts), Decides(Exec(s0, acts), k)} ::
      && Init(s0) && Executable(s0, acts) && Within(s0, acts, site)
      && Decides(Exec(s0, acts), k) && AllActivated(Exec(s0, acts)) ==>
      KillsSafely(Exec(s0, acts), k)
  }

  /** That is so if and only if no session gets descriptor 0; sessions that are no AF_INET streams do no harm. */
  lemma AlwaysSafeIff(site: Site)
    ensures AlwaysSafe(site) <==> !site.zero
  {
    if site.zero {
      var s0, acts := DecidesWithSession(site);
      assert Decides(Exec(s0, acts), 0);
    } else {
      forall s0: State, acts: seq<Action>, k: nat
        | && Init(s0) && Executable(s0, acts) && Within(s0, acts, site)
          && Decides(Exec(s0, acts), k) && AllActivated(Exec(s0, acts))
        ensures KillsSafely(Exec(s0, acts), k)
      {
        KillSafeIffAllActive(s0, acts, site, k);
      }
    }
  }

  /** The session tokens on the way or queued are those of the open sessions and of the takes to come. */
  predicate Balanced(s: State) {
    s.sessions + Sum(s.ws, Unannounced) == Sum(s.ws, OpenSessions) + Sum(s.ws, Untaken)
  }

  ghost predicate AlwaysBalanced(site: Site) {
    forall s0: State, acts: seq<Action> {:trigger Executable(s0, acts)} ::
      Init(s0) && Executable(s0, acts) && Within(s0, acts, site) ==> Balanced(Exec(s0, acts))
  }

  lemma {:induction false} NoLeaks(s: State, acts: seq<Action>, site: Site)
    requires Inv(s) && Bounded(s) && Executable(s, acts) && Within(s, acts, site) && !site.foreign
    ensures Leaks(acts) == 0
    decreases acts
  {
    if acts != [] {
      assert s.ws[acts[0].w].foreign == 0;
      StepBounded(s, acts[0]);
      StepInv(s, acts[0]);
      NoLeaks(Apply(s, acts[0]), acts[1..], site);
    }
  }

  /** The only worker is in the application, with sessions queued tokens and this on descriptor 0. */
  lemma Unbalanced(s: State, x: View)
    requires Duo(s, 1, 1, 0, x) && x.wv == Active(User, true, 0).(zero := x.wv.zero)
    requires x.sessions != if x.wv.zero == Free then 0 else 1
    ensures !Balanced(s)
  {
    assert s.ws[1..] == [] && Sum(s.ws, Unannounced) == 0 && Sum(s.ws, Untaken) == 0;
    assert Sum(s.ws, OpenSessions) == Serving(x.wv);
  }

  /** The queues balance exactly if and only if every session is an AF_INET stream on a positive descriptor. */
  lemma TokensConservedIff(site: Site)
    ensures AlwaysBalanced(site) <==> !site.zero && !site.foreign
  {
    if site.zero {
      var s0, acts := AcceptOnZero(1, 1, 0, site);
      Unbalanced(Exec(s0, acts), View(Idle(), Active(User, true, 0).(zero := Inet), 0, 1, true));
    } else if site.foreign {
      var s0, acts := LeaveToken(1, 1, 0, site);
      Unbalanced(Exec(s0, acts), Alone(User, true, 0, true).(sessions := 1));
    } else {
      forall s0: State, acts: seq<Action> | Init(s0) && Executable(s0, acts) && Within(s0, acts, site)
        ensures Balanced(Exec(s0, acts))
      {
        InitInv(s0);
        NoLeaks(s0, acts, site);
        TokensConserved(s0, acts, site);
      }
    }
  }
}
