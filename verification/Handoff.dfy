/**
  Handing a listening socket from one version of the server to the next.

  The model follows one port through any number of versions.  Each version
  either binds the abstract name of the port or, when the name is taken,
  connects to it, asks for the port and inherits two kernel sockets: the
  public listener and the monitor listener.  Later it reports ready on the
  same connection, upon which a worker of the old version sets a latch that
  all workers of that version observe.  Every system call is one step.
 */
module Handoff {
  import opened Options

  /** The kernel sockets that are handed on, by the version that created them. */
  datatype Socket =
    | Public(maker: nat)
    | Monitor(maker: nat)
    | NoSocket

  /** A message that carries a descriptor, of which kernel socket, and the port beside it. */
  datatype Packet = Packet(sock: Socket, port: int)

  /** How far a version has come in `bind`. */
  datatype Phase =
    | Start                      // about to bind the abstract name
    | Connected                  // name was taken; connected to its listener
    | Requested                  // port sent, waiting for the first descriptor
    | HalfAnswered(got: Packet)  // waiting for the second descriptor
    | Serving
    | Failed                     // bind went on without inheriting
    | Gone                       // all its processes have exited

  datatype Version = Version(
    phase: Phase,
    pub: Socket,                 // kernel socket behind the public descriptor
    mon: Socket,                 // kernel socket behind the monitor descriptor
    conn: Option<nat>,           // its connection to the previous version
    owesReady: bool,             // comfd_close is set
    sentReady: bool,
    latch: bool,                 // a datagram lies on readyfd
    decided: bool)               // one of its workers has seen the worker queue empty

  /** Workers of all versions; a worker belongs to one version for good. */
  datatype Worker = Worker(ver: nat, ready: bool, active: bool)

  /** An internal connection, from the version that made it to the worker that accepted it. */
  datatype Conn = Conn(
    client: nat,
    listener: Socket,            // monitor socket it was made to
    server: Option<nat>,         // accepting worker
    toServer: seq<int>,
    toClient: seq<Packet>,
    owes: Option<int>,           // server between its two writes, with the port of the first
    clientOpen: bool,
    listed: bool,                // in its server's list of connections
    closes: nat,                 // times the server closed it
    cut: bool)                   // its server was killed with it in the list

  datatype State = State(
    port: int,
    vs: seq<Version>,
    ws: seq<Worker>,
    cs: seq<Conn>,
    order: seq<nat>)             // versions in the order in which they began to serve

  datatype Action =
    | Launch
    | BindName(v: nat, workers: nat)
    | Connect(v: nat, holder: nat)
    | SendPort(v: nat)
    | SendFails(v: nat)          // the connection was cut
    | RecvFirst(v: nat)
    | RecvSecond(v: nat, dup2: bool, workers: nat)
    | RecvClosed(v: nat, dup2: bool, workers: nat)
    | SendReady(v: nat)
    | LoseReady(v: nat)          // send failed: comfd_close is forgotten
    | Accept(w: nat, c: nat)
    | Read(w: nat, c: nat)
    | ReadError(w: nat, c: nat)
    | ReadClosed(w: nat, c: nat)
    | WriteSecond(w: nat, c: nat)
    | Observe(w: nat)
    | Activate(w: nat)
    | Decide(v: nat)
    | Kill(v: nat)
    | Exit(v: nat)

  /** The server end of connection c is open in worker w. */
  predicate Holds(s: State, w: nat, c: nat) {
    w < |s.ws| && c < |s.cs| && s.cs[c].server == Some(w) && s.cs[c].listed
  }

  /** The server end of connection c is open in some worker of version v. */
  predicate HeldBy(s: State, v: nat, c: nat)
    requires c < |s.cs|
  {
    var server := s.cs[c].server;
    server.Some? && server.value < |s.ws| && s.ws[server.value].ver == v && s.cs[c].listed
  }

  predicate HoldsNothing(s: State, w: nat) {
    forall c :: 0 <= c < |s.cs| ==> !Holds(s, w, c)
  }

  predicate NameTaken(s: State) {
    exists h :: 0 <= h < |s.vs| && s.vs[h].phase == Serving
  }

  /** Version v is at its own connection. */
  predicate AtConn(s: State, v: nat) {
    v < |s.vs| && s.vs[v].conn.Some? && s.vs[v].conn.value < |s.cs|
  }

  predicate ServedBy(s: State, w: nat) {
    w < |s.ws| && s.ws[w].ver < |s.vs| && s.vs[s.ws[w].ver].phase == Serving
  }

  predicate Enabled(s: State, a: Action) {
    match a
    case Launch => true
    case BindName(v, n) => v < |s.vs| && s.vs[v].phase == Start && n > 0 && !NameTaken(s)
    case Connect(v, h) => v < |s.vs| && s.vs[v].phase == Start && h < |s.vs| && s.vs[h].phase == Serving
    case SendPort(v) => AtConn(s, v) && s.vs[v].phase == Connected && !s.cs[s.vs[v].conn.value].cut
    case SendFails(v) => AtConn(s, v) && s.vs[v].phase == Connected && s.cs[s.vs[v].conn.value].cut
    case RecvFirst(v) => AtConn(s, v) && s.vs[v].phase == Requested && s.cs[s.vs[v].conn.value].toClient != []
    case RecvSecond(v, _, n) =>
      AtConn(s, v) && s.vs[v].phase.HalfAnswered? && n > 0 && s.cs[s.vs[v].conn.value].toClient != []
    case RecvClosed(v, _, n) =>
      && AtConn(s, v) && (s.vs[v].phase == Requested || s.vs[v].phase.HalfAnswered?)
      && n > 0 && s.cs[s.vs[v].conn.value].toClient == []
      && (s.cs[s.vs[v].conn.value].closes > 0 || s.cs[s.vs[v].conn.value].cut)
    case SendReady(v) =>
      AtConn(s, v) && s.vs[v].phase == Serving && s.vs[v].owesReady && !s.cs[s.vs[v].conn.value].cut
    case LoseReady(v) => AtConn(s, v) && s.vs[v].phase == Serving && s.vs[v].owesReady
    case Accept(w, c) =>
      && ServedBy(s, w) && s.ws[w].active && !s.ws[w].ready
      && c < |s.cs| && s.cs[c].server == None && s.cs[c].listener == s.vs[s.ws[w].ver].mon
    case Read(w, c) => ServedBy(s, w) && Holds(s, w, c) && s.cs[c].owes == None && s.cs[c].toServer != []
    case ReadError(w, c) => ServedBy(s, w) && Holds(s, w, c) && s.cs[c].owes == None
    case ReadClosed(w, c) =>
      ServedBy(s, w) && Holds(s, w, c) && s.cs[c].owes == None && s.cs[c].toServer == [] && !s.cs[c].clientOpen
    case WriteSecond(w, c) => ServedBy(s, w) && Holds(s, w, c) && s.cs[c].owes.Some?
    case Observe(w) => ServedBy(s, w) && s.ws[w].active && s.vs[s.ws[w].ver].latch
    case Activate(w) => ServedBy(s, w) && !s.ws[w].active
    case Decide(v) =>
      && v < |s.vs| && s.vs[v].phase == Serving
      && (exists w :: 0 <= w < |s.ws| && s.ws[w].ver == v && s.ws[w].active)
      && (forall w :: 0 <= w < |s.ws| && s.ws[w].ver == v && s.ws[w].active ==> s.ws[w].ready && HoldsNothing(s, w))
    case Kill(v) => v < |s.vs| && s.vs[v].phase == Serving && s.vs[v].decided
    case Exit(v) => v < |s.vs| && s.vs[v].phase == Failed
  }

  function HangUp(s: State, v: nat): seq<Conn>
    requires v < |s.vs|
  {
    if AtConn(s, v) then var c := s.vs[v].conn.value; s.cs[c := s.cs[c].(clientOpen := false)] else s.cs
  }

  /** Connection c after version v was killed: the kernel closes both kinds of ends that v held. */
  function AfterKill(s: State, v: nat, c: nat): Conn
    requires v < |s.vs| && c < |s.cs|
  {
    var x := if s.vs[v].conn == Some(c) then s.cs[c].(clientOpen := false) else s.cs[c];
    if HeldBy(s, v, c) then x.(listed := false, cut := true) else x
  }

  /** Version v begins to serve with the given sockets and n workers. */
  function Serve(s: State, v: nat, pub: Socket, mon: Socket, inherited: bool, n: nat): State
    requires v < |s.vs|
  {
    s.(vs := s.vs[v := s.vs[v].(phase := Serving, pub := pub, mon := mon, owesReady := inherited)],
       ws := s.ws + seq(n, _ => Worker(v, false, false)),
       order := s.order + [v])
  }

  function Apply(s: State, a: Action): State
    requires Enabled(s, a)
  {
    match a
    case Launch => s.(vs := s.vs + [Version(Start, NoSocket, NoSocket, None, false, false, false, false)])
    case BindName(v, n) => Serve(s, v, Public(v), Monitor(v), false, n)
    case Connect(v, h) =>
      s.(vs := s.vs[v := s.vs[v].(phase := Connected, conn := Some(|s.cs|))],
         cs := s.cs + [Conn(v, s.vs[h].mon, None, [], [], None, true, false, 0, false)])
    case SendPort(v) =>
      var c := s.vs[v].conn.value;
      s.(vs := s.vs[v := s.vs[v].(phase := Requested)],
         cs := s.cs[c := s.cs[c].(toServer := s.cs[c].toServer + [s.port])])
    case SendFails(v) => s.(vs := s.vs[v := s.vs[v].(phase := Failed)])
    case RecvFirst(v) =>
      var c := s.vs[v].conn.value;
      s.(vs := s.vs[v := s.vs[v].(phase := HalfAnswered(s.cs[c].toClient[0]))],
         cs := s.cs[c := s.cs[c].(toClient := s.cs[c].toClient[1..])])
    case RecvSecond(v, dup2, n) =>
      var c := s.vs[v].conn.value;
      var second := s.cs[c].toClient[0];
      var t := s.(cs := s.cs[c := s.cs[c].(toClient := s.cs[c].toClient[1..])]);
      if second.port > 0 && dup2 then Serve(t, v, s.vs[v].phase.got.sock, second.sock, true, n)
      else t.(vs := s.vs[v := s.vs[v].(phase := Failed)])
    case RecvClosed(v, dup2, n) =>
      // The port of the first message, if any, decides; descriptor 0 stands in for the missing monitor.
      if s.vs[v].phase.HalfAnswered? && s.vs[v].phase.got.port > 0 && dup2
      then Serve(s, v, s.vs[v].phase.got.sock, NoSocket, true, n)
      else s.(vs := s.vs[v := s.vs[v].(phase := Failed)])
    case SendReady(v) =>
      var c := s.vs[v].conn.value;
      s.(vs := s.vs[v := s.vs[v].(owesReady := false, sentReady := true)],
         cs := s.cs[c := s.cs[c].(toServer := s.cs[c].toServer + [1], clientOpen := false)])
    case LoseReady(v) => s.(vs := s.vs[v := s.vs[v].(owesReady := false)])
    case Accept(w, c) => s.(cs := s.cs[c := s.cs[c].(server := Some(w), listed := true)])
    case Read(w, c) =>
      var v := s.ws[w].ver;
      var conn := s.cs[c].(toServer := s.cs[c].toServer[1..]);
      if s.cs[c].toServer[0] == 1 then
        s.(vs := s.vs[v := s.vs[v].(latch := true)], cs := s.cs[c := conn.(closes := conn.closes + 1, listed := false)])
      else
        s.(cs := s.cs[c := conn.(toClient := conn.toClient + [Packet(s.vs[v].pub, s.port)], owes := Some(s.port))])
    case ReadError(w, c) =>
      var v := s.ws[w].ver;
      s.(cs := s.cs[c := s.cs[c].(toClient := s.cs[c].toClient + [Packet(s.vs[v].pub, -1)], owes := Some(-1))])
    case ReadClosed(w, c) => s.(cs := s.cs[c := s.cs[c].(closes := s.cs[c].closes + 1, listed := false)])
    case WriteSecond(w, c) =>
      var v := s.ws[w].ver;
      var conn := s.cs[c];
      s.(cs := s.cs[c := conn.(toClient := conn.toClient + [Packet(s.vs[v].mon, conn.owes.value)], owes := None)])
    case Observe(w) => s.(ws := s.ws[w := s.ws[w].(ready := true)])
    case Activate(w) => s.(ws := s.ws[w := s.ws[w].(active := true)])
    case Decide(v) => s.(vs := s.vs[v := s.vs[v].(decided := true)])
    case Kill(v) =>
      s.(vs := s.vs[v := s.vs[v].(phase := Gone)],
         cs := seq(|s.cs|, c requires 0 <= c < |s.cs| => AfterKill(s, v, c)))
    case Exit(v) => s.(vs := s.vs[v := s.vs[v].(phase := Gone)], cs := HangUp(s, v))
  }

  function Init(port: int): State {
    State(port, [], [], [], [])
  }

  predicate Executable(s: State, acts: seq<Action>)
    decreases acts
  {
    acts == [] || (Enabled(s, acts[0]) && Executable(Apply(s, acts[0]), acts[1..]))
  }

  function Exec(s: State, acts: seq<Action>): State
    requires Executable(s, acts)
    decreases acts
  {
    if acts == [] then s else Exec(Apply(s, acts[0]), acts[1..])
  }

  // ----- Killing a version whose late workers hold connections -----

  /**
    The client of connection c has taken the first descriptor, or finds it in
    its queue, and nothing else: if the connection is cut now, it will serve
    without a monitor.
   */
  predicate HalfServed(s: State, c: nat)
    requires c < |s.cs|
  {
    var x := s.cs[c];
    && x.client < |s.vs|
    && var phase := s.vs[x.client].phase;
       || (phase == Requested && |x.toClient| == 1 && x.toClient[0].port > 0)
       || (phase.HalfAnswered? && phase.got.port > 0 && x.toClient == [])
  }

  /** Killing version v cuts an answer in half. */
  predicate Cuts(s: State, v: nat) {
    exists c :: 0 <= c < |s.cs| && HeldBy(s, v, c) && HalfServed(s, c)
  }

  /** No kill in the run cuts an answer in half. */
  predicate Harmless(s: State, acts: seq<Action>)
    requires Executable(s, acts)
    decreases acts
  {
    acts == [] || ((acts[0].Kill? ==> !Cuts(s, acts[0].v)) && Harmless(Apply(s, acts[0]), acts[1..]))
  }

  // ----- The invariant, for every port but 1 -----

  /** u began to serve before v. */
  predicate Before(order: seq<nat>, u: nat, v: nat) {
    exists i, j :: 0 <= i < j < |order| && order[i] == u && order[j] == v
  }

  /** v has handed over: a version that began to serve later has reported ready. */
  predicate Succeeded(s: State, v: nat) {
    exists u :: 0 <= u < |s.vs| && s.vs[u].sentReady && Before(s.order, v, u)
  }

  /**
    A queue of replies in which every public descriptor is followed by the
    monitor descriptor with the same port.  `awaited` is the port of a public
    descriptor the reader already took, `owes` that of one the writer has
    still to complete.
   */
  predicate Paired(q: seq<Packet>, root: nat, awaited: Option<int>, owes: Option<int>)
    decreases q
  {
    if q == [] then awaited == owes
    else if awaited.Some? then q[0] == Packet(Monitor(root), awaited.value) && Paired(q[1..], root, None, owes)
    else q[0].sock == Public(root) && Paired(q[1..], root, Some(q[0].port), owes)
  }

  lemma {:induction false} PairedPublic(q: seq<Packet>, root: nat, awaited: Option<int>, port: int)
    requires Paired(q, root, awaited, None)
    ensures Paired(q + [Packet(Public(root), port)], root, awaited, Some(port))
  {
    if q == [] {
      assert q + [Packet(Public(root), port)] == [Packet(Public(root), port)];
    } else {
      assert (q + [Packet(Public(root), port)])[1..] == q[1..] + [Packet(Public(root), port)];
      PairedPublic(q[1..], root, if awaited.Some? then None else Some(q[0].port), port);
    }
  }

  lemma {:induction false} PairedMonitor(q: seq<Packet>, root: nat, awaited: Option<int>, port: int)
    requires Paired(q, root, awaited, Some(port))
    ensures Paired(q + [Packet(Monitor(root), port)], root, awaited, None)
  {
    if q == [] {
      assert q + [Packet(Monitor(root), port)] == [Packet(Monitor(root), port)];
    } else {
      assert (q + [Packet(Monitor(root), port)])[1..] == q[1..] + [Packet(Monitor(root), port)];
      PairedMonitor(q[1..], root, if awaited.Some? then None else Some(q[0].port), port);
    }
  }

  function Awaited(phase: Phase): Option<int> {
    if phase.HalfAnswered? then Some(phase.got.port) else None
  }

  predicate Binding(phase: Phase) {
    phase in {Start, Connected, Requested} || phase.HalfAnswered?
  }

  /** Version v did not give up half way through its two reads. */
  predicate Reads(s: State, v: nat)
    requires v < |s.vs|
  {
    Binding(s.vs[v].phase) || v in s.order
  }

  predicate VersionOk(s: State, v: nat)
    requires v < |s.vs|
  {
    var x := s.vs[v];
    && (x.phase == Serving ==> v in s.order)
    && (v in s.order ==> x.phase in {Serving, Gone} && x.pub == Public(s.order[0]) && x.mon == Monitor(s.order[0]))
    && (x.conn.Some? ==> x.conn.value < |s.cs| && s.cs[x.conn.value].client == v)
    && (x.phase == Start <==> Binding(x.phase) && x.conn == None)
    && (x.phase.HalfAnswered? ==> s.order != [] && x.phase.got.sock == Public(s.order[0]))
    && (x.owesReady || x.sentReady ==> v in s.order && x.conn.Some?)
    && !(x.owesReady && x.sentReady)
    && (x.latch ==> v in s.order && Succeeded(s, v))
    && (x.decided ==> x.latch)
  }

  predicate ConnOk(s: State, c: nat)
    requires c < |s.cs|
  {
    var x := s.cs[c];
    && s.order != [] && x.listener == Monitor(s.order[0])
    && x.client < |s.vs| && s.vs[x.client].conn == Some(c)
    && (x.server == None ==>
          && x.toClient == [] && x.owes == None && x.closes == 0 && !x.listed && !x.cut
          && s.vs[x.client].phase in {Connected, Requested})
    && (x.server.Some? ==>
          && x.server.value < |s.ws| && s.ws[x.server.value].ver in s.order && s.ws[x.server.value].active
          && (x.client in s.order ==> Before(s.order, s.ws[x.server.value].ver, x.client)))
    && (1 in x.toServer || (!x.clientOpen && s.vs[x.client].phase != Gone) ==> s.vs[x.client].sentReady)
    && x.closes <= 1
    && (x.listed ==> x.closes == 0 && !x.cut)
    && (x.cut ==> x.closes == 0 && !HalfServed(s, c))
    && (x.closes == 1 ==> x.owes == None && (s.vs[x.client].sentReady || s.vs[x.client].phase == Gone))
    && (Reads(s, x.client) ==> Paired(x.toClient, s.order[0], Awaited(s.vs[x.client].phase), x.owes))
  }

  predicate WorkerOk(s: State, w: nat)
    requires w < |s.ws|
  {
    s.ws[w].ver < |s.vs| && s.ws[w].ver in s.order && (s.ws[w].ready ==> s.ws[w].active && s.vs[s.ws[w].ver].latch)
  }

  function Last(order: seq<nat>): nat
    requires order != []
  {
    order[|order| - 1]
  }

  predicate OrderOk(s: State) {
    && (forall i :: 0 <= i < |s.order| ==> s.order[i] < |s.vs|)
    && (forall i, j :: 0 <= i < j < |s.order| ==> s.order[i] != s.order[j])
    && (s.order != [] ==> s.vs[Last(s.order)].phase == Serving && !s.vs[Last(s.order)].latch)
  }

  predicate Inv(s: State) {
    && s.port != 1
    && OrderOk(s)
    && (forall v :: 0 <= v < |s.vs| ==> VersionOk(s, v))
    && (forall c :: 0 <= c < |s.cs| ==> ConnOk(s, c))
    && (forall w :: 0 <= w < |s.ws| ==> WorkerOk(s, w))
  }

  lemma BeforeAppend(order: seq<nat>, u: nat, v: nat, x: nat)
    ensures Before(order, u, v) ==> Before(order + [x], u, v)
    ensures u in order ==> Before(order + [x], u, x)
  {
    if Before(order, u, v) {
      var i, j :| 0 <= i < j < |order| && order[i] == u && order[j] == v;
      assert (order + [x])[i] == u && (order + [x])[j] == v;
    }
    if u in order {
      var i :| 0 <= i < |order| && order[i] == u;
      assert (order + [x])[i] == u && (order + [x])[|order|] == x;
    }
  }

  /** What no step ever undoes. */
  predicate Grows(s: State, t: State) {
    && |s.vs| <= |t.vs| && |s.ws| <= |t.ws| && |s.cs| <= |t.cs| && s.order <= t.order
    && (forall v :: 0 <= v < |s.vs| ==> VersionGrows(s.vs[v], t.vs[v]))
    && (forall w :: 0 <= w < |s.ws| ==> WorkerGrows(s.ws[w], t.ws[w]))
    && (forall c :: 0 <= c < |s.cs| ==> ConnGrows(s.cs[c], t.cs[c]))
  }

  predicate VersionGrows(x: Version, y: Version) {
    && (x.conn.Some? ==> y.conn == x.conn) && (x.sentReady ==> y.sentReady)
    && (x.latch ==> y.latch) && (x.decided ==> y.decided)
  }

  predicate WorkerGrows(x: Worker, y: Worker) {
    y.ver == x.ver && (x.ready ==> y.ready) && (x.active ==> y.active)
  }

  predicate ConnGrows(x: Conn, y: Conn) {
    && y.client == x.client && y.listener == x.listener
    && (x.server.Some? ==> y.server == x.server) && x.closes <= y.closes
  }

  /** Steps of a worker that serves. */
  predicate OnServerSide(a: Action) {
    a.Accept? || a.Read? || a.ReadError? || a.ReadClosed? || a.WriteSecond?
  }

  predicate OfWorker(a: Action) {
    OnServerSide(a) || a.Observe? || a.Activate?
  }

  lemma ServerStepGrows(s: State, a: Action)
    requires Enabled(s, a) && OfWorker(a)
    ensures Grows(s, Apply(s, a))
  {
  }

  lemma KillGrows(s: State, v: nat)
    requires Enabled(s, Kill(v))
    ensures Grows(s, Apply(s, Kill(v)))
  {
  }

  /** Steps that add a version, a worker or a connection. */
  predicate Creates(a: Action) {
    a.Launch? || a.BindName? || a.Connect? || a.RecvSecond? || a.RecvClosed?
  }

  lemma ConnectGrows(s: State, a: Action)
    requires Enabled(s, a) && a.Connect? && VersionOk(s, a.v)
    ensures Grows(s, Apply(s, a))
  {
  }

  lemma CreateGrows(s: State, a: Action)
    requires Enabled(s, a) && Creates(a) && !a.Connect?
    ensures Grows(s, Apply(s, a))
  {
  }

  lemma ClientStepGrows(s: State, a: Action)
    requires Enabled(s, a) && !OfWorker(a) && !a.Kill? && !Creates(a)
    ensures Grows(s, Apply(s, a))
  {
  }

  lemma StepGrows(s: State, a: Action)
    requires Inv(s) && Enabled(s, a)
    ensures Grows(s, Apply(s, a))
  {
    if OfWorker(a) {
      ServerStepGrows(s, a);
    } else if a.Kill? {
      KillGrows(s, a.v);
    } else if a.Connect? {
      ConnectGrows(s, a);
    } else if Creates(a) {
      CreateGrows(s, a);
    } else {
      ClientStepGrows(s, a);
    }
  }

  lemma BeforeGrows(s: State, t: State, u: nat, v: nat)
    requires Grows(s, t) && Before(s.order, u, v)
    ensures Before(t.order, u, v)
  {
    var i, j :| 0 <= i < j < |s.order| && s.order[i] == u && s.order[j] == v;
    assert t.order[i] == u && t.order[j] == v;
  }

  lemma SucceededGrows(s: State, t: State, v: nat)
    requires Grows(s, t) && Succeeded(s, v)
    ensures Succeeded(t, v)
  {
    var u :| 0 <= u < |s.vs| && s.vs[u].sentReady && Before(s.order, v, u);
    BeforeGrows(s, t, v, u);
    assert t.vs[u].sentReady;
  }

  /** The newest serving version has not been succeeded. */
  lemma LastNotSucceeded(s: State, v: nat)
    requires OrderOk(s) && s.order != [] && Succeeded(s, v)
    ensures v != Last(s.order)
  {
  }

  /**
    A client that waits for an answer is hung up on only because its server
    was killed, and then it has not been given a port to serve.
   */
  lemma OnlyCutByKill(s: State, v: nat)
    requires Inv(s) && AtConn(s, v) && Binding(s.vs[v].phase)
    ensures var x := s.cs[s.vs[v].conn.value];
      && x.closes == 0
      && (x.cut && x.toClient == [] ==> !(s.vs[v].phase.HalfAnswered? && s.vs[v].phase.got.port > 0))
  {
    var c := s.vs[v].conn.value;
    assert VersionOk(s, v) && ConnOk(s, c);
  }

  lemma ClosedFails(s: State, a: Action)
    requires Inv(s) && Enabled(s, a) && a.RecvClosed?
    ensures Apply(s, a) == s.(vs := s.vs[a.v := s.vs[a.v].(phase := Failed)])
  {
    assert VersionOk(s, a.v);
    OnlyCutByKill(s, a.v);
  }

  /** The name is taken exactly from the first version that serves on. */
  lemma TakenIffServed(s: State)
    requires Inv(s)
    ensures NameTaken(s) <==> s.order != []
  {
    if NameTaken(s) {
      var h :| 0 <= h < |s.vs| && s.vs[h].phase == Serving;
      assert VersionOk(s, h);
    }
  }

  /** The message that a worker reads as ready was sent by a version that serves, later than the worker's own. */
  lemma ReadyComesFromSuccessor(s: State, w: nat, c: nat)
    requires Inv(s) && Enabled(s, Read(w, c)) && s.cs[c].toServer[0] == 1
    ensures Succeeded(s, s.ws[w].ver)
  {
    assert ConnOk(s, c) && 1 in s.cs[c].toServer;
    assert VersionOk(s, s.cs[c].client);
  }

  lemma ServerStepOrder(s: State, a: Action)
    requires Inv(s) && Enabled(s, a) && OfWorker(a)
    ensures OrderOk(Apply(s, a))
  {
    if a.Read? && s.cs[a.c].toServer[0] == 1 {
      ReadyComesFromSuccessor(s, a.w, a.c);
      LastNotSucceeded(s, s.ws[a.w].ver);
    }
  }

  lemma ClientStepOrder(s: State, a: Action)
    requires Inv(s) && Enabled(s, a) && !OfWorker(a)
    ensures OrderOk(Apply(s, a))
  {
    if a.Kill? {
      KilledHasSuccessor(s, a.v);
    } else if a.RecvClosed? {
      ClosedFails(s, a);
      assert VersionOk(s, a.v);
    } else if a.BindName? || a.RecvSecond? {
      NewestOrder(s, a);
    } else if !a.Launch? {
      assert VersionOk(s, a.v);
    }
  }

  /** A version that begins to serve was not serving before, and its latch is not set. */
  lemma NewestOrder(s: State, a: Action)
    requires Inv(s) && Enabled(s, a) && (a.BindName? || a.RecvSecond?)
    ensures OrderOk(Apply(s, a))
  {
    TakenIffServed(s);
    assert VersionOk(s, a.v);
  }

  lemma StepOrder(s: State, a: Action)
    requires Inv(s) && Enabled(s, a)
    ensures OrderOk(Apply(s, a))
  {
    if OfWorker(a) {
      ServerStepOrder(s, a);
    } else {
      ClientStepOrder(s, a);
    }
  }

  lemma KilledHasSuccessor(s: State, v: nat)
    requires Inv(s) && Enabled(s, Kill(v))
    ensures s.order != [] && v != Last(s.order)
  {
    assert VersionOk(s, v);
    LastNotSucceeded(s, v);
  }

  /** A version the step does not mention. */
  lemma OtherVersion(s: State, t: State, v: nat)
    requires Grows(s, t) && v < |s.vs| && t.vs[v] == s.vs[v] && VersionOk(s, v)
    requires v in t.order ==> v in s.order
    ensures VersionOk(t, v)
  {
    assert forall u :: u in s.order ==> u in t.order;
    if s.vs[v].latch {
      SucceededGrows(s, t, v);
    }
  }

  /** Starting to serve with the sockets of the first version. */
  lemma ServingVersion(s: State, v: nat, pub: Socket, mon: Socket, inherited: bool, n: nat)
    requires Inv(s) && v < |s.vs| && Binding(s.vs[v].phase)
    requires var root := if s.order == [] then v else s.order[0]; pub == Public(root) && mon == Monitor(root)
    requires inherited ==> s.vs[v].conn.Some?
    ensures VersionOk(Serve(s, v, pub, mon, inherited, n), v)
  {
    assert VersionOk(s, v);
    assert v in s.order + [v] && Public((s.order + [v])[0]) == pub;
  }

  /** The version whose record the step changes, if any. */
  function Touched(s: State, a: Action): Option<nat>
    requires Enabled(s, a)
  {
    match a
    case Launch => Some(|s.vs|)
    case Accept(_, _) => None
    case Read(w, c) => if s.cs[c].toServer[0] == 1 then Some(s.ws[w].ver) else None
    case ReadError(_, _) => None
    case ReadClosed(_, _) => None
    case WriteSecond(_, _) => None
    case Observe(_) => None
    case Activate(_) => None
    case _ => Some(a.v)
  }

  /** What the next reply of a client's queue must be. */
  lemma NextReply(s: State, v: nat)
    requires Inv(s) && AtConn(s, v) && s.cs[s.vs[v].conn.value].toClient != []
    ensures s.order != []
    ensures var q := s.cs[s.vs[v].conn.value].toClient;
      && (s.vs[v].phase == Requested ==> q[0].sock == Public(s.order[0]))
      && (s.vs[v].phase.HalfAnswered? ==>
            && q[0] == Packet(Monitor(s.order[0]), s.vs[v].phase.got.port)
            && s.vs[v].phase.got.sock == Public(s.order[0]))
  {
    assert VersionOk(s, v) && ConnOk(s, s.vs[v].conn.value);
  }

  lemma ReadyVersion(s: State, a: Action)
    requires Inv(s) && Enabled(s, a) && a.Read? && Touched(s, a).Some?
    ensures VersionOk(Apply(s, a), Touched(s, a).value)
  {
    var v := Touched(s, a).value;
    StepGrows(s, a);
    ReadyComesFromSuccessor(s, a.w, a.c);
    assert VersionOk(s, v) && WorkerOk(s, a.w);
    SucceededGrows(s, Apply(s, a), v);
  }

  /** A version moves on by itself, is told to die, or is killed. */
  lemma OwnVersion(s: State, a: Action)
    requires Inv(s) && Enabled(s, a) && !OfWorker(a)
    requires !a.Launch? && !a.BindName? && !a.RecvSecond? && !a.RecvClosed? && !a.Decide?
    ensures VersionOk(Apply(s, a), a.v)
  {
    var v := a.v;
    assert VersionOk(s, v);
    StepGrows(s, a);
    if a.RecvFirst? {
      NextReply(s, v);
    }
    if s.vs[v].latch {
      SucceededGrows(s, Apply(s, a), v);
    }
  }

  lemma TouchedVersion(s: State, a: Action)
    requires Inv(s) && Enabled(s, a) && Touched(s, a).Some?
    ensures VersionOk(Apply(s, a), Touched(s, a).value)
  {
    var v := Touched(s, a).value;
    if a.BindName? {
      TakenIffServed(s);
      ServingVersion(s, v, Public(v), Monitor(v), false, a.workers);
    } else if a.RecvSecond? {
      AnsweredVersion(s, a);
    } else if a.RecvClosed? {
      ClosedFails(s, a);
      FailedVersion(s, a.v);
    } else if a.Decide? {
      DecidedVersion(s, a);
    } else if a.Read? {
      ReadyVersion(s, a);
    } else if !a.Launch? {
      OwnVersion(s, a);
    }
  }

  lemma FailedVersion(s: State, v: nat)
    requires Inv(s) && v < |s.vs| && Binding(s.vs[v].phase)
    ensures VersionOk(s.(vs := s.vs[v := s.vs[v].(phase := Failed)]), v)
  {
    assert VersionOk(s, v);
  }

  /** A decision to kill is taken by a worker that has seen the latch. */
  lemma DecidedVersion(s: State, a: Action)
    requires Inv(s) && Enabled(s, a) && a.Decide?
    ensures VersionOk(Apply(s, a), a.v)
  {
    var w :| 0 <= w < |s.ws| && s.ws[w].ver == a.v && s.ws[w].active;
    assert WorkerOk(s, w) && VersionOk(s, a.v);
    StepGrows(s, a);
    SucceededGrows(s, Apply(s, a), a.v);
  }

  /** The second reply makes the version serve with the sockets of the first version, or fail. */
  lemma AnsweredVersion(s: State, a: Action)
    requires Inv(s) && Enabled(s, a) && a.RecvSecond?
    ensures VersionOk(Apply(s, a), a.v)
  {
    assert VersionOk(s, a.v);
    NextReply(s, a.v);
  }

  lemma StepVersions(s: State, a: Action)
    requires Inv(s) && Enabled(s, a)
    ensures var t := Apply(s, a); forall v :: 0 <= v < |t.vs| ==> VersionOk(t, v)
  {
    StepGrows(s, a);
    var t := Apply(s, a);
    forall v | 0 <= v < |t.vs| ensures VersionOk(t, v) {
      if Touched(s, a) == Some(v) {
        TouchedVersion(s, a);
      } else {
        assert VersionOk(s, v);
        OtherVersion(s, t, v);
      }
    }
  }

  /** The connection whose record the step changes, if any. */
  function TouchedConn(s: State, a: Action): Option<nat>
    requires Enabled(s, a)
  {
    match a
    case Launch => None
    case BindName(_, _) => None
    case Connect(_, _) => Some(|s.cs|)
    case Accept(_, c) => Some(c)
    case Read(_, c) => Some(c)
    case ReadError(_, c) => Some(c)
    case ReadClosed(_, c) => Some(c)
    case WriteSecond(_, c) => Some(c)
    case Observe(_) => None
    case Activate(_) => None
    case Decide(_) => None
    case LoseReady(_) => None
    case _ => s.vs[a.v].conn
  }

  /** A connection the step does not mention. */
  lemma OtherConn(s: State, t: State, c: nat)
    requires Grows(s, t) && c < |s.cs| && t.cs[c] == s.cs[c] && ConnOk(s, c)
    requires var v := s.cs[c].client; t.vs[v].phase == s.vs[v].phase && (v in t.order ==> v in s.order)
    ensures ConnOk(t, c)
  {
    var x := s.cs[c];
    assert forall u :: u in s.order ==> u in t.order;
    if x.server.Some? && x.client in s.order {
      BeforeGrows(s, t, s.ws[x.server.value].ver, x.client);
    }
  }

  lemma UntouchedConn(s: State, a: Action, c: nat)
    requires Inv(s) && Enabled(s, a) && !a.Kill? && !a.RecvClosed? && c < |s.cs| && TouchedConn(s, a) != Some(c)
    ensures var t := Apply(s, a); var v := s.cs[c].client;
      && t.cs[c] == s.cs[c]
      && v < |s.vs| && t.vs[v].phase == s.vs[v].phase && (v in t.order ==> v in s.order)
  {
    assert ConnOk(s, c);
    var v := s.cs[c].client;
    assert VersionOk(s, v);
    if Touched(s, a) == Some(v) {
      assert a.LoseReady? || a.Decide? || a.Read?;
    }
  }

  /** A worker accepts a connection, or takes it out of its list. */
  lemma ListedConn(s: State, a: Action)
    requires Inv(s) && Enabled(s, a) && (a.Accept? || a.ReadClosed? || (a.Read? && s.cs[a.c].toServer[0] == 1))
    ensures ConnOk(Apply(s, a), a.c)
  {
    assert ConnOk(s, a.c) && WorkerOk(s, a.w) && VersionOk(s, s.ws[a.w].ver) && VersionOk(s, s.cs[a.c].client);
  }

  /** A worker writes one of the two messages of an answer. */
  lemma AnsweringConn(s: State, a: Action)
    requires Inv(s) && Enabled(s, a)
    requires (a.Read? && s.cs[a.c].toServer[0] != 1) || a.ReadError? || a.WriteSecond?
    ensures ConnOk(Apply(s, a), a.c)
  {
    var x := s.cs[a.c];
    assert ConnOk(s, a.c) && VersionOk(s, s.ws[a.w].ver) && VersionOk(s, x.client);
    if Reads(s, x.client) {
      var awaited := Awaited(s.vs[x.client].phase);
      if a.WriteSecond? {
        PairedMonitor(x.toClient, s.order[0], awaited, x.owes.value);
      } else {
        PairedPublic(x.toClient, s.order[0], awaited, if a.Read? then s.port else -1);
      }
    }
  }

  lemma TouchedServerSide(s: State, a: Action)
    requires Inv(s) && Enabled(s, a) && OnServerSide(a)
    ensures ConnOk(Apply(s, a), a.c)
  {
    if a.Accept? || a.ReadClosed? || (a.Read? && s.cs[a.c].toServer[0] == 1) {
      ListedConn(s, a);
    } else {
      AnsweringConn(s, a);
    }
  }

  lemma NewConn(s: State, a: Action)
    requires Inv(s) && Enabled(s, a) && a.Connect?
    ensures ConnOk(Apply(s, a), |s.cs|)
  {
    assert VersionOk(s, a.v) && VersionOk(s, a.holder);
  }

  /** The client takes the second reply, and may begin to serve. */
  lemma AnsweredConn(s: State, a: Action)
    requires Inv(s) && Enabled(s, a) && a.RecvSecond?
    ensures ConnOk(Apply(s, a), s.vs[a.v].conn.value)
  {
    var x := s.cs[s.vs[a.v].conn.value];
    assert VersionOk(s, a.v) && ConnOk(s, s.vs[a.v].conn.value);
    BeforeAppend(s.order, s.ws[x.server.value].ver, x.client, a.v);
  }

  lemma TouchedClientSide(s: State, a: Action)
    requires Inv(s) && Enabled(s, a) && !a.Kill? && !a.RecvClosed? && !OnServerSide(a) && TouchedConn(s, a).Some?
    ensures var c, t := TouchedConn(s, a).value, Apply(s, a); c < |t.cs| && ConnOk(t, c)
  {
    if a.Connect? {
      NewConn(s, a);
    } else if a.RecvSecond? {
      AnsweredConn(s, a);
    } else {
      assert VersionOk(s, a.v) && ConnOk(s, TouchedConn(s, a).value);
    }
  }

  /** A connection when its client fails. */
  lemma FailedConn(s: State, v: nat, c: nat)
    requires Inv(s) && AtConn(s, v) && Binding(s.vs[v].phase) && c < |s.cs| && s.cs[s.vs[v].conn.value].server.Some?
    ensures ConnOk(s.(vs := s.vs[v := s.vs[v].(phase := Failed)]), c)
  {
    assert ConnOk(s, c) && VersionOk(s, v);
  }

  /** A connection when version v is killed. */
  lemma KilledConn(s: State, v: nat, c: nat)
    requires Inv(s) && Enabled(s, Kill(v)) && !Cuts(s, v) && c < |s.cs|
    ensures ConnOk(Apply(s, Kill(v)), c)
  {
    assert ConnOk(s, c) && VersionOk(s, v) && VersionOk(s, s.cs[c].client);
  }

  lemma OldConn(s: State, a: Action, c: nat)
    requires Inv(s) && Enabled(s, a) && !a.Kill? && !a.RecvClosed? && c < |s.cs| && TouchedConn(s, a) != Some(c)
    ensures c < |Apply(s, a).cs| && ConnOk(Apply(s, a), c)
  {
    StepGrows(s, a);
    assert ConnOk(s, c);
    UntouchedConn(s, a, c);
    OtherConn(s, Apply(s, a), c);
  }

  lemma NoNewConn(s: State, a: Action, c: nat)
    requires Enabled(s, a) && c < |Apply(s, a).cs| && TouchedConn(s, a) != Some(c)
    ensures c < |s.cs|
  {
  }

  lemma StepOneConn(s: State, a: Action, c: nat)
    requires Inv(s) && Enabled(s, a) && !a.Kill? && !a.RecvClosed? && c < |Apply(s, a).cs|
    ensures ConnOk(Apply(s, a), c)
  {
    if TouchedConn(s, a) != Some(c) {
      NoNewConn(s, a, c);
      OldConn(s, a, c);
    } else if OnServerSide(a) {
      TouchedServerSide(s, a);
    } else {
      TouchedClientSide(s, a);
    }
  }

  lemma StepConns(s: State, a: Action)
    requires Inv(s) && Enabled(s, a) && (a.Kill? ==> !Cuts(s, a.v))
    ensures var t := Apply(s, a); forall c :: 0 <= c < |t.cs| ==> ConnOk(t, c)
  {
    var t := Apply(s, a);
    forall c | 0 <= c < |t.cs| ensures ConnOk(t, c) {
      if a.Kill? {
        KilledConn(s, a.v, c);
      } else if a.RecvClosed? {
        ClosedFails(s, a);
        assert VersionOk(s, a.v) && ConnOk(s, s.vs[a.v].conn.value);
        FailedConn(s, a.v, c);
      } else {
        StepOneConn(s, a, c);
      }
    }
  }

  lemma StepWorkers(s: State, a: Action)
    requires Inv(s) && Enabled(s, a)
    ensures var t := Apply(s, a); forall w :: 0 <= w < |t.ws| ==> WorkerOk(t, w)
  {
    StepGrows(s, a);
    var t := Apply(s, a);
    assert forall u :: u in s.order ==> u in t.order;
    forall w | 0 <= w < |t.ws| ensures WorkerOk(t, w) {
      if w < |s.ws| {
        assert WorkerOk(s, w);
      }
    }
  }

  lemma StepInv(s: State, a: Action)
    requires Inv(s) && Enabled(s, a) && (a.Kill? ==> !Cuts(s, a.v))
    ensures Inv(Apply(s, a)) && Grows(s, Apply(s, a))
  {
    StepGrows(s, a);
    StepOrder(s, a);
    StepVersions(s, a);
    StepConns(s, a);
    StepWorkers(s, a);
  }

  lemma {:induction false} RunInv(s: State, acts: seq<Action>)
    requires Inv(s) && Executable(s, acts) && Harmless(s, acts)
    ensures Inv(Exec(s, acts))
    decreases acts
  {
    if acts != [] {
      StepInv(s, acts[0]);
      RunInv(Apply(s, acts[0]), acts[1..]);
    }
  }

  // ----- Main results -----

  /** Version v serves with the sockets that every version before it held, and all its workers watch. */
  predicate Watches(s: State, v: nat) {
    && v < |s.vs| && s.vs[v].phase == Serving
    && (forall w :: 0 <= w < |s.ws| && s.ws[w].ver == v ==> !s.ws[w].ready)
    && (forall i :: 0 <= i < |s.order| && s.order[i] < |s.vs| ==>
          s.vs[s.order[i]].pub == s.vs[v].pub && s.vs[s.order[i]].mon == s.vs[v].mon)
  }

  /** u took over from v: it holds the same two kernel sockets and reported ready once it did. */
  predicate TookOver(s: State, v: nat, u: nat) {
    && v < |s.vs| && u < |s.vs|
    && Before(s.order, v, u)
    && s.vs[u].pub == s.vs[v].pub && s.vs[u].mon == s.vs[v].mon
    && s.vs[u].sentReady
  }

  /** Whoever stopped watching the port was replaced, and somebody watches it from the first bind on. */
  predicate NoGap(s: State) {
    && (forall w :: 0 <= w < |s.ws| && s.ws[w].ready ==> exists u :: 0 <= u < |s.vs| && TookOver(s, s.ws[w].ver, u))
    && (s.order != [] ==> Watches(s, Last(s.order)))
  }

  lemma InvNoGap(s: State)
    requires Inv(s)
    ensures NoGap(s)
  {
    forall w | 0 <= w < |s.ws| && s.ws[w].ready
      ensures exists u :: 0 <= u < |s.vs| && TookOver(s, s.ws[w].ver, u)
    {
      var v := s.ws[w].ver;
      assert WorkerOk(s, w) && VersionOk(s, v);
      var u :| 0 <= u < |s.vs| && s.vs[u].sentReady && Before(s.order, v, u);
      assert VersionOk(s, u);
      assert TookOver(s, v, u);
    }
    if s.order != [] {
      var last := Last(s.order);
      assert VersionOk(s, last);
      forall i | 0 <= i < |s.order|
        ensures s.vs[s.order[i]].pub == s.vs[last].pub && s.vs[s.order[i]].mon == s.vs[last].mon
      {
        assert VersionOk(s, s.order[i]);
      }
      forall w | 0 <= w < |s.ws| && s.ws[w].ver == last ensures !s.ws[w].ready {
        assert WorkerOk(s, w);
      }
    }
  }

  lemma {:induction false} RunSnoc(s: State, acts: seq<Action>, a: Action)
    requires Executable(s, acts) && Enabled(Exec(s, acts), a)
    ensures Executable(s, acts + [a]) && Exec(s, acts + [a]) == Apply(Exec(s, acts), a)
    decreases acts
  {
    if acts == [] {
      assert acts + [a] == [a] && [a][1..] == [];
      assert Executable(Apply(s, a), []);
    } else {
      assert (acts + [a])[1..] == acts[1..] + [a];
      RunSnoc(Apply(s, acts[0]), acts[1..], a);
    }
  }

  /** One more step of a run, to a given state. */
  lemma Go(s0: State, acts: seq<Action>, a: Action, t: State) returns (more: seq<Action>)
    requires Executable(s0, acts) && Harmless(s0, acts) && Enabled(Exec(s0, acts), a) && !a.Kill?
    requires Same(Apply(Exec(s0, acts), a), t)
    ensures Executable(s0, more) && Harmless(s0, more) && Exec(s0, more) == t
  {
    RunSnoc(s0, acts, a);
    HarmlessSnoc(s0, acts, a);
    more := acts + [a];
  }

  lemma {:induction false} HarmlessSnoc(s: State, acts: seq<Action>, a: Action)
    requires Executable(s, acts) && Harmless(s, acts) && Enabled(Exec(s, acts), a)
    requires a.Kill? ==> !Cuts(Exec(s, acts), a.v)
    ensures Executable(s, acts + [a]) && Harmless(s, acts + [a])
    decreases acts
  {
    RunSnoc(s, acts, a);
    if acts == [] {
      assert acts + [a] == [a] && [a][1..] == [];
      assert Executable(Apply(s, a), []);
    } else {
      assert (acts + [a])[1..] == acts[1..] + [a] && (acts + [a])[0] == acts[0];
      HarmlessSnoc(Apply(s, acts[0]), acts[1..], a);
    }
  }

  predicate Same(s: State, t: State) {
    s.port == t.port && s.vs == t.vs && s.ws == t.ws && s.cs == t.cs && s.order == t.order
  }

  /** Version 0 serves with two workers, one of which is active, and version 1 is at `one`. */
  function Pair(port: int, one: Version, cs: seq<Conn>): State {
    State(port, [First(false, false), one], [Worker(0, false, true), Worker(0, false, false)], cs, [0])
  }

  /** A version that did not inherit. */
  function First(latch: bool, decided: bool): Version {
    Version(Serving, Public(0), Monitor(0), None, false, false, latch, decided)
  }

  /** A version at its connection before it serves. */
  function Asking(phase: Phase, c: nat): Version {
    Version(phase, NoSocket, NoSocket, Some(c), false, false, false, false)
  }

  /** An internal connection that nobody has closed. */
  function Open(client: nat, server: Option<nat>, toServer: seq<int>, toClient: seq<Packet>, owes: Option<int>): Conn {
    Conn(client, Monitor(0), server, toServer, toClient, owes, true, server.Some?, 0, false)
  }

  /** Version 0 alone serves, one of its two workers is active. */
  lemma FirstServes(port: int) returns (acts: seq<Action>)
    ensures Executable(Init(port), acts) && Harmless(Init(port), acts)
    ensures Exec(Init(port), acts) ==
      State(port, [First(false, false)], [Worker(0, false, true), Worker(0, false, false)], [], [0])
  {
    var start := Version(Start, NoSocket, NoSocket, None, false, false, false, false);
    acts := [];
    acts := Go(Init(port), acts, Launch, State(port, [start], [], [], []));
    assert seq(2, _ => Worker(0, false, false)) == [Worker(0, false, false), Worker(0, false, false)];
    acts := Go(Init(port), acts, BindName(0, 2),
               State(port, [First(false, false)], [Worker(0, false, false), Worker(0, false, false)], [], [0]));
    acts := Go(Init(port), acts, Activate(0),
               State(port, [First(false, false)], [Worker(0, false, true), Worker(0, false, false)], [], [0]));
  }

  /** Version 0 serves, and version 1 has asked it for the port. */
  lemma SecondAsks(port: int) returns (acts: seq<Action>)
    ensures Executable(Init(port), acts) && Harmless(Init(port), acts)
    ensures Exec(Init(port), acts) == Pair(port, Asking(Requested, 0), [Open(1, None, [port], [], None)])
  {
    var start := Version(Start, NoSocket, NoSocket, None, false, false, false, false);
    acts := FirstServes(port);
    acts := Go(Init(port), acts, Launch, Pair(port, start, []));
    acts := Go(Init(port), acts, Connect(1, 0), Pair(port, Asking(Connected, 0), [Open(1, None, [], [], None)]));
    assert [] + [port] == [port];
    acts := Go(Init(port), acts, SendPort(1), Pair(port, Asking(Requested, 0), [Open(1, None, [port], [], None)]));
  }

  /** A request for port 1 is the integer that means ready. */
  lemma PortOneGap() returns (acts: seq<Action>)
    ensures Executable(Init(1), acts) && Harmless(Init(1), acts) && !NoGap(Exec(Init(1), acts))
  {
    acts := SecondAsks(1);
    acts := Go(Init(1), acts, Accept(0, 0), Pair(1, Asking(Requested, 0), [Open(1, Some(0), [1], [], None)]));
    var closed := Conn(1, Monitor(0), Some(0), [], [], None, true, false, 1, false);
    assert [1][1..] == [];
    acts := Go(Init(1), acts, Read(0, 0),
               Pair(1, Asking(Requested, 0), [closed]).(vs := [First(true, false), Asking(Requested, 0)]));
    RunSnoc(Init(1), acts, Observe(0));
    HarmlessSnoc(Init(1), acts, Observe(0));
    acts := acts + [Observe(0)];
    var s := Exec(Init(1), acts);
    assert s.order == [0] && s.ws[0].ready && s.ws[0].ver == 0;
    assert !Watches(s, Last(s.order));
  }

  /** Version 1 has inherited and serves beside version 0. */
  function Both(port: int, zero: Version, one: Version, w0: Worker, w1: Worker, c0: Conn): State {
    State(port, [zero, one], [w0, w1, Worker(1, false, false)], [c0], [0, 1])
  }

  /** The first version answers with both descriptors. */
  lemma SecondAnswered(port: int) returns (acts: seq<Action>)
    requires port > 1
    ensures Executable(Init(port), acts) && Harmless(Init(port), acts)
    ensures Exec(Init(port), acts) ==
      Pair(port, Asking(Requested, 0), [Open(1, Some(0), [], [Packet(Public(0), port), Packet(Monitor(0), port)],
          None)])
  {
    var asking, public, monitor := Asking(Requested, 0), Packet(Public(0), port), Packet(Monitor(0), port);
    assert [port][1..] == [] && [] + [public] == [public] && [public] + [monitor] == [public, monitor];
    acts := SecondAsks(port);
    acts := Go(Init(port), acts, Accept(0, 0), Pair(port, asking, [Open(1, Some(0), [port], [], None)]));
    acts := Go(Init(port), acts, Read(0, 0), Pair(port, asking, [Open(1, Some(0), [], [public], Some(port))]));
    acts := Go(Init(port), acts, WriteSecond(0, 0),
               Pair(port, asking, [Open(1, Some(0), [], [public, monitor], None)]));
  }

  /** The second version inherits from an active worker of the first. */
  lemma SecondInherits(port: int) returns (acts: seq<Action>)
    requires port > 1
    ensures Executable(Init(port), acts) && Harmless(Init(port), acts)
    ensures Exec(Init(port), acts) ==
      Both(port, First(false, false), Version(Serving, Public(0), Monitor(0), Some(0), true, false, false, false),
           Worker(0, false, true), Worker(0, false, false), Open(1, Some(0), [], [], None))
  {
    var public, monitor := Packet(Public(0), port), Packet(Monitor(0), port);
    assert [public, monitor][1..] == [monitor] && [monitor][1..] == [];
    acts := SecondAnswered(port);
    acts := Go(Init(port), acts, RecvFirst(1),
               Pair(port, Asking(HalfAnswered(public), 0), [Open(1, Some(0), [], [monitor], None)]));
    assert seq(1, _ => Worker(1, false, false)) == [Worker(1, false, false)];
    acts := Go(Init(port), acts, RecvSecond(1, true, 1),
      Both(port, First(false, false), Version(Serving, Public(0), Monitor(0), Some(0), true, false, false, false),
           Worker(0, false, true), Worker(0, false, false), Open(1, Some(0), [], [], None)));
  }

  /** Overlapping updates: a third version waits to be accepted while a worker of the first is not ready. */
  lemma OlderMayAccept(port: int) returns (acts: seq<Action>)
    requires port > 1
    ensures Executable(Init(port), acts) && Harmless(Init(port), acts)
    ensures var s := Exec(Init(port), acts);
      s.order == [0, 1] && |s.ws| > 0 && s.ws[0].ver != Last(s.order) && Enabled(s, Accept(0, 1))
  {
    acts := SecondInherits(port);
    var s := Exec(Init(port), acts);
    var t := s.(vs := s.vs + [Version(Start, NoSocket, NoSocket, None, false, false, false, false)]);
    acts := Go(Init(port), acts, Launch, t);
    acts := Go(Init(port), acts, Connect(2, 1),
      t.(vs := s.vs + [Asking(Connected, 1)], cs := s.cs + [Open(2, None, [], [], None)]));
  }

  /** The second version reports ready. */
  lemma SecondReports(port: int) returns (acts: seq<Action>)
    requires port > 1
    ensures Executable(Init(port), acts) && Harmless(Init(port), acts)
    ensures Exec(Init(port), acts) ==
      Both(port, First(true, false), Version(Serving, Public(0), Monitor(0), Some(0), false, true, false, false),
           Worker(0, false, true), Worker(0, false, false), Conn(1, Monitor(0), Some(0), [], [], None, false, false,
               1, false))
  {
    acts := SecondInherits(port);
    var w0, w1 := Worker(0, false, true), Worker(0, false, false);
    var one := Version(Serving, Public(0), Monitor(0), Some(0), false, true, false, false);
    assert [] + [1] == [1] && [1][1..] == [];
    acts := Go(Init(port), acts, SendReady(1),
      Both(port, First(false, false), one, w0, w1, Conn(1, Monitor(0), Some(0), [1], [], None, false, true, 0, false)));
    acts := Go(Init(port), acts, Read(0, 0),
      Both(port, First(true, false), one, w0, w1, Conn(1, Monitor(0), Some(0), [], [], None, false, false, 1, false)));
  }

  /** The first version decides to die when its only active worker has seen the ready message. */
  lemma FirstDecides(port: int) returns (acts: seq<Action>)
    requires port > 1
    ensures Executable(Init(port), acts) && Harmless(Init(port), acts)
    ensures Exec(Init(port), acts) == Dying(port, false)
  {
    acts := SecondReports(port);
    var s := Exec(Init(port), acts);
    acts := Go(Init(port), acts, Observe(0), s.(ws := [Worker(0, true, true), s.ws[1], s.ws[2]]));
    assert Exec(Init(port), acts).ws[0].active;
    acts := Go(Init(port), acts, Decide(0), Dying(port, false));
  }

  /** The first version has decided to die; its second worker is active or not. */
  function Dying(port: int, late: bool): State {
    Both(port, First(true, true), Version(Serving, Public(0), Monitor(0), Some(0), false, true, false, false),
         Worker(0, true, true), Worker(0, false, late), Conn(1, Monitor(0), Some(0), [], [], None, false, false, 1,
             false))
  }

  /** The same with a third version at its connection. */
  function Third(port: int, phase: Phase, c: Conn): State {
    var s := Dying(port, true);
    s.(vs := s.vs + [Asking(phase, 1)], cs := s.cs + [c])
  }

  /** After the decision the second worker activates, and a third version connects. */
  lemma ThirdConnects(port: int) returns (acts: seq<Action>)
    requires port > 1
    ensures Executable(Init(port), acts) && Harmless(Init(port), acts)
    ensures Exec(Init(port), acts) == Third(port, Connected, Open(2, None, [], [], None))
  {
    acts := FirstDecides(port);
    acts := Go(Init(port), acts, Activate(1), Dying(port, true));
    var s := Dying(port, true);
    var t := s.(vs := s.vs + [Version(Start, NoSocket, NoSocket, None, false, false, false, false)]);
    acts := Go(Init(port), acts, Launch, t);
    acts := Go(Init(port), acts, Connect(2, 1), Third(port, Connected, Open(2, None, [], [], None)));
  }

  lemma ThirdAccepted(port: int) returns (acts: seq<Action>)
    requires port > 1
    ensures Executable(Init(port), acts) && Harmless(Init(port), acts)
    ensures Exec(Init(port), acts) == Third(port, Requested, Open(2, Some(1), [port], [], None))
  {
    acts := ThirdConnects(port);
    assert [] + [port] == [port];
    acts := Go(Init(port), acts, SendPort(2), Third(port, Requested, Open(2, None, [port], [], None)));
    acts := Go(Init(port), acts, Accept(1, 1), Third(port, Requested, Open(2, Some(1), [port], [], None)));
  }

  /** A late worker of the first version has answered a third version by half when the first is to be killed. */
  lemma LateWorkerAnswers(port: int) returns (acts: seq<Action>)
    requires port > 1
    ensures Executable(Init(port), acts) && Harmless(Init(port), acts)
    ensures var s := Exec(Init(port), acts); Enabled(s, Kill(0)) && Cuts(s, 0)
  {
    acts := ThirdAccepted(port);
    assert [port][1..] == [] && [] + [Packet(Public(0), port)] == [Packet(Public(0), port)];
    var t := Third(port, Requested, Open(2, Some(1), [], [Packet(Public(0), port)], Some(port)));
    acts := Go(Init(port), acts, Read(1, 1), t);
    assert HeldBy(t, 0, 1) && HalfServed(t, 1);
  }

  /** What a kill can lead to, if it is the last one that cuts an answer. */
  ghost predicate KeepsPort(s: State, v: nat)
    requires Enabled(s, Kill(v))
  {
    forall acts: seq<Action> {:trigger Executable(Apply(s, Kill(v)), acts)} ::
      Executable(Apply(s, Kill(v)), acts) && Harmless(Apply(s, Kill(v)), acts) ==> NoGap(Exec(Apply(s, Kill(v)), acts))
  }

  /** The client of a connection that is cut in half goes on to serve without a monitor. */
  lemma HalfServedGap(s: State, v: nat, c: nat) returns (acts: seq<Action>)
    requires Inv(s) && Enabled(s, Kill(v)) && c < |s.cs| && HeldBy(s, v, c) && HalfServed(s, c)
    ensures var t := Apply(s, Kill(v)); Executable(t, acts) && Harmless(t, acts) && !NoGap(Exec(t, acts))
  {
    var t, u := Apply(s, Kill(v)), s.cs[c].client;
    assert ConnOk(s, c) && VersionOk(s, u) && VersionOk(s, s.order[0]);
    assert t.cs[c].cut && t.cs[c].toClient == s.cs[c].toClient && t.vs[u] == s.vs[u];
    acts := BlindServe(t, u, c, s.order[0]);
  }

  /** Client u of a cut connection c takes what there is, and serves. */
  lemma BlindServe(t: State, u: nat, c: nat, root: nat) returns (acts: seq<Action>)
    requires c < |t.cs| && t.cs[c].client == u && t.cs[c].cut && HalfServed(t, c) && t.vs[u].conn == Some(c)
    requires t.order != [] && t.order[0] == root < |t.vs| && root != u && t.vs[root].mon != NoSocket
    ensures Executable(t, acts) && Harmless(t, acts) && !NoGap(Exec(t, acts))
  {
    acts := [];
    if t.vs[u].phase == Requested {
      RunSnoc(t, acts, RecvFirst(u));
      HarmlessSnoc(t, acts, RecvFirst(u));
      acts := acts + [RecvFirst(u)];
    }
    var r := Exec(t, acts);
    assert r.vs[u].phase.HalfAnswered? && r.vs[u].phase.got.port > 0 && r.cs[c].toClient == [] && r.cs[c].cut;
    RunSnoc(t, acts, RecvClosed(u, true, 1));
    HarmlessSnoc(t, acts, RecvClosed(u, true, 1));
    acts := acts + [RecvClosed(u, true, 1)];
    ServesBlind(r, u, root);
  }

  lemma ServesBlind(r: State, u: nat, root: nat)
    requires Enabled(r, RecvClosed(u, true, 1)) && r.vs[u].phase.HalfAnswered? && r.vs[u].phase.got.port > 0
    requires r.order != [] && r.order[0] == root < |r.vs| && root != u && r.vs[root].mon != NoSocket
    ensures !NoGap(Apply(r, RecvClosed(u, true, 1)))
  {
    var t := Apply(r, RecvClosed(u, true, 1));
    assert Last(t.order) == u && t.order[0] == root;
    assert t.vs[root].mon != t.vs[u].mon;
  }

  /**
    A kill keeps the port watched, whatever follows, if and only if it does
    not cut an answer in half: no worker of the killed version, which must be
    a late one, holds a connection whose client has got the public descriptor
    and not the monitor.
   */
  lemma KillKeepsPortIff(port: int, acts: seq<Action>, v: nat)
    requires port != 1 && Executable(Init(port), acts) && Harmless(Init(port), acts)
    requires Enabled(Exec(Init(port), acts), Kill(v))
    ensures KeepsPort(Exec(Init(port), acts), v) <==> !Cuts(Exec(Init(port), acts), v)
  {
    RunInv(Init(port), acts);
    var s := Exec(Init(port), acts);
    var t := Apply(s, Kill(v));
    if Cuts(s, v) {
      var c: nat :| c < |s.cs| && HeldBy(s, v, c) && HalfServed(s, c);
      var more := HalfServedGap(s, v, c);
      assert !KeepsPort(s, v);
    } else {
      StepInv(s, Kill(v));
      forall more: seq<Action> | Executable(t, more) && Harmless(t, more) ensures NoGap(Exec(t, more)) {
        RunInv(t, more);
        InvNoGap(Exec(t, more));
      }
    }
  }

  /** At the decision no worker of the version holds a connection: only a late one can hold what the kill cuts. */
  lemma DecisionHoldsNothing(port: int, acts: seq<Action>, v: nat, c: nat)
    requires port != 1 && Executable(Init(port), acts) && Harmless(Init(port), acts)
    requires var s := Exec(Init(port), acts); Enabled(s, Decide(v)) && c < |s.cs|
    ensures !HeldBy(Exec(Init(port), acts), v, c)
  {
    var s := Exec(Init(port), acts);
    RunInv(Init(port), acts);
    assert ConnOk(s, c);
    if HeldBy(s, v, c) {
      assert HoldsNothing(s, s.cs[c].server.value);
      assert Holds(s, s.cs[c].server.value, c);
    }
  }

  /** Every port that is sent with a descriptor is the version's own, or the mark of an error. */
  predicate PortsOk(s: State) {
    && (forall c :: 0 <= c < |s.cs| ==>
          && (forall m :: m in s.cs[c].toClient ==> m.port == s.port || m.port == -1)
          && (s.cs[c].owes.Some? ==> s.cs[c].owes.value == s.port || s.cs[c].owes.value == -1))
    && (forall v :: 0 <= v < |s.vs| && s.vs[v].phase.HalfAnswered? ==>
          s.vs[v].phase.got.port == s.port || s.vs[v].phase.got.port == -1)
  }

  lemma ServerPorts(s: State, a: Action)
    requires PortsOk(s) && Enabled(s, a) && OnServerSide(a)
    ensures PortsOk(Apply(s, a)) && Apply(s, a).port == s.port
  {
    var t := Apply(s, a);
    assert forall c :: 0 <= c < |s.cs| && c != a.c ==> t.cs[c] == s.cs[c];
    assert forall v :: 0 <= v < |s.vs| ==> t.vs[v].phase == s.vs[v].phase;
  }

  lemma WorkerPorts(s: State, a: Action)
    requires PortsOk(s) && Enabled(s, a) && (a.Observe? || a.Activate?)
    ensures PortsOk(Apply(s, a)) && Apply(s, a).port == s.port
  {
  }

  /** Steps by which a version takes what was sent to it, or gives up. */
  predicate Takes(a: Action) {
    a.RecvFirst? || a.RecvSecond? || a.RecvClosed?
  }

  lemma TakenPorts(s: State, a: Action)
    requires PortsOk(s) && Enabled(s, a) && Takes(a)
    ensures PortsOk(Apply(s, a)) && Apply(s, a).port == s.port
  {
    var t, c := Apply(s, a), s.vs[a.v].conn.value;
    assert forall d :: 0 <= d < |s.cs| && d != c ==> t.cs[d] == s.cs[d];
    assert forall m :: m in t.cs[c].toClient ==> m in s.cs[c].toClient;
  }

  lemma ClientPorts(s: State, a: Action)
    requires PortsOk(s) && Enabled(s, a) && !OfWorker(a) && !Takes(a)
    ensures PortsOk(Apply(s, a)) && Apply(s, a).port == s.port
  {
  }

  lemma StepPorts(s: State, a: Action)
    requires PortsOk(s) && Enabled(s, a)
    ensures PortsOk(Apply(s, a)) && Apply(s, a).port == s.port
  {
    if OnServerSide(a) {
      ServerPorts(s, a);
    } else if OfWorker(a) {
      WorkerPorts(s, a);
    } else if Takes(a) {
      TakenPorts(s, a);
    } else {
      ClientPorts(s, a);
    }
  }

  /** Without a positive port nobody inherits, so nothing can be cut in half. */
  lemma {:induction false} NoPortHarmless(s: State, acts: seq<Action>)
    requires PortsOk(s) && s.port <= 0 && Executable(s, acts)
    ensures Harmless(s, acts)
    decreases acts
  {
    if acts != [] {
      StepPorts(s, acts[0]);
      NoPortHarmless(Apply(s, acts[0]), acts[1..]);
    }
  }

  /** No run leaves a gap; unless `late`, of the runs in which no kill cuts an answer in half. */
  ghost predicate NeverGap(port: int, late: bool) {
    forall acts: seq<Action> {:trigger Executable(Init(port), acts)} ::
      Executable(Init(port), acts) && (late || Harmless(Init(port), acts)) ==> NoGap(Exec(Init(port), acts))
  }

  /**
    No service gap, in any run of any number of versions, even concurrent
    updates: exactly for the ports other than 1, as long as no kill cuts a
    late worker's answer in half.  If kills may do that, there is a gap for
    every port that can be inherited.
   */
  lemma NoServiceGapIff(port: int, late: bool)
    ensures NeverGap(port, late) <==> port != 1 && (late ==> port <= 0)
  {
    if port == 1 {
      var acts := PortOneGap();
      assert !NeverGap(port, late);
    } else if late && port > 0 {
      var acts := LateWorkerGap(port);
      assert !NeverGap(port, late);
    } else {
      forall acts: seq<Action> | Executable(Init(port), acts) && (late || Harmless(Init(port), acts))
        ensures NoGap(Exec(Init(port), acts))
      {
        if late {
          NoPortHarmless(Init(port), acts);
        }
        RunInv(Init(port), acts);
        InvNoGap(Exec(Init(port), acts));
      }
    }
  }

  /** A run that leaves the port without a monitor because a worker activated late. */
  lemma LateWorkerGap(port: int) returns (acts: seq<Action>)
    requires port > 1
    ensures Executable(Init(port), acts) && !NoGap(Exec(Init(port), acts))
  {
    acts := LateWorkerAnswers(port);
    var s := Exec(Init(port), acts);
    RunInv(Init(port), acts);
    var c: nat :| c < |s.cs| && HeldBy(s, 0, c) && HalfServed(s, c);
    var more := HalfServedGap(s, 0, c);
    RunSnoc(Init(port), acts, Kill(0));
    RunOn(Init(port), acts + [Kill(0)], more);
    acts := acts + [Kill(0)] + more;
  }

  lemma {:induction false} RunOn(s: State, acts: seq<Action>, more: seq<Action>)
    requires Executable(s, acts) && Executable(Exec(s, acts), more)
    ensures Executable(s, acts + more) && Exec(s, acts + more) == Exec(Exec(s, acts), more)
    decreases acts
  {
    if acts == [] {
      assert acts + more == more;
    } else {
      assert (acts + more)[0] == acts[0] && (acts + more)[1..] == acts[1..] + more;
      RunOn(Apply(s, acts[0]), acts[1..], more);
    }
  }

  /**
    Life of an internal connection.  Its worker closes it at most once, when
    it leaves the worker's list, and not while its client waits for an answer.
    The queued answers come in pairs of the public and the monitor descriptor
    of one and the same first version, and what the client has taken or the
    worker still owes completes the pairs at either end.  A client that
    inherited has both sockets, and only then says ready.
   */
  lemma ConnectionLife(port: int, acts: seq<Action>, c: nat)
    requires port != 1 && Executable(Init(port), acts) && Harmless(Init(port), acts) && c < |Exec(Init(port), acts).cs|
    ensures var s := Exec(Init(port), acts); var x := s.cs[c];
      && s.order != []
      && x.client < |s.vs| && s.vs[x.client].conn == Some(c)
      && x.closes <= 1 && (x.listed ==> x.closes == 0)
      && (x.closes > 0 ==> x.server.Some? && x.owes == None && !Binding(s.vs[x.client].phase))
      && (Reads(s, x.client) ==> Paired(x.toClient, s.order[0], Awaited(s.vs[x.client].phase), x.owes))
      && (s.vs[x.client].phase == Serving ==>
            s.vs[x.client].pub == Public(s.order[0]) && s.vs[x.client].mon == Monitor(s.order[0]))
      && (1 in x.toServer ==> x.client in s.order)
  {
    RunInv(Init(port), acts);
    var s := Exec(Init(port), acts);
    assert ConnOk(s, c);
    assert VersionOk(s, s.cs[c].client);
  }

  // ----- The ready message arrives -----

  /** The version of the worker that accepted connection c has its latch set. */
  predicate ServerLatched(s: State, c: nat)
    requires c < |s.cs|
  {
    var server := s.cs[c].server;
    && server.Some? && server.value < |s.ws|
    && s.ws[server.value].ver < |s.vs| && s.vs[s.ws[server.value].ver].latch
  }

  /** A ready message that was sent on a connection nobody cut is still there to be read, or was read. */
  predicate Delivered(s: State, c: nat)
    requires c < |s.cs|
  {
    var x := s.cs[c];
    && (x.server.Some? && !x.cut && x.closes == 0 ==> x.listed)
    && (x.client < |s.vs| && s.vs[x.client].sentReady && !x.cut && !ServerLatched(s, c) ==>
          x.server.Some? && x.listed && 1 in x.toServer)
  }

  /** What the worker's end of a connection sees is still the same, or more. */
  predicate SameEnd(x: Conn, y: Conn) {
    && y.client == x.client && y.server == x.server && y.closes == x.closes && y.listed == x.listed && y.cut == x.cut
    && (1 in x.toServer ==> 1 in y.toServer)
  }

  /** Latches stay set. */
  lemma DeliveredElsewhere(s: State, t: State, c: nat)
    requires Grows(s, t) && c < |s.cs| && SameEnd(s.cs[c], t.cs[c]) && Delivered(s, c) && s.cs[c].client < |s.vs|
    requires s.cs[c].server.Some? ==> s.cs[c].server.value < |s.ws|
    requires t.vs[s.cs[c].client].sentReady == s.vs[s.cs[c].client].sentReady
    ensures Delivered(t, c)
  {
    var server := s.cs[c].server;
    if ServerLatched(s, c) {
      assert WorkerGrows(s.ws[server.value], t.ws[server.value]);
      assert VersionGrows(s.vs[s.ws[server.value].ver], t.vs[s.ws[server.value].ver]);
    }
  }

  lemma ServerStepElsewhere(s: State, a: Action, c: nat)
    requires Enabled(s, a) && OfWorker(a) && c < |s.cs| && (OnServerSide(a) ==> a.c != c)
    ensures var t := Apply(s, a);
      t.cs[c] == s.cs[c] && |t.vs| == |s.vs| && forall v :: 0 <= v < |s.vs| ==> t.vs[v].sentReady == s.vs[v].sentReady
  {
  }

  lemma DeliveredHere(s: State, a: Action)
    requires Enabled(s, a) && OnServerSide(a) && Delivered(s, a.c) && ConnOk(s, a.c)
    ensures Delivered(Apply(s, a), a.c)
  {
    var q := s.cs[a.c].toServer;
    assert q != [] && q[0] != 1 && 1 in q ==> 1 in q[1..];
  }

  lemma DeliveredByServer(s: State, a: Action, c: nat)
    requires Inv(s) && Enabled(s, a) && OfWorker(a) && c < |s.cs| && Delivered(s, c)
    ensures Delivered(Apply(s, a), c)
  {
    assert ConnOk(s, c);
    if OnServerSide(a) && a.c == c {
      DeliveredHere(s, a);
    } else {
      ServerStepGrows(s, a);
      ServerStepElsewhere(s, a, c);
      DeliveredElsewhere(s, Apply(s, a), c);
    }
  }

  lemma ClientKeepsEnd(s: State, a: Action, c: nat)
    requires Enabled(s, a) && !OfWorker(a) && !a.Kill? && c < |s.cs|
    ensures var t := Apply(s, a); c < |t.cs| && SameEnd(s.cs[c], t.cs[c])
  {
  }

  lemma SentReadySame(s: State, a: Action, v: nat)
    requires Enabled(s, a) && !OfWorker(a) && v < |s.vs| && !(a.SendReady? && a.v == v)
    ensures var t := Apply(s, a); v < |t.vs| && t.vs[v].sentReady == s.vs[v].sentReady
  {
  }

  lemma ReadySent(s: State, v: nat)
    requires Inv(s) && Enabled(s, SendReady(v)) && Delivered(s, s.vs[v].conn.value)
    ensures Delivered(Apply(s, SendReady(v)), s.vs[v].conn.value)
  {
    var c := s.vs[v].conn.value;
    assert ConnOk(s, c) && VersionOk(s, v);
    assert 1 in Apply(s, SendReady(v)).cs[c].toServer;
  }

  lemma DeliveredByClient(s: State, a: Action, c: nat)
    requires Inv(s) && Enabled(s, a) && !OfWorker(a) && !a.Kill? && c < |s.cs| && Delivered(s, c)
    ensures Delivered(Apply(s, a), c)
  {
    assert ConnOk(s, c);
    if a.SendReady? && a.v == s.cs[c].client {
      ReadySent(s, a.v);
    } else {
      StepGrows(s, a);
      ClientKeepsEnd(s, a, c);
      SentReadySame(s, a, s.cs[c].client);
      DeliveredElsewhere(s, Apply(s, a), c);
    }
  }

  lemma DeliveredByKill(s: State, v: nat, c: nat)
    requires Inv(s) && Enabled(s, Kill(v)) && c < |s.cs| && Delivered(s, c)
    ensures Delivered(Apply(s, Kill(v)), c)
  {
  }

  lemma StepDelivered(s: State, a: Action)
    requires Inv(s) && Enabled(s, a) && forall c :: 0 <= c < |s.cs| ==> Delivered(s, c)
    ensures var t := Apply(s, a); forall c :: 0 <= c < |t.cs| ==> Delivered(t, c)
  {
    var t := Apply(s, a);
    forall c | 0 <= c < |t.cs| ensures Delivered(t, c) {
      if c < |s.cs| {
        if OfWorker(a) {
          DeliveredByServer(s, a, c);
        } else if a.Kill? {
          DeliveredByKill(s, a.v, c);
        } else {
          DeliveredByClient(s, a, c);
        }
      } else {
        assert VersionOk(s, a.v);
      }
    }
  }

  lemma {:induction false} RunDelivered(s: State, acts: seq<Action>)
    requires Inv(s) && Executable(s, acts) && Harmless(s, acts)
    requires forall c :: 0 <= c < |s.cs| ==> Delivered(s, c)
    ensures var t := Exec(s, acts); Inv(t) && forall c :: 0 <= c < |t.cs| ==> Delivered(t, c)
    decreases acts
  {
    if acts != [] {
      StepInv(s, acts[0]);
      StepDelivered(s, acts[0]);
      RunDelivered(Apply(s, acts[0]), acts[1..]);
    }
  }

  lemma FirstStep(s: State, a: Action, rest: seq<Action>)
    requires Enabled(s, a) && Executable(Apply(s, a), rest)
    ensures Executable(s, [a] + rest) && Exec(s, [a] + rest) == Exec(Apply(s, a), rest)
  {
    assert ([a] + rest)[0] == a && ([a] + rest)[1..] == rest;
  }

  /** A worker reads on until it has read the ready message, and answers what comes before it. */
  lemma {:induction false} ReadOn(s: State, w: nat, c: nat) returns (acts: seq<Action>)
    requires ServedBy(s, w) && Holds(s, w, c) && 1 in s.cs[c].toServer
    ensures Executable(s, acts) && forall i :: 0 <= i < |acts| ==> OnServerSide(acts[i])
    ensures var t := Exec(s, acts); t.ws == s.ws && ServedBy(t, w) && t.vs[s.ws[w].ver].latch
    decreases |s.cs[c].toServer|, s.cs[c].owes.Some?
  {
    if s.cs[c].owes == None && s.cs[c].toServer[0] == 1 {
      FirstStep(s, Read(w, c), []);
      acts := [Read(w, c)] + [];
    } else {
      var a := if s.cs[c].owes.Some? then WriteSecond(w, c) else Read(w, c);
      var rest := ReadOn(Apply(s, a), w, c);
      FirstStep(s, a, rest);
      acts := [a] + rest;
    }
  }

  /** The active workers of v among the first n observe its latch. */
  lemma {:induction false} ObserveAll(s: State, v: nat, n: nat) returns (acts: seq<Action>)
    requires v < |s.vs| && s.vs[v].phase == Serving && s.vs[v].latch && n <= |s.ws|
    ensures Executable(s, acts) && forall i :: 0 <= i < |acts| ==> acts[i].Observe?
    ensures var t := Exec(s, acts);
      && t.vs == s.vs && t.cs == s.cs && |t.ws| == |s.ws|
      && (forall w :: 0 <= w < |s.ws| ==> WorkerGrows(s.ws[w], t.ws[w]) && t.ws[w].active == s.ws[w].active)
      && (forall w :: 0 <= w < n && s.ws[w].ver == v && s.ws[w].active ==> t.ws[w].ready)
  {
    acts := [];
    if n > 0 {
      acts := ObserveAll(s, v, n - 1);
      if s.ws[n - 1].ver == v && s.ws[n - 1].active {
        RunSnoc(s, acts, Observe(n - 1));
        acts := acts + [Observe(n - 1)];
      }
    }
  }

  /**
    Progress.  Once a version has sent ready on a connection that was not cut,
    the version that accepted it, if it still serves, can bring all its active
    workers to stop, by steps of its own workers alone and whatever else is
    queued on the connection.
   */
  lemma ReadyReachesAll(port: int, before: seq<Action>, u: nat) returns (acts: seq<Action>)
    requires port != 1 && Executable(Init(port), before) && Harmless(Init(port), before)
    requires var s := Exec(Init(port), before);
      AtConn(s, u) && s.vs[u].sentReady && !s.cs[s.vs[u].conn.value].cut
    ensures var s := Exec(Init(port), before); var server := s.cs[s.vs[u].conn.value].server;
      server.Some? && server.value < |s.ws| && Before(s.order, s.ws[server.value].ver, u)
    ensures var s := Exec(Init(port), before); var server := s.cs[s.vs[u].conn.value].server.value;
      && Executable(s, acts) && (forall i :: 0 <= i < |acts| ==> OfWorker(acts[i]))
      && (ServedBy(s, server) ==>
            var t := Exec(s, acts);
            |t.ws| == |s.ws| &&
            forall w :: 0 <= w < |s.ws| && s.ws[w].ver == s.ws[server].ver && s.ws[w].active ==> t.ws[w].ready)
  {
    RunDelivered(Init(port), before);
    var s := Exec(Init(port), before);
    var c := s.vs[u].conn.value;
    assert VersionOk(s, u) && ConnOk(s, c) && Delivered(s, c);
    var server := s.cs[c].server.value;
    acts := [];
    if ServedBy(s, server) {
      var v := s.ws[server].ver;
      if !s.vs[v].latch {
        acts := ReadOn(s, server, c);
      }
      var t := Exec(s, acts);
      var more := ObserveAll(t, v, |t.ws|);
      RunOn(s, acts, more);
      acts := acts + more;
    }
  }

  // ----- Chains of updates -----

  /** The previous update is over: nobody is binding, and all older workers have stopped. */
  predicate MayLaunch(s: State) {
    && (forall v :: 0 <= v < |s.vs| ==> !Binding(s.vs[v].phase))
    && OlderReady(s)
  }

  predicate OlderReady(s: State) {
    forall w :: 0 <= w < |s.ws| && ServedBy(s, w) && (s.order == [] || s.ws[w].ver != Last(s.order)) ==> s.ws[w].ready
  }

  predicate Sequential(s: State, acts: seq<Action>)
    requires Executable(s, acts)
    decreases acts
  {
    acts == [] || ((acts[0].Launch? ==> MayLaunch(s)) && Sequential(Apply(s, acts[0]), acts[1..]))
  }

  /**
    While a version binds it is the only one, all but the current version have
    stopped, and a worker of the current version serves it.
   */
  predicate ServedByLast(s: State, v: nat) {
    AtConn(s, v) && s.cs[s.vs[v].conn.value].server.Some? ==>
      var w := s.cs[s.vs[v].conn.value].server.value;
      w < |s.ws| && s.order != [] && s.ws[w].ver == Last(s.order)
  }

  predicate ChainOk(s: State) {
    && (forall u, v :: 0 <= u < v < |s.vs| ==> !(Binding(s.vs[u].phase) && Binding(s.vs[v].phase)))
    && ((exists v :: 0 <= v < |s.vs| && Binding(s.vs[v].phase)) ==> OlderReady(s))
    && (forall v :: 0 <= v < |s.vs| && Binding(s.vs[v].phase) ==> ServedByLast(s, v))
  }

  /** Only a launch puts a version into binding, and the order changes only when one leaves it. */
  lemma StepBinding(s: State, a: Action, v: nat)
    requires Enabled(s, a)
    ensures var t := Apply(s, a);
      && (v < |t.vs| && Binding(t.vs[v].phase) && !a.Launch? ==> v < |s.vs| && Binding(s.vs[v].phase))
      && (t.order != s.order ==>
            t.order == s.order + [a.v] && Binding(s.vs[a.v].phase) && |t.vs| == |s.vs| && !Binding(t.vs[a.v].phase))
  {
  }

  /** In a chain of updates a kill cuts no answer: the version that answers is not the one that is killed. */
  lemma ChainHarmless(s: State, v: nat)
    requires Inv(s) && ChainOk(s) && Enabled(s, Kill(v))
    ensures !Cuts(s, v)
  {
    KilledHasSuccessor(s, v);
    forall c | 0 <= c < |s.cs| && HeldBy(s, v, c) ensures !HalfServed(s, c) {
      assert ConnOk(s, c);
      assert !Binding(s.vs[s.cs[c].client].phase) || ServedByLast(s, s.cs[c].client);
    }
  }

  /** While somebody binds, only the current version accepts. */
  lemma AcceptServedByLast(s: State, a: Action, v: nat)
    requires Inv(s) && OlderReady(s) && ServedByLast(s, v) && Enabled(s, a) && a.Accept?
    ensures ServedByLast(Apply(s, a), v)
  {
    assert ConnOk(s, a.c);
  }

  lemma StepServedByLast(s: State, a: Action, v: nat)
    requires Inv(s) && ChainOk(s) && Enabled(s, a) && !a.Launch?
    requires var t := Apply(s, a); v < |t.vs| && Binding(t.vs[v].phase) && t.order == s.order
    ensures ServedByLast(Apply(s, a), v)
  {
    StepBinding(s, a, v);
    assert ServedByLast(s, v) && VersionOk(s, v);
    if a.Accept? {
      AcceptServedByLast(s, a, v);
    } else if AtConn(Apply(s, a), v) {
      SameServer(s, a, v);
      ServerStays(s, Apply(s, a), v);
    }
  }

  lemma ServerStays(s: State, t: State, v: nat)
    requires Grows(s, t) && t.order == s.order && v < |s.vs| && ServedByLast(s, v) && AtConn(t, v)
    requires var c := t.vs[v].conn.value;
      if c < |s.cs| then s.vs[v].conn == Some(c) && t.cs[c].server == s.cs[c].server else t.cs[c].server == None
    ensures ServedByLast(t, v)
  {
  }

  /** Only accept4 gives a connection a server; a version that connects has none yet. */
  lemma SameServer(s: State, a: Action, v: nat)
    requires Inv(s) && Enabled(s, a) && !a.Accept? && !a.Launch? && v < |s.vs| && AtConn(Apply(s, a), v)
    requires VersionOk(s, v)
    ensures var t := Apply(s, a); var c := t.vs[v].conn.value;
      if c < |s.cs| then s.vs[v].conn == Some(c) && t.cs[c].server == s.cs[c].server else t.cs[c].server == None
    ensures Grows(s, Apply(s, a))
  {
    StepGrows(s, a);
  }

  lemma StepChain(s: State, a: Action)
    requires Inv(s) && ChainOk(s) && Enabled(s, a) && (a.Launch? ==> MayLaunch(s))
    ensures ChainOk(Apply(s, a))
  {
    var t := Apply(s, a);
    if !a.Launch? {
      forall v: nat ensures v < |t.vs| && Binding(t.vs[v].phase) ==> v < |s.vs| && Binding(s.vs[v].phase) {
        StepBinding(s, a, v);
      }
      if v: nat :| v < |t.vs| && Binding(t.vs[v].phase) {
        StepBinding(s, a, v);
        OlderStayReady(s, a);
        forall u: nat | u < |t.vs| && Binding(t.vs[u].phase) ensures ServedByLast(t, u) {
          StepServedByLast(s, a, u);
        }
      }
    }
  }

  lemma OlderStayReady(s: State, a: Action)
    requires Inv(s) && Enabled(s, a)
    requires var t := Apply(s, a); t.order == s.order && OlderReady(s)
    ensures OlderReady(Apply(s, a))
  {
  }

  lemma {:induction false} RunChain(s: State, acts: seq<Action>)
    requires Inv(s) && ChainOk(s) && Executable(s, acts) && Sequential(s, acts)
    ensures Inv(Exec(s, acts)) && ChainOk(Exec(s, acts)) && Harmless(s, acts)
    decreases acts
  {
    if acts != [] {
      if acts[0].Kill? {
        ChainHarmless(s, acts[0].v);
      }
      StepInv(s, acts[0]);
      StepChain(s, acts[0]);
      RunChain(Apply(s, acts[0]), acts[1..]);
    }
  }

  /** Over any chain of updates there is no gap, however late workers activate and versions are killed. */
  lemma ChainNoGap(port: int, acts: seq<Action>)
    requires port != 1 && Executable(Init(port), acts) && Sequential(Init(port), acts)
    ensures NoGap(Exec(Init(port), acts))
  {
    RunChain(Init(port), acts);
    InvNoGap(Exec(Init(port), acts));
  }

  /**
    Over any chain of updates, each started when the one before is complete,
    a connection is accepted only by a worker of the current version, and its
    client has not begun to serve.
   */
  lemma OnlyCurrentAccepts(port: int, acts: seq<Action>, w: nat, c: nat)
    requires port != 1 && Executable(Init(port), acts) && Sequential(Init(port), acts)
    requires Enabled(Exec(Init(port), acts), Accept(w, c))
    ensures var s := Exec(Init(port), acts);
      s.order != [] && s.ws[w].ver == Last(s.order) && s.cs[c].client !in s.order
  {
    RunChain(Init(port), acts);
    var s := Exec(Init(port), acts);
    assert ConnOk(s, c);
    assert VersionOk(s, s.cs[c].client);
  }

  /**
    All versions share one monitor listener, so without that discipline a
    pending connection can reach an older version: it cannot exactly when
    every active worker of an older version has stopped.
   */
  lemma CurrentAcceptsIff(port: int, acts: seq<Action>, c: nat)
    requires port != 1 && Executable(Init(port), acts) && Harmless(Init(port), acts)
    requires var s := Exec(Init(port), acts); c < |s.cs| && s.cs[c].server == None
    ensures var s := Exec(Init(port), acts);
      && s.order != []
      && ((forall w: nat :: Enabled(s, Accept(w, c)) ==> s.ws[w].ver == Last(s.order)) <==>
          (forall w: nat :: ServedBy(s, w) && s.ws[w].active && s.ws[w].ver != Last(s.order) ==> s.ws[w].ready))
  {
    RunInv(Init(port), acts);
    var s := Exec(Init(port), acts);
    assert ConnOk(s, c);
    forall w: nat | ServedBy(s, w) && s.ws[w].active && !s.ws[w].ready ensures Enabled(s, Accept(w, c)) {
      assert VersionOk(s, s.ws[w].ver);
    }
  }
}
