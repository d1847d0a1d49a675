/**
  What can go on: an update that comes to its end, an old version that can
  retire, and what becomes of a version whose messages are lost.
 */
module HandoffProgress {
  import opened Options
  import opened Handoff
  import opened HandoffHistory

  // ----- An update comes to its end -----

  /** Every version that serves has a worker. */
  predicate Staffed(s: State) {
    forall v :: 0 <= v < |s.vs| && s.vs[v].phase == Serving ==> exists w :: 0 <= w < |s.ws| && s.ws[w].ver == v
  }

  lemma StaffFrom(s: State, a: Action, v: nat)
    requires Enabled(s, a) && v < |Apply(s, a).vs| && Apply(s, a).vs[v].phase == Serving
    ensures var ws := Apply(s, a).ws;
      (v < |s.vs| && s.vs[v].phase == Serving) || (ws != [] && ws[|ws| - 1] == Worker(v, false, false))
  {
  }

  lemma StepStaffed(s: State, a: Action)
    requires Staffed(s) && Enabled(s, a)
    ensures Staffed(Apply(s, a))
  {
    var t := Apply(s, a);
    forall v | 0 <= v < |t.vs| && t.vs[v].phase == Serving ensures exists w :: 0 <= w < |t.ws| && t.ws[w].ver == v {
      StaffFrom(s, a, v);
      if v < |s.vs| && s.vs[v].phase == Serving {
        var w :| 0 <= w < |s.ws| && s.ws[w].ver == v;
        WorkersKept(s, a, w);
      } else {
        assert t.ws[|t.ws| - 1].ver == v;
      }
    }
  }

  lemma {:induction false} RunStaffed(s: State, acts: seq<Action>)
    requires Staffed(s) && Executable(s, acts)
    ensures Staffed(Exec(s, acts))
    decreases acts
  {
    if acts != [] {
      StepStaffed(s, acts[0]);
      RunStaffed(Apply(s, acts[0]), acts[1..]);
    }
  }

  /** Version v talks to worker w on connection c. */
  predicate Talking(s: State, v: nat, w: nat, c: nat, phase: Phase, x: Conn) {
    && v < |s.vs| && c < |s.cs| && s.vs[v].conn == Some(c) && s.vs[v].phase == phase
    && s.cs[c] == x && x.client == v && x.clientOpen && !x.cut
    && ServedBy(s, w) && s.ws[w].ver != v && s.vs[s.ws[w].ver].mon == x.listener
  }

  predicate SameServer(s: State, t: State, w: nat) {
    && w < |s.ws| && w < |t.ws| && t.ws[w] == s.ws[w] && s.ws[w].ver < |s.vs| && s.ws[w].ver < |t.vs|
    && t.vs[s.ws[w].ver].pub == s.vs[s.ws[w].ver].pub && t.vs[s.ws[w].ver].mon == s.vs[s.ws[w].ver].mon
    && t.port == s.port && t.order == s.order
  }

  function Fresh(v: nat, mon: Socket): Conn {
    Conn(v, mon, None, [], [], None, true, false, 0, false)
  }

  lemma Connects(s: State, v: nat, h: nat, w: nat)
    requires Enabled(s, Connect(v, h)) && ServedBy(s, w) && s.ws[w].ver == h && s.ws[w].active && !s.ws[w].ready
    ensures var t := Apply(s, Connect(v, h));
      Talking(t, v, w, |s.cs|, Connected, Fresh(v, s.vs[h].mon)) && SameServer(s, t, w)
  {
  }

  lemma Asks(s: State, v: nat, w: nat, c: nat, x: Conn)
    requires Talking(s, v, w, c, Connected, x)
    ensures Enabled(s, SendPort(v))
    ensures var t := Apply(s, SendPort(v));
      Talking(t, v, w, c, Requested, x.(toServer := x.toServer + [s.port])) && SameServer(s, t, w)
  {
  }

  lemma IsAccepted(s: State, v: nat, w: nat, c: nat, phase: Phase, x: Conn)
    requires Talking(s, v, w, c, phase, x) && x.server == None && s.ws[w].active && !s.ws[w].ready
    ensures Enabled(s, Accept(w, c))
    ensures var t := Apply(s, Accept(w, c));
      Talking(t, v, w, c, phase, x.(server := Some(w), listed := true)) && SameServer(s, t, w)
  {
  }

  lemma IsRead(s: State, v: nat, w: nat, c: nat, phase: Phase, x: Conn)
    requires Talking(s, v, w, c, phase, x) && Holds(s, w, c) && x.owes == None && x.toServer == [s.port] && s.port != 1
    ensures Enabled(s, Read(w, c))
    ensures var t, public := Apply(s, Read(w, c)), s.vs[s.ws[w].ver].pub;
      && Talking(t, v, w, c, phase, x.(toServer := [], toClient := x.toClient + [Packet(public, s.port)],
                                       owes := Some(s.port)))
      && SameServer(s, t, w)
  {
  }

  lemma FailsToRead(s: State, v: nat, w: nat, c: nat, phase: Phase, x: Conn)
    requires Talking(s, v, w, c, phase, x) && Holds(s, w, c) && x.owes == None
    ensures Enabled(s, ReadError(w, c))
    ensures var t, public := Apply(s, ReadError(w, c)), s.vs[s.ws[w].ver].pub;
      && Talking(t, v, w, c, phase, x.(toClient := x.toClient + [Packet(public, -1)], owes := Some(-1)))
      && SameServer(s, t, w)
  {
  }

  lemma IsAnswered(s: State, v: nat, w: nat, c: nat, phase: Phase, x: Conn)
    requires Talking(s, v, w, c, phase, x) && Holds(s, w, c) && x.owes.Some?
    ensures Enabled(s, WriteSecond(w, c))
    ensures var t, mon := Apply(s, WriteSecond(w, c)), s.vs[s.ws[w].ver].mon;
      && Talking(t, v, w, c, phase, x.(toClient := x.toClient + [Packet(mon, x.owes.value)], owes := None))
      && SameServer(s, t, w)
  {
  }

  lemma TakesPublic(s: State, v: nat, w: nat, c: nat, x: Conn)
    requires Talking(s, v, w, c, Requested, x) && x.toClient != []
    ensures Enabled(s, RecvFirst(v))
    ensures var t := Apply(s, RecvFirst(v));
      Talking(t, v, w, c, HalfAnswered(x.toClient[0]), x.(toClient := x.toClient[1..])) && SameServer(s, t, w)
  {
  }

  /** With both descriptors and a positive port the version serves; with another port it does not. */
  lemma TakesMonitor(s: State, v: nat, w: nat, c: nat, n: nat, got: Packet, x: Conn)
    requires Talking(s, v, w, c, HalfAnswered(got), x) && |x.toClient| == 1 && n > 0
    ensures Enabled(s, RecvSecond(v, true, n))
    ensures var t, second := Apply(s, RecvSecond(v, true, n)), x.toClient[0];
      && v < |t.vs|
      && if second.port > 0
         then t.vs[v].phase == Serving && t.vs[v].pub == got.sock && t.vs[v].mon == second.sock && t.vs[v].owesReady
              && t.order == s.order + [v]
         else t.vs[v].phase == Failed && t.order == s.order
  {
  }

  /** A worker of the version that began to serve last. */
  lemma NewestWorker(s: State) returns (w: nat)
    requires Inv(s) && Staffed(s) && s.order != []
    ensures ServedBy(s, w) && s.ws[w].ver == Last(s.order) && !s.ws[w].ready
  {
    var h := Last(s.order);
    w :| 0 <= w < |s.ws| && s.ws[w].ver == h;
    assert WorkerOk(s, w);
  }

  /** Worker w answers the request of version v. */
  lemma WritesBoth(s: State, v: nat, w: nat, c: nat, x: Conn, failed: bool) returns (acts: seq<Action>)
    requires Talking(s, v, w, c, Requested, x) && Holds(s, w, c)
    requires x.owes == None && x.toClient == [] && (failed || (x.toServer == [s.port] && s.port != 1))
    ensures acts == [if failed then ReadError(w, c) else Read(w, c), WriteSecond(w, c)] && Executable(s, acts)
    ensures var t, u, p := Exec(s, acts), s.ws[w].ver, if failed then -1 else s.port;
      && Talking(t, v, w, c, Requested, x.(toServer := if failed then x.toServer else [],
                                           toClient := [Packet(s.vs[u].pub, p), Packet(s.vs[u].mon, p)]))
      && SameServer(s, t, w)
  {
    var p, u := if failed then -1 else s.port, s.ws[w].ver;
    var public, monitor := Packet(s.vs[u].pub, p), Packet(s.vs[u].mon, p);
    assert [] + [public] == [public] && [public] + [monitor] == [public, monitor];
    var a := if failed then ReadError(w, c) else Read(w, c);
    if failed {
      FailsToRead(s, v, w, c, Requested, x);
    } else {
      IsRead(s, v, w, c, Requested, x);
    }
    var t := Apply(s, a);
    IsAnswered(t, v, w, c, Requested, t.cs[c]);
    TwoSteps(s, a, t, WriteSecond(w, c), Apply(t, WriteSecond(w, c)));
    acts := [a, WriteSecond(w, c)];
  }

  /** Version v reads both messages. */
  lemma TakesBoth(s: State, v: nat, w: nat, c: nat, n: nat, x: Conn) returns (acts: seq<Action>)
    requires Talking(s, v, w, c, Requested, x) && |x.toClient| == 2 && n > 0
    ensures acts == [RecvFirst(v), RecvSecond(v, true, n)] && Executable(s, acts) && v < |Exec(s, acts).vs|
    ensures var t := Exec(s, acts);
      if x.toClient[1].port > 0
      then t.vs[v].phase == Serving && t.vs[v].pub == x.toClient[0].sock && t.vs[v].mon == x.toClient[1].sock
           && t.vs[v].owesReady && t.order == s.order + [v]
      else t.vs[v].phase == Failed && t.order == s.order
  {
    TakesPublic(s, v, w, c, x);
    var t := Apply(s, RecvFirst(v));
    TakesMonitor(t, v, w, c, n, x.toClient[0], x.(toClient := x.toClient[1..]));
    TwoSteps(s, RecvFirst(v), t, RecvSecond(v, true, n), Apply(t, RecvSecond(v, true, n)));
    acts := [RecvFirst(v), RecvSecond(v, true, n)];
  }

  /** The answer of worker w to the request of version v, and the two reads of v. */
  lemma Answers(s: State, v: nat, w: nat, c: nat, n: nat, x: Conn, failed: bool) returns (acts: seq<Action>)
    requires Talking(s, v, w, c, Requested, x) && Holds(s, w, c) && n > 0
    requires x.owes == None && x.toClient == [] && (failed || (x.toServer == [s.port] && s.port != 1))
    ensures acts == [if failed then ReadError(w, c) else Read(w, c), WriteSecond(w, c),
                     RecvFirst(v), RecvSecond(v, true, n)]
    ensures Executable(s, acts) && v < |Exec(s, acts).vs|
    ensures var t, u := Exec(s, acts), s.ws[w].ver;
      if !failed && s.port > 0
      then t.vs[v].phase == Serving && t.vs[v].pub == s.vs[u].pub && t.vs[v].mon == s.vs[u].mon && t.vs[v].owesReady
           && t.order == s.order + [v]
      else t.vs[v].phase == Failed && t.order == s.order
  {
    var first := WritesBoth(s, v, w, c, x, failed);
    var t := Exec(s, first);
    var second := TakesBoth(t, v, w, c, n, t.cs[c]);
    RunOn(s, first, second);
    acts := first + second;
  }

  lemma TwoSteps(s: State, a: Action, t: State, b: Action, u: State)
    requires Enabled(s, a) && t == Apply(s, a) && Enabled(t, b) && u == Apply(t, b)
    ensures Executable(s, [a, b]) && Exec(s, [a, b]) == u
  {
    assert Executable(u, []);
    FirstStep(t, b, []);
    assert [b] + [] == [b];
    FirstStep(s, a, [b]);
    assert [a] + [b] == [a, b];
  }

  /** Worker w, activated if need be, and version v as far as the answer. */
  lemma Requests(s: State, v: nat, w: nat) returns (acts: seq<Action>)
    requires ServedBy(s, w) && s.ws[w].active && !s.ws[w].ready && Enabled(s, Connect(v, s.ws[w].ver))
    ensures acts == [Connect(v, s.ws[w].ver), SendPort(v), Accept(w, |s.cs|)] && Executable(s, acts)
    ensures var t := Exec(s, acts); var x := Fresh(v, s.vs[s.ws[w].ver].mon);
      && Talking(t, v, w, |s.cs|, Requested, x.(toServer := [s.port], server := Some(w), listed := true))
      && SameServer(s, t, w)
  {
    var h, c := s.ws[w].ver, |s.cs|;
    var x := Fresh(v, s.vs[h].mon);
    Connects(s, v, h, w);
    var s1 := Apply(s, Connect(v, h));
    assert [] + [s.port] == [s.port];
    Asks(s1, v, w, c, x);
    var s2 := Apply(s1, SendPort(v));
    IsAccepted(s2, v, w, c, Requested, x.(toServer := [s.port]));
    var s3 := Apply(s2, Accept(w, c));
    assert Executable(s3, []);
    FirstStep(s2, Accept(w, c), []);
    assert [Accept(w, c)] + [] == [Accept(w, c)];
    FirstStep(s1, SendPort(v), [Accept(w, c)]);
    assert [SendPort(v)] + [Accept(w, c)] == [SendPort(v), Accept(w, c)];
    FirstStep(s, Connect(v, h), [SendPort(v), Accept(w, c)]);
    acts := [Connect(v, h)] + [SendPort(v), Accept(w, c)];
  }

  /**
    An update comes to its end: in any reachable state that serves, a version
    that has just been launched can connect to the one that began to serve
    last, be accepted by one of its workers, ask, be answered and inherit the
    two sockets, whatever others are doing.  It then serves if the port is
    positive, and owes ready.
   */
  lemma UpdateCompletes(port: int, before: seq<Action>, v: nat, n: nat) returns (w: nat, acts: seq<Action>)
    requires port != 1 && Executable(Init(port), before) && Harmless(Init(port), before) && n > 0
    requires var s := Exec(Init(port), before); v < |s.vs| && s.vs[v].phase == Start && s.order != []
    ensures var s := Exec(Init(port), before); w < |s.ws| && s.ws[w].ver == Last(s.order) && s.ws[w].ver < |s.vs|
    ensures var s := Exec(Init(port), before); var c := |s.cs|;
      acts == (if s.ws[w].active then [] else [Activate(w)]) +
              [Connect(v, Last(s.order)), SendPort(v), Accept(w, c)] +
              [Read(w, c), WriteSecond(w, c), RecvFirst(v), RecvSecond(v, true, n)]
    ensures Executable(Exec(Init(port), before), acts)
    ensures var s := Exec(Init(port), before); var t, h := Exec(s, acts), s.ws[w].ver;
      && v < |t.vs|
      && if port > 0
         then t.vs[v].phase == Serving && t.vs[v].pub == s.vs[h].pub && t.vs[v].mon == s.vs[h].mon && t.vs[v].owesReady
              && t.order == s.order + [v]
         else t.vs[v].phase == Failed && t.order == s.order
  {
    var s := Exec(Init(port), before);
    RunInv(Init(port), before);
    RunStaffed(Init(port), before);
    RunPort(Init(port), before);
    w := NewestWorker(s);
    var first := if s.ws[w].active then [] else [Activate(w)];
    var s0 := GetsActive(s, w, first);
    var asked := Requests(s0, v, w);
    var s1 := Exec(s0, asked);
    var x := Fresh(v, s.vs[s.ws[w].ver].mon).(toServer := [port], server := Some(w), listed := true);
    var answered := Answers(s1, v, w, |s.cs|, n, x, false);
    RunOn(s, first, asked);
    RunOn(s, first + asked, answered);
    acts := first + asked + answered;
  }

  lemma {:induction false} RunPort(s: State, acts: seq<Action>)
    requires Executable(s, acts)
    ensures Exec(s, acts).port == s.port
    decreases acts
  {
    if acts != [] {
      RunPort(Apply(s, acts[0]), acts[1..]);
    }
  }

  lemma GetsActive(s: State, w: nat, first: seq<Action>) returns (t: State)
    requires ServedBy(s, w) && first == if s.ws[w].active then [] else [Activate(w)]
    ensures Executable(s, first) && t == Exec(s, first) && t == s.(ws := s.ws[w := s.ws[w].(active := true)])
  {
    t := s.(ws := s.ws[w := s.ws[w].(active := true)]);
    if s.ws[w].active {
      assert t.ws == s.ws;
    } else {
      assert Executable(t, []);
      FirstStep(s, Activate(w), []);
      assert [Activate(w)] + [] == [Activate(w)];
    }
  }

  /**
    A read that fails is answered with -1: a version whose request has not been
    read yet then goes on without inheriting.
   */
  lemma FailedReadFails(port: int, before: seq<Action>, v: nat, n: nat) returns (acts: seq<Action>)
    requires port != 1 && Executable(Init(port), before) && Harmless(Init(port), before) && n > 0
    requires var s := Exec(Init(port), before);
      AtConn(s, v) && s.vs[v].phase == Requested &&
      var x := s.cs[s.vs[v].conn.value];
        && x.server.Some? && ServedBy(s, x.server.value) && x.listed
        && x.toServer != [] && x.toClient == [] && x.owes == None
    ensures var s := Exec(Init(port), before); var c := s.vs[v].conn.value; var w := s.cs[c].server.value;
      acts == [ReadError(w, c), WriteSecond(w, c), RecvFirst(v), RecvSecond(v, true, n)]
    ensures var s := Exec(Init(port), before);
      && Executable(s, acts) && v < |Exec(s, acts).vs| && Exec(s, acts).vs[v].phase == Failed
  {
    var s := Exec(Init(port), before);
    RunInv(Init(port), before);
    var c := s.vs[v].conn.value;
    var w := s.cs[c].server.value;
    assert VersionOk(s, v) && ConnOk(s, c) && WorkerOk(s, w);
    assert VersionOk(s, s.ws[w].ver);
    acts := Answers(s, v, w, c, n, s.cs[c], true);
  }

  // ----- An old version can retire -----

  /** The client of connection c has hung up, or can only do so. */
  predicate Leaving(s: State, c: nat)
    requires c < |s.cs|
  {
    var x := s.cs[c];
    !x.clientOpen || (x.client < |s.vs| && s.vs[x.client].phase == Failed && s.vs[x.client].conn == Some(c))
  }

  /** Between s and t, connections were closed and nothing else happened that matters to version v. */
  predicate Quieter(s: State, t: State, v: nat) {
    && t.ws == s.ws && |t.vs| == |s.vs| && |t.cs| == |s.cs| && v < |s.vs|
    && (s.vs[v].phase == Serving ==> t.vs[v].phase == Serving) && (s.vs[v].latch ==> t.vs[v].latch)
    && forall c :: 0 <= c < |s.cs| ==>
         t.cs[c].server == s.cs[c].server && (t.cs[c].listed ==> s.cs[c].listed) && (Leaving(s, c) ==> Leaving(t, c))
  }

  predicate Closing(a: Action, v: nat, s: State) {
    a.Exit? || ((a.Read? || a.ReadClosed? || a.WriteSecond?) && a.w < |s.ws| && s.ws[a.w].ver == v)
  }

  lemma StepQuieter(s: State, a: Action, v: nat)
    requires Enabled(s, a) && Closing(a, v, s) && v < |s.vs|
    ensures Quieter(s, Apply(s, a), v)
  {
    var t := Apply(s, a);
    forall c | 0 <= c < |s.cs|
      ensures t.cs[c].server == s.cs[c].server && (t.cs[c].listed ==> s.cs[c].listed)
      ensures Leaving(s, c) ==> Leaving(t, c)
    {
      StepLeaving(s, a, c);
    }
  }

  lemma StepLeaving(s: State, a: Action, c: nat)
    requires Enabled(s, a) && (a.Exit? || a.Read? || a.ReadClosed? || a.WriteSecond?) && c < |s.cs|
    ensures var t := Apply(s, a);
      && |t.cs| == |s.cs| && t.cs[c].server == s.cs[c].server && (t.cs[c].listed ==> s.cs[c].listed)
      && (Leaving(s, c) ==> Leaving(t, c))
  {
  }

  /** The worker reads what is left on a connection whose client has hung up, and closes it. */
  lemma {:induction false} Drain(s: State, v: nat, w: nat, c: nat) returns (acts: seq<Action>)
    requires ServedBy(s, w) && Holds(s, w, c) && !s.cs[c].clientOpen && s.ws[w].ver == v
    ensures Executable(s, acts) && forall i :: 0 <= i < |acts| ==> Closing(acts[i], v, s) && !acts[i].Exit?
    ensures var t := Exec(s, acts); Quieter(s, t, v) && !t.cs[c].listed
    decreases |s.cs[c].toServer|, s.cs[c].owes.Some?
  {
    var a := if s.cs[c].owes.Some? then WriteSecond(w, c)
             else if s.cs[c].toServer != [] then Read(w, c) else ReadClosed(w, c);
    var t := Apply(s, a);
    StepQuieter(s, a, v);
    if t.cs[c].listed {
      var rest := Drain(t, v, w, c);
      FirstStep(s, a, rest);
      acts := [a] + rest;
    } else {
      assert Executable(t, []);
      FirstStep(s, a, []);
      acts := [a] + [];
    }
  }

  /** If connection c is held by a worker of version v, it can be closed. */
  lemma CloseOne(s: State, v: nat, c: nat) returns (acts: seq<Action>)
    requires v < |s.vs| && s.vs[v].phase == Serving && c < |s.cs| && (HeldBy(s, v, c) ==> Leaving(s, c))
    ensures Executable(s, acts) && forall i :: 0 <= i < |acts| ==> Closing(acts[i], v, s)
    ensures var t := Exec(s, acts); Quieter(s, t, v) && !HeldBy(t, v, c)
  {
    if !HeldBy(s, v, c) {
      acts := [];
    } else if s.cs[c].clientOpen {
      var u := s.cs[c].client;
      StepQuieter(s, Exit(u), v);
      var rest := Drain(Apply(s, Exit(u)), v, s.cs[c].server.value, c);
      FirstStep(s, Exit(u), rest);
      acts := [Exit(u)] + rest;
    } else {
      acts := Drain(s, v, s.cs[c].server.value, c);
    }
  }

  lemma {:induction false} CloseAll(s: State, v: nat, n: nat) returns (acts: seq<Action>)
    requires v < |s.vs| && s.vs[v].phase == Serving && n <= |s.cs|
    requires forall c :: 0 <= c < |s.cs| && HeldBy(s, v, c) ==> Leaving(s, c)
    ensures Executable(s, acts) && forall i :: 0 <= i < |acts| ==> Closing(acts[i], v, s)
    ensures var t := Exec(s, acts); Quieter(s, t, v) && forall c :: 0 <= c < n ==> !HeldBy(t, v, c)
  {
    acts := [];
    if n > 0 {
      acts := CloseAll(s, v, n - 1);
      var t := Exec(s, acts);
      forall c | 0 <= c < |t.cs| && HeldBy(t, v, c) ensures Leaving(t, c) {
        assert HeldBy(s, v, c);
      }
      var more := CloseOne(t, v, n - 1);
      QuieterOn(s, t, Exec(t, more), v);
      RunOn(s, acts, more);
      acts := acts + more;
    }
  }

  lemma QuieterOn(s: State, t: State, u: State, v: nat)
    requires Quieter(s, t, v) && Quieter(t, u, v)
    ensures Quieter(s, u, v) && forall c :: 0 <= c < |t.cs| && !HeldBy(t, v, c) ==> !HeldBy(u, v, c)
  {
    forall c | 0 <= c < |s.cs|
      ensures u.cs[c].server == s.cs[c].server && (u.cs[c].listed ==> s.cs[c].listed)
      ensures (Leaving(s, c) ==> Leaving(u, c)) && (!HeldBy(t, v, c) ==> !HeldBy(u, v, c))
    {
      assert t.cs[c].server == s.cs[c].server && (t.cs[c].listed ==> s.cs[c].listed);
    }
  }

  /** A worker of version v has taken a ready message, so it is active. */
  lemma ReaderActive(port: int, before: seq<Action>, v: nat) returns (w: nat)
    requires port != 1 && Executable(Init(port), before) && Harmless(Init(port), before)
    requires var s := Exec(Init(port), before); v < |s.vs| && s.vs[v].latch
    ensures var s := Exec(Init(port), before); w < |s.ws| && s.ws[w].ver == v && s.ws[w].active
  {
    var s := Exec(Init(port), before);
    RunInv(Init(port), before);
    LatchedIff(port, before, v);
    var c :| 0 <= c < |s.cs| && ReadyTaken(s, c) && ReaderOf(s, c, v);
    assert ConnOk(s, c);
    w := s.cs[c].server.value;
  }

  /**
    An old version can retire: once its latch is set and every client on a
    connection that its workers hold has hung up, or has failed to inherit, its
    workers can close these connections and observe the latch, and one of them
    can decide to kill the version.  No other version has to do anything, apart
    from those that failed, which exit.
   */
  lemma OldVersionRetires(port: int, before: seq<Action>, v: nat) returns (acts: seq<Action>)
    requires port != 1 && Executable(Init(port), before) && Harmless(Init(port), before)
    requires var s := Exec(Init(port), before);
      && v < |s.vs| && s.vs[v].phase == Serving && s.vs[v].latch
      && forall c :: 0 <= c < |s.cs| && HeldBy(s, v, c) ==> Leaving(s, c)
    ensures var s := Exec(Init(port), before);
      && Executable(s, acts) && (forall i :: 0 <= i < |acts| ==> acts[i].Observe? || Closing(acts[i], v, s))
      && Enabled(Exec(s, acts), Decide(v)) && Enabled(Apply(Exec(s, acts), Decide(v)), Kill(v))
  {
    var s := Exec(Init(port), before);
    var w := ReaderActive(port, before, v);
    acts := CloseAll(s, v, |s.cs|);
    var t := Exec(s, acts);
    var more := ObserveAll(t, v, |t.ws|);
    RunOn(s, acts, more);
    acts := acts + more;
    CanDecide(t, Exec(t, more), v, w);
  }

  lemma CanDecide(s: State, t: State, v: nat, w: nat)
    requires v < |s.vs| && s.vs[v].phase == Serving && t.vs == s.vs && |t.ws| == |s.ws|
    requires forall u :: 0 <= u < |s.ws| ==> WorkerGrows(s.ws[u], t.ws[u]) && t.ws[u].active == s.ws[u].active
    requires forall u :: 0 <= u < |s.ws| && s.ws[u].ver == v && s.ws[u].active ==> t.ws[u].ready
    requires t.cs == s.cs && forall c :: 0 <= c < |s.cs| ==> !HeldBy(s, v, c)
    requires w < |s.ws| && s.ws[w].ver == v && s.ws[w].active
    ensures Enabled(t, Decide(v))
  {
    forall u | 0 <= u < |t.ws| && t.ws[u].ver == v && t.ws[u].active ensures t.ws[u].ready && HoldsNothing(t, u) {
      forall c | 0 <= c < |t.cs| ensures !Holds(t, u, c) {
        assert !HeldBy(s, v, c);
      }
    }
    assert t.ws[w].ver == v && t.ws[w].active;
  }

  // ----- Lost messages -----

  /**
    A version whose connection was cut by a kill while it binds does not wait:
    by its own steps it comes to serve, if both messages of a positive answer
    were sent before, or goes on without inheriting.
   */
  lemma CutMovesOn(port: int, before: seq<Action>, v: nat, n: nat) returns (acts: seq<Action>)
    requires port != 1 && Executable(Init(port), before) && Harmless(Init(port), before) && n > 0
    requires var s := Exec(Init(port), before);
      AtConn(s, v) && Binding(s.vs[v].phase) && s.cs[s.vs[v].conn.value].cut
    ensures var s := Exec(Init(port), before); var x := s.cs[s.vs[v].conn.value];
      acts == if s.vs[v].phase == Connected then [SendFails(v)]
              else if s.vs[v].phase == Requested then
                if x.toClient == [] then [RecvClosed(v, true, n)]
                else if |x.toClient| == 1 then [RecvFirst(v), RecvClosed(v, true, n)]
                else [RecvFirst(v), RecvSecond(v, true, n)]
              else if x.toClient == [] then [RecvClosed(v, true, n)] else [RecvSecond(v, true, n)]
    ensures var s := Exec(Init(port), before);
      Executable(s, acts) && v < |Exec(s, acts).vs| &&
      Exec(s, acts).vs[v].phase ==
        if acts[|acts| - 1].RecvSecond? && AnswerPort(s, v) > 0 then Serving else Failed
  {
    var s := Exec(Init(port), before);
    RunInv(Init(port), before);
    var c := s.vs[v].conn.value;
    assert VersionOk(s, v) && ConnOk(s, c);
    var x := s.cs[c];
    if s.vs[v].phase == Connected {
      acts := [SendFails(v)];
      OneStep(s, SendFails(v));
    } else if s.vs[v].phase == Requested && x.toClient != [] {
      acts := FirstThen(s, v, n);
    } else if x.toClient == [] {
      ClosedFails(s, RecvClosed(v, true, n));
      OneStep(s, RecvClosed(v, true, n));
      acts := [RecvClosed(v, true, n)];
    } else {
      NextReply(s, v);
      OneStep(s, RecvSecond(v, true, n));
      acts := [RecvSecond(v, true, n)];
    }
  }

  lemma FirstThen(s: State, v: nat, n: nat) returns (acts: seq<Action>)
    requires Inv(s) && AtConn(s, v) && s.vs[v].phase == Requested && n > 0
    requires var x := s.cs[s.vs[v].conn.value]; x.cut && x.toClient != []
    ensures var x := s.cs[s.vs[v].conn.value];
      && acts == [RecvFirst(v), if |x.toClient| == 1 then RecvClosed(v, true, n) else RecvSecond(v, true, n)]
      && Executable(s, acts) && v < |Exec(s, acts).vs|
      && Exec(s, acts).vs[v].phase == if |x.toClient| > 1 && x.toClient[0].port > 0 then Serving else Failed
  {
    var c, t := s.vs[v].conn.value, Apply(s, RecvFirst(v));
    StepInv(s, RecvFirst(v));
    assert t.vs[v].phase == HalfAnswered(s.cs[c].toClient[0]) && t.cs[c].toClient == s.cs[c].toClient[1..];
    var a := if |s.cs[c].toClient| == 1 then RecvClosed(v, true, n) else RecvSecond(v, true, n);
    if |s.cs[c].toClient| == 1 {
      ClosedFails(t, a);
    } else {
      NextReply(t, v);
    }
    TwoSteps(s, RecvFirst(v), t, a, Apply(t, a));
    acts := [RecvFirst(v), a];
  }

  /** The port of the answer that version v is taking. */
  function AnswerPort(s: State, v: nat): int
    requires AtConn(s, v)
  {
    if s.vs[v].phase.HalfAnswered? then s.vs[v].phase.got.port
    else if s.cs[s.vs[v].conn.value].toClient != [] then s.cs[s.vs[v].conn.value].toClient[0].port
    else -1
  }

  lemma OneStep(s: State, a: Action)
    requires Enabled(s, a)
    ensures Executable(s, [a]) && Exec(s, [a]) == Apply(s, a)
  {
    assert Executable(Apply(s, a), []);
    FirstStep(s, a, []);
    assert [a] + [] == [a];
  }

  /**
    A report that is lost is lost for good: sending may fail whenever ready is
    owed, and in no continuation is it sent again.
   */
  lemma LostForGood(port: int, before: seq<Action>, v: nat, more: seq<Action>, i: nat)
    requires port != 1 && Executable(Init(port), before) && Harmless(Init(port), before)
    requires v < |Exec(Init(port), before).vs|
    ensures var s := Exec(Init(port), before);
      Enabled(s, LoseReady(v)) <==> s.vs[v].phase == Serving && s.vs[v].owesReady
    ensures var s := Exec(Init(port), before);
      (&& Enabled(s, LoseReady(v)) && Executable(Apply(s, LoseReady(v)), more)
       && Harmless(Apply(s, LoseReady(v)), more) && i < |more|) ==> more[i] != SendReady(v)
  {
    var s := Exec(Init(port), before);
    RunInv(Init(port), before);
    assert VersionOk(s, v);
    if Enabled(s, LoseReady(v)) && Executable(Apply(s, LoseReady(v)), more) &&
       Harmless(Apply(s, LoseReady(v)), more) && i < |more| {
      OwedIff(port, before, v);
      StepInv(s, LoseReady(v));
      NeverOwed(Apply(s, LoseReady(v)), more, v, i);
    }
  }

  lemma {:induction false} NeverOwed(s: State, acts: seq<Action>, v: nat, i: nat)
    requires Inv(s) && Executable(s, acts) && Harmless(s, acts) && i < |acts|
    requires v in s.order && v < |s.vs| && !s.vs[v].owesReady
    ensures acts[i] != SendReady(v)
    decreases acts
  {
    if i > 0 {
      StepInv(s, acts[0]);
      StepOwes(s, acts[0], v);
      NeverOwed(Apply(s, acts[0]), acts[1..], v, i - 1);
    }
  }
}
