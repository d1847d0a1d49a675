/**
  What a state of the handoff remembers of the run that led to it: who has
  done what, and which messages are on the way on each internal connection.
 */
module HandoffHistory {
  import opened Options
  import opened Handoff

  lemma MoreCount(acts: seq<Action>, a: Action, b: Action)
    ensures multiset(acts + [a])[b] == multiset(acts)[b] + if a == b then 1 else 0
    ensures b in acts + [a] <==> b in acts || b == a
  {
  }

  // ----- Versions and workers -----

  /** Who has done what: the flags of versions, workers and connections say exactly that. */
  ghost predicate Remembers(acts: seq<Action>, t: State) {
    && (forall w: nat :: Observe(w) in acts <==> w < |t.ws| && t.ws[w].ready)
    && (forall w: nat :: Activate(w) in acts <==> w < |t.ws| && t.ws[w].active)
    && (forall v: nat :: Decide(v) in acts <==> v < |t.vs| && t.vs[v].decided)
    && (forall v: nat :: SendReady(v) in acts <==> v < |t.vs| && t.vs[v].sentReady)
    && (forall v: nat :: Kill(v) in acts || Exit(v) in acts <==> v < |t.vs| && t.vs[v].phase == Gone)
    && (forall w: nat, c: nat :: Accept(w, c) in acts <==> c < |t.cs| && t.cs[c].server == Some(w))
  }

  /** What one step does to the flags of worker w, */
  lemma StepWorker(s: State, a: Action, w: nat)
    requires Enabled(s, a)
    ensures var t := Apply(s, a);
      && (w < |t.ws| && t.ws[w].ready <==> (w < |s.ws| && s.ws[w].ready) || a == Observe(w))
      && (w < |t.ws| && t.ws[w].active <==> (w < |s.ws| && s.ws[w].active) || a == Activate(w))
  {
  }

  /** of version v, */
  lemma StepVersion(s: State, a: Action, v: nat)
    requires Enabled(s, a)
    ensures var t := Apply(s, a);
      && (v < |t.vs| && t.vs[v].decided <==> (v < |s.vs| && s.vs[v].decided) || a == Decide(v))
      && (v < |t.vs| && t.vs[v].sentReady <==> (v < |s.vs| && s.vs[v].sentReady) || a == SendReady(v))
      && (v < |t.vs| && t.vs[v].phase == Gone <==>
            (v < |s.vs| && s.vs[v].phase == Gone) || a == Kill(v) || a == Exit(v))
  {
    StepGone(s, a, v);
  }

  lemma StepGone(s: State, a: Action, v: nat)
    requires Enabled(s, a)
    ensures var t := Apply(s, a);
      v < |t.vs| && t.vs[v].phase == Gone <==> (v < |s.vs| && s.vs[v].phase == Gone) || a == Kill(v) || a == Exit(v)
  {
  }

  /** and of connection c. */
  lemma StepServer(s: State, a: Action, w: nat, c: nat)
    requires Enabled(s, a)
    ensures var t := Apply(s, a);
      c < |t.cs| && t.cs[c].server == Some(w) <==> (c < |s.cs| && s.cs[c].server == Some(w)) || a == Accept(w, c)
  {
  }

  lemma StepWorkers(acts: seq<Action>, s: State, a: Action)
    requires Remembers(acts, s) && Enabled(s, a)
    ensures var t := Apply(s, a);
      && (forall w: nat :: Observe(w) in acts + [a] <==> w < |t.ws| && t.ws[w].ready)
      && (forall w: nat :: Activate(w) in acts + [a] <==> w < |t.ws| && t.ws[w].active)
  {
    var more, t := acts + [a], Apply(s, a);
    forall w: nat
      ensures Observe(w) in more <==> w < |t.ws| && t.ws[w].ready
      ensures Activate(w) in more <==> w < |t.ws| && t.ws[w].active
    {
      StepWorker(s, a, w);
      MoreCount(acts, a, Observe(w));
      MoreCount(acts, a, Activate(w));
    }
  }

  lemma StepVersions(acts: seq<Action>, s: State, a: Action)
    requires Remembers(acts, s) && Enabled(s, a)
    ensures var t := Apply(s, a);
      && (forall v: nat :: Decide(v) in acts + [a] <==> v < |t.vs| && t.vs[v].decided)
      && (forall v: nat :: SendReady(v) in acts + [a] <==> v < |t.vs| && t.vs[v].sentReady)
      && (forall v: nat :: Kill(v) in acts + [a] || Exit(v) in acts + [a] <==> v < |t.vs| && t.vs[v].phase == Gone)
  {
    var more, t := acts + [a], Apply(s, a);
    forall v: nat
      ensures Decide(v) in more <==> v < |t.vs| && t.vs[v].decided
      ensures SendReady(v) in more <==> v < |t.vs| && t.vs[v].sentReady
      ensures Kill(v) in more || Exit(v) in more <==> v < |t.vs| && t.vs[v].phase == Gone
    {
      StepVersion(s, a, v);
      MoreCount(acts, a, Decide(v));
      MoreCount(acts, a, SendReady(v));
      MoreCount(acts, a, Kill(v));
      MoreCount(acts, a, Exit(v));
    }
  }

  lemma StepRemembers(acts: seq<Action>, s: State, a: Action)
    requires Remembers(acts, s) && Enabled(s, a)
    ensures Remembers(acts + [a], Apply(s, a))
  {
    var t := Apply(s, a);
    StepWorkers(acts, s, a);
    StepVersions(acts, s, a);
    forall w: nat, c: nat ensures Accept(w, c) in acts + [a] <==> c < |t.cs| && t.cs[c].server == Some(w) {
      StepServer(s, a, w, c);
      MoreCount(acts, a, Accept(w, c));
    }
  }

  lemma {:induction false} LastOf(s: State, acts: seq<Action>, a: Action)
    requires Executable(s, acts + [a])
    ensures Executable(s, acts) && Enabled(Exec(s, acts), a)
    ensures Exec(s, acts + [a]) == Apply(Exec(s, acts), a)
    decreases acts
  {
    if acts == [] {
      assert acts + [a] == [a] && [a][1..] == [];
      assert Exec(Apply(s, a), []) == Apply(s, a);
    } else {
      assert (acts + [a])[0] == acts[0] && (acts + [a])[1..] == acts[1..] + [a];
      LastOf(Apply(s, acts[0]), acts[1..], a);
    }
  }

  /** The last step of a run. */
  lemma RunLast(s: State, acts: seq<Action>)
    requires acts != [] && Executable(s, acts)
    ensures var n := |acts| - 1;
      && acts == acts[..n] + [acts[n]] && Executable(s, acts[..n])
      && Enabled(Exec(s, acts[..n]), acts[n]) && Exec(s, acts) == Apply(Exec(s, acts[..n]), acts[n])
  {
    var n := |acts| - 1;
    assert acts == acts[..n] + [acts[n]];
    LastOf(s, acts[..n], acts[n]);
  }

  /**
    In every reachable state, for any port and whatever kills have cut: a
    worker is ready if and only if it has observed the latch, and active if and
    only if it has activated; a version has sent ready, is doomed, or is gone
    if and only if it has done, decided, or suffered that; and a connection
    belongs to the worker that accepted it.
   */
  lemma {:induction false} RunRemembers(port: int, acts: seq<Action>)
    requires Executable(Init(port), acts)
    ensures Remembers(acts, Exec(Init(port), acts))
    decreases |acts|
  {
    if acts != [] {
      var n := |acts| - 1;
      RunLast(Init(port), acts);
      RunRemembers(port, acts[..n]);
      StepRemembers(acts[..n], Exec(Init(port), acts[..n]), acts[n]);
    }
  }

  // ----- Messages -----

  /** What version v has sent to its server: the port, and later ready. */
  function Sent(acts: seq<Action>, port: int, v: nat): seq<int> {
    (if SendPort(v) in acts then [port] else []) + (if SendReady(v) in acts then [1] else [])
  }

  /** How often connection c was read with success. */
  function ReadsOf(acts: seq<Action>, x: Conn, c: nat): nat {
    if x.server.Some? then multiset(acts)[Read(x.server.value, c)] else 0
  }

  /** What is queued for the server is what was sent and not read. */
  ghost predicate Queued(acts: seq<Action>, t: State, c: nat)
    requires c < |t.cs|
  {
    var x := t.cs[c];
    var sent, taken := Sent(acts, t.port, x.client), ReadsOf(acts, x, c);
    taken <= |sent| && x.toServer == sent[taken..]
  }

  /** A version that has sent its port has connected, and a connection that was read has a server. */
  ghost predicate Senders(acts: seq<Action>, t: State) {
    && (forall v: nat :: SendPort(v) in acts ==>
          v < |t.vs| && t.vs[v].phase != Start && t.vs[v].phase != Connected && t.vs[v].conn.Some?)
    && (forall v: nat :: SendReady(v) in acts ==> v < |t.vs| && t.vs[v].sentReady && t.vs[v].conn.Some?)
    && (forall w: nat, c: nat :: Read(w, c) in acts ==> c < |t.cs| && t.cs[c].server == Some(w))
  }

  lemma StepSenders(acts: seq<Action>, s: State, a: Action)
    requires Inv(s) && Senders(acts, s) && Enabled(s, a)
    ensures Senders(acts + [a], Apply(s, a))
  {
    var more, t := acts + [a], Apply(s, a);
    assert forall b :: b in more <==> b in acts || b == a;
    StepGrows(s, a);
    forall v: nat | SendPort(v) in more
      ensures v < |t.vs| && t.vs[v].phase != Start && t.vs[v].phase != Connected && t.vs[v].conn.Some?
    {
      StepPhase(s, a, v);
    }
    forall v: nat | SendReady(v) in more ensures v < |t.vs| && t.vs[v].sentReady && t.vs[v].conn.Some? {
      assert v < |s.vs|;
    }
    forall w: nat, c: nat | Read(w, c) in more ensures c < |t.cs| && t.cs[c].server == Some(w) {
      assert ConnGrows(s.cs[c], t.cs[c]);
    }
  }

  lemma StepPhase(s: State, a: Action, v: nat)
    requires Enabled(s, a) && v < |s.vs|
    requires (s.vs[v].phase != Start && s.vs[v].phase != Connected) || a == SendPort(v)
    ensures var t := Apply(s, a); v < |t.vs| && t.vs[v].phase != Start && t.vs[v].phase != Connected
  {
  }

  /** A new connection carries nothing yet. */
  lemma QueuedNew(acts: seq<Action>, s: State, a: Action)
    requires Inv(s) && Senders(acts, s) && Enabled(s, a) && a.Connect?
    ensures Queued(acts + [a], Apply(s, a), |s.cs|)
  {
    assert VersionOk(s, a.v);
    MoreCount(acts, a, SendPort(a.v));
    MoreCount(acts, a, SendReady(a.v));
  }

  lemma Dequeue(sent: seq<int>, n: nat)
    requires n < |sent|
    ensures sent[n..][1..] == sent[n + 1..]
  {
  }

  lemma Enqueue(sent: seq<int>, n: nat, m: int)
    requires n <= |sent|
    ensures (sent + [m])[n..] == sent[n..] + [m]
  {
  }

  lemma ReadEffect(s: State, a: Action)
    requires Enabled(s, a) && a.Read?
    ensures var x, y := s.cs[a.c], Apply(s, a).cs[a.c];
      y.toServer == x.toServer[1..] && y.client == x.client && y.server == x.server && Apply(s, a).port == s.port
  {
  }

  /** A read takes the first message. */
  lemma QueuedRead(acts: seq<Action>, s: State, a: Action)
    requires Enabled(s, a) && a.Read? && Queued(acts, s, a.c)
    ensures Queued(acts + [a], Apply(s, a), a.c)
  {
    var x := s.cs[a.c];
    MoreCount(acts, a, a);
    MoreCount(acts, a, SendPort(x.client));
    MoreCount(acts, a, SendReady(x.client));
    Dequeue(Sent(acts, s.port, x.client), ReadsOf(acts, x, a.c));
    ReadEffect(s, a);
  }

  lemma SendEffect(s: State, a: Action)
    requires Enabled(s, a) && (a.SendPort? || a.SendReady?)
    ensures var c, t := s.vs[a.v].conn.value, Apply(s, a); var x, y := s.cs[c], t.cs[c];
      && y.toServer == x.toServer + [if a.SendPort? then s.port else 1]
      && y.client == x.client && y.server == x.server && t.port == s.port
  {
  }

  /** A version sends its port first, and ready once. */
  lemma QueuedSend(acts: seq<Action>, s: State, a: Action)
    requires Inv(s) && Senders(acts, s) && Enabled(s, a) && (a.SendPort? || a.SendReady?)
    requires Queued(acts, s, s.vs[a.v].conn.value)
    ensures Queued(acts + [a], Apply(s, a), s.vs[a.v].conn.value)
  {
    var c := s.vs[a.v].conn.value;
    var x := s.cs[c];
    assert VersionOk(s, a.v);
    MoreCount(acts, a, SendPort(a.v));
    MoreCount(acts, a, SendReady(a.v));
    if x.server.Some? {
      MoreCount(acts, a, Read(x.server.value, c));
    }
    Enqueue(Sent(acts, s.port, a.v), ReadsOf(acts, x, c), if a.SendPort? then s.port else 1);
    SendEffect(s, a);
  }

  lemma SentKept(acts: seq<Action>, a: Action, port: int, v: nat)
    requires a != SendPort(v) && a != SendReady(v)
    ensures Sent(acts + [a], port, v) == Sent(acts, port, v)
  {
    MoreCount(acts, a, SendPort(v));
    MoreCount(acts, a, SendReady(v));
  }

  lemma ReadsKept(acts: seq<Action>, a: Action, x: Conn, y: Conn, c: nat)
    requires !(a.Read? && a.c == c) && (y.server == x.server || x.server == None)
    requires forall w: nat :: Read(w, c) in acts ==> x.server == Some(w)
    ensures ReadsOf(acts + [a], y, c) == ReadsOf(acts, x, c)
  {
    if y.server.Some? {
      MoreCount(acts, a, Read(y.server.value, c));
    }
  }

  /** All other steps leave the queue alone. */
  lemma QueuedElse(acts: seq<Action>, s: State, a: Action, c: nat)
    requires Inv(s) && Senders(acts, s) && Enabled(s, a) && c < |s.cs| && Queued(acts, s, c)
    requires !(a.Read? && a.c == c) && !((a.SendPort? || a.SendReady?) && s.vs[a.v].conn == Some(c))
    ensures c < |Apply(s, a).cs| && Queued(acts + [a], Apply(s, a), c)
  {
    QueueKept(s, a, c);
    var x, y := s.cs[c], Apply(s, a).cs[c];
    assert ConnOk(s, c);
    SentKept(acts, a, s.port, x.client);
    ReadsKept(acts, a, x, y, c);
  }

  lemma QueueKept(s: State, a: Action, c: nat)
    requires Enabled(s, a) && c < |s.cs|
    requires !(a.Read? && a.c == c) && !((a.SendPort? || a.SendReady?) && s.vs[a.v].conn == Some(c))
    ensures var t := Apply(s, a); c < |t.cs|
    ensures var x, y := s.cs[c], Apply(s, a).cs[c];
      && y.toServer == x.toServer && y.client == x.client && Apply(s, a).port == s.port
      && (y.server == x.server || (x.server == None && a.Accept?))
  {
  }

  lemma StepQueued(acts: seq<Action>, s: State, a: Action)
    requires Inv(s) && Senders(acts, s) && Enabled(s, a) && forall c :: 0 <= c < |s.cs| ==> Queued(acts, s, c)
    ensures var t := Apply(s, a); forall c :: 0 <= c < |t.cs| ==> Queued(acts + [a], t, c)
  {
    var t := Apply(s, a);
    forall c | 0 <= c < |t.cs| ensures Queued(acts + [a], t, c) {
      if c >= |s.cs| {
        OnlyConnects(s, a);
        QueuedNew(acts, s, a);
      } else if a.Read? && a.c == c {
        QueuedRead(acts, s, a);
      } else if (a.SendPort? || a.SendReady?) && s.vs[a.v].conn == Some(c) {
        QueuedSend(acts, s, a);
      } else {
        QueuedElse(acts, s, a, c);
      }
    }
  }

  lemma OnlyConnects(s: State, a: Action)
    requires Enabled(s, a)
    ensures |Apply(s, a).cs| == if a.Connect? then |s.cs| + 1 else |s.cs|
  {
  }

  lemma {:induction false} RunQueued(port: int, acts: seq<Action>)
    requires port != 1 && Executable(Init(port), acts) && Harmless(Init(port), acts)
    ensures var t := Exec(Init(port), acts);
      Inv(t) && Senders(acts, t) && forall c :: 0 <= c < |t.cs| ==> Queued(acts, t, c)
    decreases |acts|
  {
    RunInv(Init(port), acts);
    if acts != [] {
      var n := |acts| - 1;
      RunLast(Init(port), acts);
      HarmlessPrefix(Init(port), acts, n);
      RunQueued(port, acts[..n]);
      StepSenders(acts[..n], Exec(Init(port), acts[..n]), acts[n]);
      StepQueued(acts[..n], Exec(Init(port), acts[..n]), acts[n]);
    }
  }

  lemma {:induction false} HarmlessPrefix(s: State, acts: seq<Action>, n: nat)
    requires Executable(s, acts) && Harmless(s, acts) && n <= |acts|
    ensures Executable(s, acts[..n]) && Harmless(s, acts[..n])
    decreases acts
  {
    if n > 0 {
      assert acts[..n][0] == acts[0] && acts[..n][1..] == acts[1..][..n - 1];
      HarmlessPrefix(Apply(s, acts[0]), acts[1..], n - 1);
    }
  }

  /**
    An internal connection is a queue: what waits to be read is exactly the
    port, if it was sent, and then ready, if that was sent, without as many
    messages as its worker has read.
   */
  lemma FirstInFirstOut(port: int, acts: seq<Action>, c: nat)
    requires port != 1 && Executable(Init(port), acts) && Harmless(Init(port), acts)
    requires c < |Exec(Init(port), acts).cs|
    ensures Queued(acts, Exec(Init(port), acts), c)
  {
    RunQueued(port, acts);
  }

  // ----- What is owed -----

  /** A version owes ready if it serves what it inherited and has neither sent it nor failed to. */
  ghost predicate Owing(acts: seq<Action>, t: State, v: nat) {
    && (v < |t.vs| && t.vs[v].owesReady <==>
          && v in t.order && v < |t.vs| && t.vs[v].conn.Some?
          && SendReady(v) !in acts && LoseReady(v) !in acts)
    && (SendReady(v) in acts || LoseReady(v) in acts ==> v in t.order)
  }

  lemma StepOwing(acts: seq<Action>, s: State, a: Action, v: nat)
    requires Inv(s) && Enabled(s, a) && Owing(acts, s, v)
    ensures Owing(acts + [a], Apply(s, a), v)
  {
    MoreCount(acts, a, SendReady(v));
    MoreCount(acts, a, LoseReady(v));
    if v < |s.vs| {
      if v in s.order {
        StepOwes(s, a, v);
      } else {
        StepInherits(s, a, v);
      }
    }
  }

  lemma StepOwes(s: State, a: Action, v: nat)
    requires Inv(s) && Enabled(s, a) && v in s.order
    ensures var t := Apply(s, a);
      && v < |s.vs| && v < |t.vs| && v in t.order && t.vs[v].conn == s.vs[v].conn
      && (t.vs[v].owesReady <==> s.vs[v].owesReady && a != SendReady(v) && a != LoseReady(v))
  {
    assert VersionOk(s, v);
    StepGrows(s, a);
    ServedOwes(s, a, v);
  }

  lemma ServedOwes(s: State, a: Action, v: nat)
    requires Enabled(s, a) && v < |s.vs| && s.vs[v].phase in {Serving, Gone}
    ensures var t := Apply(s, a);
      && v < |t.vs| && t.vs[v].conn == s.vs[v].conn
      && (t.vs[v].owesReady <==> s.vs[v].owesReady && a != SendReady(v) && a != LoseReady(v))
  {
  }

  lemma StepInherits(s: State, a: Action, v: nat)
    requires Inv(s) && Enabled(s, a) && v < |s.vs| && v !in s.order
    ensures var t := Apply(s, a);
      && v < |t.vs| && (t.vs[v].owesReady <==> v in t.order && t.vs[v].conn.Some?)
      && a != SendReady(v) && a != LoseReady(v)
  {
    assert VersionOk(s, v);
  }

  /** In every reachable state: ready is owed from inheriting until it is sent or the send fails. */
  lemma {:induction false} OwedIff(port: int, acts: seq<Action>, v: nat)
    requires port != 1 && Executable(Init(port), acts) && Harmless(Init(port), acts)
    ensures Owing(acts, Exec(Init(port), acts), v)
    decreases |acts|
  {
    if acts != [] {
      var n := |acts| - 1;
      RunLast(Init(port), acts);
      HarmlessPrefix(Init(port), acts, n);
      RunInv(Init(port), acts[..n]);
      OwedIff(port, acts[..n], v);
      StepOwing(acts[..n], Exec(Init(port), acts[..n]), acts[n], v);
    }
  }

  // ----- How versions go -----

  /** A version that served goes only by being killed, and one that did not only by itself, after it has failed. */
  ghost predicate Goes(acts: seq<Action>, t: State, v: nat) {
    && (Kill(v) in acts ==> v < |t.vs| && t.vs[v].phase == Gone && v in t.order)
    && (Exit(v) in acts ==> v < |t.vs| && t.vs[v].phase == Gone && v !in t.order)
    && (v < |t.vs| && t.vs[v].phase in {Failed, Gone} && v !in t.order ==> t.vs[v].conn.Some?)
    && (v < |t.vs| && t.vs[v].phase == Gone ==> Kill(v) in acts || Exit(v) in acts)
  }

  lemma StepGoes(acts: seq<Action>, s: State, a: Action, v: nat)
    requires Inv(s) && Enabled(s, a) && Goes(acts, s, v) && Inv(Apply(s, a))
    ensures Goes(acts + [a], Apply(s, a), v)
  {
    MoreCount(acts, a, Kill(v));
    MoreCount(acts, a, Exit(v));
    if v < |s.vs| {
      assert VersionOk(s, v) && VersionOk(Apply(s, a), v);
      GoneStays(s, a, v);
      GoesBy(s, a, v);
    }
  }

  lemma GoneStays(s: State, a: Action, v: nat)
    requires Inv(s) && Enabled(s, a) && v < |s.vs|
    ensures var t := Apply(s, a);
      && v < |t.vs| && (s.vs[v].conn.Some? ==> t.vs[v].conn.Some?) && (v in s.order ==> v in t.order)
      && (s.vs[v].phase == Gone ==> t.vs[v].phase == Gone)
      && (s.vs[v].phase in {Failed, Gone} && v in t.order ==> v in s.order)
  {
    StepGrows(s, a);
  }

  lemma GoesBy(s: State, a: Action, v: nat)
    requires Enabled(s, a) && v < |s.vs|
    ensures var t := Apply(s, a);
      && v < |t.vs|
      && (a == Kill(v) || a == Exit(v) <==> s.vs[v].phase != Gone && t.vs[v].phase == Gone)
      && (t.vs[v].phase == Failed && s.vs[v].phase != Failed ==> t.vs[v].conn.Some?)
  {
  }

  /** In every reachable state: a version is gone if it served and was killed, or failed and has exited. */
  lemma {:induction false} GoneIff(port: int, acts: seq<Action>, v: nat)
    requires port != 1 && Executable(Init(port), acts) && Harmless(Init(port), acts)
    ensures Goes(acts, Exec(Init(port), acts), v)
    decreases |acts|
  {
    if acts != [] {
      var n := |acts| - 1;
      RunLast(Init(port), acts);
      HarmlessPrefix(Init(port), acts, n);
      RunInv(Init(port), acts);
      RunInv(Init(port), acts[..n]);
      GoneIff(port, acts[..n], v);
      StepGoes(acts[..n], Exec(Init(port), acts[..n]), acts[n], v);
    }
  }

  // ----- Whose listener -----

  /** Workers belong to versions that have bound, and take connections from the monitor of their own. */
  predicate Monitored(s: State) {
    && (forall w :: 0 <= w < |s.ws| ==> s.ws[w].ver < |s.vs| && !Binding(s.vs[s.ws[w].ver].phase))
    && (forall c :: 0 <= c < |s.cs| ==> FromMonitor(s, s.cs[c]))
  }

  predicate FromMonitor(s: State, x: Conn) {
    x.server.Some? ==>
      && x.server.value < |s.ws| && s.ws[x.server.value].ver < |s.vs|
      && s.vs[s.ws[x.server.value].ver].mon == x.listener
  }

  lemma BoundStays(s: State, a: Action, v: nat)
    requires Enabled(s, a) && v < |s.vs| && !Binding(s.vs[v].phase)
    ensures v < |Apply(s, a).vs| && !Binding(Apply(s, a).vs[v].phase) && Apply(s, a).vs[v].mon == s.vs[v].mon
  {
  }

  lemma WorkersOf(s: State, a: Action, w: nat)
    requires Enabled(s, a) && w < |Apply(s, a).ws|
    ensures var t := Apply(s, a);
      if w < |s.ws| then t.ws[w].ver == s.ws[w].ver
      else t.ws[w].ver < |t.vs| && t.vs[t.ws[w].ver].phase == Serving
  {
  }

  lemma ListenerKept(s: State, a: Action, c: nat)
    requires Enabled(s, a) && c < |Apply(s, a).cs|
    ensures var y := Apply(s, a).cs[c];
      if c < |s.cs| then
        && y.listener == s.cs[c].listener
        && (if a.Accept? && a.c == c then y.server == Some(a.w) else y.server == s.cs[c].server)
      else y.server == None
  {
    if a.Kill? {
      assert Apply(s, a).cs[c] == AfterKill(s, a.v, c);
    }
  }

  lemma StepMonitored(s: State, a: Action)
    requires Monitored(s) && Enabled(s, a)
    ensures Monitored(Apply(s, a))
  {
    var t := Apply(s, a);
    forall w | 0 <= w < |t.ws| ensures t.ws[w].ver < |t.vs| && !Binding(t.vs[t.ws[w].ver].phase) {
      WorkersOf(s, a, w);
      if w < |s.ws| {
        BoundStays(s, a, s.ws[w].ver);
      }
    }
    forall c | 0 <= c < |t.cs| ensures FromMonitor(t, t.cs[c]) {
      ListenerKept(s, a, c);
      var server := t.cs[c].server;
      if c < |s.cs| && server.Some? {
        assert FromMonitor(s, s.cs[c]);
        WorkersKept(s, a, server.value);
        BoundStays(s, a, s.ws[server.value].ver);
      }
    }
  }

  lemma WorkersKept(s: State, a: Action, w: nat)
    requires Enabled(s, a) && w < |s.ws|
    ensures w < |Apply(s, a).ws| && Apply(s, a).ws[w].ver == s.ws[w].ver
  {
  }

  /**
    In every reachable state, for any port and whatever kills have cut: a
    worker has connections from its own version's monitor listener only, so a
    version without a monitor serves nobody.
   */
  lemma {:induction false} RunMonitored(s: State, acts: seq<Action>)
    requires Monitored(s) && Executable(s, acts)
    ensures Monitored(Exec(s, acts))
    decreases acts
  {
    if acts != [] {
      StepMonitored(s, acts[0]);
      RunMonitored(Apply(s, acts[0]), acts[1..]);
    }
  }

  // ----- The end of a connection -----

  /** The ready message was sent on connection c, and its worker has taken it. */
  predicate ReadyTaken(t: State, c: nat)
    requires c < |t.cs|
  {
    var x := t.cs[c];
    x.server.Some? && x.client < |t.vs| && t.vs[x.client].sentReady && 1 !in x.toServer
  }

  /** A connection is in its worker's list from accept to close or kill, and is closed for one of two reasons. */
  ghost predicate Ended(acts: seq<Action>, t: State, c: nat)
    requires c < |t.cs|
  {
    var x := t.cs[c];
    && (x.listed <==> x.server.Some? && x.closes == 0 && !x.cut)
    && (x.closes > 0 <==> ReadyTaken(t, c) || exists w: nat :: ReadClosed(w, c) in acts)
    && (ReadyTaken(t, c) ==> ServerLatched(t, c))
  }

  lemma EndedNew(acts: seq<Action>, s: State, a: Action)
    requires Inv(s) && Enabled(s, a) && a.Connect?
    requires forall w: nat, c: nat :: ReadClosed(w, c) in acts ==> c < |s.cs|
    ensures Ended(acts + [a], Apply(s, a), |s.cs|)
  {
    forall w: nat ensures ReadClosed(w, |s.cs|) !in acts + [a] {
      MoreCount(acts, a, ReadClosed(w, |s.cs|));
    }
  }

  lemma HungUpMore(acts: seq<Action>, a: Action, c: nat)
    ensures (exists w: nat :: ReadClosed(w, c) in acts + [a]) <==>
            (a.ReadClosed? && a.c == c) || exists w: nat :: ReadClosed(w, c) in acts
  {
    if w: nat :| ReadClosed(w, c) in acts + [a] {
      MoreCount(acts, a, ReadClosed(w, c));
    }
    if w: nat :| ReadClosed(w, c) in acts {
      MoreCount(acts, a, ReadClosed(w, c));
    }
    if a.ReadClosed? && a.c == c {
      MoreCount(acts, a, ReadClosed(a.w, c));
    }
  }

  /** Ready comes last. */
  lemma ReadyLast(acts: seq<Action>, s: State, c: nat)
    requires s.port != 1 && c < |s.cs| && Queued(acts, s, c) && s.cs[c].toServer != []
    ensures var q := s.cs[c].toServer; if q[0] == 1 then 1 !in q[1..] else 1 in q <==> 1 in q[1..]
  {
  }

  /** A read changes neither who serves whom nor what was sent. */
  lemma ReadKeeps(s: State, a: Action)
    requires Enabled(s, a) && OnServerSide(a) && a.c < |s.cs| && s.cs[a.c].client < |s.vs|
    ensures var t, x := Apply(s, a), s.cs[a.c];
      && t.ws == s.ws && |t.vs| == |s.vs| && |t.cs| == |s.cs| && t.cs[a.c].client == x.client
      && t.vs[x.client].sentReady == s.vs[x.client].sentReady
      && (a.Accept? || t.cs[a.c].server == x.server)
  {
  }

  /** What the worker does to its end. */
  lemma ServerCloses(s: State, a: Action)
    requires Enabled(s, a) && OnServerSide(a)
    ensures var x, y := s.cs[a.c], Apply(s, a).cs[a.c];
      && y.cut == x.cut && (a.Accept? || x.listed)
      && if a.ReadClosed? || (a.Read? && x.toServer[0] == 1) then y.closes == x.closes + 1 && !y.listed
         else y.closes == x.closes && y.listed
  {
  }

  /** The worker reads ready, */
  lemma EndedReady(acts: seq<Action>, s: State, a: Action)
    requires Inv(s) && Enabled(s, a) && a.Read? && Ended(acts, s, a.c) && Queued(acts, s, a.c)
    ensures Ended(acts + [a], Apply(s, a), a.c)
  {
    assert ConnOk(s, a.c) && WorkerOk(s, a.w) && VersionOk(s, s.cs[a.c].client);
    HungUpMore(acts, a, a.c);
    ReadyLast(acts, s, a.c);
    ReadEffect(s, a);
    ReadKeeps(s, a);
    ServerCloses(s, a);
    if s.cs[a.c].toServer[0] == 1 {
      assert 1 in s.cs[a.c].toServer;
      assert ServerLatched(Apply(s, a), a.c);
    }
  }

  /** or does something else with the connection. */
  lemma EndedServer(acts: seq<Action>, s: State, a: Action)
    requires Inv(s) && Enabled(s, a) && OnServerSide(a) && Ended(acts, s, a.c) && Queued(acts, s, a.c)
    ensures Ended(acts + [a], Apply(s, a), a.c)
  {
    if a.Read? {
      EndedReady(acts, s, a);
    } else {
      assert ConnOk(s, a.c) && WorkerOk(s, a.w) && VersionOk(s, s.cs[a.c].client);
      HungUpMore(acts, a, a.c);
      ReadKeeps(s, a);
      ServerCloses(s, a);
    }
  }

  /** Latches stay set, and ready is sent at most once. */
  lemma EndedElse(acts: seq<Action>, s: State, a: Action, c: nat)
    requires Inv(s) && Enabled(s, a) && c < |s.cs| && Ended(acts, s, c) && !(OnServerSide(a) && a.c == c)
    ensures c < |Apply(s, a).cs| && Ended(acts + [a], Apply(s, a), c)
  {
    var t := Apply(s, a);
    StepGrows(s, a);
    assert ConnOk(s, c);
    HungUpMore(acts, a, c);
    EndKept(s, a, c);
    TakenKept(s, a, c);
    if ServerLatched(s, c) {
      var w := s.cs[c].server.value;
      assert WorkerGrows(s.ws[w], t.ws[w]) && VersionGrows(s.vs[s.ws[w].ver], t.vs[s.ws[w].ver]);
    }
  }

  lemma EndKept(s: State, a: Action, c: nat)
    requires Enabled(s, a) && c < |s.cs| && !(OnServerSide(a) && a.c == c)
    requires s.cs[c].listed <==> s.cs[c].server.Some? && s.cs[c].closes == 0 && !s.cs[c].cut
    ensures c < |Apply(s, a).cs|
    ensures var x, y := s.cs[c], Apply(s, a).cs[c];
      && y.server == x.server && y.client == x.client && y.closes == x.closes
      && (y.listed <==> y.server.Some? && y.closes == 0 && !y.cut)
  {
    if a.Kill? {
      assert Apply(s, a).cs[c] == AfterKill(s, a.v, c);
    } else {
      ListKept(s, a, c);
    }
  }

  lemma ListKept(s: State, a: Action, c: nat)
    requires Enabled(s, a) && c < |s.cs| && !(OnServerSide(a) && a.c == c) && !a.Kill?
    ensures c < |Apply(s, a).cs|
    ensures var x, y := s.cs[c], Apply(s, a).cs[c];
      y.server == x.server && y.client == x.client && y.closes == x.closes && y.cut == x.cut && y.listed == x.listed
  {
  }

  lemma TakenKept(s: State, a: Action, c: nat)
    requires Inv(s) && Enabled(s, a) && c < |s.cs| && !(OnServerSide(a) && a.c == c)
    ensures c < |Apply(s, a).cs| && (ReadyTaken(Apply(s, a), c) <==> ReadyTaken(s, c))
  {
    var v := s.cs[c].client;
    assert ConnOk(s, c) && VersionOk(s, v);
    StepGrows(s, a);
    ClientsQueue(s, a, c);
    StepVersion(s, a, v);
    if (a.SendReady? || a.SendPort?) && s.vs[a.v].conn == Some(c) {
      assert VersionOk(s, a.v);
    }
  }

  /** What the other end does to the queue: ready comes last. */
  lemma ClientsQueue(s: State, a: Action, c: nat)
    requires Enabled(s, a) && c < |s.cs| && !(OnServerSide(a) && a.c == c)
    ensures c < |Apply(s, a).cs|
    ensures var x, y := s.cs[c], Apply(s, a).cs[c];
      && y.server == x.server && y.client == x.client
      && (1 in y.toServer <==> 1 in x.toServer || (a.SendReady? && s.vs[a.v].conn == Some(c))
                               || (a.SendPort? && s.vs[a.v].conn == Some(c) && s.port == 1))
  {
  }

  lemma StepEnded(acts: seq<Action>, s: State, a: Action)
    requires Inv(s) && Enabled(s, a)
    requires forall w: nat, c: nat :: ReadClosed(w, c) in acts ==> c < |s.cs|
    requires forall c :: 0 <= c < |s.cs| ==> Ended(acts, s, c) && Queued(acts, s, c)
    ensures var t := Apply(s, a); forall c :: 0 <= c < |t.cs| ==> Ended(acts + [a], t, c)
    ensures forall w: nat, c: nat :: ReadClosed(w, c) in acts + [a] ==> c < |Apply(s, a).cs|
  {
    var t := Apply(s, a);
    OnlyConnects(s, a);
    forall c | 0 <= c < |t.cs| ensures Ended(acts + [a], t, c) {
      if c >= |s.cs| {
        EndedNew(acts, s, a);
      } else if OnServerSide(a) && a.c == c {
        EndedServer(acts, s, a);
      } else {
        EndedElse(acts, s, a, c);
      }
    }
    forall w: nat, c: nat | ReadClosed(w, c) in acts + [a] ensures c < |t.cs| {
      MoreCount(acts, a, ReadClosed(w, c));
    }
  }

  lemma {:induction false} RunEnded(port: int, acts: seq<Action>)
    requires port != 1 && Executable(Init(port), acts) && Harmless(Init(port), acts)
    ensures var t := Exec(Init(port), acts);
      && (forall c :: 0 <= c < |t.cs| ==> Ended(acts, t, c))
      && (forall w: nat, c: nat :: ReadClosed(w, c) in acts ==> c < |t.cs|)
    decreases |acts|
  {
    if acts != [] {
      var n := |acts| - 1;
      RunLast(Init(port), acts);
      HarmlessPrefix(Init(port), acts, n);
      RunQueued(port, acts[..n]);
      RunEnded(port, acts[..n]);
      StepEnded(acts[..n], Exec(Init(port), acts[..n]), acts[n]);
    }
  }

  /**
    A worker has a connection in its list from accept4 until it closes it or is
    killed.  It closes it if and only if it has read ready, upon which the
    latch of its version is set, or the client has hung up.
   */
  lemma ClosedFor(port: int, acts: seq<Action>, c: nat)
    requires port != 1 && Executable(Init(port), acts) && Harmless(Init(port), acts)
    requires c < |Exec(Init(port), acts).cs|
    ensures Ended(acts, Exec(Init(port), acts), c)
  {
    RunEnded(port, acts);
  }

  /** Both ends of a connection: the client's is open until it reports or dies, the worker's is cut if that dies. */
  predicate EndsOk(t: State, c: nat)
    requires c < |t.cs|
  {
    var x := t.cs[c];
    && x.client < |t.vs|
    && (x.clientOpen <==> !t.vs[x.client].sentReady && t.vs[x.client].phase != Gone)
    && (x.cut <==> x.closes == 0 && ServerGone(t, x))
  }

  predicate ServerGone(t: State, x: Conn) {
    && x.server.Some? && x.server.value < |t.ws| && t.ws[x.server.value].ver < |t.vs|
    && t.vs[t.ws[x.server.value].ver].phase == Gone
  }

  lemma ClientEnd(s: State, a: Action, c: nat)
    requires Inv(s) && Enabled(s, a) && c < |s.cs| && EndsOk(s, c)
    ensures var t, v := Apply(s, a), s.cs[c].client;
      && c < |t.cs| && v < |t.vs| && t.cs[c].client == v
      && (t.cs[c].clientOpen <==> !t.vs[v].sentReady && t.vs[v].phase != Gone)
  {
    var v := s.cs[c].client;
    assert ConnOk(s, c) && VersionOk(s, v);
    StepGrows(s, a);
    StepVersion(s, a, v);
    if a.Kill? {
      assert Apply(s, a).cs[c] == AfterKill(s, a.v, c);
      assert VersionOk(s, a.v);
    } else {
      OpenKept(s, a, c);
      if a.SendReady? || a.Exit? {
        assert VersionOk(s, a.v);
      }
    }
  }

  lemma OpenKept(s: State, a: Action, c: nat)
    requires Enabled(s, a) && c < |s.cs| && !a.Kill?
    ensures c < |Apply(s, a).cs|
    ensures var x, y := s.cs[c], Apply(s, a).cs[c];
      && y.client == x.client
      && (y.clientOpen <==> x.clientOpen && !((a.SendReady? || a.Exit?) && s.vs[a.v].conn == Some(c)))
  {
  }

  lemma ServerEnd(s: State, a: Action, c: nat)
    requires Inv(s) && Enabled(s, a) && c < |s.cs| && EndsOk(s, c) && c < |Apply(s, a).cs|
    requires s.cs[c].listed <==> s.cs[c].server.Some? && s.cs[c].closes == 0 && !s.cs[c].cut
    ensures var t := Apply(s, a); t.cs[c].cut <==> t.cs[c].closes == 0 && ServerGone(t, t.cs[c])
  {
    var x, t := s.cs[c], Apply(s, a);
    assert ConnOk(s, c);
    if a.Kill? {
      ServerKilled(s, a, c);
    } else if OnServerSide(a) && a.c == c {
      assert WorkerOk(s, a.w);
    } else {
      ListKept(s, a, c);
      if x.server.Some? {
        ServerKept(s, a, x.server.value);
      }
    }
  }

  lemma ServerKilled(s: State, a: Action, c: nat)
    requires Inv(s) && Enabled(s, a) && a.Kill? && c < |s.cs| && EndsOk(s, c)
    requires s.cs[c].listed <==> s.cs[c].server.Some? && s.cs[c].closes == 0 && !s.cs[c].cut
    ensures var t := Apply(s, a); t.cs[c].cut <==> t.cs[c].closes == 0 && ServerGone(t, t.cs[c])
  {
    assert Apply(s, a).cs[c] == AfterKill(s, a.v, c);
    assert ConnOk(s, c);
  }

  lemma ServerKept(s: State, a: Action, w: nat)
    requires Inv(s) && Enabled(s, a) && w < |s.ws| && !a.Kill?
    ensures var t := Apply(s, a); var v := s.ws[w].ver;
      && v < |s.vs| && w < |t.ws| && t.ws[w].ver == v && v < |t.vs|
      && (t.vs[v].phase == Gone <==> s.vs[v].phase == Gone)
  {
    assert WorkerOk(s, w);
    assert VersionOk(s, s.ws[w].ver);
    StepVersion(s, a, s.ws[w].ver);
    StepGrows(s, a);
    assert WorkerGrows(s.ws[w], Apply(s, a).ws[w]);
  }

  lemma NewEnds(s: State, a: Action)
    requires Inv(s) && Enabled(s, a) && a.Connect?
    ensures EndsOk(Apply(s, a), |s.cs|)
  {
    assert VersionOk(s, a.v);
  }

  lemma {:induction false} RunEnds(port: int, acts: seq<Action>, c: nat)
    requires port != 1 && Executable(Init(port), acts) && Harmless(Init(port), acts)
    ensures var t := Exec(Init(port), acts); c < |t.cs| ==> EndsOk(t, c)
    decreases |acts|
  {
    if acts != [] {
      var n := |acts| - 1;
      RunLast(Init(port), acts);
      var s, a := Exec(Init(port), acts[..n]), acts[n];
      HarmlessPrefix(Init(port), acts, n);
      RunInv(Init(port), acts[..n]);
      RunEnds(port, acts[..n], c);
      RunEnded(port, acts[..n]);
      OnlyConnects(s, a);
      if c < |s.cs| {
        assert Ended(acts[..n], s, c);
        ClientEnd(s, a, c);
        ServerEnd(s, a, c);
      } else if c == |s.cs| && a.Connect? {
        NewEnds(s, a);
      }
    }
  }

  /**
    A client's end is open until the client reports ready or is gone, and a
    worker's end is cut off if and only if its version was killed before the
    worker closed it.
   */
  lemma HungUpIff(port: int, acts: seq<Action>, c: nat)
    requires port != 1 && Executable(Init(port), acts) && Harmless(Init(port), acts)
    requires c < |Exec(Init(port), acts).cs|
    ensures EndsOk(Exec(Init(port), acts), c)
  {
    RunEnds(port, acts, c);
  }

  /** Some worker of version v has taken a ready message. */
  predicate SomeReady(t: State, v: nat) {
    exists c :: 0 <= c < |t.cs| && ReadyTaken(t, c) && ReaderOf(t, c, v)
  }

  predicate ReaderOf(t: State, c: nat, v: nat)
    requires c < |t.cs|
  {
    t.cs[c].server.Some? && t.cs[c].server.value < |t.ws| && t.ws[t.cs[c].server.value].ver == v
  }

  lemma StepLatched(acts: seq<Action>, s: State, a: Action, v: nat)
    requires Inv(s) && Enabled(s, a) && (forall c :: 0 <= c < |s.cs| ==> Queued(acts, s, c))
    requires v < |s.vs| && s.vs[v].latch ==> SomeReady(s, v)
    ensures var t := Apply(s, a); v < |t.vs| && t.vs[v].latch ==> SomeReady(t, v)
  {
    var t := Apply(s, a);
    StepGrows(s, a);
    if a.Read? && s.cs[a.c].toServer[0] == 1 && s.ws[a.w].ver == v {
      ReadTakes(acts, s, a);
      assert SomeReady(t, v);
    } else if v < |t.vs| && t.vs[v].latch {
      LatchFrom(s, a, v);
      var c :| 0 <= c < |s.cs| && ReadyTaken(s, c) && ReaderOf(s, c, v);
      assert ConnOk(s, c);
      StillTaken(acts, s, a, c);
      assert WorkerGrows(s.ws[s.cs[c].server.value], t.ws[s.cs[c].server.value]);
      assert ReaderOf(t, c, v);
    }
  }

  lemma LatchFrom(s: State, a: Action, v: nat)
    requires Enabled(s, a) && v < |Apply(s, a).vs| && Apply(s, a).vs[v].latch
    requires !(a.Read? && s.cs[a.c].toServer[0] == 1 && s.ws[a.w].ver == v)
    ensures v < |s.vs| && s.vs[v].latch
  {
  }

  lemma ReadTakes(acts: seq<Action>, s: State, a: Action)
    requires Inv(s) && Enabled(s, a) && a.Read? && s.cs[a.c].toServer[0] == 1 && Queued(acts, s, a.c)
    ensures var t := Apply(s, a); a.c < |t.cs| && ReadyTaken(t, a.c) && ReaderOf(t, a.c, s.ws[a.w].ver)
  {
    assert ConnOk(s, a.c) && 1 in s.cs[a.c].toServer;
    ReadyLast(acts, s, a.c);
    ReadEffect(s, a);
    ReadKeeps(s, a);
  }

  lemma StillTaken(acts: seq<Action>, s: State, a: Action, c: nat)
    requires Inv(s) && Enabled(s, a) && c < |s.cs| && ReadyTaken(s, c) && Queued(acts, s, c)
    ensures c < |Apply(s, a).cs| && ReadyTaken(Apply(s, a), c) && Apply(s, a).cs[c].server == s.cs[c].server
  {
    if OnServerSide(a) && a.c == c {
      assert ConnOk(s, c);
    } else {
      TakenKept(s, a, c);
      ClientsQueue(s, a, c);
    }
  }

  lemma {:induction false} RunLatched(port: int, acts: seq<Action>, v: nat)
    requires port != 1 && Executable(Init(port), acts) && Harmless(Init(port), acts)
    ensures var t := Exec(Init(port), acts); v < |t.vs| && t.vs[v].latch ==> SomeReady(t, v)
    decreases |acts|
  {
    if acts != [] {
      var n := |acts| - 1;
      RunLast(Init(port), acts);
      HarmlessPrefix(Init(port), acts, n);
      RunQueued(port, acts[..n]);
      RunLatched(port, acts[..n], v);
      StepLatched(acts[..n], Exec(Init(port), acts[..n]), acts[n], v);
    }
  }

  /** The latch of a version is set if and only if one of its workers has taken a ready message. */
  lemma LatchedIff(port: int, acts: seq<Action>, v: nat)
    requires port != 1 && Executable(Init(port), acts) && Harmless(Init(port), acts) && v < |Exec(Init(port), acts).vs|
    ensures Exec(Init(port), acts).vs[v].latch <==> SomeReady(Exec(Init(port), acts), v)
  {
    RunLatched(port, acts, v);
    RunEnded(port, acts);
    var t := Exec(Init(port), acts);
    if c :| 0 <= c < |t.cs| && ReadyTaken(t, c) && ReaderOf(t, c, v) {
      assert Ended(acts, t, c);
    }
  }
}
