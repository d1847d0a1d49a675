/**
  What the workers answer on internal connections over whole runs, what the
  clients take of it, and when a client inherits.
 */
module HandoffAnswers {
  import opened Options
  import opened Handoff
  import opened HandoffHistory

  /** The port of the answer that a step begins on connection c: -1 if the read failed. */
  function NewAnswer(s: State, a: Action, c: nat): seq<int>
    requires Enabled(s, a)
  {
    if a.Read? && a.c == c && s.cs[c].toServer[0] != 1 then [s.port]
    else if a.ReadError? && a.c == c then [-1]
    else []
  }

  /** The answers that a run begins on connection c. */
  function AnswersOf(s: State, acts: seq<Action>, c: nat): seq<int>
    requires Executable(s, acts)
    decreases acts
  {
    if acts == [] then [] else NewAnswer(s, acts[0], c) + AnswersOf(Apply(s, acts[0]), acts[1..], c)
  }

  lemma {:induction false} AnswersMore(s: State, acts: seq<Action>, a: Action, c: nat)
    requires Executable(s, acts) && Enabled(Exec(s, acts), a)
    ensures Executable(s, acts + [a])
    ensures AnswersOf(s, acts + [a], c) == AnswersOf(s, acts, c) + NewAnswer(Exec(s, acts), a, c)
    decreases acts
  {
    if acts != [] {
      assert (acts + [a])[1..] == acts[1..] + [a];
      AnswersMore(Apply(s, acts[0]), acts[1..], a, c);
    } else {
      assert acts + [a] == [a] && [a][1..] == [];
      assert Executable(Apply(s, a), []) && AnswersOf(Apply(s, a), [], c) == [];
    }
  }

  /** Each answer is the public and then the monitor descriptor of the first version, with the same port. */
  function Messages(root: nat, ports: seq<int>): seq<Packet> {
    if ports == [] then []
    else [Packet(Public(root), ports[0]), Packet(Monitor(root), ports[0])] + Messages(root, ports[1..])
  }

  lemma {:induction false} MessagesMore(root: nat, ports: seq<int>, p: int)
    ensures Messages(root, ports + [p]) == Messages(root, ports) + [Packet(Public(root), p), Packet(Monitor(root), p)]
    ensures |Messages(root, ports)| == 2 * |ports|
    ensures ports != [] ==>
      Messages(root, ports)[..2] == [Packet(Public(root), ports[0]), Packet(Monitor(root), ports[0])]
    decreases ports
  {
    if ports == [] {
      assert ports + [p] == [p] && [p][1..] == [];
    } else {
      assert (ports + [p])[1..] == ports[1..] + [p];
      MessagesMore(root, ports[1..], p);
    }
  }

  /** What has been written so far, if the monitor descriptor of the last answer may still be owed. */
  function Written(root: nat, ports: seq<int>, owes: Option<int>): seq<Packet> {
    var all := Messages(root, ports);
    if owes.Some? && all != [] then all[..|all| - 1] else all
  }

  ghost predicate SecondTaken(acts: seq<Action>, v: nat) {
    exists d: bool, n: nat :: RecvSecond(v, d, n) in acts
  }

  /** How many messages version v has taken. */
  ghost function Taken(acts: seq<Action>, v: nat): nat {
    (if RecvFirst(v) in acts then 1 else 0) + if SecondTaken(acts, v) then 1 else 0
  }

  /** How far a version has come says what it has taken. */
  ghost predicate Takers(acts: seq<Action>, t: State) {
    forall v: nat ::
      && (RecvFirst(v) in acts ==> v < |t.vs| && t.vs[v].phase !in {Start, Connected, Requested})
      && (SecondTaken(acts, v) ==> v < |t.vs| && !Binding(t.vs[v].phase) && RecvFirst(v) in acts)
      && (v < |t.vs| && t.vs[v].phase.HalfAnswered? ==> RecvFirst(v) in acts)
  }

  lemma SecondMore(acts: seq<Action>, a: Action, v: nat)
    ensures SecondTaken(acts + [a], v) <==> SecondTaken(acts, v) || (a.RecvSecond? && a.v == v)
  {
    if d: bool, n: nat :| RecvSecond(v, d, n) in acts + [a] {
      MoreCount(acts, a, RecvSecond(v, d, n));
    }
    if d: bool, n: nat :| RecvSecond(v, d, n) in acts {
      MoreCount(acts, a, RecvSecond(v, d, n));
    }
    if a.RecvSecond? && a.v == v {
      MoreCount(acts, a, RecvSecond(v, a.dup2, a.workers));
    }
  }

  lemma StepTakers(acts: seq<Action>, s: State, a: Action)
    requires Takers(acts, s) && Enabled(s, a)
    ensures Takers(acts + [a], Apply(s, a))
  {
    var t := Apply(s, a);
    forall v: nat
      ensures RecvFirst(v) in acts + [a] ==> v < |t.vs| && t.vs[v].phase !in {Start, Connected, Requested}
      ensures SecondTaken(acts + [a], v) ==> v < |t.vs| && !Binding(t.vs[v].phase) && RecvFirst(v) in acts + [a]
      ensures v < |t.vs| && t.vs[v].phase.HalfAnswered? ==> RecvFirst(v) in acts + [a]
    {
      MoreCount(acts, a, RecvFirst(v));
      SecondMore(acts, a, v);
      StepTaken(s, a, v);
      StepTakes(s, a, v);
    }
  }

  lemma StepTaken(s: State, a: Action, v: nat)
    requires Enabled(s, a)
    ensures var t := Apply(s, a);
      && (v < |s.vs| ==> v < |t.vs|)
      && (v < |s.vs| && s.vs[v].phase !in {Start, Connected, Requested} ==>
            t.vs[v].phase !in {Start, Connected, Requested})
      && (v < |s.vs| && !Binding(s.vs[v].phase) ==> !Binding(t.vs[v].phase))
  {
  }

  lemma StepTakes(s: State, a: Action, v: nat)
    requires Enabled(s, a)
    ensures var t := Apply(s, a);
      && (a == RecvFirst(v) ==> v < |t.vs| && t.vs[v].phase.HalfAnswered?)
      && (a.RecvSecond? && a.v == v ==> v < |t.vs| && s.vs[v].phase.HalfAnswered? && !Binding(t.vs[v].phase))
      && (v < |t.vs| && t.vs[v].phase.HalfAnswered? ==>
            a == RecvFirst(v) || (v < |s.vs| && s.vs[v].phase.HalfAnswered?))
  {
  }

  /** What waits for the client is what was written and not taken; and what it holds was the first message. */
  predicate Due(root: nat, ports: seq<int>, owes: Option<int>, taken: nat, queue: seq<Packet>, phase: Phase) {
    && (owes.Some? ==> ports != [] && owes.value == ports[|ports| - 1])
    && var all := Written(root, ports, owes);
       && taken <= |all| && queue == all[taken..]
       && (phase.HalfAnswered? ==> all != [] && phase.got == all[0])
  }

  /** The worker begins an answer, */
  lemma DueBegins(root: nat, ports: seq<int>, taken: nat, queue: seq<Packet>, phase: Phase, p: int)
    requires Due(root, ports, None, taken, queue, phase)
    ensures Due(root, ports + [p], Some(p), taken, queue + [Packet(Public(root), p)], phase)
  {
    MessagesMore(root, ports, p);
    assert Written(root, ports + [p], Some(p)) == Written(root, ports, None) + [Packet(Public(root), p)];
  }

  /** or completes it, */
  lemma DueCompleted(root: nat, ports: seq<int>, p: int, taken: nat, queue: seq<Packet>, phase: Phase)
    requires Due(root, ports, Some(p), taken, queue, phase)
    ensures Due(root, ports, None, taken, queue + [Packet(Monitor(root), p)], phase)
  {
    var n := |ports| - 1;
    MessagesMore(root, ports[..n], ports[n]);
    assert ports == ports[..n] + [ports[n]];
    assert Written(root, ports, None) == Written(root, ports, Some(p)) + [Packet(Monitor(root), p)];
  }

  /** and the client takes a message. */
  lemma DueTaken(root: nat, ports: seq<int>, owes: Option<int>, taken: nat, queue: seq<Packet>, phase: Phase,
                 after: Phase)
    requires Due(root, ports, owes, taken, queue, phase) && queue != []
    requires after.HalfAnswered? ==> taken == 0 && after.got == queue[0]
    ensures Due(root, ports, owes, taken + 1, queue[1..], after)
  {
  }

  ghost predicate Delivering(acts: seq<Action>, t: State, c: nat, ports: seq<int>)
    requires c < |t.cs|
  {
    var x := t.cs[c];
    && t.order != [] && x.client < |t.vs|
    && Due(t.order[0], ports, x.owes, Taken(acts, x.client), x.toClient, t.vs[x.client].phase)
  }

  /** A step that takes nothing from connection c leaves what was taken. */
  lemma TakesNothing(acts: seq<Action>, a: Action, v: nat)
    requires a != RecvFirst(v) && !(a.RecvSecond? && a.v == v)
    ensures Taken(acts + [a], v) == Taken(acts, v)
  {
    MoreCount(acts, a, RecvFirst(v));
    SecondMore(acts, a, v);
  }

  /** The worker writes or reads ready. */
  lemma DeliveringWrite(acts: seq<Action>, s: State, a: Action, ports: seq<int>)
    requires Inv(s) && Enabled(s, a) && (a.Read? || a.ReadError? || a.WriteSecond?) && Delivering(acts, s, a.c, ports)
    ensures Delivering(acts + [a], Apply(s, a), a.c, ports + NewAnswer(s, a, a.c))
  {
    var x, p := s.cs[a.c], NewAnswer(s, a, a.c);
    var root, n, phase := s.order[0], Taken(acts, x.client), s.vs[x.client].phase;
    assert VersionOk(s, s.ws[a.w].ver) && WorkerOk(s, a.w);
    TakesNothing(acts, a, x.client);
    if p != [] {
      DueBegins(root, ports, n, x.toClient, phase, p[0]);
    } else {
      assert ports + p == ports;
      if a.WriteSecond? {
        DueCompleted(root, ports, x.owes.value, n, x.toClient, phase);
      }
    }
    WriteEffect(s, a);
  }

  lemma WriteEffect(s: State, a: Action)
    requires Inv(s) && Enabled(s, a) && (a.Read? || a.ReadError? || a.WriteSecond?) && s.order != []
    ensures var x, v, t, p := s.cs[a.c], s.ws[a.w].ver, Apply(s, a), NewAnswer(s, a, a.c); var y := t.cs[a.c];
      && t.order == s.order && y.client == x.client && x.client < |s.vs| && |t.vs| == |s.vs|
      && t.vs[x.client].phase == s.vs[x.client].phase
      && (p != [] ==> x.owes == None && y.owes == Some(p[0]) && |p| == 1
                      && y.toClient == x.toClient + [Packet(Public(s.order[0]), p[0])])
      && (p == [] && !a.WriteSecond? ==> y.owes == x.owes && y.toClient == x.toClient)
      && (a.WriteSecond? ==> p == [] && y.owes == None
                             && y.toClient == x.toClient + [Packet(Monitor(s.order[0]), x.owes.value)])
  {
    assert VersionOk(s, s.ws[a.w].ver) && WorkerOk(s, a.w) && ConnOk(s, a.c);
  }

  /** The client takes the first message, or the second. */
  lemma DeliveringTake(acts: seq<Action>, s: State, a: Action, ports: seq<int>)
    requires Inv(s) && Enabled(s, a) && (a.RecvFirst? || a.RecvSecond?) && Takers(acts, s)
    requires Delivering(acts, s, s.vs[a.v].conn.value, ports)
    ensures Delivering(acts + [a], Apply(s, a), s.vs[a.v].conn.value, ports)
  {
    var c, v, t := s.vs[a.v].conn.value, a.v, Apply(s, a);
    assert VersionOk(s, v);
    MoreCount(acts, a, RecvFirst(v));
    SecondMore(acts, a, v);
    StepGrows(s, a);
    TakeEffect(s, a);
    DueTaken(s.order[0], ports, s.cs[c].owes, Taken(acts, v), s.cs[c].toClient, s.vs[v].phase, t.vs[v].phase);
  }

  lemma TakeEffect(s: State, a: Action)
    requires Inv(s) && Enabled(s, a) && (a.RecvFirst? || a.RecvSecond?)
    ensures var c, t := s.vs[a.v].conn.value, Apply(s, a);
      && t.cs[c].toClient == s.cs[c].toClient[1..] && t.cs[c].owes == s.cs[c].owes && t.cs[c].client == a.v
      && (t.vs[a.v].phase.HalfAnswered? <==> a.RecvFirst?)
      && (a.RecvFirst? ==> t.vs[a.v].phase.got == s.cs[c].toClient[0])
  {
    assert VersionOk(s, a.v);
  }

  /** All other steps leave the replies alone. */
  lemma DeliveringElse(acts: seq<Action>, s: State, a: Action, c: nat, ports: seq<int>)
    requires Inv(s) && Enabled(s, a) && c < |s.cs| && Delivering(acts, s, c, ports)
    requires !((a.Read? || a.ReadError? || a.WriteSecond?) && a.c == c)
    requires !((a.RecvFirst? || a.RecvSecond?) && s.vs[a.v].conn == Some(c))
    ensures NewAnswer(s, a, c) == [] && c < |Apply(s, a).cs| && Delivering(acts + [a], Apply(s, a), c, ports)
  {
    var v, t := s.cs[c].client, Apply(s, a);
    assert ConnOk(s, c) && VersionOk(s, v);
    StepGrows(s, a);
    assert t.order[0] == s.order[0];
    RepliesKept(s, a, c);
    TakerKept(s, a, v);
    TakesNothing(acts, a, v);
  }

  lemma RepliesKept(s: State, a: Action, c: nat)
    requires Enabled(s, a) && c < |s.cs| && s.cs[c].client < |s.vs| && s.vs[s.cs[c].client].conn == Some(c)
    requires !((a.Read? || a.ReadError? || a.WriteSecond?) && a.c == c)
    requires !((a.RecvFirst? || a.RecvSecond?) && s.vs[a.v].conn == Some(c))
    ensures c < |Apply(s, a).cs|
    ensures var x, y := s.cs[c], Apply(s, a).cs[c];
      y.toClient == x.toClient && y.owes == x.owes && y.client == x.client
  {
  }

  lemma TakerKept(s: State, a: Action, v: nat)
    requires Enabled(s, a) && v < |s.vs| && !((a.RecvFirst? || a.RecvSecond?) && a.v == v)
    ensures v < |Apply(s, a).vs|
    ensures var phase := Apply(s, a).vs[v].phase; phase.HalfAnswered? ==> phase == s.vs[v].phase
  {
  }

  lemma {:induction false} RunDelivering(port: int, acts: seq<Action>, c: nat)
    requires port != 1 && Executable(Init(port), acts) && Harmless(Init(port), acts)
    ensures var t := Exec(Init(port), acts);
      && Inv(t) && Takers(acts, t)
      && (if c < |t.cs| then Delivering(acts, t, c, AnswersOf(Init(port), acts, c))
          else AnswersOf(Init(port), acts, c) == [])
    decreases |acts|
  {
    RunInv(Init(port), acts);
    if acts != [] {
      var n := |acts| - 1;
      RunLast(Init(port), acts);
      var s, a, before := Exec(Init(port), acts[..n]), acts[n], acts[..n];
      HarmlessPrefix(Init(port), acts, n);
      RunDelivering(port, before, c);
      AnswersMore(Init(port), before, a, c);
      StepTakers(before, s, a);
      StepDelivering(before, s, a, c, AnswersOf(Init(port), before, c));
    }
  }

  lemma StepDelivering(acts: seq<Action>, s: State, a: Action, c: nat, ports: seq<int>)
    requires Inv(s) && Takers(acts, s) && Enabled(s, a)
    requires if c < |s.cs| then Delivering(acts, s, c, ports) else ports == []
    ensures var t, more := Apply(s, a), ports + NewAnswer(s, a, c);
      if c < |t.cs| then Delivering(acts + [a], t, c, more) else more == []
  {
    OnlyConnects(s, a);
    assert ports + [] == ports;
    if c >= |s.cs| {
      if a.Connect? && c == |s.cs| {
        DeliveringNew(acts, s, a);
      }
    } else if (a.Read? || a.ReadError? || a.WriteSecond?) && a.c == c {
      DeliveringWrite(acts, s, a, ports);
    } else if (a.RecvFirst? || a.RecvSecond?) && s.vs[a.v].conn == Some(c) {
      DeliveringTake(acts, s, a, ports);
    } else {
      DeliveringElse(acts, s, a, c, ports);
    }
  }

  lemma DeliveringNew(acts: seq<Action>, s: State, a: Action)
    requires Inv(s) && Takers(acts, s) && Enabled(s, a) && a.Connect?
    ensures Delivering(acts + [a], Apply(s, a), |s.cs|, [])
  {
    assert VersionOk(s, a.v) && VersionOk(s, a.holder);
    MoreCount(acts, a, RecvFirst(a.v));
    SecondMore(acts, a, a.v);
  }

  /**
    The replies on an internal connection are a queue, too: what waits for the
    client is, for each request or failed read in turn, the public and then the
    monitor descriptor of the first version, both with the port or both with
    -1, without what the client has taken and what its worker still owes.
   */
  lemma AnswersInOrder(port: int, acts: seq<Action>, c: nat)
    requires port != 1 && Executable(Init(port), acts) && Harmless(Init(port), acts)
    requires c < |Exec(Init(port), acts).cs|
    ensures Delivering(acts, Exec(Init(port), acts), c, AnswersOf(Init(port), acts, c))
  {
    RunDelivering(port, acts, c);
  }

  // ----- Who inherits -----

  ghost predicate TookName(acts: seq<Action>, v: nat) {
    exists n: nat :: BindName(v, n) in acts
  }

  ghost predicate Dupped(acts: seq<Action>, v: nat) {
    exists n: nat :: RecvSecond(v, true, n) in acts
  }

  /** The port of the first answer on the connection of version v. */
  function FirstOf(port: int, acts: seq<Action>, v: nat): Option<int>
    requires Executable(Init(port), acts)
  {
    var t := Exec(Init(port), acts);
    if v < |t.vs| && t.vs[v].conn.Some? && AnswersOf(Init(port), acts, t.vs[v].conn.value) != []
    then Some(AnswersOf(Init(port), acts, t.vs[v].conn.value)[0]) else None
  }

  /** Version v has taken the name, or taken the whole first answer, to a request and for a positive port. */
  ghost predicate MayServe(port: int, acts: seq<Action>, v: nat)
    requires Executable(Init(port), acts)
  {
    TookName(acts, v) || (Dupped(acts, v) && FirstOf(port, acts, v).Some? && FirstOf(port, acts, v).value > 0)
  }

  lemma ServesMore(acts: seq<Action>, a: Action, v: nat)
    ensures TookName(acts + [a], v) <==> TookName(acts, v) || (a.BindName? && a.v == v)
    ensures Dupped(acts + [a], v) <==> Dupped(acts, v) || (a.RecvSecond? && a.v == v && a.dup2)
  {
    if n: nat :| BindName(v, n) in acts + [a] {
      MoreCount(acts, a, BindName(v, n));
    }
    if n: nat :| BindName(v, n) in acts {
      MoreCount(acts, a, BindName(v, n));
    }
    if n: nat :| RecvSecond(v, true, n) in acts + [a] {
      MoreCount(acts, a, RecvSecond(v, true, n));
    }
    if n: nat :| RecvSecond(v, true, n) in acts {
      MoreCount(acts, a, RecvSecond(v, true, n));
    }
    if a.BindName? && a.v == v {
      MoreCount(acts, a, BindName(v, a.workers));
    }
    if a.RecvSecond? && a.v == v && a.dup2 {
      MoreCount(acts, a, RecvSecond(v, true, a.workers));
    }
  }

  lemma StepOrdered(s: State, a: Action, v: nat)
    requires Inv(s) && Enabled(s, a)
    ensures v in Apply(s, a).order <==>
      || v in s.order || (a.BindName? && a.v == v)
      || (a.RecvSecond? && a.v == v && a.dup2 && s.cs[s.vs[v].conn.value].toClient[0].port > 0)
  {
    if a.RecvClosed? {
      ClosedFails(s, a);
    }
  }

  /** The answer that a version takes is its first, and no later step changes it. */
  lemma FirstAnswer(port: int, acts: seq<Action>, a: Action, c: nat)
    requires Executable(Init(port), acts) && Enabled(Exec(Init(port), acts), a) && Executable(Init(port), acts + [a])
    requires AnswersOf(Init(port), acts, c) != []
    ensures AnswersOf(Init(port), acts + [a], c) != []
    ensures AnswersOf(Init(port), acts + [a], c)[0] == AnswersOf(Init(port), acts, c)[0]
  {
    AnswersMore(Init(port), acts, a, c);
  }

  /** When a version takes its second message, it is the rest of the first answer. */
  lemma TakesFirst(port: int, acts: seq<Action>, a: Action)
    requires port != 1 && Executable(Init(port), acts) && Harmless(Init(port), acts)
    requires Enabled(Exec(Init(port), acts), a) && a.RecvSecond?
    ensures var s := Exec(Init(port), acts); var c := s.vs[a.v].conn.value;
      && AnswersOf(Init(port), acts, c) != []
      && s.cs[c].toClient[0].port == AnswersOf(Init(port), acts, c)[0]
  {
    var s := Exec(Init(port), acts);
    var c := s.vs[a.v].conn.value;
    var ports := AnswersOf(Init(port), acts, c);
    RunDelivering(port, acts, c);
    assert VersionOk(s, a.v);
    assert Taken(acts, a.v) == 1;
    MessagesMore(s.order[0], ports, 0);
    assert Messages(s.order[0], ports)[..2][1] == Messages(s.order[0], ports)[1];
  }

  /** Version v has a first answer if it has taken two messages. */
  ghost predicate Serves(port: int, acts: seq<Action>, v: nat)
    requires Executable(Init(port), acts)
  {
    && (v in Exec(Init(port), acts).order <==> MayServe(port, acts, v))
    && (Dupped(acts, v) ==> FirstOf(port, acts, v).Some?)
  }

  lemma ConnKept(s: State, a: Action, v: nat)
    requires Inv(s) && Enabled(s, a) && v < |s.vs| && s.vs[v].conn.Some?
    ensures v < |Apply(s, a).vs| && Apply(s, a).vs[v].conn == s.vs[v].conn
  {
    StepGrows(s, a);
  }

  lemma StepServes(port: int, acts: seq<Action>, a: Action, v: nat)
    requires port != 1 && Executable(Init(port), acts) && Harmless(Init(port), acts)
    requires Enabled(Exec(Init(port), acts), a) && Executable(Init(port), acts + [a])
    requires Exec(Init(port), acts + [a]) == Apply(Exec(Init(port), acts), a)
    requires Inv(Exec(Init(port), acts)) && Serves(port, acts, v)
    ensures Serves(port, acts + [a], v)
  {
    var s := Exec(Init(port), acts);
    ServesMore(acts, a, v);
    StepOrdered(s, a, v);
    if FirstOf(port, acts, v).Some? {
      FirstKept(port, acts, a, v);
    }
    if a.RecvSecond? && a.v == v {
      TakesFirst(port, acts, a);
      FirstKept(port, acts, a, v);
    }
  }

  lemma FirstKept(port: int, acts: seq<Action>, a: Action, v: nat)
    requires Executable(Init(port), acts) && Inv(Exec(Init(port), acts))
    requires Enabled(Exec(Init(port), acts), a) && Executable(Init(port), acts + [a])
    requires Exec(Init(port), acts + [a]) == Apply(Exec(Init(port), acts), a)
    requires FirstOf(port, acts, v).Some?
    ensures FirstOf(port, acts + [a], v) == FirstOf(port, acts, v)
  {
    var s := Exec(Init(port), acts);
    ConnKept(s, a, v);
    FirstAnswer(port, acts, a, s.vs[v].conn.value);
  }

  lemma {:induction false} RunServes(port: int, acts: seq<Action>, v: nat)
    requires port != 1 && Executable(Init(port), acts) && Harmless(Init(port), acts)
    ensures Serves(port, acts, v)
    decreases |acts|
  {
    if acts != [] {
      var n := |acts| - 1;
      RunLast(Init(port), acts);
      HarmlessPrefix(Init(port), acts, n);
      RunInv(Init(port), acts[..n]);
      RunServes(port, acts[..n], v);
      StepServes(port, acts[..n], acts[n], v);
    }
  }

  /**
    A version serves if and only if it has taken the name, or it has taken both
    messages of its first answer, dup2 succeeded, and the answer was to a
    request and not to a failed read, for a positive port.
   */
  lemma ServesIff(port: int, acts: seq<Action>, v: nat)
    requires port != 1 && Executable(Init(port), acts) && Harmless(Init(port), acts)
    ensures v in Exec(Init(port), acts).order <==> MayServe(port, acts, v)
  {
    RunServes(port, acts, v);
  }
}
