/**
  Which system calls one batch of the epoll wrapper makes, how often, and in
  which order, written out in terms of the events and of what was read.
 */
module EpollCalls {
  import opened Internals
  import opened Epoll
  import opened EpollBatch

  // ----- Answers -----

  lemma SameAnswered(s: Sock, t: Sock, c: int, r: Recv, calls: seq<Call>)
    requires SameSock(s, t) && AnsweredOn(t, c, r, calls)
    ensures AnsweredOn(s, c, r, calls)
  {
  }

  lemma EventAnswers(s: Sock, ev: Event, wakeup: int, interest: set<int>, env: Env)
    requires Proper(s, wakeup) && ev.mask != 0 && ev.fd in s.comfds
    ensures AnsweredOn(s, ev.fd, env.recv(ev.fd), OnEvent(s, ev, wakeup, interest, env).calls)
  {
    AnswerAnswers(s, ev.fd, env.recv(ev.fd));
  }

  lemma {:induction false} EventsAnswers(s: Sock, evs: seq<Event>, wakeup: int, interest: set<int>, env: Env, c: int)
    requires Proper(s, wakeup) && Fresh(s, evs, wakeup, env) && c in s.comfds && HasEvent(evs, c)
    ensures AnsweredOn(s, c, env.recv(c), OnEvents(s, evs, wakeup, interest, env).calls)
    decreases evs
  {
    var one := OnEvent(s, evs[0], wakeup, interest, env);
    var later := OnEvents(one.sock, evs[1..], wakeup, one.interest, env).calls;
    if evs[0].mask != 0 && evs[0].fd == c {
      EventAnswers(s, evs[0], wakeup, interest, env);
    } else {
      EventKeeps(s, evs, wakeup, interest, env);
      ServedLater(s, evs, wakeup, interest, env, c);
      EventsAnswers(one.sock, evs[1..], wakeup, one.interest, env, c);
      SameAnswered(s, one.sock, c, env.recv(c), later);
    }
    AnsweredConcat(s, c, env.recv(c), one.calls, later);
  }

  lemma TurnAnswers(s: Sock, evs: seq<Event>, wakeup: int, interest: set<int>, env: Env, c: int)
    requires Proper(s, wakeup) && Fresh(s, evs, wakeup, env) && c in s.comfds && HasEvent(evs, c)
    ensures AnsweredOn(s, c, env.recv(c), HandleBatch(s, evs, wakeup, interest, env).calls)
  {
    var r := Reported(s);
    SameFresh(s, r, evs, wakeup, env);
    EventsAnswers(r, evs, wakeup, interest, env, c);
    SameAnswered(s, r, c, env.recv(c), OnEvents(r, evs, wakeup, interest, env).calls);
    AnsweredConcat(s, c, env.recv(c), Report(s, env), OnEvents(r, evs, wakeup, interest, env).calls);
  }

  lemma {:induction false} AllAnswers(socks: seq<Sock>, evs: seq<Event>, wakeup: int, interest: set<int>, env: Env,
                                      t: nat, c: int)
    requires AllProper(socks, wakeup) && AllFresh(socks, evs, wakeup, interest, env)
    requires t < |socks| && c in socks[t].comfds && HasEvent(evs, c)
    ensures AnsweredOn(socks[t], c, env.recv(c), HandleAll(socks, evs, wakeup, interest, env).calls)
    decreases socks
  {
    var s, rest, p := socks[0], socks[1..], HandleBatch(socks[0], evs, wakeup, interest, env);
    TailProper(socks, wakeup);
    if t == 0 {
      TurnAnswers(s, evs, wakeup, interest, env, c);
    } else {
      MaskedForOthers(s, rest, evs, wakeup, interest, env, rest[t - 1]);
      SameEvents(rest[t - 1], evs, p.evs, c);
      AllAnswers(rest, p.evs, wakeup, p.interest, env, t - 1, c);
    }
    AnsweredConcat(socks[t], c, env.recv(c), p.calls, HandleAll(rest, p.evs, wakeup, p.interest, env).calls);
  }

  /**
    Each connection with an event is answered as it must be, by calls made
    directly one after the other: in particular, a ready message marks the
    latch of its own socket before the connection is closed.
   */
  lemma BatchAnswers(socks: seq<Sock>, evs: seq<Event>, wakeup: int, interest: set<int>, env: Env, t: nat, c: int)
    requires AllProper(socks, wakeup) && KernelBatch(socks, evs, wakeup, interest, env)
    requires t < |socks| && c in socks[t].comfds && HasEvent(evs, c)
    ensures AnsweredOn(socks[t], c, env.recv(c), HandleAll(socks, evs, wakeup, interest, env).calls)
  {
    StartFresh(socks, evs, wakeup, interest, env);
    AllAnswers(socks, evs, wakeup, interest, env, t, c);
  }

  // ----- Marks, accepts and pings -----

  /** Connection c says that it is ready. */
  function SaysReady(evs: seq<Event>, recv: int -> Recv): int -> bool {
    c => HasEvent(evs, c) && recv(c) == Data(1)
  }

  /** How often a batch makes a call for socket s; pings are counted apart. */
  function Share(s: Sock, evs: seq<Event>, recv: int -> Recv, call: Call): nat {
    match call
    case Mark(on) => if s.markreadyfd == on then |Filter(s.comfds, SaysReady(evs, recv))| else 0
    case Accept(on) => if s.comfd == on && Requested(s, evs) then 1 else 0
    case _ => 0
  }

  function Shares(socks: seq<Sock>, evs: seq<Event>, recv: int -> Recv, call: Call): nat {
    if socks == [] then 0 else Share(socks[0], evs, recv, call) + Shares(socks[1..], evs, recv, call)
  }

  /** How many events of a batch are of the wakeup descriptor. */
  function Pings(evs: seq<Event>, wakeup: int): nat {
    if evs == [] then 0 else (if evs[0].mask != 0 && evs[0].fd == wakeup then 1 else 0) + Pings(evs[1..], wakeup)
  }

  lemma {:induction false} WithoutCount(list: seq<int>, c: int, f: int -> bool)
    requires Distinct(list) && c in list && f(c)
    ensures |Filter(Without(list, c), f)| + 1 == |Filter(list, f)|
  {
    if list[0] != c {
      WithoutCount(list[1..], c, f);
    }
  }

  /** Of connections without the first event, the same say that they are ready before and after it. */
  lemma SaysAgree(evs: seq<Event>, list: seq<int>, recv: int -> Recv)
    requires evs != []
    requires forall i :: 0 <= i < |list| ==> !(evs[0].mask != 0 && evs[0].fd == list[i] && recv(list[i]) == Data(1))
    ensures Filter(list, SaysReady(evs[1..], recv)) == Filter(list, SaysReady(evs, recv))
  {
    forall i | 0 <= i < |list| ensures SaysReady(evs[1..], recv)(list[i]) == SaysReady(evs, recv)(list[i]) {
      HasEventStep(evs, list[i]);
    }
    FilterAgrees(list, SaysReady(evs[1..], recv), SaysReady(evs, recv));
  }

  /** 1 if the event is of a connection that says ready. */
  function ReadyNow(s: Sock, ev: Event, recv: int -> Recv): nat {
    if ev.mask != 0 && ev.fd in s.comfds && recv(ev.fd) == Data(1) then 1 else 0
  }

  lemma ReadyStep(s: Sock, evs: seq<Event>, wakeup: int, interest: set<int>, env: Env)
    requires evs != [] && Proper(s, wakeup) && Fresh(s, evs, wakeup, env)
    ensures var t := OnEvent(s, evs[0], wakeup, interest, env).sock;
      |Filter(t.comfds, SaysReady(evs[1..], env.recv))| + ReadyNow(s, evs[0], env.recv) ==
      |Filter(s.comfds, SaysReady(evs, env.recv))|
  {
    var ev := evs[0];
    if ev.mask != 0 && ev.fd == s.comfd && !s.ready {
      RequestReady(s, evs, wakeup, env);
    } else if ev.mask != 0 && ev.fd in s.comfds && Ends(env.recv(ev.fd)) {
      EndedReady(s, evs, env.recv);
    } else {
      SaysAgree(evs, s.comfds, env.recv);
    }
  }

  /** The connection of a request has no event in the rest of the batch. */
  lemma RequestReady(s: Sock, evs: seq<Event>, wakeup: int, env: Env)
    requires evs != [] && Proper(s, wakeup) && Fresh(s, evs, wakeup, env)
    requires evs[0].mask != 0 && evs[0].fd == s.comfd && !s.ready
    ensures var acc, g := env.accept(s.comfd), SaysReady(evs[1..], env.recv);
      |Filter(s.comfds + (if acc != -1 then [acc] else []), g)| == |Filter(s.comfds, SaysReady(evs, env.recv))|
  {
    var acc, g := env.accept(s.comfd), SaysReady(evs[1..], env.recv);
    SaysAgree(evs, s.comfds, env.recv);
    NoSecondEvent(s, evs, wakeup, env);
    FilterConcat(s.comfds, if acc != -1 then [acc] else [], g);
    assert Filter(if acc != -1 then [acc] else [], g) == [];
  }

  lemma EndedReady(s: Sock, evs: seq<Event>, recv: int -> Recv)
    requires evs != [] && Distinct(s.comfds) && evs[0].mask != 0 && evs[0].fd in s.comfds && Ends(recv(evs[0].fd))
    ensures |Filter(Without(s.comfds, evs[0].fd), SaysReady(evs[1..], recv))| + ReadyNow(s, evs[0], recv) ==
            |Filter(s.comfds, SaysReady(evs, recv))|
  {
    var c, left := evs[0].fd, Without(s.comfds, evs[0].fd);
    WithoutDistinct(s.comfds, c);
    SaysAgree(evs, left, recv);
    HasEventStep(evs, c);
    if recv(c) == Data(1) {
      WithoutCount(s.comfds, c, SaysReady(evs, recv));
    } else {
      WithoutFilter(s.comfds, c, SaysReady(evs, recv));
    }
  }

  /** How often one event leads to a call. */
  function Now(s: Sock, ev: Event, wakeup: int, recv: int -> Recv, call: Call): nat {
    match call
    case Mark(on) => if s.markreadyfd == on then ReadyNow(s, ev, recv) else 0
    case Accept(on) => if s.comfd == on && ev.mask != 0 && ev.fd == on && !s.ready then 1 else 0
    case RecvPing(on) => if on == wakeup && ev.mask != 0 && ev.fd == wakeup then 1 else 0
    case _ => 0
  }

  lemma EventCounts(s: Sock, ev: Event, wakeup: int, interest: set<int>, env: Env, call: Call)
    requires Proper(s, wakeup) && Elsewhere(call)
    ensures multiset(OnEvent(s, ev, wakeup, interest, env).calls)[call] == Now(s, ev, wakeup, env.recv, call)
  {
    var calls := OnEvent(s, ev, wakeup, interest, env).calls;
    if ev.mask != 0 && ev.fd in s.comfds {
      AnswerElsewhere(s, ev.fd, env.recv(ev.fd), call);
      assert calls == Answer(s, ev.fd, env.recv(ev.fd));
    } else if ev.mask != 0 && ev.fd == s.comfd && !s.ready {
      assert calls == [Accept(s.comfd)];
    } else if ev.mask != 0 && ev.fd == wakeup {
      assert calls == [RecvPing(wakeup)];
    } else {
      assert calls == [];
    }
  }

  /** What the batch makes of a call for s, pings included. */
  function ShareOrPings(s: Sock, evs: seq<Event>, wakeup: int, recv: int -> Recv, call: Call): nat {
    if call == RecvPing(wakeup) then Pings(evs, wakeup) else Share(s, evs, recv, call)
  }

  lemma ShareStep(s: Sock, evs: seq<Event>, wakeup: int, interest: set<int>, env: Env, call: Call)
    requires evs != [] && Proper(s, wakeup) && Fresh(s, evs, wakeup, env) && Elsewhere(call)
    ensures var t := OnEvent(s, evs[0], wakeup, interest, env).sock;
      ShareOrPings(s, evs, wakeup, env.recv, call) ==
      Now(s, evs[0], wakeup, env.recv, call) + ShareOrPings(t, evs[1..], wakeup, env.recv, call)
  {
    var t := OnEvent(s, evs[0], wakeup, interest, env).sock;
    EventMembers(s, evs[0], wakeup, interest, env, 0);
    if call.Mark? {
      ReadyStep(s, evs, wakeup, interest, env);
    } else if call.Accept? {
      RequestedStep(s, t, evs);
      if evs[0].mask != 0 && evs[0].fd == s.comfd && !s.ready {
        OneRequest(s, t, evs, wakeup, env);
      }
    }
  }

  lemma {:induction false} EventsCounts(s: Sock, evs: seq<Event>, wakeup: int, interest: set<int>, env: Env, call: Call)
    requires Proper(s, wakeup) && Fresh(s, evs, wakeup, env) && Elsewhere(call)
    ensures multiset(OnEvents(s, evs, wakeup, interest, env).calls)[call] ==
            ShareOrPings(s, evs, wakeup, env.recv, call)
    decreases evs
  {
    if evs == [] {
      NoReady(s.comfds, env.recv);
    } else {
      var one := OnEvent(s, evs[0], wakeup, interest, env);
      EventKeeps(s, evs, wakeup, interest, env);
      EventsCounts(one.sock, evs[1..], wakeup, one.interest, env, call);
      EventCounts(s, evs[0], wakeup, interest, env, call);
      CountConcat(one.calls, OnEvents(one.sock, evs[1..], wakeup, one.interest, env).calls, call);
      ShareStep(s, evs, wakeup, interest, env, call);
    }
  }

  lemma {:induction false} NoReady(list: seq<int>, recv: int -> Recv)
    ensures Filter(list, SaysReady([], recv)) == []
  {
    if list != [] {
      NoReady(list[1..], recv);
    }
  }

  lemma TurnCounts(s: Sock, evs: seq<Event>, wakeup: int, interest: set<int>, env: Env, call: Call)
    requires Proper(s, wakeup) && Fresh(s, evs, wakeup, env) && Elsewhere(call)
    ensures multiset(HandleBatch(s, evs, wakeup, interest, env).calls)[call] ==
            ShareOrPings(s, evs, wakeup, env.recv, call)
  {
    var r := Reported(s);
    SameFresh(s, r, evs, wakeup, env);
    SameRequests(s, r, evs);
    EventsCounts(r, evs, wakeup, interest, env, call);
    CountConcat(Report(s, env), OnEvents(r, evs, wakeup, interest, env).calls, call);
    assert call !in Report(s, env);
  }

  lemma SameShare(u: Sock, evs: seq<Event>, evs': seq<Event>, recv: int -> Recv, call: Call)
    requires SameFor(u, evs, evs')
    ensures Share(u, evs', recv, call) == Share(u, evs, recv, call)
  {
    forall i | 0 <= i < |u.comfds| ensures SaysReady(evs', recv)(u.comfds[i]) == SaysReady(evs, recv)(u.comfds[i]) {
      SameEvents(u, evs, evs', u.comfds[i]);
    }
    FilterAgrees(u.comfds, SaysReady(evs', recv), SaysReady(evs, recv));
    forall j | 0 <= j < |evs| ensures Epoll.Announces(u, evs'[j]) == Epoll.Announces(u, evs[j]) {
    }
    forall i | 0 <= i < |evs| ensures Requests(u, evs', i) == Requests(u, evs, i) {
    }
  }

  lemma {:induction false} SharesAgree(socks: seq<Sock>, evs: seq<Event>, evs': seq<Event>, recv: int -> Recv,
                                       call: Call)
    requires forall u :: u in socks ==> SameFor(u, evs, evs')
    ensures Shares(socks, evs', recv, call) == Shares(socks, evs, recv, call)
  {
    if socks != [] {
      SameShare(socks[0], evs, evs', recv, call);
      SharesAgree(socks[1..], evs, evs', recv, call);
    }
  }

  /** The first socket takes all pings, and the others see none. */
  lemma {:induction false} PingsMasked(evs: seq<Event>, evs': seq<Event>, wakeup: int)
    requires |evs'| == |evs| && forall i :: 0 <= i < |evs| ==> !(evs'[i].mask != 0 && evs'[i].fd == wakeup)
    ensures Pings(evs', wakeup) == 0
    decreases evs'
  {
    if evs' != [] {
      PingsMasked(evs[1..], evs'[1..], wakeup);
    }
  }

  lemma NoPingsLeft(s: Sock, evs: seq<Event>, wakeup: int, interest: set<int>, env: Env)
    requires Proper(s, wakeup) && Fresh(s, evs, wakeup, env)
    ensures Pings(HandleBatch(s, evs, wakeup, interest, env).evs, wakeup) == 0
  {
    BatchMeaning(s, evs, wakeup, interest, env);
    PingsMasked(evs, HandleBatch(s, evs, wakeup, interest, env).evs, wakeup);
  }

  lemma {:induction false} AllCounts(socks: seq<Sock>, evs: seq<Event>, wakeup: int, interest: set<int>, env: Env,
                                     call: Call)
    requires AllProper(socks, wakeup) && AllFresh(socks, evs, wakeup, interest, env) && Elsewhere(call)
    ensures multiset(HandleAll(socks, evs, wakeup, interest, env).calls)[call] ==
            if call == RecvPing(wakeup) then (if socks == [] then 0 else Pings(evs, wakeup))
            else Shares(socks, evs, env.recv, call)
    decreases socks
  {
    if socks != [] {
      var s, rest, p := socks[0], socks[1..], HandleBatch(socks[0], evs, wakeup, interest, env);
      TailProper(socks, wakeup);
      TurnCounts(s, evs, wakeup, interest, env, call);
      AllCounts(rest, p.evs, wakeup, p.interest, env, call);
      CountConcat(p.calls, HandleAll(rest, p.evs, wakeup, p.interest, env).calls, call);
      NoPingsLeft(s, evs, wakeup, interest, env);
      forall u | u in rest ensures SameFor(u, evs, p.evs) {
        MaskedForOthers(s, rest, evs, wakeup, interest, env, u);
      }
      SharesAgree(rest, evs, p.evs, env.recv, call);
    }
  }

  lemma BatchCounts(socks: seq<Sock>, evs: seq<Event>, wakeup: int, interest: set<int>, env: Env, call: Call)
    requires AllProper(socks, wakeup) && KernelBatch(socks, evs, wakeup, interest, env) && Elsewhere(call)
    ensures multiset(HandleAll(socks, evs, wakeup, interest, env).calls)[call] ==
            if call == RecvPing(wakeup) then (if socks == [] then 0 else Pings(evs, wakeup))
            else Shares(socks, evs, env.recv, call)
  {
    StartFresh(socks, evs, wakeup, interest, env);
    AllCounts(socks, evs, wakeup, interest, env, call);
  }

  lemma {:induction false} SomeShare(socks: seq<Sock>, evs: seq<Event>, recv: int -> Recv, call: Call)
    ensures Shares(socks, evs, recv, call) > 0 <==>
            exists t :: 0 <= t < |socks| && Share(socks[t], evs, recv, call) > 0
  {
    if socks != [] {
      var rest := socks[1..];
      SomeShare(rest, evs, recv, call);
      assert forall t :: 0 <= t < |rest| ==> rest[t] == socks[t + 1];
      if t :| 0 <= t < |socks| && Share(socks[t], evs, recv, call) > 0 {
        assert t == 0 || Share(rest[t - 1], evs, recv, call) > 0;
      }
    }
  }

  /** Connection c of socket s has an event and says that it is ready, and m is the socket's mark. */
  predicate Marks(s: Sock, evs: seq<Event>, recv: int -> Recv, m: int, c: int) {
    s.markreadyfd == m && c in s.comfds && HasEvent(evs, c) && recv(c) == Data(1)
  }

  lemma FilterSome(list: seq<int>, f: int -> bool)
    ensures |Filter(list, f)| > 0 <==> exists c :: c in list && f(c)
  {
    if |Filter(list, f)| > 0 {
      FilterIff(list, f, Filter(list, f)[0]);
    }
    if c :| c in list && f(c) {
      FilterIff(list, f, c);
    }
  }

  lemma MarkShare(s: Sock, evs: seq<Event>, recv: int -> Recv, m: int)
    ensures Share(s, evs, recv, Mark(m)) > 0 <==> exists c :: Marks(s, evs, recv, m, c)
  {
    FilterSome(s.comfds, SaysReady(evs, recv));
    if c :| c in s.comfds && SaysReady(evs, recv)(c) && s.markreadyfd == m {
      assert Marks(s, evs, recv, m, c);
    }
    if c :| Marks(s, evs, recv, m, c) {
      assert SaysReady(evs, recv)(c);
    }
  }

  /**
    A readiness latch is set in a batch if and only if a connection of a socket
    with that latch has an event and says ready, and as often as there are such
    connections.
   */
  lemma BatchMarks(socks: seq<Sock>, evs: seq<Event>, wakeup: int, interest: set<int>, env: Env, m: int)
    requires AllProper(socks, wakeup) && KernelBatch(socks, evs, wakeup, interest, env)
    ensures var calls := HandleAll(socks, evs, wakeup, interest, env).calls;
      && (Mark(m) in calls <==> exists t, c :: 0 <= t < |socks| && Marks(socks[t], evs, env.recv, m, c))
      && multiset(calls)[Mark(m)] == Shares(socks, evs, env.recv, Mark(m))
  {
    BatchCounts(socks, evs, wakeup, interest, env, Mark(m));
    SomeShare(socks, evs, env.recv, Mark(m));
    if t :| 0 <= t < |socks| && Share(socks[t], evs, env.recv, Mark(m)) > 0 {
      MarkShare(socks[t], evs, env.recv, m);
    }
    if t, c :| 0 <= t < |socks| && Marks(socks[t], evs, env.recv, m, c) {
      MarkShare(socks[t], evs, env.recv, m);
    }
  }

  lemma {:induction false} OneAsks(socks: seq<Sock>, wakeup: int, evs: seq<Event>, recv: int -> Recv, on: int)
    requires AllProper(socks, wakeup)
    ensures Shares(socks, evs, recv, Accept(on)) <= 1
  {
    if socks != [] {
      var rest := socks[1..];
      TailProper(socks, wakeup);
      OneAsks(rest, wakeup, evs, recv, on);
      SomeShare(rest, evs, recv, Accept(on));
      if t :| 0 <= t < |rest| && Share(rest[t], evs, recv, Accept(on)) > 0 {
        assert Disjoint(socks[0], socks[t + 1]);
      }
    }
  }

  /**
    A batch accepts once on each listener with a request that comes before its
    socket is ready, and takes a ping if there is an event for one.
   */
  lemma BatchAccepts(socks: seq<Sock>, evs: seq<Event>, wakeup: int, interest: set<int>, env: Env, on: int)
    requires AllProper(socks, wakeup) && KernelBatch(socks, evs, wakeup, interest, env)
    ensures var calls := HandleAll(socks, evs, wakeup, interest, env).calls;
      && multiset(calls)[Accept(on)] ==
         (if exists t :: 0 <= t < |socks| && socks[t].comfd == on && Requested(socks[t], evs) then 1 else 0)
      && multiset(calls)[RecvPing(on)] == (if on == wakeup && socks != [] && HasEvent(evs, wakeup) then 1 else 0)
  {
    BatchCounts(socks, evs, wakeup, interest, env, Accept(on));
    BatchCounts(socks, evs, wakeup, interest, env, RecvPing(on));
    SomeShare(socks, evs, env.recv, Accept(on));
    SomeShare(socks, evs, env.recv, RecvPing(on));
    OneAsks(socks, wakeup, evs, env.recv, on);
    OnePing(socks, evs, wakeup, env);
    assert forall t :: 0 <= t < |socks| ==>
      (Share(socks[t], evs, env.recv, Accept(on)) > 0 <==> socks[t].comfd == on && Requested(socks[t], evs));
  }

  lemma {:induction false} PingsFrom(evs: seq<Event>, wakeup: int)
    requires forall i, j :: 0 <= i < j < |evs| && evs[i].fd == wakeup ==> evs[j].fd != wakeup
    ensures Pings(evs, wakeup) <= 1 && (Pings(evs, wakeup) > 0 <==> HasEvent(evs, wakeup))
  {
    if evs != [] {
      var rest := evs[1..];
      assert forall i :: 0 <= i < |rest| ==> rest[i] == evs[i + 1];
      PingsFrom(rest, wakeup);
      HasEventStep(evs, wakeup);
    }
  }

  lemma OnePing(socks: seq<Sock>, evs: seq<Event>, wakeup: int, env: Env)
    requires Genuine(socks, evs, wakeup, env)
    ensures Pings(evs, wakeup) == if HasEvent(evs, wakeup) then 1 else 0
  {
    assert !Outside(socks, wakeup, wakeup);
    PingsFrom(evs, wakeup);
  }

  // ----- The report -----

  lemma {:induction false} EventsNoReport(s: Sock, evs: seq<Event>, wakeup: int, interest: set<int>, env: Env, c: int)
    ensures SendReady(c) !in OnEvents(s, evs, wakeup, interest, env).calls
  {
    EventsSilent(s, evs, wakeup, interest, env, c);
  }

  /** A connection that ready is sent on is closed directly after it, if the send did not fail. */
  lemma {:induction false} BatchInOrder(socks: seq<Sock>, evs: seq<Event>, wakeup: int, interest: set<int>, env: Env,
                                        c: int)
    requires SendReady(c) in HandleAll(socks, evs, wakeup, interest, env).calls
    ensures ReportedOn(c, env, HandleAll(socks, evs, wakeup, interest, env).calls)
    decreases socks
  {
    var s, rest, p := socks[0], socks[1..], HandleBatch(socks[0], evs, wakeup, interest, env);
    var later := HandleAll(rest, p.evs, wakeup, p.interest, env).calls;
    if SendReady(c) in later {
      BatchInOrder(rest, p.evs, wakeup, p.interest, env, c);
    } else {
      EventsNoReport(Reported(s), evs, wakeup, interest, env, c);
      assert SendReady(c) in Report(s, env) && c == s.comfdClose;
      ReportReports(s, env);
      ReportedConcat(c, env, Report(s, env), OnEvents(Reported(s), evs, wakeup, interest, env).calls);
    }
    ReportedConcat(c, env, p.calls, later);
  }

  // ----- What is watched, and the latch -----

  /** x is a connection of the socket, or its listener or latch if it is not ready. */
  predicate WatchedBy(s: Sock, x: int) {
    x in s.comfds || (!s.ready && (x == s.comfd || x == s.readyfd))
  }

  /**
    What is in the interest set during a wait: the application's descriptors
    but the public ones of ready sockets, every internal connection, the
    listeners and latches of the sockets that are not ready, and the wakeup
    descriptor.
   */
  lemma PreparedExactly(socks: seq<Sock>, wakeup: int, interest: set<int>, user: set<int>, x: int)
    requires AllProper(socks, wakeup) && Separate(socks, wakeup, user) && Fits(socks, interest, user)
    ensures x in Prepare(socks, wakeup, interest) <==>
            || (x in user && x !in Retired(socks))
            || (x == wakeup && socks != [])
            || exists t :: 0 <= t < |socks| && WatchedBy(socks[t], x)
  {
    PreparedSet(socks, wakeup, interest, user, x);
    forall t | 0 <= t < |socks| ensures x in Added(socks[t], wakeup) <==> x == wakeup || WatchedBy(socks[t], x) {
      ElemsIn(socks[t].comfds, x);
    }
    if x == wakeup && socks != [] {
      assert x in Added(socks[0], wakeup);
    }
  }

  /** x is the listener, the latch or the public descriptor of the socket, which is ready. */
  predicate RetiredBy(s: Sock, x: int) {
    s.ready && (x == s.comfd || x == s.readyfd || x == s.fd)
  }

  /**
    Whatever the interest set held: preparing it takes the listener, the latch
    and the public descriptor of each ready socket out, puts in what is watched,
    and leaves the rest.
   */
  lemma PreparedFromAny(socks: seq<Sock>, wakeup: int, interest: set<int>, x: int)
    requires AllProper(socks, wakeup) && Separate(socks, wakeup, {})
    ensures x in Prepare(socks, wakeup, interest) <==>
            || (x in interest && forall t :: 0 <= t < |socks| ==> !RetiredBy(socks[t], x))
            || (x == wakeup && socks != [])
            || exists t :: 0 <= t < |socks| && WatchedBy(socks[t], x)
  {
    PrepareApart(socks, wakeup, {}, x);
    PrepareMeaning(socks, wakeup, interest, x);
    forall t | 0 <= t < |socks|
      ensures x in Added(socks[t], wakeup) <==> x == wakeup || WatchedBy(socks[t], x)
      ensures x in Dropped(socks[t]) <==> RetiredBy(socks[t], x)
    {
      ElemsIn(socks[t].comfds, x);
    }
    if x == wakeup && socks != [] {
      assert x in Added(socks[0], wakeup);
    }
  }

  lemma {:induction false} AllReadies(socks: seq<Sock>, evs: seq<Event>, wakeup: int, interest: set<int>, env: Env,
                                      t: nat)
    requires AllProper(socks, wakeup) && AllFresh(socks, evs, wakeup, interest, env) && t < |socks|
    ensures var after := HandleAll(socks, evs, wakeup, interest, env).socks;
      |after| == |socks| && (after[t].ready <==> socks[t].ready || HasEvent(evs, socks[t].readyfd))
    decreases socks
  {
    var s, rest, p := socks[0], socks[1..], HandleBatch(socks[0], evs, wakeup, interest, env);
    TailProper(socks, wakeup);
    AllLists(socks, evs, wakeup, interest, env);
    if t == 0 {
      SameFresh(s, Reported(s), evs, wakeup, env);
      EventsInterest(Reported(s), evs, wakeup, interest, env, 0);
    } else {
      MaskedForOthers(s, rest, evs, wakeup, interest, env, rest[t - 1]);
      SameEvents(rest[t - 1], evs, p.evs, rest[t - 1].readyfd);
      AllReadies(rest, p.evs, wakeup, p.interest, env, t - 1);
    }
  }

  /** A batch makes exactly those sockets ready whose latch has an event. */
  lemma BatchReadies(socks: seq<Sock>, evs: seq<Event>, wakeup: int, interest: set<int>, env: Env, t: nat)
    requires AllProper(socks, wakeup) && KernelBatch(socks, evs, wakeup, interest, env) && t < |socks|
    ensures var after := HandleAll(socks, evs, wakeup, interest, env).socks;
      |after| == |socks| && (after[t].ready <==> socks[t].ready || HasEvent(evs, socks[t].readyfd))
  {
    StartFresh(socks, evs, wakeup, interest, env);
    AllReadies(socks, evs, wakeup, interest, env, t);
  }
}
