/**
  Which system calls one round of the select wrapper makes, how often, and in
  which order, written out in terms of what the kernel reported.
 */
module SelectCalls {
  import opened Internals
  import opened Select

  /** What the kernel guarantees of a round. */
  ghost predicate RoundOk(socks: seq<Sock>, bits: set<int>, env: Env) {
    AllSound(socks) && AllOpen(socks, bits, env.open) && FreeAccepts(env.open, Round(socks, bits, env).calls, env)
  }

  // ----- Answers -----

  lemma {:induction false} WalkAnswers(s: Sock, list: seq<int>, bits: set<int>, recv: int -> Recv, c: int)
    requires c in list && c in bits
    ensures AnsweredOn(s, c, recv(c), Walk(s, list, bits, recv).calls)
    decreases list
  {
    var first, rest := list[0], list[1..];
    if first in bits {
      var later := Walk(s, rest, bits - {first}, recv).calls;
      if first == c {
        AnswerAnswers(s, c, recv(c));
      } else {
        WalkAnswers(s, rest, bits - {first}, recv, c);
      }
      AnsweredConcat(s, c, recv(c), Answer(s, first, recv(first)), later);
    } else {
      WalkAnswers(s, rest, bits, recv, c);
    }
  }

  lemma HandleAnswers(s: Sock, bits: set<int>, env: Env, c: int)
    requires Sound(s) && c in s.comfds && c in bits
    ensures AnsweredOn(s, c, env.recv(c), Handle(s, bits, env).calls)
  {
    var list := s.comfds + NewConn(s, bits, env);
    assert c in list;
    WalkAnswers(s, list, bits - {s.comfd}, env.recv, c);
    AnsweredConcat(s, c, env.recv(c), if s.comfd in bits then [Accept(s.comfd)] else [],
                   Walk(s, list, bits - {s.comfd}, env.recv).calls);
  }

  lemma {:induction false} AllAnswers(socks: seq<Sock>, bits: set<int>, env: Env, open: set<int>, t: nat, c: int)
    requires AllSound(socks) && AllOpen(socks, bits, open) && FreeAccepts(open, HandleAll(socks, bits, env).calls, env)
    requires t < |socks| && c in socks[t].comfds && c in bits
    ensures AnsweredOn(socks[t], c, env.recv(c), HandleAll(socks, bits, env).calls)
    decreases socks
  {
    var one, rest := Handle(socks[0], bits, env), socks[1..];
    SplitAccepts(socks, bits, env, open);
    TurnOpen(socks, bits, env, open);
    TailSound(socks);
    if t == 0 {
      HandleAnswers(socks[0], bits, env, c);
    } else {
      assert IsInternal(socks[t], c);
      AllAnswers(rest, one.bits, env, OpenAfter(open, one.calls, env), t - 1, c);
    }
    AnsweredConcat(socks[t], c, env.recv(c), one.calls, HandleAll(rest, one.bits, env).calls);
  }

  /**
    Each connection with traffic is answered as it must be, by calls made
    directly one after the other: in particular, a ready message marks the
    latch of its own socket before the connection is closed.
   */
  lemma RoundAnswers(socks: seq<Sock>, bits: set<int>, env: Env, t: nat, c: int)
    requires RoundOk(socks, bits, env) && t < |socks| && c in socks[t].comfds && c in bits
    ensures AnsweredOn(socks[t], c, env.recv(c), Round(socks, bits, env).calls)
  {
    var h := HandleAll(socks, bits, env);
    var p := PostAll(h.socks, h.bits, env);
    OpenConcat(env.open, h.calls, p.calls, env);
    AllAnswers(socks, bits, env, env.open, t, c);
    AnsweredConcat(socks[t], c, env.recv(c), h.calls, p.calls);
  }

  // ----- Marks, accepts and pings -----

  /** Connection c says that it is ready. */
  function SaysReady(bits: set<int>, recv: int -> Recv): int -> bool {
    c => c in bits && recv(c) == Data(1)
  }

  /** How often the first pass makes a call for socket s. */
  function Share(s: Sock, bits: set<int>, recv: int -> Recv, call: Call): nat {
    match call
    case Mark(on) => if s.markreadyfd == on then |Filter(s.comfds, SaysReady(bits, recv))| else 0
    case Accept(on) => if s.comfd == on && on in bits then 1 else 0
    case _ => 0
  }

  function Shares(socks: seq<Sock>, bits: set<int>, recv: int -> Recv, call: Call): nat {
    if socks == [] then 0 else Share(socks[0], bits, recv, call) + Shares(socks[1..], bits, recv, call)
  }

  lemma FirstSays(list: seq<int>, bits: set<int>, recv: int -> Recv)
    requires Distinct(list) && list != [] && list[0] in bits
    ensures |Filter(list, SaysReady(bits, recv))| ==
            (if recv(list[0]) == Data(1) then 1 else 0) + |Filter(list[1..], SaysReady(bits - {list[0]}, recv))|
  {
    FilterAgrees(list[1..], SaysReady(bits - {list[0]}, recv), SaysReady(bits, recv));
  }

  lemma {:induction false} WalkCounts(s: Sock, list: seq<int>, bits: set<int>, recv: int -> Recv, call: Call)
    requires Distinct(list) && Elsewhere(call)
    ensures multiset(Walk(s, list, bits, recv).calls)[call] ==
            if call == Mark(s.markreadyfd) then |Filter(list, SaysReady(bits, recv))| else 0
    decreases list
  {
    if list != [] {
      var c, rest := list[0], list[1..];
      if c in bits {
        var later := Walk(s, rest, bits - {c}, recv).calls;
        WalkCounts(s, rest, bits - {c}, recv, call);
        CountConcat(Answer(s, c, recv(c)), later, call);
        AnswerElsewhere(s, c, recv(c), call);
        FirstSays(list, bits, recv);
        assert Walk(s, list, bits, recv).calls == Answer(s, c, recv(c)) + later;
      } else {
        WalkCounts(s, rest, bits, recv, call);
      }
    }
  }

  /** The connection that was just accepted has no traffic yet. */
  lemma NewSaysNothing(s: Sock, new': seq<int>, bits: set<int>, recv: int -> Recv)
    requires |new'| <= 1 && s.comfd !in s.comfds && forall c :: c in new' ==> c !in bits
    ensures Filter(s.comfds + new', SaysReady(bits - {s.comfd}, recv)) == Filter(s.comfds, SaysReady(bits, recv))
  {
    var f, g := SaysReady(bits - {s.comfd}, recv), SaysReady(bits, recv);
    FilterConcat(s.comfds, new', f);
    FilterAgrees(s.comfds, f, g);
    if new' != [] {
      var c := new'[0];
      assert c in new' && c !in bits && new' == [c] && [c][1..] == [];
    }
  }

  lemma HandleCounts(s: Sock, bits: set<int>, env: Env, open: set<int>, call: Call)
    requires Sound(s) && bits <= open && FreeAccepts(open, Handle(s, bits, env).calls, env) && Elsewhere(call)
    requires forall c :: IsInternal(s, c) ==> c in open
    ensures multiset(Handle(s, bits, env).calls)[call] == Share(s, bits, env.recv, call)
  {
    var new', rest := NewConn(s, bits, env), bits - {s.comfd};
    var asked, list := if s.comfd in bits then [Accept(s.comfd)] else [], s.comfds + NewConn(s, bits, env);
    NewIsFree(s, bits, env, open);
    WalkCounts(s, list, rest, env.recv, call);
    CountConcat(asked, Walk(s, list, rest, env.recv).calls, call);
    NewSaysNothing(s, new', bits, env.recv);
  }

  /** Bits of others do not matter. */
  lemma {:induction false} SharesAgree(socks: seq<Sock>, bits: set<int>, bits': set<int>, recv: int -> Recv, call: Call)
    requires forall t, c :: 0 <= t < |socks| && IsInternal(socks[t], c) ==> (c in bits' <==> c in bits)
    ensures Shares(socks, bits', recv, call) == Shares(socks, bits, recv, call)
  {
    if socks != [] {
      var s, rest := socks[0], socks[1..];
      assert forall t :: 0 <= t < |rest| ==> rest[t] == socks[t + 1];
      assert forall i :: 0 <= i < |s.comfds| ==> IsInternal(s, s.comfds[i]);
      FilterAgrees(s.comfds, SaysReady(bits', recv), SaysReady(bits, recv));
      assert IsInternal(s, s.comfd);
      SharesAgree(rest, bits, bits', recv, call);
    }
  }

  lemma {:induction false} AllCounts(socks: seq<Sock>, bits: set<int>, env: Env, open: set<int>, call: Call)
    requires AllSound(socks) && AllOpen(socks, bits, open) && FreeAccepts(open, HandleAll(socks, bits, env).calls, env)
    requires Elsewhere(call)
    ensures multiset(HandleAll(socks, bits, env).calls)[call] == Shares(socks, bits, env.recv, call)
    decreases socks
  {
    if socks != [] {
      var one, rest := Handle(socks[0], bits, env), socks[1..];
      SplitAccepts(socks, bits, env, open);
      TurnOpen(socks, bits, env, open);
      TailSound(socks);
      HandleCounts(socks[0], bits, env, open, call);
      AllCounts(rest, one.bits, env, OpenAfter(open, one.calls, env), call);
      CountConcat(one.calls, HandleAll(rest, one.bits, env).calls, call);
      OthersAgree(socks, bits, env, open, call);
    }
  }

  /** The turn of the first socket does not matter to the others. */
  lemma OthersAgree(socks: seq<Sock>, bits: set<int>, env: Env, open: set<int>, call: Call)
    requires AllSound(socks) && AllOpen(socks, bits, open) && FreeAccepts(open, HandleAll(socks, bits, env).calls, env)
    requires socks != []
    ensures var one, rest := Handle(socks[0], bits, env), socks[1..];
      Shares(rest, one.bits, env.recv, call) == Shares(rest, bits, env.recv, call)
  {
    var rest := socks[1..];
    SplitAccepts(socks, bits, env, open);
    TurnOpen(socks, bits, env, open);
    assert forall t :: 0 <= t < |rest| ==> rest[t] == socks[t + 1];
    SharesAgree(rest, bits, Handle(socks[0], bits, env).bits, env.recv, call);
  }

  lemma {:induction false} PostCounts(socks: seq<Sock>, bits: set<int>, env: Env, call: Call)
    requires Elsewhere(call)
    ensures multiset(PostAll(socks, bits, env).calls)[call] == 0
    decreases socks
  {
    if socks != [] {
      var one := Post(socks[0], bits, env);
      PostCounts(socks[1..], one.bits, env, call);
      CountConcat(one.calls, PostAll(socks[1..], one.bits, env).calls, call);
      assert call !in one.calls;
    }
  }

  lemma RoundCounts(socks: seq<Sock>, bits: set<int>, env: Env, call: Call)
    requires RoundOk(socks, bits, env) && Elsewhere(call)
    ensures multiset(Round(socks, bits, env).calls)[call] == Shares(socks, bits, env.recv, call)
  {
    var h := HandleAll(socks, bits, env);
    var p := PostAll(h.socks, h.bits, env);
    OpenConcat(env.open, h.calls, p.calls, env);
    AllCounts(socks, bits, env, env.open, call);
    PostCounts(h.socks, h.bits, env, call);
    CountConcat(h.calls, p.calls, call);
  }

  lemma {:induction false} SomeShare(socks: seq<Sock>, bits: set<int>, recv: int -> Recv, call: Call)
    ensures Shares(socks, bits, recv, call) > 0 <==>
            exists t :: 0 <= t < |socks| && Share(socks[t], bits, recv, call) > 0
  {
    if socks != [] {
      var rest := socks[1..];
      SomeShare(rest, bits, recv, call);
      assert forall t :: 0 <= t < |rest| ==> rest[t] == socks[t + 1];
      if t :| 0 <= t < |socks| && Share(socks[t], bits, recv, call) > 0 {
        assert t == 0 || Share(rest[t - 1], bits, recv, call) > 0;
      }
    }
  }

  /** Connection c of socket s has traffic and says that it is ready, and m is the socket's mark. */
  predicate Announces(s: Sock, bits: set<int>, recv: int -> Recv, m: int, c: int) {
    s.markreadyfd == m && c in s.comfds && c in bits && recv(c) == Data(1)
  }

  lemma FilterSome(list: seq<int>, f: int -> bool)
    ensures |Filter(list, f)| > 0 <==> exists c :: c in list && f(c)
  {
    if |Filter(list, f)| > 0 {
      FilterIff(list, f, Filter(list, f)[0]);
    }
    if c :| c in list && f(c) {
      FilterIff(list, f, c);
    }
  }

  /**
    A readiness latch is set in a round if and only if a connection of a socket
    with that latch has traffic and says ready, and as often as there are such
    connections.
   */
  lemma RoundMarks(socks: seq<Sock>, bits: set<int>, env: Env, m: int)
    requires RoundOk(socks, bits, env)
    ensures var calls := Round(socks, bits, env).calls;
      && (Mark(m) in calls <==> exists t, c :: 0 <= t < |socks| && Announces(socks[t], bits, env.recv, m, c))
      && multiset(calls)[Mark(m)] == Shares(socks, bits, env.recv, Mark(m))
  {
    RoundCounts(socks, bits, env, Mark(m));
    SomeShare(socks, bits, env.recv, Mark(m));
    if t :| 0 <= t < |socks| && Share(socks[t], bits, env.recv, Mark(m)) > 0 {
      MarkShare(socks[t], bits, env.recv, m);
    }
    if t, c :| 0 <= t < |socks| && Announces(socks[t], bits, env.recv, m, c) {
      MarkShare(socks[t], bits, env.recv, m);
    }
  }

  lemma MarkShare(s: Sock, bits: set<int>, recv: int -> Recv, m: int)
    ensures Share(s, bits, recv, Mark(m)) > 0 <==> exists c :: Announces(s, bits, recv, m, c)
  {
    FilterSome(s.comfds, SaysReady(bits, recv));
    if c :| c in s.comfds && SaysReady(bits, recv)(c) && s.markreadyfd == m {
      assert Announces(s, bits, recv, m, c);
    }
    if c :| Announces(s, bits, recv, m, c) {
      assert SaysReady(bits, recv)(c);
    }
  }

  lemma {:induction false} OneAsks(socks: seq<Sock>, bits: set<int>, recv: int -> Recv, on: int)
    requires AllSound(socks)
    ensures Shares(socks, bits, recv, Accept(on)) <= 1
  {
    if socks != [] {
      var rest := socks[1..];
      TailSound(socks);
      OneAsks(rest, bits, recv, on);
      SomeShare(rest, bits, recv, Accept(on));
      if t :| 0 <= t < |rest| && Share(rest[t], bits, recv, Accept(on)) > 0 {
        assert Disjoint(socks[0], socks[t + 1]);
      }
    }
  }

  /** A round accepts once on each listener that is reported, and takes no pings. */
  lemma RoundAccepts(socks: seq<Sock>, bits: set<int>, env: Env, on: int)
    requires RoundOk(socks, bits, env)
    ensures var calls := Round(socks, bits, env).calls;
      && multiset(calls)[Accept(on)] ==
         (if on in bits && exists t :: 0 <= t < |socks| && socks[t].comfd == on then 1 else 0)
      && RecvPing(on) !in calls
  {
    RoundCounts(socks, bits, env, Accept(on));
    RoundCounts(socks, bits, env, RecvPing(on));
    SomeShare(socks, bits, env.recv, Accept(on));
    SomeShare(socks, bits, env.recv, RecvPing(on));
    OneAsks(socks, bits, env.recv, on);
    assert forall t :: 0 <= t < |socks| ==>
      (Share(socks[t], bits, env.recv, Accept(on)) > 0 <==> socks[t].comfd == on && on in bits);
  }

  // ----- The report -----

  lemma {:induction false} PostInOrder(socks: seq<Sock>, bits: set<int>, env: Env, c: int)
    ensures SendReady(c) in PostAll(socks, bits, env).calls ==> ReportedOn(c, env, PostAll(socks, bits, env).calls)
    decreases socks
  {
    if socks != [] {
      var s, one := socks[0], Post(socks[0], bits, env);
      var later := PostAll(socks[1..], one.bits, env).calls;
      var s1 := if s.readyfd in bits then s.(ready := true) else s;
      PostInOrder(socks[1..], one.bits, env, c);
      if SendReady(c) in one.calls {
        ReportReports(s1, env);
        assert c == s.comfdClose && one.calls == Report(s1, env);
      }
      if SendReady(c) in one.calls + later {
        ReportedConcat(c, env, one.calls, later);
      }
    }
  }

  /** A connection that ready is sent on is closed directly after it, if the send did not fail. */
  lemma RoundInOrder(socks: seq<Sock>, bits: set<int>, env: Env, c: int)
    requires SendReady(c) in Round(socks, bits, env).calls
    ensures ReportedOn(c, env, Round(socks, bits, env).calls)
  {
    var h := HandleAll(socks, bits, env);
    HandleAllSilent(socks, bits, env, c);
    PostInOrder(h.socks, h.bits, env, c);
    ReportedConcat(c, env, h.calls, PostAll(h.socks, h.bits, env).calls);
  }

  // ----- What is watched -----

  lemma {:induction false} WatchedIff(socks: seq<Sock>, x: int)
    ensures x in AllWatched(socks) <==> WatchedBySome(socks, x)
  {
    if socks != [] {
      WatchedIff(socks[1..], x);
      ElemsIn(socks[0].comfds, x);
      SomeCons(socks, x);
    }
  }

  /** x is a connection of the socket, or its listener or latch if it is not ready. */
  predicate WatchedBy(s: Sock, x: int) {
    x in s.comfds || (!s.ready && (x == s.comfd || x == s.readyfd))
  }

  predicate WatchedBySome(socks: seq<Sock>, x: int) {
    exists t :: 0 <= t < |socks| && WatchedBy(socks[t], x)
  }

  lemma {:induction false} RaiseOverCovers(n: int, list: seq<int>, x: int)
    ensures var m := RaiseOver(n, list); n <= m && (x in list ==> x < m) && (m == n || m - 1 in list)
    decreases list
  {
    if list != [] {
      RaiseOverCovers(Larger(n, list[0]), list[1..], x);
      assert list == [list[0]] + list[1..];
    }
  }

  lemma RaiseCovers(n: int, s: Sock, x: int)
    ensures var m := Raise(n, s); n <= m && (WatchedBy(s, x) ==> x < m) && (m == n || WatchedBy(s, m - 1))
  {
    RaiseOverCovers(if s.ready then n else Larger(Larger(n, s.comfd), s.readyfd), s.comfds, x);
  }

  /** The bound covers all that is watched, and is raised no further than needed. */
  lemma {:induction false} RaiseAllCovers(n: int, socks: seq<Sock>, x: int)
    ensures var m := RaiseAll(n, socks);
      n <= m && (WatchedBySome(socks, x) ==> x < m) && (m == n || WatchedBySome(socks, m - 1))
    decreases socks
  {
    if socks != [] {
      var s, rest, m := socks[0], socks[1..], RaiseAll(n, socks);
      RaiseCovers(n, s, x);
      RaiseAllCovers(Raise(n, s), rest, x);
      SomeCons(socks, x);
      SomeCons(socks, m - 1);
    }
  }

  lemma SomeCons(socks: seq<Sock>, x: int)
    requires socks != []
    ensures WatchedBySome(socks, x) <==> WatchedBy(socks[0], x) || WatchedBySome(socks[1..], x)
  {
    var rest := socks[1..];
    assert forall t :: 0 <= t < |rest| ==> rest[t] == socks[t + 1];
    if t :| 0 <= t < |socks| && WatchedBy(socks[t], x) {
      assert t == 0 || WatchedBy(rest[t - 1], x);
    }
  }

  /**
    What the kernel is asked for in the read set: what the application asks
    for, every internal connection, and the listeners and latches of the
    sockets that are not ready; and the bound is raised above these, no
    further than needed.
   */
  lemma AskedExactly(socks: seq<Sock>, n: int, user: Sets, x: int)
    ensures x in Asked(socks, true, user).r <==> x in user.r || WatchedBySome(socks, x)
    ensures Asked(socks, true, user).w == user.w && Asked(socks, true, user).e == user.e
    ensures var m := Bound(socks, true, n);
      n <= m && (WatchedBySome(socks, x) ==> x < m) && (m == n || WatchedBySome(socks, m - 1))
  {
    WatchedIff(socks, x);
    RaiseAllCovers(n, socks, x);
  }

  // ----- The latch -----

  lemma LatchesApart(socks: seq<Sock>, t: nat, u: nat)
    requires AllSound(socks) && t < |socks| && u < |socks|
    ensures socks[t].readyfd !in socks[u].comfds && socks[t].readyfd != socks[u].comfd
    ensures t != u ==> socks[t].readyfd != socks[u].readyfd
  {
    assert IsInternal(socks[t], socks[t].readyfd) && Sound(socks[t]);
    if t < u {
      assert Disjoint(socks[t], socks[u]);
    } else if u < t {
      assert Disjoint(socks[u], socks[t]);
    }
  }

  lemma {:induction false} NotHandled(socks: seq<Sock>, x: int)
    requires forall u :: 0 <= u < |socks| ==> x !in socks[u].comfds && x != socks[u].comfd
    ensures x !in Handled(socks)
  {
    if socks != [] {
      ElemsIn(socks[0].comfds, x);
      NotHandled(socks[1..], x);
    }
  }

  lemma {:induction false} LatchNotAccepted(socks: seq<Sock>, bits: set<int>, env: Env, open: set<int>, x: int)
    requires FreeAccepts(open, HandleAll(socks, bits, env).calls, env) && x in open
    requires forall u :: 0 <= u < |socks| ==> x !in socks[u].comfds
    ensures x !in Accepted(socks, bits, env)
    decreases socks
  {
    if socks != [] {
      var s, one := socks[0], Handle(socks[0], bits, env);
      SplitAccepts(socks, bits, env, open);
      HandleOpen(s, bits, env, open, x);
      ElemsIn(NewConn(s, bits, env), x);
      LatchNotAccepted(socks[1..], one.bits, env, OpenAfter(open, one.calls, env), x);
    }
  }

  /** The first pass leaves the bits of the latches. */
  lemma LatchSurvives(socks: seq<Sock>, bits: set<int>, env: Env, t: nat)
    requires RoundOk(socks, bits, env) && t < |socks|
    ensures socks[t].readyfd in HandleAll(socks, bits, env).bits <==> socks[t].readyfd in bits
  {
    var x, h := socks[t].readyfd, HandleAll(socks, bits, env);
    OpenConcat(env.open, h.calls, PostAll(h.socks, h.bits, env).calls, env);
    HandleAllBits(socks, bits, env);
    forall u | 0 <= u < |socks| ensures x !in socks[u].comfds && x != socks[u].comfd {
      LatchesApart(socks, t, u);
    }
    NotHandled(socks, x);
    assert IsInternal(socks[t], x);
    LatchNotAccepted(socks, bits, env, env.open, x);
  }

  lemma {:induction false} PostReadies(socks: seq<Sock>, bits: set<int>, env: Env, t: nat)
    requires t < |socks| && forall u :: 0 <= u < |socks| && u != t ==> socks[u].readyfd != socks[t].readyfd
    requires forall u :: 0 <= u < |socks| ==> socks[u].fd != socks[t].readyfd
    ensures var after := PostAll(socks, bits, env).socks;
      |after| == |socks| && (after[t].ready <==> socks[t].ready || socks[t].readyfd in bits)
    decreases socks
  {
    var one, rest := Post(socks[0], bits, env), socks[1..];
    PostAllSocks(rest, one.bits, env);
    PostReady(socks[0], bits, env, socks[t].readyfd);
    if t > 0 {
      assert forall u :: 0 <= u < |rest| ==> rest[u] == socks[u + 1];
      PostReadies(rest, one.bits, env, t - 1);
    }
  }

  lemma PostReady(s: Sock, bits: set<int>, env: Env, x: int)
    ensures var one := Post(s, bits, env);
      && (one.sock.ready <==> s.ready || s.readyfd in bits)
      && (x != s.readyfd && x != s.fd ==> (x in one.bits <==> x in bits))
  {
    PostMeaning(s, bits, env);
  }

  /** A round makes exactly those sockets ready whose latch was reported. */
  lemma RoundReadies(socks: seq<Sock>, bits: set<int>, env: Env, t: nat)
    requires RoundOk(socks, bits, env) && PublicsApart(socks) && t < |socks|
    ensures var after := Round(socks, bits, env).socks;
      |after| == |socks| && (after[t].ready <==> socks[t].ready || socks[t].readyfd in bits)
  {
    var h := HandleAll(socks, bits, env);
    HandleAllSocks(socks, bits, env);
    LatchSurvives(socks, bits, env, t);
    assert forall u :: 0 <= u < |socks| ==> SameSock(socks[u], h.socks[u]);
    forall u | 0 <= u < |socks| && u != t ensures socks[u].readyfd != socks[t].readyfd {
      LatchesApart(socks, t, u);
    }
    HandleKeepsReady(socks, bits, env);
    PostReadies(h.socks, h.bits, env, t);
  }

  lemma {:induction false} HandleKeepsReady(socks: seq<Sock>, bits: set<int>, env: Env)
    ensures var after := HandleAll(socks, bits, env).socks;
      |after| == |socks| && forall t :: 0 <= t < |socks| ==> after[t].ready == socks[t].ready
    decreases socks
  {
    if socks != [] {
      HandleMeaning(socks[0], bits, env);
      HandleKeepsReady(socks[1..], Handle(socks[0], bits, env).bits, env);
    }
  }

  /**
    A latch that is readable when the kernel returns makes its socket ready:
    after the return exactly those sockets are ready that were, and those
    whose latch was.
   */
  lemma ReturnReadies(socks: seq<Sock>, n: int, user: Sets, ready: Sets, env: Env, t: nat)
    requires t < |socks| && socks[t].readyfd >= 0 && socks[t].readyfd !in user.r && PublicsApart(socks)
    requires RoundOk(socks, KernelSelect(Bound(socks, true, n), Asked(socks, true, user), ready).r, env)
    ensures var out := KernelSelect(Bound(socks, true, n), Asked(socks, true, user), ready);
      var after := AfterReturn(socks, true, out, env).0;
      |after| == |socks| && (after[t].ready <==> socks[t].ready || socks[t].readyfd in ready.r)
  {
    var x := socks[t].readyfd;
    var out := KernelSelect(Bound(socks, true, n), Asked(socks, true, user), ready);
    RoundReadies(socks, out.r, env, t);
    if !socks[t].ready {
      assert WatchedBy(socks[t], x) && WatchedBySome(socks, x);
      AskedExactly(socks, n, user, x);
      assert x in out.r <==> x in ready.r;
    }
  }

  // ----- Over runs -----

  /** All this holds in every round of every run of calls. */
  lemma EveryRoundOk(socks: seq<Sock>, uses: seq<Use>, i: nat)
    requires AllSound(socks) && i < |RunTurns(socks, uses)|
    requires forall j :: 0 <= j <= i ==> Guaranteed(RunTurns(socks, uses)[j])
    ensures var turn := RunTurns(socks, uses)[i]; RoundOk(turn.socks, turn.bits, turn.env)
  {
    var turn := RunTurns(socks, uses)[i];
    EveryRound(socks, uses, i, 0);
    assert Guaranteed(turn);
  }
}
