/**
  One batch of the epoll wrapper under what the kernel guarantees: which
  descriptors are open, what a batch can hold, and that accept4 returns a
  number that is not open.  What module Epoll asks of each socket at its turn
  follows from that.
 */
module EpollBatch {
  import opened Internals
  import opened Epoll

  // ----- One event -----

  lemma EventOpen(s: Sock, ev: Event, wakeup: int, interest: set<int>, env: Env, open: set<int>)
    requires Proper(s, wakeup)
    ensures var calls := OnEvent(s, ev, wakeup, interest, env).calls;
      && OpenAfter(open, calls, env) ==
         (if ev.mask != 0 && ev.fd == s.comfd && !s.ready then OpenNext(open, Accept(s.comfd), env)
          else if ev.mask != 0 && ev.fd in s.comfds && Ends(env.recv(ev.fd)) then open - {ev.fd}
          else open)
      && (FreeAccepts(open, calls, env) <==>
            (ev.mask != 0 && ev.fd == s.comfd && !s.ready && env.accept(s.comfd) != -1 ==>
               env.accept(s.comfd) !in open))
  {
    OpenOne(open, Accept(s.comfd), env);
    OpenOne(open, RecvPing(wakeup), env);
    AnswerOpen(open, s, ev.fd, env);
  }

  /** What a socket needs at its turn: its descriptors are open, and no token is a number it may accept. */
  ghost predicate TurnOk(s: Sock, evs: seq<Event>, wakeup: int, env: Env, open: set<int>) {
    && Proper(s, wakeup) && wakeup in open && (forall c :: IsInternal(s, c) ==> c in open)
    && (forall i, j :: 0 <= i < j < |evs| && evs[i].mask != 0 && evs[j].mask != 0 && IsInternal(s, evs[i].fd) ==>
          evs[j].fd != evs[i].fd)
    && (forall i :: 0 <= i < |evs| && evs[i].mask != 0 && evs[i].fd != HANDLED ==>
          evs[i].fd in open || evs[i].fd != env.accept(s.comfd))
  }

  lemma FreshNow(s: Sock, evs: seq<Event>, wakeup: int, interest: set<int>, env: Env, open: set<int>)
    requires evs != [] && TurnOk(s, evs, wakeup, env, open) && Requests(s, evs, 0)
    requires FreeAccepts(open, OnEvent(s, evs[0], wakeup, interest, env).calls, env)
    ensures FreshAccept(s, evs, 0, wakeup, env) && !(env.accept(s.comfd) != -1 && env.accept(s.comfd) in open)
  {
    EventOpen(s, evs[0], wakeup, interest, env, open);
  }

  lemma NowProper(s: Sock, evs: seq<Event>, wakeup: int, interest: set<int>, env: Env, open: set<int>)
    requires evs != [] && TurnOk(s, evs, wakeup, env, open)
    requires FreeAccepts(open, OnEvent(s, evs[0], wakeup, interest, env).calls, env)
    ensures Proper(OnEvent(s, evs[0], wakeup, interest, env).sock, wakeup)
  {
    var ev, t := evs[0], OnEvent(s, evs[0], wakeup, interest, env).sock;
    if ev.mask != 0 && ev.fd == s.comfd && !s.ready {
      assert Requests(s, evs, 0);
      FreshNow(s, evs, wakeup, interest, env, open);
    } else {
      WithoutDistinct(s.comfds, ev.fd);
      forall x ensures x in t.comfds ==> x in s.comfds {
        WithoutIn(s.comfds, ev.fd, x);
      }
    }
  }

  /** After one event the rest of the turn starts as this one did. */
  lemma EventTurn(s: Sock, evs: seq<Event>, wakeup: int, interest: set<int>, env: Env, open: set<int>)
    requires evs != [] && TurnOk(s, evs, wakeup, env, open)
    requires FreeAccepts(open, OnEvent(s, evs[0], wakeup, interest, env).calls, env)
    ensures var one := OnEvent(s, evs[0], wakeup, interest, env);
      TurnOk(one.sock, evs[1..], wakeup, env, OpenAfter(open, one.calls, env))
  {
    var ev, one, rest := evs[0], OnEvent(s, evs[0], wakeup, interest, env), evs[1..];
    var t, next := one.sock, OpenAfter(open, one.calls, env);
    assert forall i :: 0 <= i < |rest| ==> rest[i] == evs[i + 1];
    EventOpen(s, ev, wakeup, interest, env, open);
    NowProper(s, evs, wakeup, interest, env, open);
    EventMembers(s, ev, wakeup, interest, env, 0);
    if Requests(s, evs, 0) {
      FreshNow(s, evs, wakeup, interest, env, open);
    }
    forall c | IsInternal(t, c) ensures c in next {
      EventMembers(s, ev, wakeup, interest, env, c);
      if ev.mask != 0 && ev.fd in s.comfds && Ends(env.recv(ev.fd)) {
        WithoutDistinct(s.comfds, ev.fd);
      }
    }
    forall i, j | 0 <= i < j < |rest| && rest[i].mask != 0 && rest[j].mask != 0 && IsInternal(t, rest[i].fd)
      ensures rest[j].fd != rest[i].fd
    {
      EventMembers(s, ev, wakeup, interest, env, rest[i].fd);
    }
  }

  /** The kernel's guarantee for the first event, and for the others. */
  lemma SplitEvent(s: Sock, evs: seq<Event>, wakeup: int, interest: set<int>, env: Env, open: set<int>)
    requires evs != [] && FreeAccepts(open, OnEvents(s, evs, wakeup, interest, env).calls, env)
    ensures var one := OnEvent(s, evs[0], wakeup, interest, env);
      var rest := OnEvents(one.sock, evs[1..], wakeup, one.interest, env);
      && FreeAccepts(open, one.calls, env) && FreeAccepts(OpenAfter(open, one.calls, env), rest.calls, env)
      && OpenAfter(open, OnEvents(s, evs, wakeup, interest, env).calls, env) ==
         OpenAfter(OpenAfter(open, one.calls, env), rest.calls, env)
  {
    var one := OnEvent(s, evs[0], wakeup, interest, env);
    OpenConcat(open, one.calls, OnEvents(one.sock, evs[1..], wakeup, one.interest, env).calls, env);
  }

  /** A request that comes later was fresh for the socket as it is now, too. */
  lemma FreshEarlier(s: Sock, evs: seq<Event>, wakeup: int, interest: set<int>, env: Env, i: nat)
    requires 0 < i < |evs| && Proper(s, wakeup) && Requests(s, evs, i)
    requires var t := OnEvent(s, evs[0], wakeup, interest, env).sock;
      && Requests(t, evs[1..], i - 1) && FreshAccept(t, evs[1..], i - 1, wakeup, env)
      && t.comfd == s.comfd && t.readyfd == s.readyfd
    requires !(evs[0].mask != 0 && evs[0].fd == s.comfd)
    ensures FreshAccept(s, evs, i, wakeup, env)
  {
    var t, acc, rest := OnEvent(s, evs[0], wakeup, interest, env).sock, env.accept(s.comfd), evs[1..];
    assert forall j :: 0 <= j < |rest| ==> rest[j] == evs[j + 1];
    if acc != -1 {
      EventMembers(s, evs[0], wakeup, interest, env, acc);
      if IsInternal(t, acc) {
        var j :| 0 <= j < i - 1 && rest[j].mask != 0 && rest[j].fd == acc;
        assert evs[j + 1].fd == acc;
        assert ClosedBefore(s, evs, i, env.recv, acc);
      } else if IsInternal(s, acc) {
        assert ClosedBefore(s, evs, i, env.recv, acc);
      }
    }
  }

  /** What module Epoll asks of a socket at its turn. */
  lemma {:induction false} TurnFresh(s: Sock, evs: seq<Event>, wakeup: int, interest: set<int>, env: Env,
                                     open: set<int>)
    requires TurnOk(s, evs, wakeup, env, open)
    requires FreeAccepts(open, OnEvents(s, evs, wakeup, interest, env).calls, env)
    ensures Fresh(s, evs, wakeup, env)
    decreases evs
  {
    if evs != [] {
      var one, rest := OnEvent(s, evs[0], wakeup, interest, env), evs[1..];
      SplitEvent(s, evs, wakeup, interest, env, open);
      EventTurn(s, evs, wakeup, interest, env, open);
      TurnFresh(one.sock, rest, wakeup, one.interest, env, OpenAfter(open, one.calls, env));
      EventMembers(s, evs[0], wakeup, interest, env, 0);
      forall i | 0 <= i < |evs| && Requests(s, evs, i) ensures FreshAccept(s, evs, i, wakeup, env) {
        if i == 0 {
          FreshNow(s, evs, wakeup, interest, env, open);
        } else {
          ReadyShift(s, one.sock, evs, i);
          assert rest[i - 1] == evs[i];
          assert Requests(one.sock, rest, i - 1);
          FreshEarlier(s, evs, wakeup, interest, env, i);
        }
      }
    }
  }

  /** What is open and not the socket's own connection stays open, and is not accepted. */
  lemma {:induction false} TurnNew(s: Sock, evs: seq<Event>, wakeup: int, interest: set<int>, env: Env,
                                   open: set<int>, x: int)
    requires TurnOk(s, evs, wakeup, env, open)
    requires FreeAccepts(open, OnEvents(s, evs, wakeup, interest, env).calls, env)
    ensures var p := OnEvents(s, evs, wakeup, interest, env);
      && (x in open && x !in s.comfds ==> x !in p.sock.comfds && x in OpenAfter(open, p.calls, env))
      && (IsInternal(p.sock, x) ==> x in OpenAfter(open, p.calls, env))
    decreases evs
  {
    if evs != [] {
      var one := OnEvent(s, evs[0], wakeup, interest, env);
      SplitEvent(s, evs, wakeup, interest, env, open);
      EventTurn(s, evs, wakeup, interest, env, open);
      EventOpen(s, evs[0], wakeup, interest, env, open);
      EventMembers(s, evs[0], wakeup, interest, env, x);
      TurnNew(one.sock, evs[1..], wakeup, one.interest, env, OpenAfter(open, one.calls, env), x);
    }
  }

  // ----- One batch, all sockets -----

  /** The descriptor is none of the library's. */
  predicate Outside(socks: seq<Sock>, wakeup: int, x: int) {
    x != wakeup && forall o :: o in socks ==> !IsInternal(o, x)
  }

  /** The library's descriptors are all different, and open. */
  ghost predicate LibraryOk(socks: seq<Sock>, wakeup: int, open: set<int>) {
    AllProper(socks, wakeup) && wakeup in open && forall c :: !Outside(socks, wakeup, c) ==> c in open
  }

  /** The connections that ready is owed on are open, different, and not among them. */
  predicate OwesOk(all: seq<Sock>, socks: seq<Sock>, wakeup: int, open: set<int>) {
    && (forall t :: 0 <= t < |socks| && socks[t].comfdClose > 0 ==>
          socks[t].comfdClose in open && Outside(all, wakeup, socks[t].comfdClose))
    && (forall t, u :: 0 <= t < u < |socks| && socks[t].comfdClose > 0 ==> socks[t].comfdClose != socks[u].comfdClose)
  }

  /** Tokens: those of the sockets to come occur once each, */
  predicate OwnTokens(socks: seq<Sock>, evs: seq<Event>) {
    forall i, j, o ::
      0 <= i < j < |evs| && o in socks && evs[i].mask != 0 && evs[j].mask != 0 && IsInternal(o, evs[i].fd) ==>
      evs[j].fd != evs[i].fd
  }

  /** and the application's are no numbers that the library may accept. */
  predicate UserTokens(all: seq<Sock>, socks: seq<Sock>, evs: seq<Event>, wakeup: int, env: Env) {
    forall i, o ::
      && 0 <= i < |evs| && o in socks && evs[i].mask != 0 && evs[i].fd != HANDLED
      && Outside(all, wakeup, evs[i].fd) ==>
      evs[i].fd != env.accept(o.comfd)
  }

  /** The state in which `socks` are still to be handled, after `done`. */
  ghost predicate BatchOk(done: seq<Sock>, socks: seq<Sock>, evs: seq<Event>, wakeup: int, env: Env, open: set<int>) {
    && LibraryOk(done + socks, wakeup, open)
    && OwesOk(done + socks, socks, wakeup, open)
    && OwnTokens(socks, evs) && UserTokens(done + socks, socks, evs, wakeup, env)
  }

  lemma ReportOpen(open: set<int>, s: Sock, env: Env)
    ensures FreeAccepts(open, Report(s, env), env)
    ensures OpenAfter(open, Report(s, env), env) ==
            if s.comfdClose > 0 && env.sent(s.comfdClose) then open - {s.comfdClose} else open
  {
    if s.comfdClose > 0 {
      OpenOne(open, SendReady(s.comfdClose), env);
      OpenOne(open, Close(s.comfdClose), env);
      OpenConcat(open, [SendReady(s.comfdClose)], [Close(s.comfdClose)], env);
    }
  }

  /** The kernel's guarantee for the first socket's turn, after its report, and for the others. */
  lemma SplitBatch(socks: seq<Sock>, evs: seq<Event>, wakeup: int, interest: set<int>, env: Env, open: set<int>)
    requires socks != [] && FreeAccepts(open, HandleAll(socks, evs, wakeup, interest, env).calls, env)
    ensures var s := socks[0]; var p := HandleBatch(s, evs, wakeup, interest, env);
      var reported := OpenAfter(open, Report(s, env), env);
      var calls := OnEvents(Reported(s), evs, wakeup, interest, env).calls;
      && FreeAccepts(reported, calls, env)
      && OpenAfter(open, p.calls, env) == OpenAfter(reported, calls, env)
      && FreeAccepts(OpenAfter(open, p.calls, env), HandleAll(socks[1..], p.evs, wakeup, p.interest, env).calls, env)
  {
    var s, p := socks[0], HandleBatch(socks[0], evs, wakeup, interest, env);
    OpenConcat(open, p.calls, HandleAll(socks[1..], p.evs, wakeup, p.interest, env).calls, env);
    OpenConcat(open, Report(s, env), OnEvents(Reported(s), evs, wakeup, interest, env).calls, env);
  }

  /** The first socket can take its turn. */
  lemma FirstTurn(done: seq<Sock>, s: Sock, rest: seq<Sock>, evs: seq<Event>, wakeup: int, env: Env, open: set<int>)
    requires BatchOk(done, [s] + rest, evs, wakeup, env, open)
    ensures TurnOk(Reported(s), evs, wakeup, env, OpenAfter(open, Report(s, env), env))
  {
    var all, socks, r, next := done + ([s] + rest), [s] + rest, Reported(s), OpenAfter(open, Report(s, env), env);
    assert all[|done|] == s && socks[0] == s;
    ReportOpen(open, s, env);
    assert Proper(s, wakeup);
    forall c | IsInternal(r, c) ensures c in next {
      assert IsInternal(s, c) && !Outside(all, wakeup, c);
    }
    forall i, j | 0 <= i < j < |evs| && evs[i].mask != 0 && evs[j].mask != 0 && IsInternal(r, evs[i].fd)
      ensures evs[j].fd != evs[i].fd
    {
      assert s in socks && IsInternal(s, evs[i].fd);
    }
    forall i | 0 <= i < |evs| && evs[i].mask != 0 && evs[i].fd != HANDLED
      ensures evs[i].fd in next || evs[i].fd != env.accept(s.comfd)
    {
      if Outside(all, wakeup, evs[i].fd) {
        assert evs[i].fd != env.accept(socks[0].comfd);
      }
    }
  }

  /** What the first socket's turn leaves alone, and what it adds. */
  lemma TurnEffects(done: seq<Sock>, s: Sock, rest: seq<Sock>, evs: seq<Event>, wakeup: int, interest: set<int>,
                    env: Env, open: set<int>, x: int)
    requires BatchOk(done, [s] + rest, evs, wakeup, env, open)
    requires FreeAccepts(open, HandleAll([s] + rest, evs, wakeup, interest, env).calls, env)
    ensures Proper(s, wakeup) && Fresh(s, evs, wakeup, env)
    ensures var p := HandleBatch(s, evs, wakeup, interest, env); var next := OpenAfter(open, p.calls, env);
      && Proper(p.sock, wakeup)
      && (IsInternal(p.sock, x) ==> (IsInternal(s, x) || x in NewConn(s, evs, env)) && x in next)
      && (x in open && x !in s.comfds && (s.comfdClose > 0 ==> x != s.comfdClose) ==>
            x !in NewConn(s, evs, env) && x in next)
  {
    var r, reported := Reported(s), OpenAfter(open, Report(s, env), env);
    assert ([s] + rest)[1..] == rest;
    SplitBatch([s] + rest, evs, wakeup, interest, env, open);
    FirstTurn(done, s, rest, evs, wakeup, env, open);
    ReportOpen(open, s, env);
    TurnFresh(r, evs, wakeup, interest, env, reported);
    SameFresh(r, s, evs, wakeup, env);
    TurnNew(r, evs, wakeup, interest, env, reported, x);
    BatchProper(s, evs, wakeup, interest, env, x);
    BatchMembers(s, evs, wakeup, interest, env);
  }

  lemma Members(done: seq<Sock>, t: Sock, rest: seq<Sock>, o: Sock)
    ensures o in done + [t] + rest <==> o == t || o in done + rest
    ensures done + ([t] + rest) == done + [t] + rest
  {
  }

  /** A descriptor of another socket is open, is none of this one's, and is not what it owes ready on. */
  lemma OtherOpen(done: seq<Sock>, s: Sock, rest: seq<Sock>, wakeup: int, open: set<int>, o: Sock, c: int)
    requires LibraryOk(done + ([s] + rest), wakeup, open) && OwesOk(done + ([s] + rest), [s] + rest, wakeup, open)
    requires o in done + rest && IsInternal(o, c)
    ensures c in open && !IsInternal(s, c) && (s.comfdClose > 0 ==> c != s.comfdClose)
  {
    var all, socks := done + ([s] + rest), [s] + rest;
    assert all[|done|] == s && socks[0] == s;
    Members(done, s, rest, o);
    assert !Outside(all, wakeup, c);
    var i :| 0 <= i < |done + rest| && (done + rest)[i] == o;
    var t := if i < |done| then i else i + 1;
    assert all[t] == o;
    assert if t < |done| then Disjoint(all[t], all[|done|]) else Disjoint(all[|done|], all[t]);
  }

  /** A new connection is none of the other sockets' descriptors. */
  lemma NewIsNobodys(done: seq<Sock>, s: Sock, rest: seq<Sock>, evs: seq<Event>, wakeup: int, interest: set<int>,
                     env: Env, open: set<int>)
    requires BatchOk(done, [s] + rest, evs, wakeup, env, open)
    requires FreeAccepts(open, HandleAll([s] + rest, evs, wakeup, interest, env).calls, env)
    ensures forall c, o :: c in NewConn(s, evs, env) && o in done + rest ==> !IsInternal(o, c)
  {
    forall c, o | c in NewConn(s, evs, env) && o in done + rest ensures !IsInternal(o, c) {
      if IsInternal(o, c) {
        OtherOpen(done, s, rest, wakeup, open, o, c);
        TurnEffects(done, s, rest, evs, wakeup, interest, env, open, c);
      }
    }
  }

  /** The library's descriptors stay different through a turn, */
  lemma TurnProper(done: seq<Sock>, s: Sock, rest: seq<Sock>, evs: seq<Event>, wakeup: int, interest: set<int>,
                   env: Env, open: set<int>)
    requires BatchOk(done, [s] + rest, evs, wakeup, env, open)
    requires FreeAccepts(open, HandleAll([s] + rest, evs, wakeup, interest, env).calls, env)
    ensures AllProper(done + [HandleBatch(s, evs, wakeup, interest, env).sock] + rest, wakeup)
  {
    var t := HandleBatch(s, evs, wakeup, interest, env).sock;
    Members(done, s, rest, s);
    TurnEffects(done, s, rest, evs, wakeup, interest, env, open, wakeup);
    NewIsNobodys(done, s, rest, evs, wakeup, interest, env, open);
    forall x ensures IsInternal(t, x) ==> IsInternal(s, x) || x in NewConn(s, evs, env) {
      TurnEffects(done, s, rest, evs, wakeup, interest, env, open, x);
    }
    ReplaceProper(done, s, t, rest, wakeup, NewConn(s, evs, env));
  }

  /** and open. */
  lemma TurnLibrary(done: seq<Sock>, s: Sock, rest: seq<Sock>, evs: seq<Event>, wakeup: int, interest: set<int>,
                    env: Env, open: set<int>)
    requires BatchOk(done, [s] + rest, evs, wakeup, env, open)
    requires FreeAccepts(open, HandleAll([s] + rest, evs, wakeup, interest, env).calls, env)
    ensures var p := HandleBatch(s, evs, wakeup, interest, env);
      LibraryOk(done + [p.sock] + rest, wakeup, OpenAfter(open, p.calls, env))
  {
    var p := HandleBatch(s, evs, wakeup, interest, env);
    var all', next := done + [p.sock] + rest, OpenAfter(open, p.calls, env);
    TurnProper(done, s, rest, evs, wakeup, interest, env, open);
    forall c | !Outside(all', wakeup, c) ensures c in next {
      StillOpen(done, s, rest, evs, wakeup, interest, env, open, c);
    }
  }

  lemma StillOpen(done: seq<Sock>, s: Sock, rest: seq<Sock>, evs: seq<Event>, wakeup: int, interest: set<int>, env: Env,
                  open: set<int>, c: int)
    requires BatchOk(done, [s] + rest, evs, wakeup, env, open)
    requires FreeAccepts(open, HandleAll([s] + rest, evs, wakeup, interest, env).calls, env)
    requires !Outside(done + [HandleBatch(s, evs, wakeup, interest, env).sock] + rest, wakeup, c)
    ensures c in OpenAfter(open, HandleBatch(s, evs, wakeup, interest, env).calls, env)
  {
    var t, socks := HandleBatch(s, evs, wakeup, interest, env).sock, [s] + rest;
    TurnEffects(done, s, rest, evs, wakeup, interest, env, open, c);
    if c == wakeup {
      assert socks[0] == s;
    } else if !IsInternal(t, c) {
      var o :| o in done + [t] + rest && IsInternal(o, c);
      Members(done, t, rest, o);
      OtherOpen(done, s, rest, wakeup, open, o, c);
    }
  }

  /** The tokens of the rest of the batch are as good as before. */
  lemma TurnOwnTokens(done: seq<Sock>, s: Sock, rest: seq<Sock>, evs: seq<Event>, wakeup: int, interest: set<int>,
                      env: Env, open: set<int>)
    requires BatchOk(done, [s] + rest, evs, wakeup, env, open)
    requires FreeAccepts(open, HandleAll([s] + rest, evs, wakeup, interest, env).calls, env)
    ensures OwnTokens(rest, HandleBatch(s, evs, wakeup, interest, env).evs)
  {
    TurnEffects(done, s, rest, evs, wakeup, interest, env, open, 0);
    BatchMeaning(s, evs, wakeup, interest, env);
    forall o | o in rest ensures !IsInternal(o, HANDLED) && o in [s] + rest {
      RestProper(done, s, rest, wakeup, o);
    }
  }

  lemma RestProper(done: seq<Sock>, s: Sock, rest: seq<Sock>, wakeup: int, o: Sock)
    requires AllProper(done + ([s] + rest), wakeup) && o in rest
    ensures Proper(o, wakeup) && o in [s] + rest
  {
    var all := done + ([s] + rest);
    var t :| 0 <= t < |rest| && rest[t] == o;
    assert all[|done| + 1 + t] == o && ([s] + rest)[t + 1] == o;
  }

  lemma TurnUserTokens(done: seq<Sock>, s: Sock, rest: seq<Sock>, evs: seq<Event>, wakeup: int, interest: set<int>,
                       env: Env, open: set<int>)
    requires BatchOk(done, [s] + rest, evs, wakeup, env, open)
    requires FreeAccepts(open, HandleAll([s] + rest, evs, wakeup, interest, env).calls, env)
    ensures var p := HandleBatch(s, evs, wakeup, interest, env);
      UserTokens(done + [p.sock] + rest, rest, p.evs, wakeup, env)
  {
    var p := HandleBatch(s, evs, wakeup, interest, env);
    TurnEffects(done, s, rest, evs, wakeup, interest, env, open, 0);
    BatchMeaning(s, evs, wakeup, interest, env);
    forall i, o | 0 <= i < |p.evs| && o in rest && p.evs[i].mask != 0 && p.evs[i].fd != HANDLED
                  && Outside(done + [p.sock] + rest, wakeup, p.evs[i].fd)
      ensures p.evs[i].fd != env.accept(o.comfd)
    {
      assert p.evs[i] == evs[i] && !Handles(s, evs, wakeup, i);
      SockFields(s, evs, wakeup, interest, env);
      OutsideBefore(done, s, p.sock, rest, wakeup, evs[i].fd);
      RestProper(done, s, rest, wakeup, o);
    }
  }

  lemma SockFields(s: Sock, evs: seq<Event>, wakeup: int, interest: set<int>, env: Env)
    requires Proper(s, wakeup) && Fresh(s, evs, wakeup, env)
    ensures SameSock(s, HandleBatch(s, evs, wakeup, interest, env).sock)
  {
    BatchInterest(s, evs, wakeup, interest, env, 0);
  }

  lemma OutsideBefore(done: seq<Sock>, s: Sock, t: Sock, rest: seq<Sock>, wakeup: int, x: int)
    requires Outside(done + [t] + rest, wakeup, x) && t.comfd == s.comfd && t.readyfd == s.readyfd && x !in s.comfds
    ensures Outside(done + ([s] + rest), wakeup, x)
  {
    Members(done, t, rest, t);
    forall o | o in done + ([s] + rest) ensures !IsInternal(o, x) {
      Members(done, s, rest, o);
      Members(done, t, rest, o);
    }
  }

  lemma TurnOwes(done: seq<Sock>, s: Sock, rest: seq<Sock>, evs: seq<Event>, wakeup: int, interest: set<int>,
                 env: Env, open: set<int>)
    requires BatchOk(done, [s] + rest, evs, wakeup, env, open)
    requires FreeAccepts(open, HandleAll([s] + rest, evs, wakeup, interest, env).calls, env)
    ensures var p := HandleBatch(s, evs, wakeup, interest, env);
      OwesOk(done + [p.sock] + rest, rest, wakeup, OpenAfter(open, p.calls, env))
  {
    var p, socks := HandleBatch(s, evs, wakeup, interest, env), [s] + rest;
    assert socks[0] == s && forall t :: 0 <= t < |rest| ==> socks[t + 1] == rest[t];
    forall t | 0 <= t < |rest| && rest[t].comfdClose > 0
      ensures rest[t].comfdClose in OpenAfter(open, p.calls, env)
      ensures Outside(done + [p.sock] + rest, wakeup, rest[t].comfdClose)
    {
      assert socks[0].comfdClose > 0 ==> socks[0].comfdClose != socks[t + 1].comfdClose;
      OwedStays(done, s, rest, evs, wakeup, interest, env, open, socks[t + 1].comfdClose);
    }
    forall t, u | 0 <= t < u < |rest| && rest[t].comfdClose > 0 ensures rest[t].comfdClose != rest[u].comfdClose {
      assert socks[t + 1].comfdClose != socks[u + 1].comfdClose;
    }
  }

  lemma OwedStays(done: seq<Sock>, s: Sock, rest: seq<Sock>, evs: seq<Event>, wakeup: int, interest: set<int>, env: Env,
                  open: set<int>, x: int)
    requires BatchOk(done, [s] + rest, evs, wakeup, env, open)
    requires FreeAccepts(open, HandleAll([s] + rest, evs, wakeup, interest, env).calls, env)
    requires x in open && Outside(done + ([s] + rest), wakeup, x) && (s.comfdClose > 0 ==> x != s.comfdClose)
    ensures var p := HandleBatch(s, evs, wakeup, interest, env);
      x in OpenAfter(open, p.calls, env) && Outside(done + [p.sock] + rest, wakeup, x)
  {
    var t := HandleBatch(s, evs, wakeup, interest, env).sock;
    Members(done, s, rest, s);
    TurnEffects(done, s, rest, evs, wakeup, interest, env, open, x);
    forall o | o in done + [t] + rest ensures !IsInternal(o, x) {
      Members(done, t, rest, o);
      Members(done, s, rest, o);
    }
  }

  /** After a turn the rest of the sockets can take theirs. */
  lemma NextTurn(done: seq<Sock>, s: Sock, rest: seq<Sock>, evs: seq<Event>, wakeup: int, interest: set<int>,
                 env: Env, open: set<int>)
    requires BatchOk(done, [s] + rest, evs, wakeup, env, open)
    requires FreeAccepts(open, HandleAll([s] + rest, evs, wakeup, interest, env).calls, env)
    ensures var p := HandleBatch(s, evs, wakeup, interest, env); var next := OpenAfter(open, p.calls, env);
      && BatchOk(done + [p.sock], rest, p.evs, wakeup, env, next)
      && FreeAccepts(next, HandleAll(rest, p.evs, wakeup, p.interest, env).calls, env)
  {
    TurnLibrary(done, s, rest, evs, wakeup, interest, env, open);
    TurnOwnTokens(done, s, rest, evs, wakeup, interest, env, open);
    TurnUserTokens(done, s, rest, evs, wakeup, interest, env, open);
    TurnOwes(done, s, rest, evs, wakeup, interest, env, open);
    SplitBatch([s] + rest, evs, wakeup, interest, env, open);
    assert ([s] + rest)[1..] == rest;
  }

  /** What module Epoll asks of all sockets at their turns. */
  lemma {:induction false} AllTurns(done: seq<Sock>, socks: seq<Sock>, evs: seq<Event>, wakeup: int,
                                    interest: set<int>, env: Env, open: set<int>)
    requires BatchOk(done, socks, evs, wakeup, env, open)
    requires FreeAccepts(open, HandleAll(socks, evs, wakeup, interest, env).calls, env)
    ensures AllFresh(socks, evs, wakeup, interest, env) && AllNew(done, socks, evs, wakeup, interest, env)
    decreases socks
  {
    if socks != [] {
      var s, rest, p := socks[0], socks[1..], HandleBatch(socks[0], evs, wakeup, interest, env);
      assert [s] + rest == socks;
      TurnEffects(done, s, rest, evs, wakeup, interest, env, open, 0);
      NewIsNobodys(done, s, rest, evs, wakeup, interest, env, open);
      NextTurn(done, s, rest, evs, wakeup, interest, env, open);
      AllTurns(done + [p.sock], rest, p.evs, wakeup, p.interest, env, OpenAfter(open, p.calls, env));
    }
  }

  /** An open descriptor of somebody else is not accepted, and stays outside. */
  lemma {:induction false} AllOutside(done: seq<Sock>, socks: seq<Sock>, evs: seq<Event>, wakeup: int,
                                      interest: set<int>, env: Env, open: set<int>, x: int)
    requires BatchOk(done, socks, evs, wakeup, env, open)
    requires FreeAccepts(open, HandleAll(socks, evs, wakeup, interest, env).calls, env)
    requires x in open && Outside(done + socks, wakeup, x)
    requires forall t :: 0 <= t < |socks| && socks[t].comfdClose > 0 ==> x != socks[t].comfdClose
    ensures Outside(done + HandleAll(socks, evs, wakeup, interest, env).socks, wakeup, x)
    decreases socks
  {
    if socks != [] {
      var s, rest, p := socks[0], socks[1..], HandleBatch(socks[0], evs, wakeup, interest, env);
      assert [s] + rest == socks;
      OwedStays(done, s, rest, evs, wakeup, interest, env, open, x);
      NextTurn(done, s, rest, evs, wakeup, interest, env, open);
      AllOutside(done + [p.sock], rest, p.evs, wakeup, p.interest, env, OpenAfter(open, p.calls, env), x);
      Assoc(done, [p.sock], HandleAll(rest, p.evs, wakeup, p.interest, env).socks);
    }
  }

  // ----- What the kernel guarantees of a batch -----

  /**
    A batch as the kernel returns it: at most one event per descriptor; the
    library's registrations carry the descriptor itself, and the application's
    tokens are not -1 and no number of the library's, now or newly accepted.
   */
  predicate Genuine(socks: seq<Sock>, evs: seq<Event>, wakeup: int, env: Env) {
    && (forall i :: 0 <= i < |evs| ==>
          && evs[i].mask != 0 && evs[i].fd != HANDLED
          && (if Outside(socks, wakeup, evs[i].source) then Outside(socks, wakeup, evs[i].fd)
              else evs[i].fd == evs[i].source))
    && (forall i, j :: 0 <= i < j < |evs| ==> evs[i].source != evs[j].source)
    && (forall i, o :: 0 <= i < |evs| && o in socks && Outside(socks, wakeup, evs[i].fd) ==>
          evs[i].fd != env.accept(o.comfd))
  }

  /** The library's descriptors are open, the batch is genuine, and accept4 returns numbers that are not open. */
  ghost predicate KernelBatch(socks: seq<Sock>, evs: seq<Event>, wakeup: int, interest: set<int>, env: Env) {
    && (forall c :: !Outside(socks, wakeup, c) ==> c in env.open) && OwesOk(socks, socks, wakeup, env.open)
    && Genuine(socks, evs, wakeup, env)
    && FreeAccepts(env.open, HandleAll(socks, evs, wakeup, interest, env).calls, env)
  }

  lemma GenuineTokens(socks: seq<Sock>, evs: seq<Event>, wakeup: int, env: Env)
    requires Genuine(socks, evs, wakeup, env)
    ensures OwnTokens(socks, evs) && UserTokens(socks, socks, evs, wakeup, env)
  {
  }

  lemma StartOk(socks: seq<Sock>, evs: seq<Event>, wakeup: int, interest: set<int>, env: Env)
    requires AllProper(socks, wakeup) && KernelBatch(socks, evs, wakeup, interest, env)
    ensures BatchOk([], socks, evs, wakeup, env, env.open)
  {
    assert [] + socks == socks && !Outside(socks, wakeup, wakeup);
    GenuineTokens(socks, evs, wakeup, env);
  }

  lemma StartFresh(socks: seq<Sock>, evs: seq<Event>, wakeup: int, interest: set<int>, env: Env)
    requires AllProper(socks, wakeup) && KernelBatch(socks, evs, wakeup, interest, env)
    ensures AllFresh(socks, evs, wakeup, interest, env) && AllNew([], socks, evs, wakeup, interest, env)
  {
    StartOk(socks, evs, wakeup, interest, env);
    AllTurns([], socks, evs, wakeup, interest, env, env.open);
  }

  /** The library's descriptors are all different again after the batch. */
  lemma ProperAfter(socks: seq<Sock>, evs: seq<Event>, wakeup: int, interest: set<int>, env: Env)
    requires AllProper(socks, wakeup) && KernelBatch(socks, evs, wakeup, interest, env)
    ensures AllProper(HandleAll(socks, evs, wakeup, interest, env).socks, wakeup)
  {
    var after := HandleAll(socks, evs, wakeup, interest, env).socks;
    assert [] + socks == socks && [] + after == after;
    StartFresh(socks, evs, wakeup, interest, env);
    ProperKept([], socks, evs, wakeup, interest, env);
  }

  /** An open descriptor that is none of the library's, and not owed ready on, is none of it afterwards. */
  lemma OutsideAfter(socks: seq<Sock>, evs: seq<Event>, wakeup: int, interest: set<int>, env: Env, x: int)
    requires AllProper(socks, wakeup) && KernelBatch(socks, evs, wakeup, interest, env)
    requires x in env.open && Outside(socks, wakeup, x)
    requires forall t :: 0 <= t < |socks| && socks[t].comfdClose > 0 ==> x != socks[t].comfdClose
    ensures Outside(HandleAll(socks, evs, wakeup, interest, env).socks, wakeup, x)
  {
    var after := HandleAll(socks, evs, wakeup, interest, env).socks;
    assert [] + socks == socks && [] + after == after;
    StartOk(socks, evs, wakeup, interest, env);
    AllOutside([], socks, evs, wakeup, interest, env, env.open, x);
  }

  // ----- Transparency -----

  /** The application gets the kernel's batch, in order, minus the events that a socket handles. */
  lemma Transparency(socks: seq<Sock>, evs: seq<Event>, wakeup: int, interest: set<int>, env: Env)
    requires AllProper(socks, wakeup) && KernelBatch(socks, evs, wakeup, interest, env)
    ensures AfterWait(socks, evs, wakeup, interest, env).evs == Visible(socks, evs, wakeup, 0)
  {
    StartFresh(socks, evs, wakeup, interest, env);
    ExactTransparency(socks, evs, wakeup, interest, env);
  }

  /** The event is a connection request that comes after the readiness of its own socket. */
  predicate LateRequest(socks: seq<Sock>, evs: seq<Event>, i: nat)
    requires i < |evs|
  {
    exists t, j :: 0 <= t < |socks| && 0 <= j < i && evs[i].fd == socks[t].comfd && Announces(socks[t], evs[j])
  }

  /** A request is reported only for a socket that is not ready, and a ping only if there is a socket. */
  lemma ReportedWatched(socks: seq<Sock>, evs: seq<Event>, wakeup: int, interest: set<int>, user: set<int>, env: Env,
                        i: nat)
    requires AllProper(socks, wakeup) && Separate(socks, wakeup, user) && Fits(socks, interest, user)
    requires Genuine(socks, evs, wakeup, env) && i < |evs| && evs[i].source in Prepare(socks, wakeup, interest)
    ensures forall t :: 0 <= t < |socks| && evs[i].fd == socks[t].comfd ==> !socks[t].ready
    ensures evs[i].fd == wakeup ==> socks != []
  {
    InternalWatched(socks, wakeup, interest, user);
    WakeupWatched(socks, wakeup, interest, user);
    forall t | 0 <= t < |socks| && evs[i].fd == socks[t].comfd ensures !socks[t].ready {
      assert Proper(socks[t], wakeup) && socks[t] in socks;
      assert evs[i].source == socks[t].comfd;
    }
  }

  /** Events differ by their source, so that an event is visible if and only if it is not handled. */
  lemma VisibleOnce(socks: seq<Sock>, evs: seq<Event>, wakeup: int, env: Env, i: nat)
    requires Genuine(socks, evs, wakeup, env) && i < |evs|
    ensures evs[i] in Visible(socks, evs, wakeup, 0) <==> !HandledBySome(socks, evs, wakeup, i)
  {
    if evs[i] in Visible(socks, evs, wakeup, 0) {
      var j := VisibleFrom(socks, evs, wakeup, 0, evs[i]);
      assert j == i;
    }
    if !HandledBySome(socks, evs, wakeup, i) {
      VisibleHas(socks, evs, wakeup, 0, i);
    }
  }

  /**
    The exception to transparency.  An event of a descriptor in the interest
    set reaches the application if and only if it is the application's own, or
    it is a connection request that comes after the readiness of its socket in
    the same batch.
   */
  lemma SurvivesIff(socks: seq<Sock>, evs: seq<Event>, wakeup: int, interest: set<int>, user: set<int>, env: Env,
                    i: nat)
    requires AllProper(socks, wakeup) && Separate(socks, wakeup, user) && Fits(socks, interest, user)
    requires KernelBatch(socks, evs, wakeup, Prepare(socks, wakeup, interest), env)
    requires i < |evs| && evs[i].source in Prepare(socks, wakeup, interest)
    ensures evs[i] in AfterWait(socks, evs, wakeup, Prepare(socks, wakeup, interest), env).evs <==>
            Outside(socks, wakeup, evs[i].fd) || LateRequest(socks, evs, i)
  {
    ReportedWatched(socks, evs, wakeup, interest, user, env, i);
    Transparency(socks, evs, wakeup, Prepare(socks, wakeup, interest), env);
    VisibleOnce(socks, evs, wakeup, env, i);
    if t :| 0 <= t < |socks| && IsInternal(socks[t], evs[i].fd) {
      OwnEvents(socks, evs, wakeup, i, t);
      OwnRequest(socks, evs, wakeup, i, t);
    } else if evs[i].fd == wakeup {
      assert Handles(socks[0], evs, wakeup, i);
    }
  }

  lemma OwnRequest(socks: seq<Sock>, evs: seq<Event>, wakeup: int, i: nat, t: nat)
    requires AllProper(socks, wakeup) && i < |evs| && t < |socks| && evs[i].mask != 0
    requires IsInternal(socks[t], evs[i].fd) && (evs[i].fd == socks[t].comfd ==> !socks[t].ready)
    ensures LateRequest(socks, evs, i) <==> !Handles(socks[t], evs, wakeup, i)
    ensures evs[i].fd != wakeup
  {
    assert Proper(socks[t], wakeup);
    forall u | 0 <= u < |socks| && u != t ensures evs[i].fd != socks[u].comfd {
      assert if t < u then Disjoint(socks[t], socks[u]) else Disjoint(socks[u], socks[t]);
    }
  }

  /** A socket that is not ready. */
  const WAITING := Sock(3, 80, [], 4, -1, 5, 6, false)

  lemma OneSocket(x: int)
    ensures Outside([WAITING], 7, x) <==> x != 4 && x != 5 && x != 7
    ensures AllProper([WAITING], 7)
  {
    assert WAITING in [WAITING];
  }

  lemma OneSocketOk(evs: seq<Event>, env: Env)
    requires evs == [Event(5, 1, 5), Event(4, 1, 4)] && env.open == {3, 4, 5, 6, 7}
    ensures LibraryOk([WAITING], 7, env.open) && OwesOk([WAITING], [WAITING], 7, env.open)
    ensures Genuine([WAITING], evs, 7, env)
  {
    forall x ensures Outside([WAITING], 7, x) <==> x != 4 && x != 5 && x != 7 {
      OneSocket(x);
    }
    OneSocket(0);
  }

  lemma PrepareOne(s: Sock, wakeup: int, interest: set<int>)
    ensures Prepare([s], wakeup, interest) == interest + {wakeup} - Dropped(s) + Watched(s)
  {
    assert [s][1..] == [];
  }

  /** A batch with the readiness of a socket and then a request to it: the application gets the request. */
  lemma LateRequestSurvives() returns (socks: seq<Sock>, evs: seq<Event>, env: Env)
    ensures AllProper(socks, 7) && KernelBatch(socks, evs, 7, Prepare(socks, 7, {}), env) && |evs| == 2 && socks != []
    ensures forall i :: 0 <= i < |evs| ==> evs[i].source in Prepare(socks, 7, {})
    ensures LateRequest(socks, evs, 1) && evs[1] in AfterWait(socks, evs, 7, Prepare(socks, 7, {}), env).evs
  {
    socks, evs := [WAITING], [Event(5, 1, 5), Event(4, 1, 4)];
    env := Env(_ => -1, _ => Again, _ => true, {3, 4, 5, 6, 7});
    var prepared := Prepare(socks, 7, {});
    PrepareOne(WAITING, 7, {});
    OneSocketOk(evs, env);
    NoCalls(WAITING, evs, prepared, env);
    assert HandleAll(socks, evs, 7, prepared, env).calls == [];
    assert LateRequest(socks, evs, 1) by {
      assert Announces(socks[0], evs[0]);
    }
    assert Fits(socks, {}, {}) && Separate(socks, 7, {});
    SurvivesIff(socks, evs, 7, {}, {}, env, 1);
  }

  lemma NoCalls(s: Sock, evs: seq<Event>, interest: set<int>, env: Env)
    requires s == Sock(3, 80, [], 4, -1, 5, 6, false) && evs == [Event(5, 1, 5), Event(4, 1, 4)]
    ensures HandleBatch(s, evs, 7, interest, env).calls == []
  {
    var one, rest := OnEvent(s, evs[0], 7, interest, env), evs[1..];
    assert Reported(s) == s && Report(s, env) == [];
    assert rest == [evs[1]] && rest[1..] == [];
    assert OnEvent(one.sock, rest[0], 7, one.interest, env).calls == [];
    assert OnEvents(one.sock, rest, 7, one.interest, env).calls == [];
  }

  // ----- All internal connections of one batch -----

  /** To socket u the two batches look the same. */
  predicate SameFor(u: Sock, evs: seq<Event>, evs': seq<Event>) {
    |evs'| == |evs| && forall i :: 0 <= i < |evs| ==>
      && evs'[i].mask == evs[i].mask
      && (if IsInternal(u, evs[i].fd) then evs'[i] == evs[i] else !IsInternal(u, evs'[i].fd))
  }

  lemma MaskedForOthers(s: Sock, rest: seq<Sock>, evs: seq<Event>, wakeup: int, interest: set<int>, env: Env, u: Sock)
    requires AllProper([s] + rest, wakeup) && Fresh(s, evs, wakeup, env) && u in rest
    ensures SameFor(u, evs, HandleBatch(s, evs, wakeup, interest, env).evs)
  {
    var all := [s] + rest;
    var t :| 0 <= t < |rest| && rest[t] == u;
    assert all[0] == s && all[t + 1] == u;
    assert Proper(all[0], wakeup) && Proper(all[t + 1], wakeup) && Disjoint(all[0], all[t + 1]);
    BatchMeaning(s, evs, wakeup, interest, env);
  }

  lemma SameEvents(u: Sock, evs: seq<Event>, evs': seq<Event>, c: int)
    requires SameFor(u, evs, evs') && IsInternal(u, c)
    ensures HasEvent(evs', c) <==> HasEvent(evs, c)
  {
    if i :| 0 <= i < |evs| && evs[i].mask != 0 && evs[i].fd == c {
      assert evs'[i].fd == c;
    }
    if i :| 0 <= i < |evs| && evs'[i].mask != 0 && evs'[i].fd == c {
      assert evs[i].fd == c;
    }
  }

  /** What a socket accepts and keeps depends on its own events only. */
  lemma SameOutcome(u: Sock, evs: seq<Event>, evs': seq<Event>, env: Env)
    requires SameFor(u, evs, evs')
    ensures NewConn(u, evs', env) == NewConn(u, evs, env)
    ensures Filter(u.comfds, Stays(evs', env.recv)) == Filter(u.comfds, Stays(evs, env.recv))
  {
    forall i | 0 <= i < |u.comfds| ensures Stays(evs', env.recv)(u.comfds[i]) == Stays(evs, env.recv)(u.comfds[i]) {
      SameEvents(u, evs, evs', u.comfds[i]);
    }
    FilterAgrees(u.comfds, Stays(evs', env.recv), Stays(evs, env.recv));
    forall j | 0 <= j < |evs| ensures Announces(u, evs'[j]) == Announces(u, evs[j]) {
    }
    forall i | 0 <= i < |evs| ensures Requests(u, evs', i) == Requests(u, evs, i) {
    }
  }

  /** Socket u, v after the batch, has its list in order, without the connections that ended and with the new one. */
  predicate ListKept(u: Sock, v: Sock, evs: seq<Event>, env: Env) {
    v.comfds == Filter(u.comfds, Stays(evs, env.recv)) + NewConn(u, evs, env)
  }

  predicate ListsKept(socks: seq<Sock>, after: seq<Sock>, evs: seq<Event>, env: Env) {
    |after| == |socks| && forall t :: 0 <= t < |socks| ==> ListKept(socks[t], after[t], evs, env)
  }

  /** What a batch leaves of the connections of all sockets, judged by the batch as it came. */
  lemma {:induction false} AllLists(socks: seq<Sock>, evs: seq<Event>, wakeup: int, interest: set<int>, env: Env)
    requires AllProper(socks, wakeup) && AllFresh(socks, evs, wakeup, interest, env)
    ensures ListsKept(socks, HandleAll(socks, evs, wakeup, interest, env).socks, evs, env)
    decreases socks
  {
    if socks != [] {
      var s, rest, p := socks[0], socks[1..], HandleBatch(socks[0], evs, wakeup, interest, env);
      TailProper(socks, wakeup);
      AllLists(rest, p.evs, wakeup, p.interest, env);
      BatchMembers(s, evs, wakeup, interest, env);
      var later := HandleAll(rest, p.evs, wakeup, p.interest, env).socks;
      LaterLists(s, rest, evs, wakeup, interest, env, later);
      ListsCons(s, p.sock, rest, later, evs, env);
      assert [s] + rest == socks;
    }
  }

  lemma LaterLists(s: Sock, rest: seq<Sock>, evs: seq<Event>, wakeup: int, interest: set<int>, env: Env,
                   later: seq<Sock>)
    requires AllProper([s] + rest, wakeup) && Fresh(s, evs, wakeup, env)
    requires ListsKept(rest, later, HandleBatch(s, evs, wakeup, interest, env).evs, env)
    ensures ListsKept(rest, later, evs, env)
  {
    forall t | 0 <= t < |rest| ensures ListKept(rest[t], later[t], evs, env) {
      assert ListKept(rest[t], later[t], HandleBatch(s, evs, wakeup, interest, env).evs, env);
      LaterList(s, rest, evs, wakeup, interest, env, rest[t], later[t]);
    }
  }

  lemma ListsCons(s: Sock, v: Sock, rest: seq<Sock>, later: seq<Sock>, evs: seq<Event>, env: Env)
    requires ListKept(s, v, evs, env) && ListsKept(rest, later, evs, env)
    ensures ListsKept([s] + rest, [v] + later, evs, env)
  {
    var all, all' := [s] + rest, [v] + later;
    forall t | 0 <= t < |all| ensures ListKept(all[t], all'[t], evs, env) {
      if t > 0 {
        assert ListKept(rest[t - 1], later[t - 1], evs, env);
      }
    }
  }

  lemma LaterList(s: Sock, rest: seq<Sock>, evs: seq<Event>, wakeup: int, interest: set<int>, env: Env, u: Sock,
                  v: Sock)
    requires AllProper([s] + rest, wakeup) && Fresh(s, evs, wakeup, env) && u in rest
    requires ListKept(u, v, HandleBatch(s, evs, wakeup, interest, env).evs, env)
    ensures ListKept(u, v, evs, env)
  {
    MaskedForOthers(s, rest, evs, wakeup, interest, env, u);
    SameOutcome(u, evs, HandleBatch(s, evs, wakeup, interest, env).evs, env);
  }

  /** x is a connection of one of the sockets, and has an event. */
  predicate Pending(socks: seq<Sock>, evs: seq<Event>, x: int) {
    HasEvent(evs, x) && exists o :: o in socks && x in o.comfds
  }

  /** What is pending is pending on the first socket or, in the batch it leaves, on the others. */
  predicate PendingSplit(s: Sock, rest: seq<Sock>, evs: seq<Event>, evs': seq<Event>, x: int) {
    && (Pending([s] + rest, evs, x) <==> (x in s.comfds && HasEvent(evs, x)) || Pending(rest, evs', x))
    && (x in s.comfds ==> !Pending(rest, evs', x))
    && (forall o :: o in rest && x in o.comfds ==> x !in s.comfds && (HasEvent(evs', x) <==> HasEvent(evs, x)))
  }

  lemma PendingStep(s: Sock, rest: seq<Sock>, evs: seq<Event>, wakeup: int, interest: set<int>, env: Env, x: int)
    requires AllProper([s] + rest, wakeup) && Fresh(s, evs, wakeup, env)
    ensures PendingSplit(s, rest, evs, HandleBatch(s, evs, wakeup, interest, env).evs, x)
  {
    var evs', all := HandleBatch(s, evs, wakeup, interest, env).evs, [s] + rest;
    forall o | o in rest && x in o.comfds ensures x !in s.comfds && (HasEvent(evs', x) <==> HasEvent(evs, x)) {
      var t :| 0 <= t < |rest| && rest[t] == o;
      assert all[0] == s && all[t + 1] == o && Disjoint(all[0], all[t + 1]);
      MaskedForOthers(s, rest, evs, wakeup, interest, env, o);
      SameEvents(o, evs, evs', x);
    }
    assert s in [s] + rest && forall o :: o in [s] + rest <==> o == s || o in rest;
  }

  /** What the calls of a batch do on x: a pending connection is read and answered, all else is not touched. */
  predicate ServedAs(calls: seq<Call>, socks: seq<Sock>, evs: seq<Event>, env: Env, x: int) {
    && (!Pending(socks, evs, x) ==> On(calls, x) == [])
    && (forall o :: o in socks && x in o.comfds && HasEvent(evs, x) ==>
          On(calls, x) == [Receive(x)] + Reply(o, x, env.recv(x)))
  }

  lemma ServedCons(s: Sock, rest: seq<Sock>, evs: seq<Event>, evs': seq<Event>, now: seq<Call>, later: seq<Call>,
                   env: Env, x: int)
    requires On(now, x) == if x in s.comfds && HasEvent(evs, x) then [Receive(x)] + Reply(s, x, env.recv(x)) else []
    requires ServedAs(later, rest, evs', env, x) && PendingSplit(s, rest, evs, evs', x)
    ensures ServedAs(now + later, [s] + rest, evs, env, x)
  {
    OnConcat(now, later, x);
    assert forall o :: o in [s] + rest <==> o == s || o in rest;
  }

  lemma {:induction false} AllServed(socks: seq<Sock>, evs: seq<Event>, wakeup: int, interest: set<int>, env: Env,
                                     x: int)
    requires AllProper(socks, wakeup) && AllFresh(socks, evs, wakeup, interest, env)
    requires forall t :: 0 <= t < |socks| ==> socks[t].comfdClose != x
    ensures ServedAs(HandleAll(socks, evs, wakeup, interest, env).calls, socks, evs, env, x)
    decreases socks
  {
    if socks != [] {
      var s, rest, p := socks[0], socks[1..], HandleBatch(socks[0], evs, wakeup, interest, env);
      TailProper(socks, wakeup);
      AllServed(rest, p.evs, wakeup, p.interest, env, x);
      BatchServes(s, evs, wakeup, interest, env, x);
      PendingStep(s, rest, evs, wakeup, interest, env, x);
      ServedCons(s, rest, evs, p.evs, p.calls, HandleAll(rest, p.evs, wakeup, p.interest, env).calls, env, x);
      assert [s] + rest == socks;
    }
  }

  /** What happens to connection x, and to the lists of connections, in one batch. */
  predicate BatchServed(socks: seq<Sock>, h: All, evs: seq<Event>, env: Env, x: int) {
    ListsKept(socks, h.socks, evs, env) && ServedAs(h.calls, socks, evs, env, x)
  }

  /**
    All connections of all sockets in one batch.  Each list keeps its order,
    loses exactly the connections that ended, and gets the new one at its end;
    a connection with an event is read exactly once and answered with the
    public and then the monitor descriptor, or closed exactly once; and nothing
    else is touched.  So an accepted connection is not read, even if its number
    was closed earlier in the batch.
   */
  lemma BatchConnections(socks: seq<Sock>, evs: seq<Event>, wakeup: int, interest: set<int>, env: Env, x: int)
    requires AllProper(socks, wakeup) && KernelBatch(socks, evs, wakeup, interest, env)
    requires forall t :: 0 <= t < |socks| ==> socks[t].comfdClose != x
    ensures BatchServed(socks, HandleAll(socks, evs, wakeup, interest, env), evs, env, x)
  {
    StartFresh(socks, evs, wakeup, interest, env);
    AllLists(socks, evs, wakeup, interest, env);
    AllServed(socks, evs, wakeup, interest, env, x);
  }

  // ----- The interest set -----

  /**
    The interest set after a wait, for any mix of requests, closes and
    readiness in between: the application's own descriptors but the public
    ones of sockets ready at entry, and exactly the latches of the sockets
    still not ready.  No listener, connection or wakeup descriptor remains.
   */
  lemma InterestAfterWait(socks: seq<Sock>, evs: seq<Event>, wakeup: int, interest: set<int>, user: set<int>,
                          env: Env, x: int)
    requires AllProper(socks, wakeup) && KernelBatch(socks, evs, wakeup, Prepare(socks, wakeup, interest), env)
    requires Separate(socks, wakeup, user) && Fits(socks, interest, user) && user <= env.open
    ensures var a := AfterWait(socks, evs, wakeup, Prepare(socks, wakeup, interest), env);
      x in a.interest <==> (x in user && x !in Retired(socks)) || LatchOfWaiting(a.socks, x)
  {
    var prepared := Prepare(socks, wakeup, interest);
    var h := HandleAll(socks, evs, wakeup, prepared, env);
    AroundWait(socks, evs, wakeup, interest, user, env, x);
    CleanupMeaning(h.socks, h.interest - {wakeup}, x);
    if t :| 0 <= t < |socks| && IsInternal(socks[t], x) {
      InternalAfter(socks, h.socks, prepared, h.interest, wakeup, user, env, x, t);
    } else if x == wakeup {
      WakeupAfter(socks, h.socks, prepared, h.interest, wakeup, env);
    } else {
      UserOutside(socks, evs, wakeup, prepared, user, env, x);
      UserAfter(socks, h.socks, prepared, h.interest, wakeup, user, env, x);
    }
  }

  /** Descriptor x in the interest set before and after the wait. */
  lemma AroundWait(socks: seq<Sock>, evs: seq<Event>, wakeup: int, interest: set<int>, user: set<int>, env: Env, x: int)
    requires AllProper(socks, wakeup) && KernelBatch(socks, evs, wakeup, Prepare(socks, wakeup, interest), env)
    requires Separate(socks, wakeup, user) && Fits(socks, interest, user)
    ensures var prepared := Prepare(socks, wakeup, interest); var h := HandleAll(socks, evs, wakeup, prepared, env);
      && (x in prepared <==> (x in user && x !in Retired(socks)) || AddedBySome(socks, wakeup, x))
      && AllAffect(socks, h.socks, prepared, h.interest, env, x)
      && AllProper(h.socks, wakeup)
  {
    var prepared := Prepare(socks, wakeup, interest);
    StartFresh(socks, evs, wakeup, prepared, env);
    ProperAfter(socks, evs, wakeup, prepared, env);
    PreparedSet(socks, wakeup, interest, user, x);
    AllInterest(socks, evs, wakeup, prepared, env, x);
  }

  lemma WakeupAfter(socks: seq<Sock>, after: seq<Sock>, prepared: set<int>, left: set<int>, wakeup: int, env: Env)
    requires AllProper(socks, wakeup) && AllAffect(socks, after, prepared, left, env, wakeup)
    ensures !LatchOfWaiting(after, wakeup)
  {
    forall t | 0 <= t < |socks| ensures after[t].readyfd != wakeup {
      assert Proper(socks[t], wakeup) && SameSock(socks[t], after[t]);
    }
  }

  lemma UserOutside(socks: seq<Sock>, evs: seq<Event>, wakeup: int, prepared: set<int>, user: set<int>, env: Env,
                    x: int)
    requires AllProper(socks, wakeup) && KernelBatch(socks, evs, wakeup, prepared, env)
    requires Separate(socks, wakeup, user) && user <= env.open
    ensures x in user ==> Outside(HandleAll(socks, evs, wakeup, prepared, env).socks, wakeup, x)
  {
    if x in user {
      OutsideAfter(socks, evs, wakeup, prepared, env, x);
    }
  }

  lemma InternalAfter(socks: seq<Sock>, after: seq<Sock>, prepared: set<int>, left: set<int>, wakeup: int,
                      user: set<int>, env: Env, x: int, t: nat)
    requires AllProper(socks, wakeup) && Separate(socks, wakeup, user) && t < |socks| && IsInternal(socks[t], x)
    requires AllProper(after, wakeup) && AllAffect(socks, after, prepared, left, env, x)
    requires x in prepared <==> (x in user && x !in Retired(socks)) || AddedBySome(socks, wakeup, x)
    ensures x !in user && x != wakeup
    ensures (x in left && forall u :: 0 <= u < |after| ==> x != after[u].comfd && x !in after[u].comfds) <==>
            LatchOfWaiting(after, x)
  {
    assert Proper(socks[t], wakeup);
    forall u | 0 <= u < |socks| && u != t ensures !IsInternal(socks[u], x) {
      assert if t < u then Disjoint(socks[t], socks[u]) else Disjoint(socks[u], socks[t]);
    }
    assert SameSock(socks[t], after[t]);
    if x == socks[t].readyfd {
      forall u | 0 <= u < |after| ensures x != after[u].comfd && x !in after[u].comfds {
        assert Proper(after[t], wakeup) && after[t].readyfd == x;
        assert if t < u then Disjoint(after[t], after[u]) else u < t ==> Disjoint(after[u], after[t]);
      }
      assert x in Added(socks[t], wakeup) <==> !socks[t].ready by {
        ElemsIn(socks[t].comfds, x);
      }
      assert AddedBySome(socks, wakeup, x) <==> !socks[t].ready by {
        forall u | 0 <= u < |socks| && u != t ensures x !in Added(socks[u], wakeup) {
          ElemsIn(socks[u].comfds, x);
        }
      }
    }
  }

  lemma UserAfter(socks: seq<Sock>, after: seq<Sock>, prepared: set<int>, left: set<int>, wakeup: int,
                  user: set<int>, env: Env, x: int)
    requires Separate(socks, wakeup, user) && x != wakeup
    requires forall t :: 0 <= t < |socks| ==> !IsInternal(socks[t], x)
    requires AllAffect(socks, after, prepared, left, env, x) && (x in user ==> Outside(after, wakeup, x))
    requires x in prepared <==> (x in user && x !in Retired(socks)) || AddedBySome(socks, wakeup, x)
    ensures (x in left && forall u :: 0 <= u < |after| ==> x != after[u].comfd && x !in after[u].comfds) <==>
            x in user && x !in Retired(socks)
    ensures !LatchOfWaiting(after, x)
  {
    forall t | 0 <= t < |socks| ensures x !in Added(socks[t], wakeup) {
      ElemsIn(socks[t].comfds, x);
    }
    forall t | 0 <= t < |socks| && x in user ensures x != after[t].comfd && x !in after[t].comfds {
      assert SameSock(socks[t], after[t]) && after[t] in after;
    }
  }
}
