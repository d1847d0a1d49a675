/**
  What both event-loop wrappers do with an internal connection, as values: the
  shadow of a bound socket, the kernel's replies during one round, and the
  system calls that a worker makes in answer.
 */
module Internals {

  /** A bound socket and its internal descriptors. */
  datatype Sock = Sock(
    fd: int,
    port: int,
    comfds: seq<int>,
    comfd: int,
    comfdClose: int,
    readyfd: int,
    markreadyfd: int,
    ready: bool)

  /** Outcome of the non-blocking receive of one integer. */
  datatype Recv = Eof | Again | Error | Data(value: int)

  /**
    The kernel's replies in one round: per listening descriptor the result of
    accept4, per connection that of recv, per connection that of send; and the
    descriptors that are open when the round begins.
   */
  datatype Env = Env(accept: int -> int, recv: int -> Recv, sent: int -> bool, open: set<int>)

  datatype Call =
    | Accept(on: int)
    | Receive(on: int)
    | RecvPing(on: int)
    | SendFd(on: int, fd: int, port: int)
    | SendReady(on: int)
    | Mark(on: int)
    | Close(fd: int)

  /** The connection is over: the client hung up, or said that it is ready. */
  predicate Ends(r: Recv) {
    r == Eof || r == Data(1)
  }

  /** What is done on connection c after reading it. */
  function Reply(s: Sock, c: int, r: Recv): seq<Call> {
    match r
    case Eof => [Close(c)]
    case Again => []
    case Error => [SendFd(c, s.fd, -1), SendFd(c, s.comfd, -1)]
    case Data(value) => if value == 1 then [Close(c)] else [SendFd(c, s.fd, s.port), SendFd(c, s.comfd, s.port)]
  }

  /** One read of connection c and what it leads to; the ready message first sets the latch. */
  function Answer(s: Sock, c: int, r: Recv): seq<Call> {
    [Receive(c)] + (if r == Data(1) then [Mark(s.markreadyfd)] else []) + Reply(s, c, r)
  }

  /** A new version reports ready on the connection it inherited over; kept open if the send fails. */
  function Report(s: Sock, env: Env): seq<Call> {
    if s.comfdClose > 0 then
      [SendReady(s.comfdClose)] + if env.sent(s.comfdClose) then [Close(s.comfdClose)] else []
    else []
  }

  function Reported(s: Sock): Sock {
    if s.comfdClose > 0 then s.(comfdClose := -1) else s
  }

  function Identity(x: int): int { x }

  predicate Distinct(s: seq<int>) {
    forall i, j :: 0 <= i < j < |s| ==> s[i] != s[j]
  }

  function Elems(s: seq<int>): set<int> {
    if s == [] then {} else {s[0]} + Elems(s[1..])
  }

  lemma {:induction false} ElemsConcat(xs: seq<int>, ys: seq<int>)
    ensures Elems(xs + ys) == Elems(xs) + Elems(ys)
    decreases xs
  {
    if xs == [] {
      assert xs + ys == ys;
    } else {
      assert (xs + ys)[1..] == xs[1..] + ys;
      ElemsConcat(xs[1..], ys);
    }
  }

  lemma {:induction false} ElemsIn(s: seq<int>, x: int)
    ensures x in Elems(s) <==> x in s
  {
    if s != [] {
      ElemsIn(s[1..], x);
    }
  }

  lemma Assoc<T>(a: seq<T>, b: seq<T>, c: seq<T>)
    ensures a + (b + c) == (a + b) + c
  {
  }

  lemma UpdatePrefix(socks: seq<Sock>, i: nat, s: Sock)
    requires i < |socks|
    ensures socks[i := s][..i + 1] == socks[..i] + [s]
  {
  }

  lemma Minus(b: set<int>, x: set<int>, y: set<int>)
    ensures b - x - y == b - (x + y)
  {
  }

  /** What handling events leaves alone in a socket. */
  predicate SameSock(x: Sock, y: Sock) {
    y == x.(comfds := y.comfds, comfdClose := y.comfdClose, ready := y.ready) && (x.ready ==> y.ready)
  }

  // ----- Open descriptors -----

  /** The descriptors that are open after a call, and after several. */
  function OpenNext(open: set<int>, call: Call, env: Env): set<int> {
    match call
    case Close(fd) => open - {fd}
    case Accept(on) => if env.accept(on) != -1 then open + {env.accept(on)} else open
    case _ => open
  }

  function OpenAfter(open: set<int>, calls: seq<Call>, env: Env): set<int>
    decreases calls
  {
    if calls == [] then open else OpenAfter(OpenNext(open, calls[0], env), calls[1..], env)
  }

  /** What the kernel guarantees of accept4: it returns a number that is not open at that time. */
  predicate FreeAccepts(open: set<int>, calls: seq<Call>, env: Env)
    decreases calls
  {
    calls == [] || (
      && (calls[0].Accept? && env.accept(calls[0].on) != -1 ==> env.accept(calls[0].on) !in open)
      && FreeAccepts(OpenNext(open, calls[0], env), calls[1..], env))
  }

  lemma {:induction false} OpenConcat(open: set<int>, xs: seq<Call>, ys: seq<Call>, env: Env)
    ensures OpenAfter(open, xs + ys, env) == OpenAfter(OpenAfter(open, xs, env), ys, env)
    ensures FreeAccepts(open, xs + ys, env) <==>
            FreeAccepts(open, xs, env) && FreeAccepts(OpenAfter(open, xs, env), ys, env)
    decreases xs
  {
    if xs == [] {
      assert xs + ys == ys;
    } else {
      assert (xs + ys)[1..] == xs[1..] + ys && (xs + ys)[0] == xs[0];
      OpenConcat(OpenNext(open, xs[0], env), xs[1..], ys, env);
    }
  }

  lemma OpenOne(open: set<int>, call: Call, env: Env)
    ensures OpenAfter(open, [call], env) == OpenNext(open, call, env)
    ensures FreeAccepts(open, [call], env) <==>
            (call.Accept? && env.accept(call.on) != -1 ==> env.accept(call.on) !in open)
  {
    assert [call][1..] == [];
  }

  lemma ReplyOpen(open: set<int>, s: Sock, c: int, env: Env)
    ensures FreeAccepts(open, Reply(s, c, env.recv(c)), env)
    ensures OpenAfter(open, Reply(s, c, env.recv(c)), env) == if Ends(env.recv(c)) then open - {c} else open
  {
    var a := Reply(s, c, env.recv(c));
    if |a| == 1 {
      assert a == [a[0]];
      OpenOne(open, a[0], env);
    } else if |a| == 2 {
      assert a == [a[0]] + [a[1]];
      OpenConcat(open, [a[0]], [a[1]], env);
      OpenOne(open, a[0], env);
      OpenOne(open, a[1], env);
    }
  }

  /** Answering a connection closes that connection if it ends, and nothing else. */
  lemma AnswerOpen(open: set<int>, s: Sock, c: int, env: Env)
    ensures FreeAccepts(open, Answer(s, c, env.recv(c)), env)
    ensures OpenAfter(open, Answer(s, c, env.recv(c)), env) == if Ends(env.recv(c)) then open - {c} else open
  {
    var first, reply := [Receive(c)], Reply(s, c, env.recv(c));
    OpenOne(open, Receive(c), env);
    ReplyOpen(open, s, c, env);
    if env.recv(c) == Data(1) {
      OpenOne(open, Mark(s.markreadyfd), env);
      OpenConcat(open, first, [Mark(s.markreadyfd)], env);
      OpenConcat(open, first + [Mark(s.markreadyfd)], reply, env);
    } else {
      OpenConcat(open, first, reply, env);
      assert Answer(s, c, env.recv(c)) == first + [] + reply == first + reply;
    }
  }

  // ----- Internal descriptors -----

  predicate IsInternal(s: Sock, x: int) {
    x == s.comfd || x == s.readyfd || x in s.comfds
  }

  /** The internal descriptors of a socket differ, */
  predicate Sound(s: Sock) {
    && s.comfd != s.readyfd && s.comfd !in s.comfds && s.readyfd !in s.comfds && Distinct(s.comfds)
  }

  /** and differ from those of other sockets. */
  predicate Disjoint(s: Sock, u: Sock) {
    && !IsInternal(u, s.comfd) && !IsInternal(u, s.readyfd)
    && forall c :: c in s.comfds ==> !IsInternal(u, c)
  }

  predicate AllSound(socks: seq<Sock>) {
    && (forall t :: 0 <= t < |socks| ==> Sound(socks[t]))
    && (forall t, u :: 0 <= t < u < |socks| ==> Disjoint(socks[t], socks[u]))
  }

  /** A socket is replaced by one with its own descriptors and others that nobody has. */
  lemma ReplaceSound(done: seq<Sock>, s: Sock, t: Sock, rest: seq<Sock>, added: seq<int>)
    requires AllSound(done + [s] + rest) && Sound(t)
    requires forall x :: IsInternal(t, x) ==> IsInternal(s, x) || x in added
    requires forall c, o :: c in added && o in done + rest ==> !IsInternal(o, c)
    ensures AllSound(done + [t] + rest)
  {
    var all, all' := done + [s] + rest, done + [t] + rest;
    assert forall i :: 0 <= i < |all| && i != |done| ==> all'[i] == all[i] && all[i] in done + rest;
    forall i, j | 0 <= i < j < |all| ensures Disjoint(all'[i], all'[j]) {
      assert Disjoint(all[i], all[j]);
    }
    forall i | 0 <= i < |all| ensures Sound(all'[i]) {
      assert Sound(all[i]);
    }
  }

  /** The internal descriptors of a bound socket. */
  function Internal(s: Sock): set<int> {
    {s.comfd, s.readyfd} + Elems(s.comfds)
  }

  function AllInternal(socks: seq<Sock>): set<int> {
    if socks == [] then {} else Internal(socks[0]) + AllInternal(socks[1..])
  }

  /** The public descriptors of the sockets that a newer version serves. */
  function Retired(socks: seq<Sock>): set<int> {
    set s | s in socks && s.ready :: s.fd
  }

  function Filter(s: seq<int>, keep: int -> bool): seq<int> {
    if s == [] then [] else (if keep(s[0]) then [s[0]] else []) + Filter(s[1..], keep)
  }

  lemma {:induction false} FilterAgrees(list: seq<int>, f: int -> bool, g: int -> bool)
    requires forall i :: 0 <= i < |list| ==> f(list[i]) == g(list[i])
    ensures Filter(list, f) == Filter(list, g)
  {
    if list != [] {
      FilterAgrees(list[1..], f, g);
    }
  }

  lemma {:induction false} FilterIff(list: seq<int>, f: int -> bool, x: int)
    ensures x in Filter(list, f) <==> x in list && f(x)
  {
    if list != [] {
      FilterIff(list[1..], f, x);
    }
  }

  lemma {:induction false} FilterDistinct(list: seq<int>, f: int -> bool)
    requires Distinct(list)
    ensures Distinct(Filter(list, f))
  {
    if list != [] {
      FilterDistinct(list[1..], f);
      FilterIff(list[1..], f, list[0]);
    }
  }

  lemma {:induction false} FilterConcat(xs: seq<int>, ys: seq<int>, f: int -> bool)
    ensures Filter(xs + ys, f) == Filter(xs, f) + Filter(ys, f)
    decreases xs
  {
    if xs == [] {
      assert xs + ys == ys;
    } else {
      assert (xs + ys)[1..] == xs[1..] + ys && (xs + ys)[0] == xs[0];
      FilterConcat(xs[1..], ys, f);
      Assoc(if f(xs[0]) then [xs[0]] else [], Filter(xs[1..], f), Filter(ys, f));
    }
  }

  /** The call concerns connection c. */
  predicate About(call: Call, c: int) {
    match call
    case Receive(on) => on == c
    case SendFd(on, _, _) => on == c
    case Close(fd) => fd == c
    case _ => false
  }

  /** What happens to connection c, in order. */
  function On(calls: seq<Call>, c: int): seq<Call> {
    if calls == [] then [] else (if About(calls[0], c) then [calls[0]] else []) + On(calls[1..], c)
  }

  lemma {:induction false} OnConcat(xs: seq<Call>, ys: seq<Call>, c: int)
    ensures On(xs + ys, c) == On(xs, c) + On(ys, c)
    decreases xs
  {
    if xs == [] {
      assert xs + ys == ys;
    } else {
      assert (xs + ys)[1..] == xs[1..] + ys && (xs + ys)[0] == xs[0];
      OnConcat(xs[1..], ys, c);
      Assoc(if About(xs[0], c) then [xs[0]] else [], On(xs[1..], c), On(ys, c));
    }
  }

  lemma OnOne(call: Call, c: int)
    ensures On([call], c) == if About(call, c) then [call] else []
  {
    assert [call][1..] == [];
  }

  lemma ReplyOn(s: Sock, c: int, r: Recv, x: int)
    ensures On(Reply(s, c, r), x) == if x == c then Reply(s, c, r) else []
  {
    var a := Reply(s, c, r);
    if |a| == 1 {
      OnOne(a[0], x);
      assert a == [a[0]];
    } else if |a| == 2 {
      OnOne(a[0], x);
      OnOne(a[1], x);
      OnConcat([a[0]], [a[1]], x);
      assert a == [a[0]] + [a[1]];
    }
  }

  /** A connection sees its own read and reply, and nothing of the others. */
  lemma AnswerOn(s: Sock, c: int, r: Recv, x: int)
    ensures On(Answer(s, c, r), x) == if x == c then [Receive(c)] + Reply(s, c, r) else []
  {
    var mark := if r == Data(1) then [Mark(s.markreadyfd)] else [];
    OnOne(Receive(c), x);
    if r == Data(1) {
      OnOne(Mark(s.markreadyfd), x);
    }
    ReplyOn(s, c, r, x);
    OnConcat([Receive(c)] + mark, Reply(s, c, r), x);
    OnConcat([Receive(c)], mark, x);
  }

  // ----- Calls in a row -----

  predicate StandsAt(part: seq<Call>, calls: seq<Call>, i: nat) {
    i + |part| <= |calls| && calls[i..i + |part|] == part
  }

  /** The calls in `part` are made one directly after the other. */
  predicate Occurs(part: seq<Call>, calls: seq<Call>) {
    exists i :: 0 <= i <= |calls| && StandsAt(part, calls, i)
  }

  lemma OccursConcat(part: seq<Call>, xs: seq<Call>, ys: seq<Call>)
    ensures Occurs(part, xs) || Occurs(part, ys) ==> Occurs(part, xs + ys)
  {
    if i :| 0 <= i <= |xs| && StandsAt(part, xs, i) {
      assert StandsAt(part, xs + ys, i);
    } else if i :| 0 <= i <= |ys| && StandsAt(part, ys, i) {
      assert StandsAt(part, xs + ys, |xs| + i);
    }
  }

  lemma OccursSelf(calls: seq<Call>)
    ensures Occurs(calls, calls)
  {
    assert StandsAt(calls, calls, 0);
  }

  /**
    What a worker must do on connection c of socket s after reading r: close
    it on a hangup; mark the port as ready and then close it on ready; answer a
    request with the public and then the monitor descriptor, with the port
    beside them, or -1 if the read failed; and nothing if there was nothing.
   */
  predicate AnsweredOn(s: Sock, c: int, r: Recv, calls: seq<Call>) {
    match r
    case Eof => Occurs([Receive(c), Close(c)], calls)
    case Again => Occurs([Receive(c)], calls)
    case Error => Occurs([Receive(c), SendFd(c, s.fd, -1), SendFd(c, s.comfd, -1)], calls)
    case Data(value) =>
      if value == 1 then Occurs([Receive(c), Mark(s.markreadyfd), Close(c)], calls)
      else Occurs([Receive(c), SendFd(c, s.fd, s.port), SendFd(c, s.comfd, s.port)], calls)
  }

  lemma AnswerAnswers(s: Sock, c: int, r: Recv)
    ensures AnsweredOn(s, c, r, Answer(s, c, r))
  {
    OccursSelf(Answer(s, c, r));
    match r
    case Eof => assert Answer(s, c, r) == [Receive(c), Close(c)];
    case Again => assert Answer(s, c, r) == [Receive(c)];
    case Error => assert Answer(s, c, r) == [Receive(c), SendFd(c, s.fd, -1), SendFd(c, s.comfd, -1)];
    case Data(value) =>
      if value == 1 {
        assert Answer(s, c, r) == [Receive(c), Mark(s.markreadyfd), Close(c)];
      } else {
        assert Answer(s, c, r) == [Receive(c), SendFd(c, s.fd, s.port), SendFd(c, s.comfd, s.port)];
      }
  }

  lemma AnsweredConcat(s: Sock, c: int, r: Recv, xs: seq<Call>, ys: seq<Call>)
    requires AnsweredOn(s, c, r, xs) || AnsweredOn(s, c, r, ys)
    ensures AnsweredOn(s, c, r, xs + ys)
  {
    match r
    case Eof => OccursConcat([Receive(c), Close(c)], xs, ys);
    case Again => OccursConcat([Receive(c)], xs, ys);
    case Error => OccursConcat([Receive(c), SendFd(c, s.fd, -1), SendFd(c, s.comfd, -1)], xs, ys);
    case Data(value) =>
      if value == 1 {
        OccursConcat([Receive(c), Mark(s.markreadyfd), Close(c)], xs, ys);
      } else {
        OccursConcat([Receive(c), SendFd(c, s.fd, s.port), SendFd(c, s.comfd, s.port)], xs, ys);
      }
  }

  /** Calls of which a connection's own history says nothing. */
  predicate Elsewhere(call: Call) {
    call.Mark? || call.Accept? || call.RecvPing?
  }

  lemma AnswerElsewhere(s: Sock, c: int, r: Recv, call: Call)
    requires Elsewhere(call)
    ensures multiset(Answer(s, c, r))[call] == if r == Data(1) && call == Mark(s.markreadyfd) then 1 else 0
  {
    AnswerAnswers(s, c, r);
  }

  lemma CountConcat(xs: seq<Call>, ys: seq<Call>, call: Call)
    ensures multiset(xs + ys)[call] == multiset(xs)[call] + multiset(ys)[call]
  {
  }

  /** Ready goes out on connection c, which is closed after it if it was sent. */
  predicate ReportedOn(c: int, env: Env, calls: seq<Call>) {
    if env.sent(c) then Occurs([SendReady(c), Close(c)], calls) else Occurs([SendReady(c)], calls)
  }

  lemma ReportReports(s: Sock, env: Env)
    requires s.comfdClose > 0
    ensures ReportedOn(s.comfdClose, env, Report(s, env))
  {
    var c := s.comfdClose;
    OccursSelf(Report(s, env));
    assert Report(s, env) == if env.sent(c) then [SendReady(c), Close(c)] else [SendReady(c)];
  }

  lemma ReportedConcat(c: int, env: Env, xs: seq<Call>, ys: seq<Call>)
    requires ReportedOn(c, env, xs) || ReportedOn(c, env, ys)
    ensures ReportedOn(c, env, xs + ys)
  {
    OccursConcat([SendReady(c), Close(c)], xs, ys);
    OccursConcat([SendReady(c)], xs, ys);
  }
}
