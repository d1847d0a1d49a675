/**
  The wrapper around select().

  It adds the internal descriptors to the application's read set, handles what
  arrives on them, takes their bits out again, corrects the count, and calls
  the kernel anew when only internal traffic arrived.  Descriptor sets are sets
  of integers.  The specification below follows the wrapper pass by pass; the
  methods of class Wrapper are proved against it, and the lemmas say what it
  means for the application.
 */
module Select {
  import opened ShadowLists
  import opened Internals
  import opened Options

  // ----- Specification -----

  /** Result of a pass: what is left, how many bits it cleared, and its system calls. */
  datatype Walked = Walked(comfds: seq<int>, bits: set<int>, count: int, calls: seq<Call>)
  datatype One = One(sock: Sock, bits: set<int>, count: int, calls: seq<Call>)
  datatype All = All(socks: seq<Sock>, bits: set<int>, count: int, calls: seq<Call>)

  /** The walk over the internal connections of a socket. */
  function Walk(s: Sock, list: seq<int>, bits: set<int>, recv: int -> Recv): Walked {
    if list == [] then Walked([], bits, 0, [])
    else
      var c := list[0];
      if c in bits then
        var rest := Walk(s, list[1..], bits - {c}, recv);
        Walked((if Ends(recv(c)) then [] else [c]) + rest.comfds, rest.bits, 1 + rest.count,
               Answer(s, c, recv(c)) + rest.calls)
      else
        var rest := Walk(s, list[1..], bits, recv);
        Walked([c] + rest.comfds, rest.bits, rest.count, rest.calls)
  }

  /** A connection request, then the walk. */
  function Handle(s: Sock, bits: set<int>, env: Env): One {
    var asked := s.comfd in bits;
    var w := Walk(s, s.comfds + NewConn(s, bits, env), bits - {s.comfd}, env.recv);
    One(s.(comfds := w.comfds), w.bits, (if asked then 1 else 0) + w.count,
        (if asked then [Accept(s.comfd)] else []) + w.calls)
  }

  /** The connection that a socket accepts when its listener bit is set. */
  function NewConn(s: Sock, bits: set<int>, env: Env): seq<int> {
    if s.comfd in bits && env.accept(s.comfd) != -1 then [env.accept(s.comfd)] else []
  }

  /** The readiness latch, the retired public descriptor, and the report of a new version. */
  function Post(s: Sock, bits: set<int>, env: Env): One {
    var s1 := if s.readyfd in bits then s.(ready := true) else s;
    var bits1 := bits - {s.readyfd};
    var bits2 := if s1.ready then bits1 - {s.fd} else bits1;
    var count := (if s.readyfd in bits then 1 else 0) + (if s1.ready && s.fd in bits1 then 1 else 0);
    if s.fd in bits2 then One(Reported(s1), bits2, count, Report(s1, env)) else One(s1, bits2, count, [])
  }

  function HandleAll(socks: seq<Sock>, bits: set<int>, env: Env): All {
    if socks == [] then All([], bits, 0, [])
    else
      var one := Handle(socks[0], bits, env);
      var rest := HandleAll(socks[1..], one.bits, env);
      All([one.sock] + rest.socks, rest.bits, one.count + rest.count, one.calls + rest.calls)
  }

  function PostAll(socks: seq<Sock>, bits: set<int>, env: Env): All {
    if socks == [] then All([], bits, 0, [])
    else
      var one := Post(socks[0], bits, env);
      var rest := PostAll(socks[1..], one.bits, env);
      All([one.sock] + rest.socks, rest.bits, one.count + rest.count, one.calls + rest.calls)
  }

  /** Both passes over all bound sockets. */
  function Round(socks: seq<Sock>, bits: set<int>, env: Env): All {
    var h := HandleAll(socks, bits, env);
    var p := PostAll(h.socks, h.bits, env);
    All(p.socks, p.bits, h.count + p.count, h.calls + p.calls)
  }

  /** The descriptors the wrapper adds for a socket. */
  function Watched(s: Sock): set<int> {
    (if s.ready then {} else {s.comfd, s.readyfd}) + Elems(s.comfds)
  }

  function AllWatched(socks: seq<Sock>): set<int> {
    if socks == [] then {} else Watched(socks[0]) + AllWatched(socks[1..])
  }

  // ----- What the passes mean -----

  lemma {:induction false} WalkMeaning(s: Sock, list: seq<int>, bits: set<int>, recv: int -> Recv)
    ensures var w := Walk(s, list, bits, recv);
      && w.bits == bits - Elems(list)
      && w.count == |bits| - |w.bits|
    decreases list
  {
    if list != [] {
      var c, rest := list[0], Elems(list[1..]);
      Minus(bits, {c}, rest);
      if c in bits {
        WalkMeaning(s, list[1..], bits - {c}, recv);
        assert |bits - {c}| == |bits| - 1;
      } else {
        WalkMeaning(s, list[1..], bits, recv);
        assert bits - {c} == bits;
      }
    }
  }

  /** The listener and the open connections of a socket. */
  function Own(s: Sock): set<int> {
    {s.comfd} + Elems(s.comfds)
  }

  lemma HandleMeaning(s: Sock, bits: set<int>, env: Env)
    ensures var one := Handle(s, bits, env);
      && one.bits == bits - Own(s) - Elems(NewConn(s, bits, env))
      && one.sock == s.(comfds := one.sock.comfds)
  {
    var added := NewConn(s, bits, env);
    WalkMeaning(s, s.comfds + added, bits - {s.comfd}, env.recv);
    ElemsConcat(s.comfds, added);
    Minus(bits, {s.comfd}, Elems(s.comfds) + Elems(added));
    Minus(bits, Own(s), Elems(added));
    assert {s.comfd} + (Elems(s.comfds) + Elems(added)) == Own(s) + Elems(added);
  }

  lemma HandleCount(s: Sock, bits: set<int>, env: Env)
    ensures var one := Handle(s, bits, env); one.count == |bits| - |one.bits|
  {
    WalkMeaning(s, s.comfds + NewConn(s, bits, env), bits - {s.comfd}, env.recv);
    if s.comfd in bits {
      assert |bits - {s.comfd}| == |bits| - 1;
    } else {
      assert bits - {s.comfd} == bits;
    }
  }

  lemma PostMeaning(s: Sock, bits: set<int>, env: Env)
    ensures var one := Post(s, bits, env);
      && one.sock.ready == (s.ready || s.readyfd in bits)
      && one.bits == bits - {s.readyfd} - (if one.sock.ready then {s.fd} else {})
      && one.count == |bits| - |one.bits|
      && one.sock == s.(ready := one.sock.ready, comfdClose := one.sock.comfdClose)
  {
    var bits1 := bits - {s.readyfd};
    if s.readyfd in bits {
      assert |bits1| == |bits| - 1;
    } else {
      assert bits1 == bits;
    }
    if s.fd in bits1 {
      assert |bits1 - {s.fd}| == |bits1| - 1;
    } else {
      assert bits1 - {s.fd} == bits1;
    }
  }

  /**
    A new version reports ready in exactly those returns that leave its public
    descriptor in the read set, and then owes nothing any more.
   */
  lemma ReportIff(s: Sock, bits: set<int>, env: Env, c: int)
    ensures var one := Post(s, bits, env);
      && (SendReady(c) in one.calls <==> c > 0 && c == s.comfdClose && s.fd in one.bits)
      && (Close(c) in one.calls <==> SendReady(c) in one.calls && env.sent(c))
      && one.sock.comfdClose == (if SendReady(s.comfdClose) in one.calls then -1 else s.comfdClose)
  {
    var s1 := if s.readyfd in bits then s.(ready := true) else s;
    if s.comfdClose > 0 {
      assert Report(s1, env)[0] == SendReady(s.comfdClose);
      if env.sent(s.comfdClose) {
        assert Report(s1, env)[1] == Close(s.comfdClose);
      }
    }
  }

  /** Connections accepted in a round: by the sockets whose listener bit is still set at their turn. */
  function Accepted(socks: seq<Sock>, bits: set<int>, env: Env): set<int> {
    if socks == [] then {}
    else Elems(NewConn(socks[0], bits, env)) + Accepted(socks[1..], Handle(socks[0], bits, env).bits, env)
  }

  predicate SameSocks(xs: seq<Sock>, ys: seq<Sock>) {
    |ys| == |xs| && forall i :: 0 <= i < |xs| ==> SameSock(xs[i], ys[i])
  }

  /** Listeners and open connections of all sockets. */
  function Handled(socks: seq<Sock>): set<int> {
    if socks == [] then {} else Own(socks[0]) + Handled(socks[1..])
  }

  function Latches(socks: seq<Sock>): set<int> {
    if socks == [] then {} else {socks[0].readyfd} + Latches(socks[1..])
  }

  lemma Peel(b: set<int>, h: set<int>, a: set<int>, hs: set<int>, as': set<int>)
    ensures b - h - a - hs - as' == b - (h + hs) - (a + as')
  {
  }

  lemma {:induction false} HandleAllBits(socks: seq<Sock>, bits: set<int>, env: Env)
    ensures var h := HandleAll(socks, bits, env);
      && h.bits == bits - Handled(socks) - Accepted(socks, bits, env)
      && h.count == |bits| - |h.bits|
    decreases socks
  {
    if socks != [] {
      var s, one := socks[0], Handle(socks[0], bits, env);
      HandleMeaning(s, bits, env);
      HandleCount(s, bits, env);
      HandleAllBits(socks[1..], one.bits, env);
      Peel(bits, Own(s), Elems(NewConn(s, bits, env)), Handled(socks[1..]), Accepted(socks[1..], one.bits, env));
    }
  }

  lemma SameCons(x: Sock, y: Sock, xs: seq<Sock>, ys: seq<Sock>)
    requires SameSock(x, y) && SameSocks(xs, ys)
    ensures SameSocks([x] + xs, [y] + ys)
  {
  }

  /** The first pass changes only the lists of internal connections. */
  lemma {:induction false} HandleAllSocks(socks: seq<Sock>, bits: set<int>, env: Env)
    ensures SameSocks(socks, HandleAll(socks, bits, env).socks)
    decreases socks
  {
    if socks != [] {
      var one := Handle(socks[0], bits, env);
      HandleMeaning(socks[0], bits, env);
      HandleAllSocks(socks[1..], one.bits, env);
      SameCons(socks[0], one.sock, socks[1..], HandleAll(socks[1..], one.bits, env).socks);
      assert [socks[0]] + socks[1..] == socks;
    }
  }

  lemma {:induction false} SameLatches(xs: seq<Sock>, ys: seq<Sock>)
    requires SameSocks(xs, ys)
    ensures Latches(ys) == Latches(xs)
  {
    if xs != [] {
      assert SameSock(xs[0], ys[0]);
      SameLatches(xs[1..], ys[1..]);
    }
  }

  lemma RetiredStep(s: Sock, rest: seq<Sock>)
    ensures Retired([s] + rest) == (if s.ready then {s.fd} else {}) + Retired(rest)
  {
    assert forall x :: x in [s] + rest <==> x == s || x in rest;
  }

  lemma {:induction false} PostAllBits(socks: seq<Sock>, bits: set<int>, env: Env)
    ensures var p := PostAll(socks, bits, env);
      && p.bits == bits - Latches(socks) - Retired(p.socks)
      && p.count == |bits| - |p.bits|
    decreases socks
  {
    if socks != [] {
      var s, one := socks[0], Post(socks[0], bits, env);
      PostMeaning(s, bits, env);
      PostAllBits(socks[1..], one.bits, env);
      var rest := PostAll(socks[1..], one.bits, env).socks;
      RetiredStep(one.sock, rest);
      var own := if one.sock.ready then {s.fd} else {};
      Peel(bits, {s.readyfd}, own, Latches(socks[1..]), Retired(rest));
    }
  }

  lemma {:induction false} PostAllSocks(socks: seq<Sock>, bits: set<int>, env: Env)
    ensures SameSocks(socks, PostAll(socks, bits, env).socks)
    decreases socks
  {
    if socks != [] {
      PostMeaning(socks[0], bits, env);
      PostAllSocks(socks[1..], Post(socks[0], bits, env).bits, env);
    }
  }

  lemma {:induction false} InternalSplit(socks: seq<Sock>)
    ensures AllInternal(socks) == Handled(socks) + Latches(socks)
    ensures AllWatched(socks) <= AllInternal(socks)
  {
    if socks != [] {
      InternalSplit(socks[1..]);
    }
  }

  /**
    One round, whatever the kernel reports: the bits left are those reported
    minus every internal descriptor and the public descriptors of the sockets
    that are ready by then.
   */
  lemma RoundMeaning(socks: seq<Sock>, bits: set<int>, env: Env)
    ensures var o := Round(socks, bits, env);
      o.bits == bits - AllInternal(socks) - Accepted(socks, bits, env) - Retired(o.socks)
  {
    var h := HandleAll(socks, bits, env);
    HandleAllBits(socks, bits, env);
    HandleAllSocks(socks, bits, env);
    SameLatches(socks, h.socks);
    PostAllBits(h.socks, h.bits, env);
    InternalSplit(socks);
    Peel(bits, Handled(socks), Accepted(socks, bits, env), Latches(socks), {});
  }

  /** Each bit that a round takes out is counted once. */
  lemma RoundCount(socks: seq<Sock>, bits: set<int>, env: Env)
    ensures var o := Round(socks, bits, env); o.count == |bits| - |o.bits|
  {
    var h := HandleAll(socks, bits, env);
    HandleAllBits(socks, bits, env);
    PostAllBits(h.socks, h.bits, env);
  }

  /** A round changes only the connections, what is owed to the previous version, and readiness, which stays. */
  lemma RoundSocks(socks: seq<Sock>, bits: set<int>, env: Env)
    ensures SameSocks(socks, Round(socks, bits, env).socks)
  {
    var h := HandleAll(socks, bits, env);
    HandleAllSocks(socks, bits, env);
    PostAllSocks(h.socks, h.bits, env);
    SameTrans(socks, h.socks, PostAll(h.socks, h.bits, env).socks);
  }

  lemma SameTrans(xs: seq<Sock>, ys: seq<Sock>, zs: seq<Sock>)
    requires SameSocks(xs, ys) && SameSocks(ys, zs)
    ensures SameSocks(xs, zs)
  {
    forall i | 0 <= i < |xs| ensures SameSock(xs[i], zs[i]) {
      assert SameSock(xs[i], ys[i]) && SameSock(ys[i], zs[i]);
    }
  }

  lemma {:induction false} WalkSubset(s: Sock, list: seq<int>, bits: set<int>, recv: int -> Recv)
    ensures Elems(Walk(s, list, bits, recv).comfds) <= Elems(list)
    decreases list
  {
    if list != [] {
      var c, later := list[0], if list[0] in bits then bits - {list[0]} else bits;
      var kept := if c in bits && Ends(recv(c)) then [] else [c];
      WalkSubset(s, list[1..], later, recv);
      ElemsConcat(kept, Walk(s, list[1..], later, recv).comfds);
      assert Elems(kept) <= {c};
    }
  }

  lemma {:induction false} HandleAllInternal(socks: seq<Sock>, bits: set<int>, env: Env)
    ensures AllInternal(HandleAll(socks, bits, env).socks) <= AllInternal(socks) + Accepted(socks, bits, env)
    decreases socks
  {
    if socks != [] {
      var s, one := socks[0], Handle(socks[0], bits, env);
      HandleMeaning(s, bits, env);
      WalkSubset(s, s.comfds + NewConn(s, bits, env), bits - {s.comfd}, env.recv);
      ElemsConcat(s.comfds, NewConn(s, bits, env));
      HandleAllInternal(socks[1..], one.bits, env);
    }
  }

  lemma {:induction false} PostAllInternal(socks: seq<Sock>, bits: set<int>, env: Env)
    ensures AllInternal(PostAll(socks, bits, env).socks) == AllInternal(socks)
    decreases socks
  {
    if socks != [] {
      PostMeaning(socks[0], bits, env);
      PostAllInternal(socks[1..], Post(socks[0], bits, env).bits, env);
    }
  }

  /** A round brings in no internal descriptor but the connections it accepts. */
  lemma RoundInternal(socks: seq<Sock>, bits: set<int>, env: Env)
    ensures AllInternal(Round(socks, bits, env).socks) <= AllInternal(socks) + Accepted(socks, bits, env)
  {
    var h := HandleAll(socks, bits, env);
    HandleAllInternal(socks, bits, env);
    PostAllInternal(h.socks, h.bits, env);
  }

  // ----- The internal connections of one round -----

  /** Connection c stays: it had no traffic, or the traffic did not end it. */
  function Stays(bits: set<int>, recv: int -> Recv): int -> bool {
    c => !(c in bits && Ends(recv(c)))
  }

  /** The list that the walk leaves, although it removes nodes as it goes. */
  lemma {:induction false} WalkKeeps(s: Sock, list: seq<int>, bits: set<int>, recv: int -> Recv)
    requires Distinct(list)
    ensures Walk(s, list, bits, recv).comfds == Filter(list, Stays(bits, recv))
    decreases list
  {
    if list != [] {
      var c := list[0];
      if c in bits {
        WalkKeeps(s, list[1..], bits - {c}, recv);
        FilterAgrees(list[1..], Stays(bits - {c}, recv), Stays(bits, recv));
      } else {
        WalkKeeps(s, list[1..], bits, recv);
      }
    }
  }

  /** What the walk does on each connection. */
  lemma {:induction false} WalkServes(s: Sock, list: seq<int>, bits: set<int>, recv: int -> Recv, x: int)
    requires Distinct(list)
    ensures On(Walk(s, list, bits, recv).calls, x) ==
            if x in list && x in bits then [Receive(x)] + Reply(s, x, recv(x)) else []
    decreases list
  {
    if list != [] {
      var c := list[0];
      if c in bits {
        WalkServes(s, list[1..], bits - {c}, recv, x);
        OnConcat(Answer(s, c, recv(c)), Walk(s, list[1..], bits - {c}, recv).calls, x);
        AnswerOn(s, c, recv(c), x);
      } else {
        WalkServes(s, list[1..], bits, recv, x);
      }
    }
  }

  /**
    One socket's connections in a round.  Those with traffic are read exactly
    once and answered with the public and then the monitor descriptor, or
    closed exactly once; the list keeps its order, loses exactly those that
    ended, and gets the new connection at its end, which is not read.  The
    accepted number only has to be free of pending traffic, so it may be one
    that was closed earlier in the round.
   */
  lemma ConnectionsOfRound(s: Sock, bits: set<int>, env: Env, x: int)
    requires Distinct(s.comfds + NewConn(s, bits, env)) && s.comfd !in s.comfds + NewConn(s, bits, env)
    requires forall c :: c in NewConn(s, bits, env) ==> c !in bits
    ensures var one := Handle(s, bits, env);
      && one.sock.comfds == Filter(s.comfds, Stays(bits, env.recv)) + NewConn(s, bits, env)
      && On(one.calls, x) == if x in s.comfds && x in bits then [Receive(x)] + Reply(s, x, env.recv(x)) else []
  {
    var new' := NewConn(s, bits, env);
    var list, rest := s.comfds + new', bits - {s.comfd};
    WalkKeeps(s, list, rest, env.recv);
    FilterAgrees(list, Stays(rest, env.recv), Stays(bits, env.recv));
    FilterConcat(s.comfds, new', Stays(bits, env.recv));
    WalkServes(s, list, rest, env.recv, x);
    OnConcat(if s.comfd in bits then [Accept(s.comfd)] else [], Walk(s, list, rest, env.recv).calls, x);
  }

  // ----- All internal connections of one round -----

  /** The walk accepts nothing, and closes the connections that end and nothing else. */
  lemma {:induction false} WalkOpen(s: Sock, list: seq<int>, bits: set<int>, env: Env, open: set<int>, x: int)
    ensures var calls := Walk(s, list, bits, env.recv).calls;
      && FreeAccepts(open, calls, env)
      && (x in OpenAfter(open, calls, env) <==> x in open && !(x in list && x in bits && Ends(env.recv(x))))
    decreases list
  {
    if list != [] {
      var c := list[0];
      if c in bits {
        var next := if Ends(env.recv(c)) then open - {c} else open;
        var later := Walk(s, list[1..], bits - {c}, env.recv).calls;
        AnswerOpen(open, s, c, env);
        OpenConcat(open, Answer(s, c, env.recv(c)), later, env);
        WalkOpen(s, list[1..], bits - {c}, env, next, x);
      } else {
        WalkOpen(s, list[1..], bits, env, open, x);
      }
    }
  }

  /**
    One socket's turn, when everything it watches is open: the connection it
    accepts is a number that was not open, and so has no pending traffic, and
    is not its own; what is reported of the others stays open.
   */
  lemma HandleOpen(s: Sock, bits: set<int>, env: Env, open: set<int>, x: int)
    requires FreeAccepts(open, Handle(s, bits, env).calls, env)
    ensures var one, new' := Handle(s, bits, env), NewConn(s, bits, env);
      && (x in new' ==> x !in open)
      && (x in open && (x !in s.comfds || x in one.bits) ==> x in OpenAfter(open, one.calls, env))
  {
    var new' := NewConn(s, bits, env);
    var list, asked := s.comfds + new', if s.comfd in bits then [Accept(s.comfd)] else [];
    var w := Walk(s, list, bits - {s.comfd}, env.recv);
    OpenConcat(open, asked, w.calls, env);
    OpenOne(open, Accept(s.comfd), env);
    WalkOpen(s, list, bits - {s.comfd}, env, OpenAfter(open, asked, env), x);
    WalkMeaning(s, list, bits - {s.comfd}, env.recv);
    ElemsIn(list, x);
  }

  /** Nothing is reported, and nothing is an internal descriptor, that is not open. */
  ghost predicate AllOpen(socks: seq<Sock>, bits: set<int>, open: set<int>) {
    bits <= open && forall t, c :: 0 <= t < |socks| && IsInternal(socks[t], c) ==> c in open
  }

  /** After a socket's turn the same holds for the sockets to come, and their bits are untouched. */
  lemma TurnOpen(socks: seq<Sock>, bits: set<int>, env: Env, open: set<int>)
    requires socks != [] && AllSound(socks) && AllOpen(socks, bits, open)
    requires FreeAccepts(open, Handle(socks[0], bits, env).calls, env)
    ensures var one := Handle(socks[0], bits, env);
      && AllOpen(socks[1..], one.bits, OpenAfter(open, one.calls, env))
      && forall t, c :: 0 < t < |socks| && IsInternal(socks[t], c) ==> (c in one.bits <==> c in bits)
  {
    var s, one, rest := socks[0], Handle(socks[0], bits, env), socks[1..];
    HandleMeaning(s, bits, env);
    forall c | c in one.bits ensures c in OpenAfter(open, one.calls, env) {
      HandleOpen(s, bits, env, open, c);
    }
    forall t, c | 0 < t < |socks| && IsInternal(socks[t], c)
      ensures c in OpenAfter(open, one.calls, env) && (c in one.bits <==> c in bits)
    {
      assert Disjoint(socks[0], socks[t]);
      HandleOpen(s, bits, env, open, c);
      ElemsIn(s.comfds, c);
      ElemsIn(NewConn(s, bits, env), c);
    }
    assert forall t :: 0 <= t < |rest| ==> rest[t] == socks[t + 1];
  }

  /** What the kernel's guarantee says of the first socket's turn, and of the others'. */
  lemma SplitAccepts(socks: seq<Sock>, bits: set<int>, env: Env, open: set<int>)
    requires socks != [] && FreeAccepts(open, HandleAll(socks, bits, env).calls, env)
    ensures var one := Handle(socks[0], bits, env);
      && FreeAccepts(open, one.calls, env)
      && FreeAccepts(OpenAfter(open, one.calls, env), HandleAll(socks[1..], one.bits, env).calls, env)
  {
    var one := Handle(socks[0], bits, env);
    OpenConcat(open, one.calls, HandleAll(socks[1..], one.bits, env).calls, env);
  }

  lemma TailSound(socks: seq<Sock>)
    requires socks != [] && AllSound(socks)
    ensures AllSound(socks[1..]) && Sound(socks[0])
  {
    var rest := socks[1..];
    forall t, u | 0 <= t < u < |rest| ensures Disjoint(rest[t], rest[u]) {
      assert Disjoint(socks[t + 1], socks[u + 1]);
    }
    forall t | 0 <= t < |rest| ensures Sound(rest[t]) {
      assert Sound(socks[t + 1]);
    }
  }

  /** What a socket accepts and keeps depends on the bits of its own descriptors. */
  lemma OwnBits(s: Sock, bits: set<int>, bits': set<int>, env: Env)
    requires forall c :: IsInternal(s, c) ==> (c in bits' <==> c in bits)
    ensures NewConn(s, bits', env) == NewConn(s, bits, env)
    ensures Filter(s.comfds, Stays(bits', env.recv)) == Filter(s.comfds, Stays(bits, env.recv))
  {
    forall i | 0 <= i < |s.comfds| ensures Stays(bits', env.recv)(s.comfds[i]) == Stays(bits, env.recv)(s.comfds[i]) {
      assert IsInternal(s, s.comfds[i]);
    }
    FilterAgrees(s.comfds, Stays(bits', env.recv), Stays(bits, env.recv));
  }

  /** What the first pass leaves of the connections of socket t, judged by what was reported. */
  lemma {:induction false} AllLists(socks: seq<Sock>, bits: set<int>, env: Env, open: set<int>, t: nat)
    requires AllSound(socks) && AllOpen(socks, bits, open) && t < |socks|
    requires FreeAccepts(open, HandleAll(socks, bits, env).calls, env)
    ensures var after := HandleAll(socks, bits, env).socks;
      && |after| == |socks|
      && after[t].comfds == Filter(socks[t].comfds, Stays(bits, env.recv)) + NewConn(socks[t], bits, env)
    decreases socks
  {
    var s, one, rest := socks[0], Handle(socks[0], bits, env), socks[1..];
    SplitAccepts(socks, bits, env, open);
    TurnOpen(socks, bits, env, open);
    TailSound(socks);
    HandleAllSocks(rest, one.bits, env);
    if t == 0 {
      NewIsFree(s, bits, env, open);
      ConnectionsOfRound(s, bits, env, 0);
    } else {
      AllLists(rest, one.bits, env, OpenAfter(open, one.calls, env), t - 1);
      OwnBits(socks[t], bits, one.bits, env);
    }
  }

  /** A new connection is none of the socket's descriptors, and nothing is pending on it. */
  lemma NewIsFree(s: Sock, bits: set<int>, env: Env, open: set<int>)
    requires Sound(s) && bits <= open && FreeAccepts(open, Handle(s, bits, env).calls, env)
    requires forall c :: IsInternal(s, c) ==> c in open
    ensures Distinct(s.comfds + NewConn(s, bits, env)) && s.comfd !in s.comfds + NewConn(s, bits, env)
    ensures forall c :: c in NewConn(s, bits, env) ==> c !in bits && c !in open
  {
    forall c | c in NewConn(s, bits, env) ensures c !in open {
      HandleOpen(s, bits, env, open, c);
    }
  }

  /** After its turn a socket's descriptors are sound, all open, and none but its own and the new one. */
  lemma TurnSound(s: Sock, bits: set<int>, env: Env, open: set<int>)
    requires Sound(s) && bits <= open && FreeAccepts(open, Handle(s, bits, env).calls, env)
    requires forall c :: IsInternal(s, c) ==> c in open
    ensures var one := Handle(s, bits, env);
      && Sound(one.sock)
      && forall c :: IsInternal(one.sock, c) ==>
           (IsInternal(s, c) || c in NewConn(s, bits, env)) && c in OpenAfter(open, one.calls, env)
  {
    var one, new' := Handle(s, bits, env), NewConn(s, bits, env);
    NewIsFree(s, bits, env, open);
    HandleMeaning(s, bits, env);
    ConnectionsOfRound(s, bits, env, 0);
    FilterDistinct(s.comfds, Stays(bits, env.recv));
    var kept := Filter(s.comfds, Stays(bits, env.recv));
    forall c ensures c in kept ==> c in s.comfds {
      FilterIff(s.comfds, Stays(bits, env.recv), c);
    }
    DistinctConcat(kept, new');
    forall c | IsInternal(one.sock, c) ensures c in OpenAfter(open, one.calls, env) {
      KeptOpen(s, bits, env, open, c);
    }
  }

  lemma DistinctConcat(xs: seq<int>, ys: seq<int>)
    requires Distinct(xs) && |ys| <= 1 && forall x :: x in xs ==> x !in ys
    ensures Distinct(xs + ys)
  {
    var all := xs + ys;
    forall i, j | 0 <= i < j < |all| ensures all[i] != all[j] {
      if j == |xs| {
        assert all[i] == xs[i] && all[j] in ys;
      }
    }
  }

  lemma KeptOpen(s: Sock, bits: set<int>, env: Env, open: set<int>, c: int)
    requires Sound(s) && bits <= open && FreeAccepts(open, Handle(s, bits, env).calls, env)
    requires forall x :: IsInternal(s, x) ==> x in open
    requires IsInternal(Handle(s, bits, env).sock, c)
    ensures c in OpenAfter(open, Handle(s, bits, env).calls, env)
  {
    var new' := NewConn(s, bits, env);
    var list, asked := s.comfds + new', if s.comfd in bits then [Accept(s.comfd)] else [];
    NewIsFree(s, bits, env, open);
    HandleMeaning(s, bits, env);
    ConnectionsOfRound(s, bits, env, 0);
    FilterIff(s.comfds, Stays(bits, env.recv), c);
    OpenConcat(open, asked, Walk(s, list, bits - {s.comfd}, env.recv).calls, env);
    OpenOne(open, Accept(s.comfd), env);
    WalkOpen(s, list, bits - {s.comfd}, env, OpenAfter(open, asked, env), c);
  }

  /** A socket's turn keeps all of the library's descriptors different, */
  lemma TurnKeepsSound(done: seq<Sock>, s: Sock, rest: seq<Sock>, bits: set<int>, env: Env, open: set<int>)
    requires AllSound(done + [s] + rest) && AllOpen(done + [s] + rest, bits, open)
    requires FreeAccepts(open, Handle(s, bits, env).calls, env)
    ensures AllSound(done + [Handle(s, bits, env).sock] + rest)
  {
    var all, added := done + [s] + rest, NewConn(s, bits, env);
    assert all[|done|] == s;
    TurnSound(s, bits, env, open);
    NewIsFree(s, bits, env, open);
    forall c, o | c in added && o in done + rest ensures !IsInternal(o, c) {
      assert o in all;
    }
    ReplaceSound(done, s, Handle(s, bits, env).sock, rest, added);
  }

  /** and so does the first pass. */
  lemma {:induction false} SoundKept(done: seq<Sock>, socks: seq<Sock>, bits: set<int>, env: Env, open: set<int>)
    requires AllSound(done + socks) && AllOpen(done + socks, bits, open)
    requires FreeAccepts(open, HandleAll(socks, bits, env).calls, env)
    ensures AllSound(done + HandleAll(socks, bits, env).socks)
    decreases socks
  {
    if socks != [] {
      var s, rest, one := socks[0], socks[1..], Handle(socks[0], bits, env);
      assert [s] + rest == socks;
      Assoc(done, [s], rest);
      SplitAccepts(socks, bits, env, open);
      TurnKeepsSound(done, s, rest, bits, env, open);
      OthersOpen(done, s, rest, bits, env, open);
      SoundKept(done + [one.sock], rest, one.bits, env, OpenAfter(open, one.calls, env));
      Assoc(done, [one.sock], HandleAll(rest, one.bits, env).socks);
    }
  }

  lemma OthersOpen(done: seq<Sock>, s: Sock, rest: seq<Sock>, bits: set<int>, env: Env, open: set<int>)
    requires AllSound(done + [s] + rest) && AllOpen(done + [s] + rest, bits, open)
    requires FreeAccepts(open, Handle(s, bits, env).calls, env)
    ensures var one := Handle(s, bits, env);
      AllOpen(done + [one.sock] + rest, one.bits, OpenAfter(open, one.calls, env))
  {
    var all, one := done + [s] + rest, Handle(s, bits, env);
    var all', next := done + [one.sock] + rest, OpenAfter(open, one.calls, env);
    assert all[|done|] == s && forall i :: 0 <= i < |all| && i != |done| ==> all'[i] == all[i];
    TurnSound(s, bits, env, open);
    HandleMeaning(s, bits, env);
    forall c | c in one.bits ensures c in next {
      HandleOpen(s, bits, env, open, c);
    }
    forall t, c | 0 <= t < |all| && IsInternal(all'[t], c) ensures c in next {
      if t != |done| {
        assert if t < |done| then Disjoint(all[t], all[|done|]) else Disjoint(all[|done|], all[t]);
        HandleOpen(s, bits, env, open, c);
      }
    }
  }

  /** A connection of one of the sockets, with traffic reported. */
  predicate Pending(socks: seq<Sock>, bits: set<int>, x: int) {
    x in bits && exists t :: 0 <= t < |socks| && x in socks[t].comfds
  }

  /** What the calls of a pass do on x: a pending connection is read and answered, all else is not touched. */
  predicate ServedAs(calls: seq<Call>, socks: seq<Sock>, bits: set<int>, env: Env, x: int) {
    && (!Pending(socks, bits, x) ==> On(calls, x) == [])
    && (forall t :: 0 <= t < |socks| && x in socks[t].comfds && x in bits ==>
          On(calls, x) == [Receive(x)] + Reply(socks[t], x, env.recv(x)))
  }

  /** What is pending is pending on the first socket or, in the bits it leaves, on the others. */
  predicate PendingSplit(s: Sock, rest: seq<Sock>, bits: set<int>, bits': set<int>, x: int) {
    && (Pending([s] + rest, bits, x) <==> (x in s.comfds && x in bits) || Pending(rest, bits', x))
    && (x in s.comfds ==> !Pending(rest, bits', x))
    && (forall t :: 0 <= t < |rest| && x in rest[t].comfds ==> x !in s.comfds && (x in bits' <==> x in bits))
  }

  lemma ServedCons(s: Sock, rest: seq<Sock>, bits: set<int>, bits': set<int>, now: seq<Call>, later: seq<Call>,
                   env: Env, x: int)
    requires On(now, x) == if x in s.comfds && x in bits then [Receive(x)] + Reply(s, x, env.recv(x)) else []
    requires ServedAs(later, rest, bits', env, x) && PendingSplit(s, rest, bits, bits', x)
    ensures ServedAs(now + later, [s] + rest, bits, env, x)
  {
    OnConcat(now, later, x);
    assert forall t :: 0 < t < |[s] + rest| ==> ([s] + rest)[t] == rest[t - 1];
  }

  lemma FirstServed(s: Sock, rest: seq<Sock>, bits: set<int>, env: Env, open: set<int>, x: int)
    requires AllSound([s] + rest) && AllOpen([s] + rest, bits, open)
    requires FreeAccepts(open, Handle(s, bits, env).calls, env)
    ensures var one := Handle(s, bits, env);
      && On(one.calls, x) == (if x in s.comfds && x in bits then [Receive(x)] + Reply(s, x, env.recv(x)) else [])
      && PendingSplit(s, rest, bits, one.bits, x)
  {
    var all := [s] + rest;
    assert all[0] == s && all[1..] == rest;
    TurnOpen(all, bits, env, open);
    TailSound(all);
    NewIsFree(s, bits, env, open);
    ConnectionsOfRound(s, bits, env, x);
    HandleMeaning(s, bits, env);
    PendingStep(s, rest, bits, Handle(s, bits, env).bits, x);
  }

  /** What is done on x in the first pass: connections that are not pending, new ones too, are not touched. */
  lemma {:induction false} AllServed(socks: seq<Sock>, bits: set<int>, env: Env, open: set<int>, x: int)
    requires AllSound(socks) && AllOpen(socks, bits, open)
    requires FreeAccepts(open, HandleAll(socks, bits, env).calls, env)
    ensures ServedAs(HandleAll(socks, bits, env).calls, socks, bits, env, x)
    decreases socks
  {
    if socks != [] {
      var s, one, rest := socks[0], Handle(socks[0], bits, env), socks[1..];
      assert [s] + rest == socks;
      SplitAccepts(socks, bits, env, open);
      TurnOpen(socks, bits, env, open);
      TailSound(socks);
      AllServed(rest, one.bits, env, OpenAfter(open, one.calls, env), x);
      FirstServed(s, rest, bits, env, open, x);
      ServedCons(s, rest, bits, one.bits, one.calls, HandleAll(rest, one.bits, env).calls, env, x);
    }
  }

  lemma PendingStep(s: Sock, rest: seq<Sock>, bits: set<int>, bits': set<int>, x: int)
    requires AllSound([s] + rest) && bits' <= bits
    requires forall t, c :: 0 <= t < |rest| && IsInternal(rest[t], c) ==> (c in bits' <==> c in bits)
    ensures PendingSplit(s, rest, bits, bits', x)
  {
    var all := [s] + rest;
    assert all[0] == s && forall t :: 0 <= t < |rest| ==> all[t + 1] == rest[t];
    forall t | 0 <= t < |rest| && x in rest[t].comfds ensures x !in s.comfds && (x in bits' <==> x in bits) {
      assert Disjoint(all[0], all[t + 1]) && IsInternal(rest[t], x);
    }
    if Pending(all, bits, x) {
      var t :| 0 <= t < |all| && x in all[t].comfds;
      assert t == 0 || x in rest[t - 1].comfds;
    }
  }

  /** The second pass touches no connection but those that ready is reported on. */
  lemma {:induction false} PostAllOn(socks: seq<Sock>, bits: set<int>, env: Env, x: int)
    requires forall t :: 0 <= t < |socks| ==> socks[t].comfdClose != x
    ensures On(PostAll(socks, bits, env).calls, x) == []
    decreases socks
  {
    if socks != [] {
      var s, one := socks[0], Post(socks[0], bits, env);
      var s1 := if s.readyfd in bits then s.(ready := true) else s;
      PostAllOn(socks[1..], one.bits, env, x);
      OnConcat(one.calls, PostAll(socks[1..], one.bits, env).calls, x);
      ReportOn(s1, env, x);
    }
  }

  lemma ReportOn(s: Sock, env: Env, x: int)
    requires s.comfdClose != x
    ensures On(Report(s, env), x) == []
  {
    if s.comfdClose > 0 {
      OnOne(SendReady(s.comfdClose), x);
      OnOne(Close(s.comfdClose), x);
      OnConcat([SendReady(s.comfdClose)], [Close(s.comfdClose)], x);
    }
  }

  /** What happens to connection x, and to the lists of connections, in one round. */
  predicate RoundServed(socks: seq<Sock>, bits: set<int>, env: Env, o: All, x: int) {
    && |o.socks| == |socks|
    && (forall t :: 0 <= t < |socks| ==>
          var c := env.accept(socks[t].comfd);
          o.socks[t].comfds == Filter(socks[t].comfds, Stays(bits, env.recv)) +
                               (if socks[t].comfd in bits && c != -1 then [c] else []))
    && ServedAs(o.calls, socks, bits, env, x)
  }

  /**
    All connections of all sockets in one round.  When the library's
    descriptors and all that is reported are open, and accept4 returns numbers
    that are not open at the time: each list keeps its order, loses exactly
    the connections that ended, and gets the new one at its end; a connection
    with traffic is read exactly once and answered with the public and then the
    monitor descriptor, or closed exactly once; and nothing else is touched.
    So an accepted connection is not read, even if its number was closed
    earlier in the round: all that happens on that number is what happens on
    the connection that ended.
   */
  lemma RoundConnections(socks: seq<Sock>, bits: set<int>, env: Env, x: int)
    requires AllSound(socks) && AllOpen(socks, bits, env.open)
    requires FreeAccepts(env.open, Round(socks, bits, env).calls, env)
    requires forall t :: 0 <= t < |socks| ==> socks[t].comfdClose != x
    ensures RoundServed(socks, bits, env, Round(socks, bits, env), x)
  {
    var h := HandleAll(socks, bits, env);
    var p := PostAll(h.socks, h.bits, env);
    OpenConcat(env.open, h.calls, p.calls, env);
    HandleAllSocks(socks, bits, env);
    PostAllLists(h.socks, h.bits, env);
    forall t | 0 <= t < |socks|
      ensures p.socks[t].comfds == Filter(socks[t].comfds, Stays(bits, env.recv)) + NewConn(socks[t], bits, env)
    {
      AllLists(socks, bits, env, env.open, t);
    }
    AllServed(socks, bits, env, env.open, x);
    HandleAllOwed(socks, bits, env);
    PostAllOn(h.socks, h.bits, env, x);
    OnConcat(h.calls, p.calls, x);
  }

  /** And they are all different again after the round. */
  lemma RoundSound(socks: seq<Sock>, bits: set<int>, env: Env)
    requires AllSound(socks) && AllOpen(socks, bits, env.open)
    requires FreeAccepts(env.open, Round(socks, bits, env).calls, env)
    ensures AllSound(Round(socks, bits, env).socks)
  {
    var h := HandleAll(socks, bits, env);
    var p := PostAll(h.socks, h.bits, env);
    OpenConcat(env.open, h.calls, p.calls, env);
    assert [] + socks == socks && [] + h.socks == h.socks;
    SoundKept([], socks, bits, env, env.open);
    PostAllSocks(h.socks, h.bits, env);
    PostAllLists(h.socks, h.bits, env);
    SameSound(h.socks, p.socks);
  }

  lemma SameSound(xs: seq<Sock>, ys: seq<Sock>)
    requires SameSocks(xs, ys) && AllSound(xs) && forall t :: 0 <= t < |xs| ==> ys[t].comfds == xs[t].comfds
    ensures AllSound(ys)
  {
    forall t | 0 <= t < |xs| ensures Sound(ys[t]) {
      assert SameSock(xs[t], ys[t]) && Sound(xs[t]);
    }
    forall t, u | 0 <= t < u < |xs| ensures Disjoint(ys[t], ys[u]) {
      assert SameSock(xs[t], ys[t]) && SameSock(xs[u], ys[u]) && Disjoint(xs[t], xs[u]);
    }
  }

  lemma {:induction false} HandleAllOwed(socks: seq<Sock>, bits: set<int>, env: Env)
    ensures var h := HandleAll(socks, bits, env);
      |h.socks| == |socks| && forall t :: 0 <= t < |socks| ==> h.socks[t].comfdClose == socks[t].comfdClose
    decreases socks
  {
    if socks != [] {
      HandleMeaning(socks[0], bits, env);
      HandleAllOwed(socks[1..], Handle(socks[0], bits, env).bits, env);
    }
  }

  lemma {:induction false} PostAllLists(socks: seq<Sock>, bits: set<int>, env: Env)
    ensures var p := PostAll(socks, bits, env);
      |p.socks| == |socks| && forall t :: 0 <= t < |socks| ==> p.socks[t].comfds == socks[t].comfds
    decreases socks
  {
    if socks != [] {
      PostMeaning(socks[0], bits, env);
      PostAllLists(socks[1..], Post(socks[0], bits, env).bits, env);
    }
  }

  // ----- Whole calls -----

  datatype Sets = Sets(r: set<int>, w: set<int>, e: set<int>)

  /** One return of the kernel's select: an error, or what is ready at that time. */
  datatype Kernel =
    | Failure
    | Reports(ready: Sets, env: Env)

  /** How a call ends, after `used` returns of the kernel; without a result it is still waiting. */
  datatype Outcome = Outcome(socks: seq<Sock>, sets: Sets, result: Option<int>, used: nat)

  function Larger(n: int, fd: int): int { if n < fd + 1 then fd + 1 else n }

  function RaiseOver(n: int, list: seq<int>): int
    decreases list
  {
    if list == [] then n else RaiseOver(Larger(n, list[0]), list[1..])
  }

  function Raise(n: int, s: Sock): int {
    RaiseOver(if s.ready then n else Larger(Larger(n, s.comfd), s.readyfd), s.comfds)
  }

  function RaiseAll(n: int, socks: seq<Sock>): int
    decreases socks
  {
    if socks == [] then n else RaiseAll(Raise(n, socks[0]), socks[1..])
  }

  function Below(s: set<int>, n: int): set<int> {
    set x | x in s && 0 <= x < n
  }

  /** The kernel's select: of the bits asked for below n, those that are ready. */
  function KernelSelect(n: int, asked: Sets, ready: Sets): Sets {
    Sets(Below(asked.r * ready.r, n), Below(asked.w * ready.w, n), Below(asked.e * ready.e, n))
  }

  function Size(s: Sets): nat { |s.r| + |s.w| + |s.e| }

  /** What is asked of the kernel; without a read set the wrapper adds nothing. */
  function Asked(socks: seq<Sock>, hasRead: bool, user: Sets): Sets {
    if hasRead then user.(r := user.r + AllWatched(socks)) else user
  }

  function Bound(socks: seq<Sock>, hasRead: bool, n: int): int {
    if hasRead then RaiseAll(n, socks) else n
  }

  /** Sockets and sets after handling one return, and the corrected count. */
  function AfterReturn(socks: seq<Sock>, hasRead: bool, out: Sets, env: Env): (seq<Sock>, Sets, int) {
    if hasRead then
      var o := Round(socks, out.r, env);
      (o.socks, out.(r := o.bits), Size(out) - o.count)
    else (socks, out, Size(out))
  }

  function Selected(socks: seq<Sock>, hasRead: bool, n: int, user: Sets, forever: bool, rounds: seq<Kernel>): Outcome
    decreases rounds
  {
    var asked := Asked(socks, hasRead, user);
    if rounds == [] then Outcome(socks, asked, None, 0)
    else if rounds[0].Failure? then Outcome(socks, asked, Some(-1), 1)
    else
      var out := KernelSelect(Bound(socks, hasRead, n), asked, rounds[0].ready);
      var (socks', sets', result) := AfterReturn(socks, hasRead, out, rounds[0].env);
      if result == 0 && forever then
        var o := Selected(socks', hasRead, n, user, forever, rounds[1..]);
        o.(used := o.used + 1)
      else Outcome(socks', sets', Some(result), 1)
  }

  predicate Within(s: set<int>, n: int) {
    forall x :: x in s ==> 0 <= x < n
  }

  /** The application's bits lie below n. */
  predicate InRange(user: Sets, n: int) {
    Within(user.r, n) && Within(user.w, n) && Within(user.e, n)
  }

  /**
    What the kernel guarantees of a call with a read set: what the application
    asks for is open at each return, and accept4 returns numbers that are not.
   */
  predicate KernelOk(socks: seq<Sock>, n: int, user: Sets, rounds: seq<Kernel>)
    decreases rounds
  {
    rounds == [] || rounds[0].Failure? || (
      var env := rounds[0].env;
      var out := KernelSelect(Bound(socks, true, n), Asked(socks, true, user), rounds[0].ready);
      && user.r <= env.open && FreeAccepts(env.open, Round(socks, out.r, env).calls, env)
      && KernelOk(Round(socks, out.r, env).socks, n, user, rounds[1..]))
  }

  /** An open descriptor that is none of the library's is not accepted again. */
  lemma {:induction false} AcceptedNew(socks: seq<Sock>, bits: set<int>, env: Env, open: set<int>, x: int)
    requires FreeAccepts(open, HandleAll(socks, bits, env).calls, env) && x in open && x !in AllInternal(socks)
    ensures x !in Accepted(socks, bits, env)
    decreases socks
  {
    if socks != [] {
      var s, one := socks[0], Handle(socks[0], bits, env);
      SplitAccepts(socks, bits, env, open);
      HandleOpen(s, bits, env, open, x);
      ElemsIn(s.comfds, x);
      ElemsIn(NewConn(s, bits, env), x);
      AcceptedNew(socks[1..], one.bits, env, OpenAfter(open, one.calls, env), x);
    }
  }

  lemma UserNotAccepted(socks: seq<Sock>, bits: set<int>, user: set<int>, env: Env)
    requires user !! AllInternal(socks) && user <= env.open && FreeAccepts(env.open, Round(socks, bits, env).calls, env)
    ensures user !! Accepted(socks, bits, env)
  {
    var h := HandleAll(socks, bits, env);
    OpenConcat(env.open, h.calls, PostAll(h.socks, h.bits, env).calls, env);
    forall x | x in user ensures x !in Accepted(socks, bits, env) {
      AcceptedNew(socks, bits, env, env.open, x);
    }
  }

  lemma {:induction false} RaiseGrows(n: int, list: seq<int>)
    ensures n <= RaiseOver(n, list)
    decreases list
  {
    if list != [] {
      RaiseGrows(Larger(n, list[0]), list[1..]);
    }
  }

  lemma {:induction false} RaiseAllGrows(n: int, socks: seq<Sock>)
    ensures n <= RaiseAll(n, socks)
    decreases socks
  {
    if socks != [] {
      var s := socks[0];
      RaiseGrows(if s.ready then n else Larger(Larger(n, s.comfd), s.readyfd), s.comfds);
      RaiseAllGrows(Raise(n, s), socks[1..]);
    }
  }

  /** The kernel's answer within the application's own sets. */
  function Answered(user: Sets, ready: Sets): Sets {
    Sets(user.r * ready.r, user.w * ready.w, user.e * ready.e)
  }

  /**
    What the application is to see: a descriptor is reported if and only if it
    was asked for and is ready, except that in the read set the public
    descriptors of sockets served elsewhere are left out.
   */
  ghost predicate SeenAs(sets: Sets, socks: seq<Sock>, hasRead: bool, user: Sets, ready: Sets) {
    && (forall x :: x in sets.r <==> x in user.r && x in ready.r && !(hasRead && x in Retired(socks)))
    && (forall x :: x in sets.w <==> x in user.w && x in ready.w)
    && (forall x :: x in sets.e <==> x in user.e && x in ready.e)
  }

  lemma KernelAnswers(socks: seq<Sock>, hasRead: bool, n: int, user: Sets, ready: Sets)
    requires InRange(user, n)
    ensures var out := KernelSelect(Bound(socks, hasRead, n), Asked(socks, hasRead, user), ready);
      && out.w == user.w * ready.w && out.e == user.e * ready.e
      && user.r * out.r == user.r * ready.r && out.r <= user.r + AllWatched(socks)
      && (!hasRead ==> out == Answered(user, ready))
  {
    RaiseAllGrows(n, socks);
    var m := Bound(socks, hasRead, n);
    BelowAll(user.r * ready.r, n, m);
    BelowAll(user.w * ready.w, n, m);
    BelowAll(user.e * ready.e, n, m);
  }

  lemma BelowAll(s: set<int>, n: int, m: int)
    requires Within(s, n) && n <= m
    ensures Below(s, m) == s
  {
  }

  /** The count that is returned is the number of bits left, unconditionally. */
  lemma CountConserved(socks: seq<Sock>, hasRead: bool, out: Sets, env: Env)
    ensures var (_, sets, result) := AfterReturn(socks, hasRead, out, env); result == Size(sets)
  {
    RoundCount(socks, out.r, env);
  }

  /** One return, seen by the application. */
  lemma ReturnRefines(socks: seq<Sock>, hasRead: bool, n: int, user: Sets, ready: Sets, env: Env)
    requires InRange(user, n) && user.r !! AllInternal(socks)
    requires var out := KernelSelect(Bound(socks, hasRead, n), Asked(socks, hasRead, user), ready);
      hasRead ==> user.r !! Accepted(socks, out.r, env)
    ensures var out := KernelSelect(Bound(socks, hasRead, n), Asked(socks, hasRead, user), ready);
      var (socks', sets, _) := AfterReturn(socks, hasRead, out, env);
      SeenAs(sets, socks', hasRead, user, ready)
  {
    var out := KernelSelect(Bound(socks, hasRead, n), Asked(socks, hasRead, user), ready);
    KernelAnswers(socks, hasRead, n, user, ready);
    if hasRead {
      RoundMeaning(socks, out.r, env);
      InternalSplit(socks);
      var retired := Retired(Round(socks, out.r, env).socks);
      OnlyUserBits(user.r, ready.r, out.r, AllInternal(socks), Accepted(socks, out.r, env), retired);
    }
  }

  /** The application's set stays apart from the library's descriptors, and readiness is not taken back. */
  lemma ReturnKeeps(socks: seq<Sock>, hasRead: bool, user: Sets, out: Sets, env: Env)
    requires user.r !! AllInternal(socks) && (hasRead ==> user.r !! Accepted(socks, out.r, env))
    ensures var socks' := AfterReturn(socks, hasRead, out, env).0;
      SameSocks(socks, socks') && user.r !! AllInternal(socks')
  {
    if hasRead {
      RoundSocks(socks, out.r, env);
      RoundInternal(socks, out.r, env);
    } else {
      SameRefl(socks);
    }
  }

  lemma SameRefl(socks: seq<Sock>)
    ensures SameSocks(socks, socks)
  {
  }

  lemma OnlyUserBits(user: set<int>, ready: set<int>, out: set<int>, internal: set<int>, accepted: set<int>,
                     retired: set<int>)
    requires user !! internal && user !! accepted && out <= user + internal && user * out == user * ready
    ensures out - internal - accepted - retired == user * ready - retired
  {
    assert forall x :: x in user * out <==> x in user * ready;
  }

  predicate Succeeded(o: Outcome) {
    o.result.Some? && o.result != Some(-1)
  }

  /**
    The wrapper refines select().  Whatever internal traffic comes in between,
    a successful call returns the kernel's answer, at its last return, to the
    sets that the application passed in: minus the public descriptors of
    sockets that a newer version serves in the read set, and exactly in the
    others.
   */
  lemma {:induction false} SelectRefines(
      socks: seq<Sock>, hasRead: bool, n: int, user: Sets, forever: bool, rounds: seq<Kernel>)
    requires InRange(user, n) && user.r !! AllInternal(socks) && (hasRead ==> KernelOk(socks, n, user, rounds))
    requires Succeeded(Selected(socks, hasRead, n, user, forever, rounds))
    ensures var o := Selected(socks, hasRead, n, user, forever, rounds);
      && 0 < o.used <= |rounds| && rounds[o.used - 1].Reports?
      && SeenAs(o.sets, o.socks, hasRead, user, rounds[o.used - 1].ready)
    decreases rounds
  {
    var ready, env := rounds[0].ready, rounds[0].env;
    var out := KernelSelect(Bound(socks, hasRead, n), Asked(socks, hasRead, user), ready);
    if hasRead {
      UserNotAccepted(socks, out.r, user.r, env);
    }
    ReturnRefines(socks, hasRead, n, user, ready, env);
    CountConserved(socks, hasRead, out, env);
    ReturnKeeps(socks, hasRead, user, out, env);
    var (socks', _, result) := AfterReturn(socks, hasRead, out, env);
    if result == 0 && forever {
      SelectRefines(socks', hasRead, n, user, forever, rounds[1..]);
    }
  }

  /** The result of a successful call is the number of bits set, and not 0 when the call has no timeout. */
  lemma {:induction false} ResultCounts(
      socks: seq<Sock>, hasRead: bool, n: int, user: Sets, forever: bool, rounds: seq<Kernel>)
    ensures var o := Selected(socks, hasRead, n, user, forever, rounds);
      Succeeded(o) ==> o.result.value == Size(o.sets) && (forever ==> o.result.value > 0)
    decreases rounds
  {
    if rounds != [] && rounds[0].Reports? {
      var out := KernelSelect(Bound(socks, hasRead, n), Asked(socks, hasRead, user), rounds[0].ready);
      CountConserved(socks, hasRead, out, rounds[0].env);
      var (socks', _, result) := AfterReturn(socks, hasRead, out, rounds[0].env);
      if result == 0 && forever {
        ResultCounts(socks', hasRead, n, user, forever, rounds[1..]);
      }
    }
  }

  /** Nothing internal would be watched. */
  predicate NothingInternal(socks: seq<Sock>) {
    forall i :: 0 <= i < |socks| ==> socks[i].ready && socks[i].comfds == []
  }

  /**
    A failing call is to leave the sets alone.  After any number of retries it
    does if and only if there was nothing to add at the last one.
   */
  lemma {:induction false} FailureKeepsSetsIff(
      socks: seq<Sock>, hasRead: bool, n: int, user: Sets, forever: bool, rounds: seq<Kernel>)
    requires user.r !! AllInternal(socks) && (hasRead ==> KernelOk(socks, n, user, rounds))
    requires Selected(socks, hasRead, n, user, forever, rounds).result == Some(-1)
    ensures var o := Selected(socks, hasRead, n, user, forever, rounds);
      o.sets == user <==> !hasRead || NothingInternal(o.socks)
    decreases rounds
  {
    if rounds[0].Failure? {
      InternalSplit(socks);
      NothingWatchedIff(socks);
      if hasRead && user.r + AllWatched(socks) == user.r {
        assert AllWatched(socks) <= user.r;
      }
    } else {
      var env := rounds[0].env;
      var out := KernelSelect(Bound(socks, hasRead, n), Asked(socks, hasRead, user), rounds[0].ready);
      if hasRead {
        UserNotAccepted(socks, out.r, user.r, env);
      }
      CountConserved(socks, hasRead, out, env);
      ReturnKeeps(socks, hasRead, user, out, env);
      FailureKeepsSetsIff(AfterReturn(socks, hasRead, out, env).0, hasRead, n, user, forever, rounds[1..]);
    }
  }

  /** A socket that is not ready, and a call that fails: the listener and the latch are left in the read set. */
  lemma FailureLeavesBits(forever: bool) returns (socks: seq<Sock>, user: Sets, rounds: seq<Kernel>)
    ensures InRange(user, 1) && user.r !! AllInternal(socks) && KernelOk(socks, 1, user, rounds)
    ensures var o := Selected(socks, true, 1, user, forever, rounds); o.result == Some(-1) && o.sets != user
  {
    socks, user, rounds := [Sock(3, 80, [], 4, -1, 5, 6, false)], Sets({}, {}, {}), [Failure];
    assert 4 in Watched(socks[0]);
  }

  lemma {:induction false} NothingWatchedIff(socks: seq<Sock>)
    ensures AllWatched(socks) == {} <==> NothingInternal(socks)
  {
    if socks != [] {
      var s := socks[0];
      NothingWatchedIff(socks[1..]);
      if s.comfds != [] {
        assert s.comfds[0] in Watched(s);
      } else if !s.ready {
        assert s.comfd in Watched(s);
      }
      assert AllWatched(socks) == {} <==> Watched(s) == {} && AllWatched(socks[1..]) == {};
      assert forall i :: 0 < i < |socks| ==> socks[i] == socks[1..][i - 1];
    }
  }

  // ----- Readiness over whole runs -----

  /** One call of the application. */
  datatype Use = Use(n: int, hasRead: bool, user: Sets, forever: bool, rounds: seq<Kernel>)

  function Outcomes(socks: seq<Sock>, uses: seq<Use>): (os: seq<Outcome>)
    ensures |os| == |uses|
    decreases uses
  {
    if uses == [] then []
    else
      var u := uses[0];
      var o := Selected(socks, u.hasRead, u.n, u.user, u.forever, u.rounds);
      [o] + Outcomes(o.socks, uses[1..])
  }

  lemma {:induction false} CallKeepsReady(socks: seq<Sock>, hasRead: bool, n: int, user: Sets, forever: bool,
                                          rounds: seq<Kernel>)
    ensures var o := Selected(socks, hasRead, n, user, forever, rounds);
      && SameSocks(socks, o.socks)
      && (hasRead && Succeeded(o) ==> o.sets.r !! Retired(o.socks))
    decreases rounds
  {
    if rounds == [] || rounds[0].Failure? {
      SameRefl(socks);
    } else {
      var out := KernelSelect(Bound(socks, hasRead, n), Asked(socks, hasRead, user), rounds[0].ready);
      ReturnKeepsReady(socks, hasRead, out, rounds[0].env);
      var (socks', _, result) := AfterReturn(socks, hasRead, out, rounds[0].env);
      if result == 0 && forever {
        CallKeepsReady(socks', hasRead, n, user, forever, rounds[1..]);
        SameTrans(socks, socks', Selected(socks', hasRead, n, user, forever, rounds[1..]).socks);
      }
    }
  }

  lemma ReturnKeepsReady(socks: seq<Sock>, hasRead: bool, out: Sets, env: Env)
    ensures var (socks', sets, _) := AfterReturn(socks, hasRead, out, env);
      SameSocks(socks, socks') && (hasRead ==> sets.r !! Retired(socks'))
  {
    if hasRead {
      RoundMeaning(socks, out.r, env);
      RoundSocks(socks, out.r, env);
      Apart(out.r - AllInternal(socks) - Accepted(socks, out.r, env), Retired(Round(socks, out.r, env).socks));
    } else {
      SameRefl(socks);
    }
  }

  lemma Apart(a: set<int>, b: set<int>)
    ensures a - b !! b
  {
  }

  /** Outcome o comes no earlier than one with the sockets `before`: what was ready is, and was not reported. */
  predicate StaysOut(before: seq<Sock>, u: Use, o: Outcome, t: nat)
    requires t < |before|
  {
    && |o.socks| == |before| && SameSock(before[t], o.socks[t])
    && (before[t].ready && u.hasRead && Succeeded(o) ==> before[t].fd !in o.sets.r)
  }

  lemma FirstOut(socks: seq<Sock>, u: Use, t: nat)
    requires t < |socks|
    ensures var o := Selected(socks, u.hasRead, u.n, u.user, u.forever, u.rounds);
      |o.socks| == |socks| && SameSock(socks[t], o.socks[t]) && StaysOut(o.socks, u, o, t) && StaysOut(socks, u, o, t)
  {
    var o := Selected(socks, u.hasRead, u.n, u.user, u.forever, u.rounds);
    CallKeepsReady(socks, u.hasRead, u.n, u.user, u.forever, u.rounds);
    assert SameSock(socks[t], o.socks[t]);
    if o.socks[t].ready {
      assert o.socks[t].fd in Retired(o.socks);
    }
  }

  lemma {:induction false} LaterOut(socks: seq<Sock>, uses: seq<Use>, t: nat, k: nat)
    requires t < |socks| && k < |uses|
    ensures StaysOut(socks, uses[k], Outcomes(socks, uses)[k], t)
    decreases uses
  {
    FirstOut(socks, uses[0], t);
    if k > 0 {
      var u := uses[0];
      var o := Selected(socks, u.hasRead, u.n, u.user, u.forever, u.rounds);
      LaterOut(o.socks, uses[1..], t, k - 1);
      assert StaysOut(o.socks, uses[k], Outcomes(o.socks, uses[1..])[k - 1], t);
    }
  }

  /**
    Ready for good.  Over any run of calls, with any sets, a socket that is
    ready when a call returns is ready ever after, and its public descriptor
    is not in the read set that this or any later successful call returns.
   */
  lemma {:induction false} ReadyForGood(socks: seq<Sock>, uses: seq<Use>, t: nat, j: nat, k: nat)
    requires t < |socks| && j <= k < |uses|
    ensures var os := Outcomes(socks, uses); |os[j].socks| == |socks| && StaysOut(os[j].socks, uses[k], os[k], t)
    decreases uses
  {
    var u, rest := uses[0], uses[1..];
    var o := Selected(socks, u.hasRead, u.n, u.user, u.forever, u.rounds);
    FirstOut(socks, u, t);
    if j > 0 {
      ReadyForGood(o.socks, rest, t, j - 1, k - 1);
    } else if k > 0 {
      LaterOut(o.socks, rest, t, k - 1);
    }
  }

  // ----- Every round of a run -----

  /** One round: the sockets before it, and what the kernel left in the read set. */
  datatype Turn = Turn(socks: seq<Sock>, bits: set<int>, env: Env)

  function RoundOf(turn: Turn): All {
    Round(turn.socks, turn.bits, turn.env)
  }

  /** The rounds of one call, */
  function Turns(socks: seq<Sock>, hasRead: bool, n: int, user: Sets, forever: bool, rounds: seq<Kernel>): seq<Turn>
    decreases rounds
  {
    if rounds == [] || rounds[0].Failure? then []
    else
      var out := KernelSelect(Bound(socks, hasRead, n), Asked(socks, hasRead, user), rounds[0].ready);
      var (socks', _, result) := AfterReturn(socks, hasRead, out, rounds[0].env);
      (if hasRead then [Turn(socks, out.r, rounds[0].env)] else [])
      + (if result == 0 && forever then Turns(socks', hasRead, n, user, forever, rounds[1..]) else [])
  }

  /** and of a run of calls. */
  function RunTurns(socks: seq<Sock>, uses: seq<Use>): seq<Turn>
    decreases uses
  {
    if uses == [] then []
    else
      var u := uses[0];
      var o := Selected(socks, u.hasRead, u.n, u.user, u.forever, u.rounds);
      Turns(socks, u.hasRead, u.n, u.user, u.forever, u.rounds) + RunTurns(o.socks, uses[1..])
  }

  function After(turn: Turn): seq<Sock> {
    RoundOf(turn).socks
  }

  /** Each round begins with the sockets that the one before it left. */
  predicate Chained(socks: seq<Sock>, turns: seq<Turn>, last: seq<Sock>) {
    Links(After, socks, turns, last)
  }

  predicate Links(after: Turn -> seq<Sock>, socks: seq<Sock>, turns: seq<Turn>, last: seq<Sock>)
    decreases turns
  {
    if turns == [] then last == socks
    else turns[0].socks == socks && Links(after, after(turns[0]), turns[1..], last)
  }

  lemma {:induction false} LinksConcat(
      after: Turn -> seq<Sock>, socks: seq<Sock>, xs: seq<Turn>, middle: seq<Sock>, ys: seq<Turn>, last: seq<Sock>)
    requires Links(after, socks, xs, middle) && Links(after, middle, ys, last)
    ensures Links(after, socks, xs + ys, last)
    decreases xs
  {
    if xs == [] {
      assert xs + ys == ys;
    } else {
      assert (xs + ys)[0] == xs[0] && (xs + ys)[1..] == xs[1..] + ys;
      LinksConcat(after, after(xs[0]), xs[1..], middle, ys, last);
    }
  }

  lemma ChainConcat(socks: seq<Sock>, xs: seq<Turn>, middle: seq<Sock>, ys: seq<Turn>, last: seq<Sock>)
    requires Chained(socks, xs, middle) && Chained(middle, ys, last)
    ensures Chained(socks, xs + ys, last)
  {
    LinksConcat(After, socks, xs, middle, ys, last);
  }

  lemma ChainOne(turn: Turn)
    ensures Chained(turn.socks, [turn], After(turn))
  {
    assert [turn][1..] == [];
  }

  lemma ChainRest(socks: seq<Sock>, turns: seq<Turn>, last: seq<Sock>)
    requires Chained(socks, turns, last) && turns != []
    ensures turns[0].socks == socks && Chained(After(turns[0]), turns[1..], last)
  {
  }

  lemma {:induction false} CallChained(
      socks: seq<Sock>, hasRead: bool, n: int, user: Sets, forever: bool, rounds: seq<Kernel>)
    ensures Chained(socks, Turns(socks, hasRead, n, user, forever, rounds),
                    Selected(socks, hasRead, n, user, forever, rounds).socks)
    decreases rounds
  {
    if rounds != [] && rounds[0].Reports? {
      var out := KernelSelect(Bound(socks, hasRead, n), Asked(socks, hasRead, user), rounds[0].ready);
      var (socks', _, result) := AfterReturn(socks, hasRead, out, rounds[0].env);
      var turn := Turn(socks, out.r, rounds[0].env);
      var now, again := if hasRead then [turn] else [], result == 0 && forever;
      var later := if again then Turns(socks', hasRead, n, user, forever, rounds[1..]) else [];
      var last := if again then Selected(socks', hasRead, n, user, forever, rounds[1..]).socks else socks';
      ChainOne(turn);
      if again {
        CallChained(socks', hasRead, n, user, forever, rounds[1..]);
      }
      ChainConcat(socks, now, socks', later, last);
    }
  }

  lemma {:induction false} RunChained(socks: seq<Sock>, uses: seq<Use>) returns (last: seq<Sock>)
    ensures Chained(socks, RunTurns(socks, uses), last)
    decreases uses
  {
    if uses == [] {
      last := socks;
    } else {
      var u := uses[0];
      var o := Selected(socks, u.hasRead, u.n, u.user, u.forever, u.rounds);
      CallChained(socks, u.hasRead, u.n, u.user, u.forever, u.rounds);
      last := RunChained(o.socks, uses[1..]);
      ChainConcat(socks, Turns(socks, u.hasRead, u.n, u.user, u.forever, u.rounds), o.socks,
                  RunTurns(o.socks, uses[1..]), last);
    }
  }

  /** What the kernel guarantees of one round. */
  ghost predicate Guaranteed(turn: Turn) {
    AllOpen(turn.socks, turn.bits, turn.env.open) && FreeAccepts(turn.env.open, RoundOf(turn).calls, turn.env)
  }

  lemma {:induction false} ChainSound(socks: seq<Sock>, turns: seq<Turn>, last: seq<Sock>, i: nat)
    requires Chained(socks, turns, last) && AllSound(socks) && i < |turns|
    requires forall j :: 0 <= j < i ==> Guaranteed(turns[j])
    ensures AllSound(turns[i].socks)
    decreases turns
  {
    ChainRest(socks, turns, last);
    if i > 0 {
      var rest := turns[1..];
      assert forall j :: 0 <= j < |rest| ==> rest[j] == turns[j + 1];
      assert Guaranteed(turns[0]);
      RoundSound(socks, turns[0].bits, turns[0].env);
      ChainSound(RoundOf(turns[0]).socks, rest, last, i - 1);
    }
  }

  /**
    In every round of every run of calls, those of retried returns too: the
    library's descriptors are all different before and after it, each list of
    connections keeps its order, loses exactly those that ended and gets the
    new one at its end, a connection with traffic is read once and answered in
    full or closed once, and nothing else is touched.
   */
  lemma EveryRound(socks: seq<Sock>, uses: seq<Use>, i: nat, x: int)
    requires AllSound(socks) && i < |RunTurns(socks, uses)|
    requires forall j :: 0 <= j <= i ==> Guaranteed(RunTurns(socks, uses)[j])
    ensures var turn := RunTurns(socks, uses)[i];
      && AllSound(turn.socks) && AllSound(RoundOf(turn).socks)
      && ((forall t :: 0 <= t < |turn.socks| ==> turn.socks[t].comfdClose != x) ==>
            RoundServed(turn.socks, turn.bits, turn.env, RoundOf(turn), x))
  {
    var turns := RunTurns(socks, uses);
    var last := RunChained(socks, uses);
    ChainSound(socks, turns, last, i);
    assert Guaranteed(turns[i]);
    RoundSound(turns[i].socks, turns[i].bits, turns[i].env);
    if forall t :: 0 <= t < |turns[i].socks| ==> turns[i].socks[t].comfdClose != x {
      RoundConnections(turns[i].socks, turns[i].bits, turns[i].env, x);
    }
  }

  // ----- The report of a new version, over runs -----

  /** The public descriptors differ, and none of them is a latch. */
  predicate PublicsApart(socks: seq<Sock>) {
    && (forall t, u :: 0 <= t < u < |socks| ==> socks[t].fd != socks[u].fd)
    && (forall t, u :: 0 <= t < |socks| && 0 <= u < |socks| ==> socks[t].fd != socks[u].readyfd)
  }

  lemma ApartKept(xs: seq<Sock>, ys: seq<Sock>)
    requires PublicsApart(xs) && SameSocks(xs, ys)
    ensures PublicsApart(ys)
  {
    assert forall t :: 0 <= t < |xs| ==> SameSock(xs[t], ys[t]);
  }

  /** Ready is owed on c by a socket whose public descriptor is in the set. */
  predicate Due(socks: seq<Sock>, bits: set<int>, c: int) {
    c > 0 && exists t :: 0 <= t < |socks| && socks[t].comfdClose == c && socks[t].fd in bits
  }

  /** What is owed is exactly what was owed before and not due. */
  predicate Settles(socks: seq<Sock>, after: seq<Sock>, bits: set<int>) {
    |after| == |socks| && forall t :: 0 <= t < |socks| ==>
      after[t].comfdClose == if socks[t].comfdClose > 0 && socks[t].fd in bits then -1 else socks[t].comfdClose
  }

  lemma {:induction false} LatchIn(socks: seq<Sock>, x: int)
    ensures x in Latches(socks) ==> exists t :: 0 <= t < |socks| && socks[t].readyfd == x
  {
    if socks != [] && x in Latches(socks) {
      LatchIn(socks[1..], x);
      if x in Latches(socks[1..]) {
        var t :| 0 <= t < |socks[1..]| && socks[1..][t].readyfd == x;
        assert socks[t + 1].readyfd == x;
      }
    }
  }

  lemma RetiredFrom(socks: seq<Sock>, after: seq<Sock>, x: int)
    requires SameSocks(socks, after) && forall t :: 0 <= t < |socks| ==> socks[t].fd != x
    ensures x !in Retired(after)
  {
    forall t | 0 <= t < |after| ensures after[t].fd != x {
      assert SameSock(socks[t], after[t]);
    }
  }

  /** The public descriptor of a socket survives the turns of the others. */
  lemma PublicStays(s: Sock, rest: seq<Sock>, bits: set<int>, env: Env)
    requires PublicsApart([s] + rest)
    ensures s.fd in PostAll(rest, bits, env).bits <==> s.fd in bits
  {
    var all := [s] + rest;
    assert forall t :: 0 <= t < |rest| ==> all[t + 1] == rest[t] && all[0] == s;
    PostAllBits(rest, bits, env);
    PostAllSocks(rest, bits, env);
    LatchIn(rest, s.fd);
    RetiredFrom(rest, PostAll(rest, bits, env).socks, s.fd);
  }

  lemma TailApart(s: Sock, rest: seq<Sock>)
    requires PublicsApart([s] + rest)
    ensures PublicsApart(rest)
  {
    var all := [s] + rest;
    assert forall t :: 0 <= t < |rest| ==> all[t + 1] == rest[t];
  }

  /** The second pass reports on exactly the connections that are due in the set it leaves. */
  lemma {:induction false} PostReports(socks: seq<Sock>, bits: set<int>, env: Env, c: int)
    requires PublicsApart(socks)
    ensures var p := PostAll(socks, bits, env);
      (SendReady(c) in p.calls <==> Due(socks, p.bits, c)) && Settles(socks, p.socks, p.bits)
    decreases socks
  {
    if socks != [] {
      var s, rest, one := socks[0], socks[1..], Post(socks[0], bits, env);
      assert [s] + rest == socks;
      TailApart(s, rest);
      ReportIff(s, bits, env, c);
      ReportIff(s, bits, env, s.comfdClose);
      PostReports(rest, one.bits, env, c);
      PublicStays(s, rest, one.bits, env);
      DueCons(s, rest, PostAll(socks, bits, env).bits, c);
    }
  }

  lemma DueCons(s: Sock, rest: seq<Sock>, bits: set<int>, c: int)
    ensures Due([s] + rest, bits, c) <==> (c > 0 && s.comfdClose == c && s.fd in bits) || Due(rest, bits, c)
  {
    var all := [s] + rest;
    assert all[0] == s && forall t :: 0 <= t < |rest| ==> all[t + 1] == rest[t];
  }

  lemma {:induction false} WalkSilent(s: Sock, list: seq<int>, bits: set<int>, recv: int -> Recv, c: int)
    ensures SendReady(c) !in Walk(s, list, bits, recv).calls
    decreases list
  {
    if list != [] {
      WalkSilent(s, list[1..], if list[0] in bits then bits - {list[0]} else bits, recv, c);
    }
  }

  lemma {:induction false} HandleAllSilent(socks: seq<Sock>, bits: set<int>, env: Env, c: int)
    ensures SendReady(c) !in HandleAll(socks, bits, env).calls
    decreases socks
  {
    if socks != [] {
      var s := socks[0];
      WalkSilent(s, s.comfds + NewConn(s, bits, env), bits - {s.comfd}, env.recv, c);
      HandleAllSilent(socks[1..], Handle(s, bits, env).bits, env, c);
    }
  }

  lemma SameDue(xs: seq<Sock>, ys: seq<Sock>, bits: set<int>, c: int)
    requires |ys| == |xs| && forall t :: 0 <= t < |xs| ==> ys[t].fd == xs[t].fd && ys[t].comfdClose == xs[t].comfdClose
    ensures Due(ys, bits, c) <==> Due(xs, bits, c)
  {
  }

  /** And so does a round. */
  lemma RoundReports(socks: seq<Sock>, bits: set<int>, env: Env, c: int)
    requires PublicsApart(socks)
    ensures var o := Round(socks, bits, env);
      (SendReady(c) in o.calls <==> Due(socks, o.bits, c)) && Settles(socks, o.socks, o.bits)
  {
    var h := HandleAll(socks, bits, env);
    HandleAllSocks(socks, bits, env);
    HandleAllOwed(socks, bits, env);
    HandleAllSilent(socks, bits, env, c);
    ApartKept(socks, h.socks);
    PostReports(h.socks, h.bits, env, c);
    assert forall t :: 0 <= t < |socks| ==> SameSock(socks[t], h.socks[t]);
    SameDue(socks, h.socks, Round(socks, bits, env).bits, c);
  }

  /** No other socket than t owes ready on c. */
  predicate OnlyOwer(socks: seq<Sock>, t: nat, c: int) {
    t < |socks| && c > 0 && forall u :: 0 <= u < |socks| && u != t ==> socks[u].comfdClose != c
  }

  /** Round i is the first that leaves public descriptor fd in the read set. */
  predicate FirstLeft(turns: seq<Turn>, fd: int, i: nat)
    requires i < |turns|
  {
    fd in RoundOf(turns[i]).bits && forall j :: 0 <= j < i ==> fd !in RoundOf(turns[j]).bits
  }

  lemma FirstLater(turns: seq<Turn>, fd: int, i: nat)
    requires 0 < i < |turns|
    ensures FirstLeft(turns, fd, i) <==> fd !in RoundOf(turns[0]).bits && FirstLeft(turns[1..], fd, i - 1)
  {
    var rest := turns[1..];
    assert forall j :: 0 <= j < |rest| ==> rest[j] == turns[j + 1];
    if fd !in RoundOf(turns[0]).bits && FirstLeft(rest, fd, i - 1) {
      forall j | 0 <= j < i ensures fd !in RoundOf(turns[j]).bits {
        assert j == 0 || fd !in RoundOf(rest[j - 1]).bits;
      }
    }
    if FirstLeft(turns, fd, i) {
      forall j | 0 <= j < i - 1 ensures fd !in RoundOf(rest[j]).bits {
        assert fd !in RoundOf(turns[j + 1]).bits;
      }
    }
  }

  lemma {:induction false} ChainReports(socks: seq<Sock>, turns: seq<Turn>, last: seq<Sock>, t: nat, c: int, i: nat)
    requires Chained(socks, turns, last) && PublicsApart(socks) && OnlyOwer(socks, t, c) && i < |turns|
    ensures SendReady(c) in RoundOf(turns[i]).calls <==> socks[t].comfdClose == c && FirstLeft(turns, socks[t].fd, i)
    decreases turns
  {
    var o := RoundOf(turns[0]);
    ChainRest(socks, turns, last);
    RoundReports(socks, turns[0].bits, turns[0].env, c);
    if i > 0 {
      RoundSocks(socks, turns[0].bits, turns[0].env);
      ApartKept(socks, o.socks);
      assert SameSock(socks[t], o.socks[t]);
      ChainReports(o.socks, turns[1..], last, t, c, i - 1);
      FirstLater(turns, socks[t].fd, i);
    }
  }

  /**
    Over any run of calls a new version reports ready, on the connection that a
    socket was inherited over, exactly once: in the first round that leaves
    the public descriptor of the socket in the read set.
   */
  lemma ReportedFirst(socks: seq<Sock>, uses: seq<Use>, t: nat, i: nat)
    requires PublicsApart(socks) && t < |socks| && OnlyOwer(socks, t, socks[t].comfdClose)
    requires i < |RunTurns(socks, uses)|
    ensures var turns := RunTurns(socks, uses);
      SendReady(socks[t].comfdClose) in RoundOf(turns[i]).calls <==> FirstLeft(turns, socks[t].fd, i)
  {
    var last := RunChained(socks, uses);
    ChainReports(socks, RunTurns(socks, uses), last, t, socks[t].comfdClose, i);
  }

  // ----- The code -----

  /** The walk as the loop goes about it: one connection, added to what has been done so far. */
  function WalkNext(s: Sock, c: int, recv: int -> Recv, w: Walked): Walked {
    if c in w.bits then
      Walked(if Ends(recv(c)) then w.comfds else w.comfds + [c], w.bits - {c}, w.count + 1,
             w.calls + Answer(s, c, recv(c)))
    else w.(comfds := w.comfds + [c])
  }

  function WalkFrom(s: Sock, rest: seq<int>, recv: int -> Recv, w: Walked): Walked
    decreases rest
  {
    if rest == [] then w else WalkFrom(s, rest[1..], recv, WalkNext(s, rest[0], recv, w))
  }

  lemma {:induction false} WalkFromMeaning(s: Sock, rest: seq<int>, recv: int -> Recv, w: Walked)
    ensures var r := Walk(s, rest, w.bits, recv);
      WalkFrom(s, rest, recv, w) == Walked(w.comfds + r.comfds, r.bits, w.count + r.count, w.calls + r.calls)
    decreases rest
  {
    if rest != [] {
      var c, next := rest[0], WalkNext(s, rest[0], recv, w);
      var tail := Walk(s, rest[1..], next.bits, recv);
      WalkFromMeaning(s, rest[1..], recv, next);
      if c in w.bits {
        var kept := if Ends(recv(c)) then [] else [c];
        assert next.comfds == w.comfds + kept;
        Assoc(w.comfds, kept, tail.comfds);
        Assoc(w.calls, Answer(s, c, recv(c)), tail.calls);
      } else {
        Assoc(w.comfds, [c], tail.comfds);
      }
    }
  }

  lemma {:induction false} FindAt(done: seq<int>, rest: seq<int>)
    requires rest != [] && rest[0] !in done
    ensures Find(done + rest, Identity, rest[0]) == |done| && Cut(done + rest, |done|) == done + rest[1..]
    decreases done
  {
    if done == [] {
      assert done + rest == rest;
    } else {
      assert (done + rest)[1..] == done[1..] + rest;
      FindAt(done[1..], rest);
    }
  }

  lemma SplitAt(list: seq<int>, k: nat)
    requires k < |list|
    ensures list[..k + 1] == list[..k] + [list[k]] && list[k..][1..] == list[k + 1..]
    ensures var cut := list[..k] + list[k + 1..]; cut[..k] == list[..k] && cut[k..] == list[k + 1..]
  {
  }

  lemma Shift(done: seq<int>, rest: seq<int>)
    requires rest != []
    ensures (done + [rest[0]]) + rest[1..] == done + rest
    ensures (done + rest)[|done|] == rest[0]
  {
  }

  /** dsu_socket_remove_fds for the node after `done`; `next` follows it. */
  method Drop(list: List<int>, c: int, next: Node?<int>, ghost done: seq<int>, ghost rest: seq<int>)
    requires list.Valid() && list.contents == done + rest && rest != [] && rest[0] == c && c !in done
    requires next == At(list.nodes, |done| + 1)
    modifies list.repr
    ensures list.Valid() && list.repr == old(list.repr)
    ensures list.contents == done + rest[1..] && next == At(list.nodes, |done|)
  {
    FindAt(done, rest);
    ghost var k := list.RemoveFirst(Identity, c);
  }

  /** One connection of the walk: `c` is in the node after `done`, and `next` follows it. */
  method Visit(s: Sock, list: List<int>, c: int, next: Node?<int>, w: Walked, env: Env, ghost rest: seq<int>)
    returns (w': Walked)
    requires list.Valid() && list.contents == w.comfds + rest && rest != [] && rest[0] == c
    requires next == At(list.nodes, |w.comfds| + 1) && forall x :: x in w.comfds ==> x !in w.bits
    modifies list.repr
    ensures list.Valid() && list.repr == old(list.repr)
    ensures w' == WalkNext(s, c, env.recv, w) && forall x :: x in w'.comfds ==> x !in w'.bits
    ensures list.contents == w'.comfds + rest[1..] && next == At(list.nodes, |w'.comfds|)
  {
    Shift(w.comfds, rest);
    if c in w.bits {
      w' := Walked(w.comfds, w.bits - {c}, w.count + 1, w.calls + Answer(s, c, env.recv(c)));
      if Ends(env.recv(c)) {
        Drop(list, c, next, w.comfds, rest);
      } else {
        w' := w'.(comfds := w.comfds + [c]);
      }
    } else {
      w' := w.(comfds := w.comfds + [c]);
    }
  }

  /**
    The loop of dsu_handle_conn over the linked list of a socket's internal
    connections.  The next node is read before a node is freed, and the node
    to free is found by its descriptor.
   */
  method WalkConns(s: Sock, list: List<int>, bits: set<int>, env: Env)
    returns (bits': set<int>, count: int, calls: seq<Call>)
    requires list.Valid()
    modifies list.repr
    ensures list.Valid() && list.repr == old(list.repr)
    ensures Walk(s, old(list.contents), bits, env.recv) == Walked(list.contents, bits', count, calls)
  {
    var w := Walked([], bits, 0, []);
    ghost var rest := list.contents;
    WalkFromMeaning(s, rest, env.recv, w);
    var comfds := list.head;
    while comfds != null
      invariant list.Valid() && list.repr == old(list.repr)
      invariant list.contents == w.comfds + rest && comfds == At(list.nodes, |w.comfds|)
      invariant forall x :: x in w.comfds ==> x !in w.bits
      invariant WalkFrom(s, old(list.contents), env.recv, Walked([], bits, 0, [])) == WalkFrom(s, rest, env.recv, w)
      decreases |rest|
    {
      var c, next := list.Value(comfds), list.Next(comfds);
      w := Visit(s, list, c, next, w, env, rest);
      comfds, rest := next, rest[1..];
    }
    bits', count, calls := w.bits, w.count, w.calls;
  }

  class FdSet {
    var bits: set<int>

    constructor (bits: set<int>)
      ensures this.bits == bits
    {
      this.bits := bits;
    }
  }

  /** The bits of a set, none if the pointer is NULL. */
  function Bits(f: FdSet?): set<int>
    reads f
  {
    if f == null then {} else f.bits
  }

  function Snapshot(r: FdSet?, w: FdSet?, e: FdSet?): Sets
    reads r, w, e
  {
    Sets(Bits(r), Bits(w), Bits(e))
  }

  /** The pointers are restrict-qualified. */
  predicate NoAlias(r: FdSet?, w: FdSet?, e: FdSet?) {
    (r == null || (r != w && r != e)) && (w == null || w != e)
  }

  /** Overwrites the sets that are there. */
  method Assign(r: FdSet?, w: FdSet?, e: FdSet?, s: Sets)
    requires NoAlias(r, w, e)
    requires (r == null ==> s.r == {}) && (w == null ==> s.w == {}) && (e == null ==> s.e == {})
    modifies r, w, e
    ensures Snapshot(r, w, e) == s
  {
    if r != null {
      r.bits := s.r;
    }
    if w != null {
      w.bits := s.w;
    }
    if e != null {
      e.bits := s.e;
    }
  }

  class Wrapper {
    var correction: int
    var maxFds: int
    var binds: seq<Sock>

    constructor (binds: seq<Sock>)
      ensures this.binds == binds && correction == 0
    {
      this.binds := binds;
      correction, maxFds := 0, 0;
    }

    /** One connection of the walk. */
    method ServeConn(s: Sock, comfds: seq<int>, k: nat, readfds: FdSet, env: Env)
      returns (comfds': seq<int>, k': nat, calls: seq<Call>)
      requires k < |comfds|
      modifies `correction, readfds
      ensures k' <= |comfds'| && comfds'[k'..] == comfds[k + 1..]
      ensures forall count: int, done: seq<Call> ::
        WalkNext(s, comfds[k], env.recv, Walked(comfds[..k], old(readfds.bits), count, done)) ==
        Walked(comfds'[..k'], readfds.bits, count + correction - old(correction), done + calls)
    {
      var c := comfds[k];
      SplitAt(comfds, k);
      comfds', k', calls := comfds, k + 1, [];
      if c in readfds.bits {
        readfds.bits := readfds.bits - {c};
        correction := correction + 1;
        calls := Answer(s, c, env.recv(c));
        if Ends(env.recv(c)) {
          comfds', k' := comfds[..k] + comfds[k + 1..], k;
        }
      }
    }

    /** The loop of dsu_handle_conn over the internal connections. */
    method ServeConns(s: Sock, readfds: FdSet, env: Env) returns (comfds: seq<int>, calls: seq<Call>)
      modifies `correction, readfds
      ensures Walk(s, s.comfds, old(readfds.bits), env.recv) ==
              Walked(comfds, readfds.bits, correction - old(correction), calls)
    {
      ghost var w := WalkFrom(s, s.comfds, env.recv, Walked([], readfds.bits, 0, []));
      WalkFromMeaning(s, s.comfds, env.recv, Walked([], readfds.bits, 0, []));
      comfds, calls := s.comfds, [];
      var k: nat := 0;
      while k < |comfds|
        invariant k <= |comfds|
        invariant w == WalkFrom(s, comfds[k..], env.recv,
                                Walked(comfds[..k], readfds.bits, correction - old(correction), calls))
        decreases |comfds| - k
      {
        assert comfds[k..][0] == comfds[k] && comfds[k..][1..] == comfds[k + 1..];
        var more;
        comfds, k, more := ServeConn(s, comfds, k, readfds, env);
        calls := calls + more;
      }
      assert comfds[..k] == comfds;
    }

    /** dsu_handle_conn. */
    method HandleConn(s: Sock, readfds: FdSet, env: Env) returns (s': Sock, calls: seq<Call>)
      modifies `correction, readfds
      ensures Handle(s, old(readfds.bits), env) == One(s', readfds.bits, correction - old(correction), calls)
    {
      calls := [];
      var list := s.comfds;
      if s.comfd in readfds.bits {
        correction := correction + 1;
        calls := [Accept(s.comfd)];
        if env.accept(s.comfd) != -1 {
          list := list + [env.accept(s.comfd)];
        }
      }
      readfds.bits := readfds.bits - {s.comfd};
      assert list == s.comfds + NewConn(s, old(readfds.bits), env);
      WalkFields(s, s.(comfds := list), list, readfds.bits, env.recv);
      var more;
      list, more := ServeConns(s.(comfds := list), readfds, env);
      calls := calls + more;
      s' := s.(comfds := list);
    }

    /** dsu_post_select. */
    method PostSelect(s: Sock, readfds: FdSet, env: Env) returns (s': Sock, calls: seq<Call>)
      modifies `correction, readfds
      ensures Post(s, old(readfds.bits), env) == One(s', readfds.bits, correction - old(correction), calls)
    {
      calls, s' := [], s;
      if s.readyfd in readfds.bits {
        s' := s'.(ready := true);
        correction := correction + 1;
        readfds.bits := readfds.bits - {s.readyfd};
      }
      if s.fd in readfds.bits {
        if s'.ready {
          readfds.bits := readfds.bits - {s.fd};
          correction := correction + 1;
        }
      }
      if s.fd in readfds.bits {
        if s.comfdClose > 0 {
          calls := Report(s, env);
          s' := s'.(comfdClose := -1);
        }
      }
    }

    /** The first pass: dsu_handle_conn for every bound socket. */
    method HandleConns(readfds: FdSet, env: Env) returns (calls: seq<Call>)
      modifies `correction, `binds, readfds
      ensures HandleAll(old(binds), old(readfds.bits), env) ==
              All(binds, readfds.bits, correction - old(correction), calls)
    {
      calls := [];
      ghost var socks := binds;
      ghost var h := HandleAll(binds, readfds.bits, env);
      assert socks[0..] == socks;
      var i := 0;
      while i < |binds|
        invariant i <= |binds| == |socks| && forall j :: i <= j < |binds| ==> binds[j] == socks[j]
        invariant h == Join(All(binds[..i], {}, correction - old(correction), calls),
                            HandleAll(socks[i..], readfds.bits, env))
      {
        JoinHandle(All(binds[..i], {}, correction - old(correction), calls), socks, i, readfds.bits, env);
        var s, more := HandleConn(binds[i], readfds, env);
        UpdatePrefix(binds, i, s);
        binds := binds[i := s];
        calls := calls + more;
        i := i + 1;
      }
    }

    /** The second pass: dsu_post_select for every bound socket. */
    method PostSelects(readfds: FdSet, env: Env) returns (calls: seq<Call>)
      modifies `correction, `binds, readfds
      ensures PostAll(old(binds), old(readfds.bits), env) ==
              All(binds, readfds.bits, correction - old(correction), calls)
    {
      calls := [];
      ghost var socks := binds;
      ghost var h := PostAll(binds, readfds.bits, env);
      assert socks[0..] == socks;
      var i := 0;
      while i < |binds|
        invariant i <= |binds| == |socks| && forall j :: i <= j < |binds| ==> binds[j] == socks[j]
        invariant h == Join(All(binds[..i], {}, correction - old(correction), calls),
                            PostAll(socks[i..], readfds.bits, env))
      {
        JoinPost(All(binds[..i], {}, correction - old(correction), calls), socks, i, readfds.bits, env);
        var s, more := PostSelect(binds[i], readfds, env);
        UpdatePrefix(binds, i, s);
        binds := binds[i := s];
        calls := calls + more;
        i := i + 1;
      }
    }

    /** dsu_sniff_conn for every bound socket. */
    method SniffConns(readfds: FdSet)
      modifies `maxFds, readfds
      ensures readfds.bits == old(readfds.bits) + AllWatched(binds)
      ensures maxFds == RaiseAll(old(maxFds), binds)
    {
      var i := 0;
      while i < |binds|
        invariant i <= |binds|
        invariant readfds.bits + AllWatched(binds[i..]) == old(readfds.bits) + AllWatched(binds)
        invariant RaiseAll(maxFds, binds[i..]) == RaiseAll(old(maxFds), binds)
      {
        SniffConn(binds[i], readfds);
        assert binds[i..][1..] == binds[i + 1..];
        i := i + 1;
      }
    }

    /** dsu_sniff_conn. */
    method SniffConn(s: Sock, readfds: FdSet)
      modifies `maxFds, readfds
      ensures readfds.bits == old(readfds.bits) + Watched(s) && maxFds == Raise(old(maxFds), s)
    {
      if !s.ready {
        readfds.bits := readfds.bits + {s.comfd, s.readyfd};
        maxFds := Larger(Larger(maxFds, s.comfd), s.readyfd);
      }
      var k := 0;
      while k < |s.comfds|
        invariant k <= |s.comfds|
        invariant readfds.bits + Elems(s.comfds[k..]) == old(readfds.bits) + Watched(s)
        invariant RaiseOver(maxFds, s.comfds[k..]) == Raise(old(maxFds), s)
      {
        assert s.comfds[k..][1..] == s.comfds[k + 1..];
        readfds.bits := readfds.bits + {s.comfds[k]};
        if maxFds < s.comfds[k] + 1 {
          maxFds := s.comfds[k] + 1;
        }
        k := k + 1;
      }
    }

    /** What select() does between the kernel's return and its own. */
    method Correct(readfds: FdSet?, result: int, env: Env) returns (corrected: int)
      requires correction == 0
      modifies this, readfds
      ensures correction == 0
      ensures readfds == null ==> binds == old(binds) && corrected == result
      ensures readfds != null ==> var o := Round(old(binds), old(readfds.bits), env);
        binds == o.socks && readfds.bits == o.bits && corrected == result - o.count
    {
      if readfds != null {
        var first := HandleConns(readfds, env);
        var second := PostSelects(readfds, env);
      }
      corrected := result - correction;
      correction := 0;
    }

    /** The kernel's answer to the sets as they are, and its correction. */
    method Wait(readfds: FdSet?, writefds: FdSet?, exceptfds: FdSet?, ready: Sets, env: Env) returns (corrected: int)
      requires correction == 0 && NoAlias(readfds, writefds, exceptfds)
      modifies this, readfds, writefds, exceptfds
      ensures correction == 0
      ensures (binds, Snapshot(readfds, writefds, exceptfds), corrected) ==
        AfterReturn(old(binds), readfds != null,
                    KernelSelect(old(maxFds), old(Snapshot(readfds, writefds, exceptfds)), ready), env)
    {
      var out := KernelSelect(maxFds, Snapshot(readfds, writefds, exceptfds), ready);
      Assign(readfds, writefds, exceptfds, out);
      corrected := Correct(readfds, Size(out), env);
    }

    /**
      select().  `rounds` is what the kernel does from now on, call by call;
      without a result the wrapper still waits in the kernel when they are
      used up.
     */
    method Select(n: int, readfds: FdSet?, writefds: FdSet?, exceptfds: FdSet?, forever: bool, rounds: seq<Kernel>)
      returns (result: Option<int>, used: nat)
      requires correction == 0
      requires NoAlias(readfds, writefds, exceptfds)
      modifies this, readfds, writefds, exceptfds
      ensures correction == 0
      ensures Selected(old(binds), readfds != null, n, old(Snapshot(readfds, writefds, exceptfds)), forever, rounds)
           == Outcome(binds, Snapshot(readfds, writefds, exceptfds), result, used)
      decreases rounds
    {
      var original := Snapshot(readfds, writefds, exceptfds);
      maxFds := n;
      if readfds != null {
        SniffConns(readfds);
      }
      if rounds == [] {
        return None, 0;
      }
      if rounds[0].Failure? {
        return Some(-1), 1;
      }
      var corrected := Wait(readfds, writefds, exceptfds, rounds[0].ready, rounds[0].env);
      if corrected == 0 && forever {
        Assign(readfds, writefds, exceptfds, original);
        result, used := Select(n, readfds, writefds, exceptfds, forever, rounds[1..]);
        used := used + 1;
      } else {
        result, used := Some(corrected), 1;
      }
    }
  }

  /** A pass so far, and the rest of it. */
  function Join(done: All, rest: All): All {
    All(done.socks + rest.socks, rest.bits, done.count + rest.count, done.calls + rest.calls)
  }

  lemma JoinHandle(done: All, socks: seq<Sock>, i: nat, bits: set<int>, env: Env)
    requires i < |socks|
    ensures var one := Handle(socks[i], bits, env);
      Join(done, HandleAll(socks[i..], bits, env)) ==
      Join(All(done.socks + [one.sock], {}, done.count + one.count, done.calls + one.calls),
           HandleAll(socks[i + 1..], one.bits, env))
  {
    assert socks[i..][1..] == socks[i + 1..];
    var one := Handle(socks[i], bits, env);
    var tail := HandleAll(socks[i + 1..], one.bits, env);
    Assoc(done.socks, [one.sock], tail.socks);
    Assoc(done.calls, one.calls, tail.calls);
  }

  lemma JoinPost(done: All, socks: seq<Sock>, i: nat, bits: set<int>, env: Env)
    requires i < |socks|
    ensures var one := Post(socks[i], bits, env);
      Join(done, PostAll(socks[i..], bits, env)) ==
      Join(All(done.socks + [one.sock], {}, done.count + one.count, done.calls + one.calls),
           PostAll(socks[i + 1..], one.bits, env))
  {
    assert socks[i..][1..] == socks[i + 1..];
    var one := Post(socks[i], bits, env);
    var tail := PostAll(socks[i + 1..], one.bits, env);
    Assoc(done.socks, [one.sock], tail.socks);
    Assoc(done.calls, one.calls, tail.calls);
  }

  /** The walk answers with the socket's own descriptors only. */
  lemma {:induction false} WalkFields(s: Sock, t: Sock, list: seq<int>, bits: set<int>, recv: int -> Recv)
    requires t == s.(comfds := t.comfds)
    ensures Walk(s, list, bits, recv) == Walk(t, list, bits, recv)
    decreases list
  {
    if list != [] {
      WalkFields(s, t, list[1..], bits - {list[0]}, recv);
      WalkFields(s, t, list[1..], bits, recv);
    }
  }
}
