/**
  The wrapper around epoll_wait().

  Before the kernel's wait it puts the internal descriptors into the interest
  set; afterwards it handles their events, overwrites them with -1 in the
  application's own array, takes the internal descriptors out of the interest
  set again and closes the gaps in the array.
 */
module Epoll {
  import opened Internals

  /**
    struct epoll_event: its user data read as a descriptor, and its mask.  The
    user data is what was stored on registration, for an application any token.
    `source` is the descriptor that the event is about; the code cannot see it.
   */
  datatype Event = Event(fd: int, mask: int, source: int)

  const HANDLED := -1

  // ----- Specification -----

  /** Effect of one event, or of a whole batch, on one socket. */
  datatype One = One(sock: Sock, ev: Event, interest: set<int>, calls: seq<Call>)
  datatype Pass = Pass(sock: Sock, evs: seq<Event>, interest: set<int>, calls: seq<Call>)
  datatype All = All(socks: seq<Sock>, evs: seq<Event>, interest: set<int>, calls: seq<Call>)

  /** The list without its first c. */
  function Without(list: seq<int>, c: int): seq<int> {
    if list == [] then [] else if list[0] == c then list[1..] else [list[0]] + Without(list[1..], c)
  }

  function OnEvent(s: Sock, ev: Event, wakeup: int, interest: set<int>, env: Env): One {
    var handled := ev.(fd := HANDLED);
    if ev.mask == 0 then One(s, ev, interest, [])
    else if ev.fd == s.comfd && !s.ready then
      var acc := env.accept(s.comfd);
      One(s.(comfds := s.comfds + if acc != -1 then [acc] else []), handled, interest, [Accept(s.comfd)])
    else if ev.fd == wakeup then One(s, handled, interest, [RecvPing(wakeup)])
    else if ev.fd == s.readyfd then One(s.(ready := true), handled, interest - {s.readyfd}, [])
    else if ev.fd in s.comfds then
      var r := env.recv(ev.fd);
      if Ends(r) then One(s.(comfds := Without(s.comfds, ev.fd)), handled, interest - {ev.fd}, Answer(s, ev.fd, r))
      else One(s, handled, interest, Answer(s, ev.fd, r))
    else One(s, ev, interest, [])
  }

  /** The events of a batch, in order, as one socket sees them. */
  function OnEvents(s: Sock, evs: seq<Event>, wakeup: int, interest: set<int>, env: Env): Pass
    decreases evs
  {
    if evs == [] then Pass(s, [], interest, [])
    else
      var one := OnEvent(s, evs[0], wakeup, interest, env);
      var rest := OnEvents(one.sock, evs[1..], wakeup, one.interest, env);
      Pass(rest.sock, [one.ev] + rest.evs, rest.interest, one.calls + rest.calls)
  }

  /** dsu_handle_conn_epoll: the report of a new version, then the batch. */
  function HandleBatch(s: Sock, evs: seq<Event>, wakeup: int, interest: set<int>, env: Env): Pass {
    var p := OnEvents(Reported(s), evs, wakeup, interest, env);
    p.(calls := Report(s, env) + p.calls)
  }

  function HandleAll(socks: seq<Sock>, evs: seq<Event>, wakeup: int, interest: set<int>, env: Env): All
    decreases socks
  {
    if socks == [] then All([], evs, interest, [])
    else
      var p := HandleBatch(socks[0], evs, wakeup, interest, env);
      var rest := HandleAll(socks[1..], p.evs, wakeup, p.interest, env);
      All([p.sock] + rest.socks, rest.evs, rest.interest, p.calls + rest.calls)
  }

  /** What dsu_epoll_internal_conn drops from and adds to the interest set for a socket. */
  function Dropped(s: Sock): set<int> {
    if s.ready then {s.comfd, s.readyfd, s.fd} else {}
  }

  function Watched(s: Sock): set<int> {
    (if s.ready then {} else {s.comfd, s.readyfd}) + Elems(s.comfds)
  }

  function Added(s: Sock, wakeup: int): set<int> {
    {wakeup} + Watched(s)
  }

  function Prepare(socks: seq<Sock>, wakeup: int, interest: set<int>): set<int>
    decreases socks
  {
    if socks == [] then interest
    else Prepare(socks[1..], wakeup, interest + {wakeup} - Dropped(socks[0]) + Watched(socks[0]))
  }

  /** dsu_remove_internal. */
  function Cleanup(socks: seq<Sock>, interest: set<int>): set<int>
    decreases socks
  {
    if socks == [] then interest else Cleanup(socks[1..], interest - {socks[0].comfd} - Elems(socks[0].comfds))
  }

  /** The events that were not overwritten, in order. */
  function Unhandled(evs: seq<Event>): seq<Event> {
    if evs == [] then [] else (if evs[0].fd == HANDLED then [] else [evs[0]]) + Unhandled(evs[1..])
  }

  /** From the kernel's return to the wrapper's own. */
  function AfterWait(socks: seq<Sock>, evs: seq<Event>, wakeup: int, interest: set<int>, env: Env): All {
    var h := HandleAll(socks, evs, wakeup, interest, env);
    All(h.socks, Unhandled(h.evs), Cleanup(h.socks, h.interest - {wakeup}), h.calls)
  }

  // ----- Transparency -----

  /** Event i announces that s is ready. */
  predicate Announces(s: Sock, ev: Event) {
    ev.mask != 0 && ev.fd == s.readyfd
  }

  /** s is ready by the time it comes to event i of the batch. */
  predicate ReadyBefore(s: Sock, evs: seq<Event>, i: nat)
    requires i <= |evs|
  {
    s.ready || exists j :: 0 <= j < i && Announces(s, evs[j])
  }

  /** Socket s handles event i, judged by the state before the batch. */
  predicate Handles(s: Sock, evs: seq<Event>, wakeup: int, i: nat)
    requires i < |evs|
  {
    && evs[i].mask != 0
    && (|| evs[i].fd == wakeup || evs[i].fd == s.readyfd || evs[i].fd in s.comfds
        || (evs[i].fd == s.comfd && !ReadyBefore(s, evs, i)))
  }

  /** The internal descriptors of s and the wakeup descriptor are different descriptors. */
  predicate Proper(s: Sock, wakeup: int) {
    && Sound(s) && !IsInternal(s, wakeup) && !IsInternal(s, HANDLED) && HANDLED != wakeup
  }

  /**
    What the kernel guarantees of a batch and of accept4: a descriptor has at
    most one event, and a newly accepted descriptor is neither one in use,
    though it may have been closed earlier in the batch, nor that of an event
    still to come.
   */
  predicate Fresh(s: Sock, evs: seq<Event>, wakeup: int, env: Env) {
    && (forall i, j :: 0 <= i < j < |evs| && evs[i].mask != 0 && evs[j].mask != 0 && IsInternal(s, evs[i].fd) ==>
          evs[j].fd != evs[i].fd)
    && (forall i :: 0 <= i < |evs| && Requests(s, evs, i) ==> FreshAccept(s, evs, i, wakeup, env))
  }

  /** Event i makes the socket accept a connection. */
  predicate Requests(s: Sock, evs: seq<Event>, i: nat)
    requires i < |evs|
  {
    evs[i].mask != 0 && evs[i].fd == s.comfd && !ReadyBefore(s, evs, i)
  }

  predicate FreshAccept(s: Sock, evs: seq<Event>, i: nat, wakeup: int, env: Env)
    requires i < |evs|
  {
    var acc := env.accept(s.comfd);
    acc != -1 ==>
      && (IsInternal(s, acc) ==> ClosedBefore(s, evs, i, env.recv, acc))
      && acc != wakeup
      && forall j :: i < j < |evs| && evs[j].mask != 0 ==> evs[j].fd != acc
  }

  /** Connection c ends before event i of the batch. */
  predicate ClosedBefore(s: Sock, evs: seq<Event>, i: nat, recv: int -> Recv, c: int)
    requires i <= |evs|
  {
    c in s.comfds && Ends(recv(c)) && exists j :: 0 <= j < i && evs[j].mask != 0 && evs[j].fd == c
  }

  lemma {:induction false} WithoutIn(list: seq<int>, c: int, x: int)
    ensures x in Without(list, c) ==> x in list
    ensures x != c && x in list ==> x in Without(list, c)
  {
    if list != [] && list[0] != c {
      WithoutIn(list[1..], c, x);
    }
  }

  lemma {:induction false} WithoutDistinct(list: seq<int>, c: int)
    requires Distinct(list)
    ensures Distinct(Without(list, c)) && c !in Without(list, c)
  {
    if list != [] && list[0] != c {
      WithoutDistinct(list[1..], c);
      WithoutIn(list[1..], c, list[0]);
      var rest := Without(list[1..], c);
      forall j | 0 <= j < |rest| ensures rest[j] != list[0] {
        WithoutIn(list[1..], c, rest[j]);
      }
    } else if list != [] {
      assert c !in list[1..];
    }
  }

  /** How one event changes the members: it may end its own connection, or bring one new. */
  lemma EventMembers(s: Sock, ev: Event, wakeup: int, interest: set<int>, env: Env, x: int)
    requires Proper(s, wakeup)
    ensures var t := OnEvent(s, ev, wakeup, interest, env).sock;
      && t == s.(comfds := t.comfds, ready := s.ready || Announces(s, ev))
      && (x in t.comfds ==>
            || x in s.comfds
            || (ev.mask != 0 && ev.fd == s.comfd && !s.ready && x == env.accept(s.comfd) && x != -1))
      && (x in s.comfds && (ev.mask == 0 || x != ev.fd) ==> x in t.comfds)
  {
    WithoutIn(s.comfds, ev.fd, x);
  }

  /** The connections stay distinct, and distinct from the other descriptors. */
  lemma EventProper(s: Sock, evs: seq<Event>, wakeup: int, interest: set<int>, env: Env)
    requires evs != [] && Proper(s, wakeup) && Fresh(s, evs, wakeup, env)
    ensures Proper(OnEvent(s, evs[0], wakeup, interest, env).sock, wakeup)
  {
    var ev, t, acc := evs[0], OnEvent(s, evs[0], wakeup, interest, env).sock, env.accept(s.comfd);
    if ev.mask != 0 && ev.fd == s.comfd && !s.ready {
      assert Requests(s, evs, 0);
      assert FreshAccept(s, evs, 0, wakeup, env);
    } else {
      WithoutDistinct(s.comfds, ev.fd);
      forall x ensures x in t.comfds ==> x in s.comfds {
        WithoutIn(s.comfds, ev.fd, x);
      }
    }
  }

  /** After one event the socket is fit for the rest of the batch. */
  lemma EventKeeps(s: Sock, evs: seq<Event>, wakeup: int, interest: set<int>, env: Env)
    requires evs != [] && Proper(s, wakeup) && Fresh(s, evs, wakeup, env)
    ensures var t := OnEvent(s, evs[0], wakeup, interest, env).sock;
      && Proper(t, wakeup) && Fresh(t, evs[1..], wakeup, env)
      && t.ready == (s.ready || Announces(s, evs[0]))
      && t == s.(comfds := t.comfds, ready := t.ready)
      && (forall j :: 0 < j < |evs| && evs[j].mask != 0 ==> (evs[j].fd in t.comfds <==> evs[j].fd in s.comfds))
  {
    var t := OnEvent(s, evs[0], wakeup, interest, env).sock;
    EventProper(s, evs, wakeup, interest, env);
    EventMembers(s, evs[0], wakeup, interest, env, 0);
    TailFresh(s, evs, wakeup, interest, env);
    if Requests(s, evs, 0) {
      assert FreshAccept(s, evs, 0, wakeup, env);
    }
    forall j | 0 < j < |evs| && evs[j].mask != 0 ensures evs[j].fd in t.comfds <==> evs[j].fd in s.comfds {
      EventMembers(s, evs[0], wakeup, interest, env, evs[j].fd);
    }
  }

  lemma TailFresh(s: Sock, evs: seq<Event>, wakeup: int, interest: set<int>, env: Env)
    requires evs != [] && Proper(s, wakeup) && Fresh(s, evs, wakeup, env)
    ensures Fresh(OnEvent(s, evs[0], wakeup, interest, env).sock, evs[1..], wakeup, env)
  {
    var t, rest := OnEvent(s, evs[0], wakeup, interest, env).sock, evs[1..];
    assert forall i :: 0 <= i < |rest| ==> rest[i] == evs[i + 1];
    EventMembers(s, evs[0], wakeup, interest, env, 0);
    forall i | 0 <= i < |rest| && Requests(t, rest, i) ensures FreshAccept(t, rest, i, wakeup, env) {
      ReadyShift(s, t, evs, i + 1);
      assert FreshAccept(s, evs, i + 1, wakeup, env);
      TailAccept(s, evs, i, wakeup, interest, env);
    }
    forall i, j | 0 <= i < j < |rest| && rest[i].mask != 0 && rest[j].mask != 0 && IsInternal(t, rest[i].fd)
      ensures rest[j].fd != rest[i].fd
    {
      EventMembers(s, evs[0], wakeup, interest, env, rest[i].fd);
      if Requests(s, evs, 0) {
        assert FreshAccept(s, evs, 0, wakeup, env);
      }
    }
  }

  /** A number that is reused was closed by this event or is closed later. */
  lemma TailAccept(s: Sock, evs: seq<Event>, i: nat, wakeup: int, interest: set<int>, env: Env)
    requires i + 1 < |evs| && Proper(s, wakeup) && Fresh(s, evs, wakeup, env)
    requires evs[i + 1].mask != 0 && evs[i + 1].fd == s.comfd && FreshAccept(s, evs, i + 1, wakeup, env)
    ensures var t, acc := OnEvent(s, evs[0], wakeup, interest, env).sock, env.accept(s.comfd);
      acc != -1 && IsInternal(t, acc) ==> ClosedBefore(t, evs[1..], i, env.recv, acc)
  {
    var t, acc := OnEvent(s, evs[0], wakeup, interest, env).sock, env.accept(s.comfd);
    EventMembers(s, evs[0], wakeup, interest, env, acc);
    if acc != -1 && IsInternal(t, acc) {
      var j :| 0 <= j < i + 1 && evs[j].mask != 0 && evs[j].fd == acc;
      if j == 0 {
        WithoutDistinct(s.comfds, acc);
      } else {
        assert evs[1..][j - 1] == evs[j];
      }
    }
  }

  /** Which events one socket overwrites. */
  lemma {:induction false} EventsMeaning(s: Sock, evs: seq<Event>, wakeup: int, interest: set<int>, env: Env)
    requires Proper(s, wakeup) && Fresh(s, evs, wakeup, env)
    ensures var p := OnEvents(s, evs, wakeup, interest, env);
      && |p.evs| == |evs|
      && (forall i :: 0 <= i < |evs| ==>
            p.evs[i] == if Handles(s, evs, wakeup, i) then evs[i].(fd := HANDLED) else evs[i])
    decreases evs
  {
    if evs != [] {
      var one := OnEvent(s, evs[0], wakeup, interest, env);
      EventKeeps(s, evs, wakeup, interest, env);
      EventsMeaning(one.sock, evs[1..], wakeup, one.interest, env);
      var rest := OnEvents(one.sock, evs[1..], wakeup, one.interest, env);
      forall i | 0 < i < |evs|
        ensures rest.evs[i - 1] == if Handles(s, evs, wakeup, i) then evs[i].(fd := HANDLED) else evs[i]
      {
        assert evs[1..][i - 1] == evs[i];
        ReadyShift(s, one.sock, evs, i);
      }
    }
  }

  lemma ReadyShift(s: Sock, t: Sock, evs: seq<Event>, i: nat)
    requires 0 < i <= |evs| && t.readyfd == s.readyfd && t.ready == (s.ready || Announces(s, evs[0]))
    ensures ReadyBefore(s, evs, i) <==> ReadyBefore(t, evs[1..], i - 1)
  {
    if j :| 0 <= j < i && Announces(s, evs[j]) {
      if j > 0 {
        assert Announces(t, evs[1..][j - 1]);
      }
    }
    if j :| 0 <= j < i - 1 && Announces(t, evs[1..][j]) {
      assert Announces(s, evs[j + 1]);
    }
  }

  /** The library's descriptors all differ. */
  predicate AllProper(socks: seq<Sock>, wakeup: int) {
    && (forall t :: 0 <= t < |socks| ==> Proper(socks[t], wakeup))
    && (forall t, u :: 0 <= t < u < |socks| ==> Disjoint(socks[t], socks[u]))
  }

  /** The kernel's guarantees hold for each socket at its turn. */
  predicate AllFresh(socks: seq<Sock>, evs: seq<Event>, wakeup: int, interest: set<int>, env: Env)
    decreases socks
  {
    socks == [] || (
      && Fresh(socks[0], evs, wakeup, env)
      && var p := HandleBatch(socks[0], evs, wakeup, interest, env);
         AllFresh(socks[1..], p.evs, wakeup, p.interest, env))
  }

  predicate HandledBySome(socks: seq<Sock>, evs: seq<Event>, wakeup: int, i: nat)
    requires i < |evs|
  {
    exists t :: 0 <= t < |socks| && Handles(socks[t], evs, wakeup, i)
  }

  /** The batch after socket s, seen by another socket. */
  lemma OtherSocket(s: Sock, u: Sock, evs: seq<Event>, evs': seq<Event>, wakeup: int, i: nat)
    requires Proper(s, wakeup) && Proper(u, wakeup) && Disjoint(s, u) && i < |evs| == |evs'|
    requires forall j :: 0 <= j < |evs| ==>
      evs'[j] == if Handles(s, evs, wakeup, j) then evs[j].(fd := HANDLED) else evs[j]
    ensures Handles(u, evs', wakeup, i) <==> Handles(u, evs, wakeup, i) && !Handles(s, evs, wakeup, i)
  {
    forall j | 0 <= j < |evs| ensures Announces(u, evs'[j]) <==> Announces(u, evs[j]) {
    }
    assert ReadyBefore(u, evs', i) <==> ReadyBefore(u, evs, i);
  }

  lemma BatchMeaning(s: Sock, evs: seq<Event>, wakeup: int, interest: set<int>, env: Env)
    requires Proper(s, wakeup) && Fresh(s, evs, wakeup, env)
    ensures var p := HandleBatch(s, evs, wakeup, interest, env);
      && |p.evs| == |evs|
      && (forall i :: 0 <= i < |evs| ==>
            p.evs[i] == if Handles(s, evs, wakeup, i) then evs[i].(fd := HANDLED) else evs[i])
  {
    var r := Reported(s);
    SameFresh(s, r, evs, wakeup, env);
    EventsMeaning(r, evs, wakeup, interest, env);
    forall i | 0 <= i < |evs| ensures Handles(r, evs, wakeup, i) == Handles(s, evs, wakeup, i) {
      assert forall j :: 0 <= j < |evs| ==> Announces(r, evs[j]) == Announces(s, evs[j]);
    }
  }

  /** Which events are overwritten by all sockets together. */
  lemma {:induction false} AllMeaning(socks: seq<Sock>, evs: seq<Event>, wakeup: int, interest: set<int>, env: Env)
    requires AllProper(socks, wakeup) && AllFresh(socks, evs, wakeup, interest, env)
    ensures var h := HandleAll(socks, evs, wakeup, interest, env);
      && |h.evs| == |evs|
      && (forall i :: 0 <= i < |evs| ==>
            h.evs[i] == if HandledBySome(socks, evs, wakeup, i) then evs[i].(fd := HANDLED) else evs[i])
    decreases socks
  {
    if socks != [] {
      var s, rest, p := socks[0], socks[1..], HandleBatch(socks[0], evs, wakeup, interest, env);
      BatchMeaning(s, evs, wakeup, interest, env);
      AllMeaning(rest, p.evs, wakeup, p.interest, env);
      forall i | 0 <= i < |evs|
        ensures HandledBySome(socks, evs, wakeup, i) <==>
                Handles(s, evs, wakeup, i) || HandledBySome(rest, p.evs, wakeup, i)
      {
        SomeStep(socks, evs, p.evs, wakeup, i);
      }
    }
  }

  lemma SomeStep(socks: seq<Sock>, evs: seq<Event>, evs': seq<Event>, wakeup: int, i: nat)
    requires socks != [] && AllProper(socks, wakeup) && i < |evs| == |evs'|
    requires forall j :: 0 <= j < |evs| ==>
      evs'[j] == if Handles(socks[0], evs, wakeup, j) then evs[j].(fd := HANDLED) else evs[j]
    ensures HandledBySome(socks, evs, wakeup, i) <==>
            Handles(socks[0], evs, wakeup, i) || HandledBySome(socks[1..], evs', wakeup, i)
  {
    forall t | 0 < t < |socks|
      ensures Handles(socks[1..][t - 1], evs', wakeup, i) <==>
              Handles(socks[t], evs, wakeup, i) && !Handles(socks[0], evs, wakeup, i)
    {
      OtherSocket(socks[0], socks[t], evs, evs', wakeup, i);
    }
    if t :| 0 <= t < |socks| && Handles(socks[t], evs, wakeup, i) {
      if t > 0 && !Handles(socks[0], evs, wakeup, i) {
        assert Handles(socks[1..][t - 1], evs', wakeup, i);
      }
    }
    if t :| 0 <= t < |socks| - 1 && Handles(socks[1..][t], evs', wakeup, i) {
      assert Handles(socks[t + 1], evs, wakeup, i);
    }
  }

  /** The batch from event i on, minus what the sockets handle. */
  function Visible(socks: seq<Sock>, evs: seq<Event>, wakeup: int, i: nat): seq<Event>
    requires i <= |evs|
    decreases |evs| - i
  {
    if i == |evs| then []
    else (if HandledBySome(socks, evs, wakeup, i) then [] else [evs[i]]) + Visible(socks, evs, wakeup, i + 1)
  }

  lemma {:induction false} UnhandledVisible(socks: seq<Sock>, evs: seq<Event>, evs': seq<Event>, wakeup: int, i: nat)
    requires i <= |evs| == |evs'|
    requires forall j :: 0 <= j < |evs| ==>
      evs[j].fd != HANDLED && evs'[j] == if HandledBySome(socks, evs, wakeup, j) then evs[j].(fd := HANDLED) else evs[j]
    ensures Unhandled(evs'[i..]) == Visible(socks, evs, wakeup, i)
    decreases |evs| - i
  {
    if i < |evs| {
      assert evs'[i..][0] == evs'[i] && evs'[i..][1..] == evs'[i + 1..];
      UnhandledVisible(socks, evs, evs', wakeup, i + 1);
    }
  }

  /**
    Exact transparency.  When no event carries -1, the application gets the
    kernel's batch, in order, minus the events that a socket handles.
   */
  lemma ExactTransparency(socks: seq<Sock>, evs: seq<Event>, wakeup: int, interest: set<int>, env: Env)
    requires AllProper(socks, wakeup) && AllFresh(socks, evs, wakeup, interest, env)
    requires forall i :: 0 <= i < |evs| ==> evs[i].fd != HANDLED
    ensures AfterWait(socks, evs, wakeup, interest, env).evs == Visible(socks, evs, wakeup, 0)
  {
    AllMeaning(socks, evs, wakeup, interest, env);
    var h := HandleAll(socks, evs, wakeup, interest, env);
    UnhandledVisible(socks, evs, h.evs, wakeup, 0);
    assert h.evs[0..] == h.evs;
  }

  /** What is visible is an event that no socket handles, */
  lemma {:induction false} VisibleFrom(socks: seq<Sock>, evs: seq<Event>, wakeup: int, i: nat, ev: Event)
    returns (j: nat)
    requires i <= |evs| && ev in Visible(socks, evs, wakeup, i)
    ensures i <= j < |evs| && evs[j] == ev && !HandledBySome(socks, evs, wakeup, j)
    decreases |evs| - i
  {
    if !HandledBySome(socks, evs, wakeup, i) && evs[i] == ev {
      j := i;
    } else {
      j := VisibleFrom(socks, evs, wakeup, i + 1, ev);
    }
  }

  /** and each such event is. */
  lemma {:induction false} VisibleHas(socks: seq<Sock>, evs: seq<Event>, wakeup: int, i: nat, j: nat)
    requires i <= j < |evs| && !HandledBySome(socks, evs, wakeup, j)
    ensures evs[j] in Visible(socks, evs, wakeup, i)
    decreases |evs| - i
  {
    if i < j {
      VisibleHas(socks, evs, wakeup, i + 1, j);
    }
  }

  /** A socket does not handle the events of another one. */
  lemma OwnEvents(socks: seq<Sock>, evs: seq<Event>, wakeup: int, i: nat, t: nat)
    requires AllProper(socks, wakeup) && i < |evs| && t < |socks| && IsInternal(socks[t], evs[i].fd)
    ensures HandledBySome(socks, evs, wakeup, i) <==> Handles(socks[t], evs, wakeup, i)
  {
    forall u | 0 <= u < |socks| && u != t ensures !Handles(socks[u], evs, wakeup, i) {
      assert if t < u then Disjoint(socks[t], socks[u]) else Disjoint(socks[u], socks[t]);
      assert Proper(socks[t], wakeup);
    }
  }

  // ----- The internal connections of one batch -----

  predicate HasEvent(evs: seq<Event>, c: int) {
    exists i :: 0 <= i < |evs| && evs[i].mask != 0 && evs[i].fd == c
  }

  /** Connection c stays: it had no event, or what was read did not end it. */
  function Stays(evs: seq<Event>, recv: int -> Recv): int -> bool {
    c => !(HasEvent(evs, c) && Ends(recv(c)))
  }

  /** A connection request is in the batch, before any readiness. */
  predicate Requested(s: Sock, evs: seq<Event>) {
    exists i :: 0 <= i < |evs| && Requests(s, evs, i)
  }

  /** The connection a socket accepts in a batch. */
  function NewConn(s: Sock, evs: seq<Event>, env: Env): seq<int> {
    if Requested(s, evs) && env.accept(s.comfd) != -1 then [env.accept(s.comfd)] else []
  }

  lemma {:induction false} WithoutFilter(list: seq<int>, c: int, f: int -> bool)
    requires Distinct(list) && !f(c)
    ensures Filter(Without(list, c), f) == Filter(list, f)
  {
    if list != [] && list[0] != c {
      WithoutFilter(list[1..], c, f);
    }
  }

  lemma HasEventStep(evs: seq<Event>, c: int)
    requires evs != []
    ensures HasEvent(evs, c) <==> (evs[0].mask != 0 && evs[0].fd == c) || HasEvent(evs[1..], c)
  {
    if i :| 0 <= i < |evs| && evs[i].mask != 0 && evs[i].fd == c {
      if i > 0 {
        assert evs[1..][i - 1] == evs[i];
      }
    }
    if i :| 0 <= i < |evs| - 1 && evs[1..][i].mask != 0 && evs[1..][i].fd == c {
      assert evs[i + 1].fd == c;
    }
  }

  lemma RequestedStep(s: Sock, t: Sock, evs: seq<Event>)
    requires evs != [] && s.comfd != s.readyfd
    requires t.comfd == s.comfd && t.readyfd == s.readyfd && t.ready == (s.ready || Announces(s, evs[0]))
    ensures Requested(s, evs) <==> (evs[0].mask != 0 && evs[0].fd == s.comfd && !s.ready) || Requested(t, evs[1..])
  {
    if i :| 0 <= i < |evs| && Requests(s, evs, i) {
      if i > 0 {
        ReadyShift(s, t, evs, i);
        assert evs[1..][i - 1] == evs[i];
        assert Requests(t, evs[1..], i - 1);
      }
    }
    if i :| 0 <= i < |evs| - 1 && Requests(t, evs[1..], i) {
      ReadyShift(s, t, evs, i + 1);
      assert evs[1..][i] == evs[i + 1];
      assert Requests(s, evs, i + 1);
    }
    if evs[0].mask != 0 && evs[0].fd == s.comfd && !s.ready {
      assert Requests(s, evs, 0);
    }
  }

  /** After a request has been taken no other one follows. */
  lemma OneRequest(s: Sock, t: Sock, evs: seq<Event>, wakeup: int, env: Env)
    requires evs != [] && Fresh(s, evs, wakeup, env) && evs[0].mask != 0 && evs[0].fd == s.comfd == t.comfd
    ensures !Requested(t, evs[1..])
  {
  }

  /** Events still to come do not concern a descriptor that has had its own. */
  lemma NoSecondEvent(s: Sock, evs: seq<Event>, wakeup: int, env: Env)
    requires evs != [] && Fresh(s, evs, wakeup, env) && evs[0].mask != 0
    ensures IsInternal(s, evs[0].fd) ==> !HasEvent(evs[1..], evs[0].fd)
    ensures evs[0].fd == s.comfd && !s.ready && env.accept(s.comfd) != -1 ==> !HasEvent(evs[1..], env.accept(s.comfd))
  {
    if Requests(s, evs, 0) {
      assert FreshAccept(s, evs, 0, wakeup, env);
    }
  }

  /** An event that ends none of the connections in the list makes no difference to which of them stay. */
  lemma StaysAgree(evs: seq<Event>, list: seq<int>, recv: int -> Recv)
    requires evs != []
    requires forall i :: 0 <= i < |list| ==> !(evs[0].mask != 0 && evs[0].fd == list[i] && Ends(recv(list[i])))
    ensures Filter(list, Stays(evs, recv)) == Filter(list, Stays(evs[1..], recv))
  {
    forall i | 0 <= i < |list| ensures Stays(evs, recv)(list[i]) == Stays(evs[1..], recv)(list[i]) {
      HasEventStep(evs, list[i]);
    }
    FilterAgrees(list, Stays(evs, recv), Stays(evs[1..], recv));
  }

  /** The connection of a request has no event in the rest of the batch, so it stays. */
  lemma RequestMembers(s: Sock, evs: seq<Event>, wakeup: int, interest: set<int>, env: Env)
    requires evs != [] && Proper(s, wakeup) && Fresh(s, evs, wakeup, env)
    requires evs[0].mask != 0 && evs[0].fd == s.comfd && !s.ready
    ensures var t := OnEvent(s, evs[0], wakeup, interest, env).sock;
      Filter(t.comfds, Stays(evs[1..], env.recv)) == Filter(s.comfds, Stays(evs, env.recv)) + NewConn(s, evs, env)
  {
    var g := Stays(evs[1..], env.recv);
    assert Requests(s, evs, 0);
    StaysAgree(evs, s.comfds, env.recv);
    if env.accept(s.comfd) != -1 {
      NoSecondEvent(s, evs, wakeup, env);
      FilterConcat(s.comfds, [env.accept(s.comfd)], g);
      FilterAll([env.accept(s.comfd)], g);
    } else {
      assert s.comfds + [] == s.comfds;
    }
  }

  lemma EndedMembers(evs: seq<Event>, list: seq<int>, recv: int -> Recv)
    requires evs != [] && Distinct(list) && evs[0].mask != 0 && Ends(recv(evs[0].fd))
    ensures Filter(Without(list, evs[0].fd), Stays(evs[1..], recv)) == Filter(list, Stays(evs, recv))
  {
    var c := evs[0].fd;
    WithoutDistinct(list, c);
    WithoutFilter(list, c, Stays(evs, recv));
    StaysAgree(evs, Without(list, c), recv);
  }

  /** The list of connections after one event and the rest of the batch. */
  lemma MembersStep(s: Sock, evs: seq<Event>, wakeup: int, interest: set<int>, env: Env)
    requires evs != [] && Proper(s, wakeup) && Fresh(s, evs, wakeup, env)
    ensures var t := OnEvent(s, evs[0], wakeup, interest, env).sock;
      Filter(t.comfds, Stays(evs[1..], env.recv)) + NewConn(t, evs[1..], env) ==
         Filter(s.comfds, Stays(evs, env.recv)) + NewConn(s, evs, env)
  {
    var ev, t := evs[0], OnEvent(s, evs[0], wakeup, interest, env).sock;
    EventMembers(s, ev, wakeup, interest, env, 0);
    RequestedStep(s, t, evs);
    if ev.mask != 0 && ev.fd == s.comfd && !s.ready {
      RequestMembers(s, evs, wakeup, interest, env);
      OneRequest(s, t, evs, wakeup, env);
    } else if ev.mask != 0 && ev.fd in s.comfds && Ends(env.recv(ev.fd)) {
      EndedMembers(evs, s.comfds, env.recv);
    } else {
      StaysAgree(evs, s.comfds, env.recv);
    }
  }

  lemma {:induction false} MembersOfBatch(s: Sock, evs: seq<Event>, wakeup: int, interest: set<int>, env: Env)
    requires Proper(s, wakeup) && Fresh(s, evs, wakeup, env)
    ensures OnEvents(s, evs, wakeup, interest, env).sock.comfds ==
            Filter(s.comfds, Stays(evs, env.recv)) + NewConn(s, evs, env)
    decreases evs
  {
    if evs == [] {
      FilterAll(s.comfds, Stays(evs, env.recv));
    } else {
      var one := OnEvent(s, evs[0], wakeup, interest, env);
      EventKeeps(s, evs, wakeup, interest, env);
      MembersStep(s, evs, wakeup, interest, env);
      MembersOfBatch(one.sock, evs[1..], wakeup, one.interest, env);
    }
  }

  lemma {:induction false} FilterAll(list: seq<int>, f: int -> bool)
    requires forall i :: 0 <= i < |list| ==> f(list[i])
    ensures Filter(list, f) == list
  {
    if list != [] {
      FilterAll(list[1..], f);
    }
  }

  /** Connection x has an event in the rest of the batch, or has it now, but not both. */
  lemma ServedLater(s: Sock, evs: seq<Event>, wakeup: int, interest: set<int>, env: Env, x: int)
    requires evs != [] && Proper(s, wakeup) && Fresh(s, evs, wakeup, env)
    ensures var t := OnEvent(s, evs[0], wakeup, interest, env).sock;
      x in t.comfds && HasEvent(evs[1..], x) <==>
      x in s.comfds && HasEvent(evs, x) && !(evs[0].mask != 0 && evs[0].fd == x)
  {
    EventMembers(s, evs[0], wakeup, interest, env, x);
    HasEventStep(evs, x);
    if evs[0].mask != 0 {
      NoSecondEvent(s, evs, wakeup, env);
    }
  }

  /** What happens on connection x if it has an event: one read and its answer. */
  function Served(s: Sock, x: int, due: bool, r: Recv): seq<Call> {
    if due then [Receive(x)] + Reply(s, x, r) else []
  }

  /** What happens on connection x during the batch. */
  lemma {:induction false} ServedInBatch(s: Sock, evs: seq<Event>, wakeup: int, interest: set<int>, env: Env, x: int)
    requires Proper(s, wakeup) && Fresh(s, evs, wakeup, env)
    ensures On(OnEvents(s, evs, wakeup, interest, env).calls, x) ==
            Served(s, x, x in s.comfds && HasEvent(evs, x), env.recv(x))
    decreases evs
  {
    if evs != [] {
      var one := OnEvent(s, evs[0], wakeup, interest, env);
      EventKeeps(s, evs, wakeup, interest, env);
      ServedInBatch(one.sock, evs[1..], wakeup, one.interest, env, x);
      ServedNow(s, evs[0], wakeup, interest, env, x);
      ServedLater(s, evs, wakeup, interest, env, x);
      HasEventStep(evs, x);
      OnConcat(one.calls, OnEvents(one.sock, evs[1..], wakeup, one.interest, env).calls, x);
      SameReply(s, one.sock, x, env.recv(x));
    }
  }

  lemma SameReply(s: Sock, t: Sock, x: int, r: Recv)
    requires t == s.(comfds := t.comfds, ready := t.ready, comfdClose := t.comfdClose)
    ensures Reply(s, x, r) == Reply(t, x, r)
  {
  }

  lemma ServedNow(s: Sock, ev: Event, wakeup: int, interest: set<int>, env: Env, x: int)
    requires Proper(s, wakeup)
    ensures On(OnEvent(s, ev, wakeup, interest, env).calls, x) ==
            Served(s, x, x in s.comfds && ev.mask != 0 && ev.fd == x, env.recv(x))
  {
    OnOne(Accept(s.comfd), x);
    OnOne(RecvPing(wakeup), x);
    AnswerOn(s, ev.fd, env.recv(ev.fd), x);
  }

  lemma BatchMembers(s: Sock, evs: seq<Event>, wakeup: int, interest: set<int>, env: Env)
    requires Proper(s, wakeup) && Fresh(s, evs, wakeup, env)
    ensures HandleBatch(s, evs, wakeup, interest, env).sock.comfds ==
            Filter(s.comfds, Stays(evs, env.recv)) + NewConn(s, evs, env)
  {
    SameFresh(s, Reported(s), evs, wakeup, env);
    MembersOfBatch(Reported(s), evs, wakeup, interest, env);
    SameRequests(s, Reported(s), evs);
  }

  lemma BatchServes(s: Sock, evs: seq<Event>, wakeup: int, interest: set<int>, env: Env, x: int)
    requires Proper(s, wakeup) && Fresh(s, evs, wakeup, env) && x != s.comfdClose
    ensures On(HandleBatch(s, evs, wakeup, interest, env).calls, x) ==
            if x in s.comfds && HasEvent(evs, x) then [Receive(x)] + Reply(s, x, env.recv(x)) else []
  {
    var r := Reported(s);
    SameFresh(s, r, evs, wakeup, env);
    ServedInBatch(r, evs, wakeup, interest, env, x);
    OnConcat(Report(s, env), OnEvents(r, evs, wakeup, interest, env).calls, x);
    ReportElsewhere(s, env, x);
    SameReply(s, r, x, env.recv(x));
  }

  lemma SameRequests(s: Sock, r: Sock, evs: seq<Event>)
    requires r == s.(comfdClose := r.comfdClose)
    ensures Requested(r, evs) <==> Requested(s, evs)
  {
    assert forall j :: 0 <= j < |evs| ==> Announces(r, evs[j]) == Announces(s, evs[j]);
    assert forall i :: 0 <= i < |evs| ==> Requests(r, evs, i) == Requests(s, evs, i);
  }

  lemma SameFresh(s: Sock, r: Sock, evs: seq<Event>, wakeup: int, env: Env)
    requires Fresh(s, evs, wakeup, env) && r == s.(comfdClose := r.comfdClose)
    ensures Fresh(r, evs, wakeup, env)
  {
    assert forall j :: 0 <= j < |evs| ==> Announces(r, evs[j]) == Announces(s, evs[j]);
    forall i | 0 <= i < |evs| && Requests(r, evs, i) ensures FreshAccept(r, evs, i, wakeup, env) {
      assert Requests(s, evs, i);
      assert FreshAccept(s, evs, i, wakeup, env);
    }
  }

  lemma ReportElsewhere(s: Sock, env: Env, x: int)
    requires x != s.comfdClose
    ensures On(Report(s, env), x) == []
  {
    if s.comfdClose > 0 {
      OnOne(SendReady(s.comfdClose), x);
      OnOne(Close(s.comfdClose), x);
      OnConcat([SendReady(s.comfdClose)], [Close(s.comfdClose)], x);
    }
  }

  // ----- The interest set -----

  /** How the batch changes the socket and the interest set, descriptor by descriptor. */
  lemma {:induction false} EventsInterest(s: Sock, evs: seq<Event>, wakeup: int, interest: set<int>, env: Env, x: int)
    requires Proper(s, wakeup) && Fresh(s, evs, wakeup, env)
    ensures var p := OnEvents(s, evs, wakeup, interest, env);
      && p.sock == s.(comfds := p.sock.comfds, ready := s.ready || HasEvent(evs, s.readyfd))
      && (x in p.interest <==>
            && x in interest && !(x == s.readyfd && HasEvent(evs, x))
            && !(x in s.comfds && HasEvent(evs, x) && Ends(env.recv(x))))
      && (x in p.sock.comfds ==> x in s.comfds || (x == env.accept(s.comfd) && x != -1))
      && (x in s.comfds && x in p.interest ==> x in p.sock.comfds)
    decreases evs
  {
    if evs != [] {
      var ev, one := evs[0], OnEvent(s, evs[0], wakeup, interest, env);
      EventKeeps(s, evs, wakeup, interest, env);
      EventMembers(s, ev, wakeup, interest, env, x);
      HasEventStep(evs, x);
      HasEventStep(evs, s.readyfd);
      if ev.mask != 0 {
        NoSecondEvent(s, evs, wakeup, env);
      }
      EventsInterest(one.sock, evs[1..], wakeup, one.interest, env, x);
    }
  }

  /** What the batch does to descriptor x through socket s, whose shadow is t afterwards. */
  predicate Affects(s: Sock, t: Sock, before: set<int>, after: set<int>, env: Env, x: int) {
    && SameSock(s, t)
    && (x in after ==> x in before)
    && (!IsInternal(s, x) && x in before ==> x in after)
    && (x == s.comfd && x in before ==> x in after)
    && (x == s.readyfd && !s.ready && x in before ==> (x in after <==> !t.ready))
    && (x in t.comfds ==> x in s.comfds || (x == env.accept(s.comfd) && x != -1))
    && (x in s.comfds && x in after ==> x in t.comfds)
  }

  lemma BatchInterest(s: Sock, evs: seq<Event>, wakeup: int, interest: set<int>, env: Env, x: int)
    requires Proper(s, wakeup) && Fresh(s, evs, wakeup, env)
    ensures var p := HandleBatch(s, evs, wakeup, interest, env); Affects(s, p.sock, interest, p.interest, env, x)
  {
    SameFresh(s, Reported(s), evs, wakeup, env);
    EventsInterest(Reported(s), evs, wakeup, interest, env, x);
  }

  /** The same for all sockets: only the socket that x belongs to can take it out. */
  predicate AllAffect(socks: seq<Sock>, after: seq<Sock>, before: set<int>, left: set<int>, env: Env, x: int) {
    && |after| == |socks|
    && (forall t :: 0 <= t < |socks| ==>
          && SameSock(socks[t], after[t])
          && (x in after[t].comfds ==> x in socks[t].comfds || (x == env.accept(socks[t].comfd) && x != -1))
          && (x in socks[t].comfds && x in left ==> x in after[t].comfds)
          && (x == socks[t].readyfd && !socks[t].ready && x in before ==> (x in left <==> !after[t].ready)))
    && (x in left ==> x in before)
    && ((forall t :: 0 <= t < |socks| ==> !IsInternal(socks[t], x)) && x in before ==> x in left)
  }

  lemma {:induction false} AllInterest(socks: seq<Sock>, evs: seq<Event>, wakeup: int, interest: set<int>, env: Env,
                                       x: int)
    requires AllProper(socks, wakeup) && AllFresh(socks, evs, wakeup, interest, env)
    ensures var h := HandleAll(socks, evs, wakeup, interest, env);
      AllAffect(socks, h.socks, interest, h.interest, env, x)
    decreases socks
  {
    if socks != [] {
      var s, rest, p := socks[0], socks[1..], HandleBatch(socks[0], evs, wakeup, interest, env);
      TailProper(socks, wakeup);
      AllInterest(rest, p.evs, wakeup, p.interest, env, x);
      FirstInterest(s, rest, evs, wakeup, interest, env, HandleAll(rest, p.evs, wakeup, p.interest, env), x);
      assert [s] + rest == socks;
    }
  }

  lemma TailProper(socks: seq<Sock>, wakeup: int)
    requires socks != [] && AllProper(socks, wakeup)
    ensures AllProper(socks[1..], wakeup) && AllProper([socks[0]] + socks[1..], wakeup)
  {
    assert [socks[0]] + socks[1..] == socks;
  }

  lemma FirstInterest(s: Sock, rest: seq<Sock>, evs: seq<Event>, wakeup: int, interest: set<int>, env: Env, tail: All,
                      x: int)
    requires AllProper([s] + rest, wakeup) && Fresh(s, evs, wakeup, env)
    requires AllAffect(rest, tail.socks, HandleBatch(s, evs, wakeup, interest, env).interest, tail.interest, env, x)
    ensures var p := HandleBatch(s, evs, wakeup, interest, env);
      AllAffect([s] + rest, [p.sock] + tail.socks, interest, tail.interest, env, x)
  {
    var p := HandleBatch(s, evs, wakeup, interest, env);
    assert ([s] + rest)[0] == s;
    BatchInterest(s, evs, wakeup, interest, env, x);
    AffectCons(s, p.sock, rest, tail.socks, interest, p.interest, tail.interest, env, x, wakeup);
  }

  lemma AffectCons(s: Sock, t: Sock, rest: seq<Sock>, after: seq<Sock>, i0: set<int>, i1: set<int>, i2: set<int>,
                   env: Env, x: int, wakeup: int)
    requires AllProper([s] + rest, wakeup)
    requires Affects(s, t, i0, i1, env, x) && AllAffect(rest, after, i1, i2, env, x)
    ensures AllAffect([s] + rest, [t] + after, i0, i2, env, x)
  {
    var all := [s] + rest;
    forall u | 0 <= u < |rest| ensures Disjoint(s, rest[u]) {
      assert Disjoint(all[0], all[u + 1]);
    }
    assert Proper(all[0], wakeup);
    if forall u :: 0 <= u < |all| ==> !IsInternal(all[u], x) {
      assert !IsInternal(all[0], x);
      forall u | 0 <= u < |rest| ensures !IsInternal(rest[u], x) {
        assert all[u + 1] == rest[u];
      }
    }
  }

  /** The application's descriptors, open or bound, are none of the library's. */
  predicate Separate(socks: seq<Sock>, wakeup: int, user: set<int>) {
    && wakeup !in user
    && (forall t, u :: 0 <= t < |socks| && 0 <= u < |socks| ==>
          socks[t].fd != wakeup && !IsInternal(socks[u], socks[t].fd))
    && (forall x, t :: x in user && 0 <= t < |socks| ==>
          !IsInternal(socks[t], x) && (socks[t].comfdClose > 0 ==> x != socks[t].comfdClose))
  }

  predicate DroppedBySome(socks: seq<Sock>, x: int) {
    exists t :: 0 <= t < |socks| && x in Dropped(socks[t])
  }

  predicate AddedBySome(socks: seq<Sock>, wakeup: int, x: int) {
    exists t :: 0 <= t < |socks| && x in Added(socks[t], wakeup)
  }

  /** No socket drops what another one adds. */
  predicate NoConflict(socks: seq<Sock>, wakeup: int, x: int) {
    forall t, u :: 0 <= t < |socks| && 0 <= u < |socks| && t != u ==>
      !(x in Added(socks[t], wakeup) && x in Dropped(socks[u]))
  }

  lemma {:induction false} PrepareMeaning(socks: seq<Sock>, wakeup: int, interest: set<int>, x: int)
    requires NoConflict(socks, wakeup, x) && !DroppedBySome(socks, wakeup)
    ensures x in Prepare(socks, wakeup, interest) <==>
            (x in interest && !DroppedBySome(socks, x)) || AddedBySome(socks, wakeup, x)
    decreases socks
  {
    if socks != [] {
      var rest, next := socks[1..], interest + {wakeup} - Dropped(socks[0]) + Watched(socks[0]);
      assert forall t :: 0 <= t < |rest| ==> rest[t] == socks[t + 1];
      assert NoConflict(rest, wakeup, x) && wakeup !in Dropped(socks[0]);
      PrepareMeaning(rest, wakeup, next, x);
      assert DroppedBySome(socks, x) <==> x in Dropped(socks[0]) || DroppedBySome(rest, x);
      assert AddedBySome(socks, wakeup, x) <==> x in Added(socks[0], wakeup) || AddedBySome(rest, wakeup, x);
    }
  }

  lemma {:induction false} CleanupMeaning(socks: seq<Sock>, interest: set<int>, x: int)
    ensures x in Cleanup(socks, interest) <==>
            x in interest && forall t :: 0 <= t < |socks| ==> x != socks[t].comfd && x !in socks[t].comfds
    decreases socks
  {
    if socks != [] {
      ElemsIn(socks[0].comfds, x);
      CleanupMeaning(socks[1..], interest - {socks[0].comfd} - Elems(socks[0].comfds), x);
    }
  }

  /** The sockets do not work against each other in preparing the interest set. */
  lemma PrepareApart(socks: seq<Sock>, wakeup: int, user: set<int>, x: int)
    requires AllProper(socks, wakeup) && Separate(socks, wakeup, user)
    ensures NoConflict(socks, wakeup, x) && !DroppedBySome(socks, wakeup)
  {
    forall t, u | 0 <= t < |socks| && 0 <= u < |socks| && t != u
      ensures !(x in Added(socks[t], wakeup) && x in Dropped(socks[u]))
    {
      ElemsIn(socks[t].comfds, x);
      assert if t < u then Disjoint(socks[t], socks[u]) else Disjoint(socks[u], socks[t]);
      assert Proper(socks[u], wakeup);
    }
    forall t | 0 <= t < |socks| ensures wakeup !in Dropped(socks[t]) {
      assert Proper(socks[t], wakeup);
    }
  }

  /** Of the application's descriptors, the retired ones are dropped. */
  lemma UserDropped(socks: seq<Sock>, wakeup: int, user: set<int>, x: int)
    requires Separate(socks, wakeup, user) && x in user
    ensures x in Retired(socks) <==> DroppedBySome(socks, x)
  {
    forall t | 0 <= t < |socks| ensures x in Dropped(socks[t]) <==> socks[t].ready && socks[t].fd == x {
      assert !IsInternal(socks[t], x);
    }
    forall t | 0 <= t < |socks| && x in Dropped(socks[t]) ensures x in Retired(socks) {
      assert socks[t] in socks;
    }
  }

  /** Between calls the interest set holds the application's descriptors and latches, nothing else. */
  predicate Fits(socks: seq<Sock>, interest: set<int>, user: set<int>) {
    && user <= interest
    && forall y :: y in interest ==> y in user || exists t :: 0 <= t < |socks| && y == socks[t].readyfd
  }

  /** The interest set during the kernel's wait: a retired public descriptor is not in it, even if put back. */
  lemma PreparedSet(socks: seq<Sock>, wakeup: int, interest: set<int>, user: set<int>, x: int)
    requires AllProper(socks, wakeup) && Separate(socks, wakeup, user)
    requires Fits(socks, interest, user)
    ensures x in Prepare(socks, wakeup, interest) <==>
            (x in user && x !in Retired(socks)) || AddedBySome(socks, wakeup, x)
  {
    PrepareApart(socks, wakeup, user, x);
    PrepareMeaning(socks, wakeup, interest, x);
    if t :| 0 <= t < |socks| && x == socks[t].readyfd {
      LatchPrepared(socks, wakeup, x, t);
      assert x !in user;
    } else if x in user {
      UserDropped(socks, wakeup, user, x);
    }
  }

  lemma LatchPrepared(socks: seq<Sock>, wakeup: int, x: int, t: nat)
    requires t < |socks| && x == socks[t].readyfd
    ensures socks[t].ready ==> DroppedBySome(socks, x)
    ensures !socks[t].ready ==> AddedBySome(socks, wakeup, x)
  {
    if socks[t].ready {
      assert x in Dropped(socks[t]);
    } else {
      assert x in Added(socks[t], wakeup);
    }
  }

  /** Of each socket, the connections are watched, and the listener is if and only if the socket is not ready. */
  predicate Watching(socks: seq<Sock>, interest: set<int>) {
    forall t :: 0 <= t < |socks| ==>
      && (socks[t].comfd in interest <==> !socks[t].ready)
      && (forall i :: 0 <= i < |socks[t].comfds| ==> socks[t].comfds[i] in interest)
  }

  lemma WakeupWatched(socks: seq<Sock>, wakeup: int, interest: set<int>, user: set<int>)
    requires AllProper(socks, wakeup) && Separate(socks, wakeup, user) && Fits(socks, interest, user)
    ensures wakeup in Prepare(socks, wakeup, interest) <==> socks != []
  {
    if socks == [] {
      assert wakeup !in interest;
    } else {
      PreparedSet(socks, wakeup, interest, user, wakeup);
      assert wakeup in Added(socks[0], wakeup);
    }
  }

  /** During the wait exactly the connections, and the listeners of sockets that are not ready, are watched. */
  lemma InternalWatched(socks: seq<Sock>, wakeup: int, interest: set<int>, user: set<int>)
    requires AllProper(socks, wakeup) && Separate(socks, wakeup, user) && Fits(socks, interest, user)
    ensures Watching(socks, Prepare(socks, wakeup, interest) - {wakeup})
  {
    var prepared := Prepare(socks, wakeup, interest);
    forall t, c | 0 <= t < |socks| && (c == socks[t].comfd || c in socks[t].comfds)
      ensures c != wakeup && (c in prepared <==> c in socks[t].comfds || !socks[t].ready)
    {
      OneWatched(socks, wakeup, interest, user, t, c);
    }
  }

  lemma OneWatched(socks: seq<Sock>, wakeup: int, interest: set<int>, user: set<int>, t: nat, c: int)
    requires AllProper(socks, wakeup) && Separate(socks, wakeup, user) && Fits(socks, interest, user)
    requires t < |socks| && (c == socks[t].comfd || c in socks[t].comfds)
    ensures c != wakeup && (c in Prepare(socks, wakeup, interest) <==> c in socks[t].comfds || !socks[t].ready)
  {
    assert Proper(socks[t], wakeup) && IsInternal(socks[t], c);
    PreparedSet(socks, wakeup, interest, user, c);
    ElemsIn(socks[t].comfds, c);
    assert c in Added(socks[t], wakeup) <==> c in socks[t].comfds || !socks[t].ready;
    forall u | 0 <= u < |socks| && u != t ensures c !in Added(socks[u], wakeup) {
      assert if t < u then Disjoint(socks[t], socks[u]) else Disjoint(socks[u], socks[t]);
      ElemsIn(socks[u].comfds, c);
    }
  }

  /** Sockets that are not ready, by their latch. */
  predicate LatchOfWaiting(socks: seq<Sock>, x: int) {
    exists t :: 0 <= t < |socks| && x == socks[t].readyfd && !socks[t].ready
  }

  // ----- The report of a new version -----

  lemma {:induction false} EventsSilent(s: Sock, evs: seq<Event>, wakeup: int, interest: set<int>, env: Env, c: int)
    ensures var p := OnEvents(s, evs, wakeup, interest, env);
      SendReady(c) !in p.calls && p.sock.comfdClose == s.comfdClose
    decreases evs
  {
    if evs != [] {
      var one := OnEvent(s, evs[0], wakeup, interest, env);
      EventsSilent(one.sock, evs[1..], wakeup, one.interest, env, c);
    }
  }

  predicate Owed(socks: seq<Sock>, c: int) {
    exists t :: 0 <= t < |socks| && socks[t].comfdClose == c
  }

  /**
    Ready is sent by the first return after the handover, be it a failure, on
    exactly the connections that sockets were inherited over, and never again:
    no socket owes it afterwards.
   */
  lemma {:induction false} ReportedAtOnce(socks: seq<Sock>, evs: seq<Event>, wakeup: int, interest: set<int>,
                                          env: Env, c: int)
    ensures var h := HandleAll(socks, evs, wakeup, interest, env);
      && (SendReady(c) in h.calls <==> c > 0 && Owed(socks, c))
      && |h.socks| == |socks| && forall t :: 0 <= t < |socks| ==> h.socks[t].comfdClose <= 0
    decreases socks
  {
    if socks != [] {
      var s, rest, p := socks[0], socks[1..], HandleBatch(socks[0], evs, wakeup, interest, env);
      EventsSilent(Reported(s), evs, wakeup, interest, env, c);
      ReportedAtOnce(rest, p.evs, wakeup, p.interest, env, c);
      assert forall t :: 0 < t < |socks| ==> socks[t] == rest[t - 1];
      assert Owed(socks, c) <==> s.comfdClose == c || Owed(rest, c);
    }
  }

  // ----- The library's descriptors stay distinct -----

  /** A connection accepted in the batch is not a descriptor of the sockets handled before or to be handled after. */
  predicate AllNew(done: seq<Sock>, socks: seq<Sock>, evs: seq<Event>, wakeup: int, interest: set<int>, env: Env)
    decreases socks
  {
    socks == [] || (
      && (forall c, o :: c in NewConn(socks[0], evs, env) && o in done + socks[1..] ==> !IsInternal(o, c))
      && var p := HandleBatch(socks[0], evs, wakeup, interest, env);
         AllNew(done + [p.sock], socks[1..], p.evs, wakeup, p.interest, env))
  }

  lemma {:induction false} FilterIn(list: seq<int>, f: int -> bool, x: int)
    ensures x in Filter(list, f) ==> x in list
  {
    if list != [] {
      FilterIn(list[1..], f, x);
    }
  }

  lemma {:induction false} EventsProper(s: Sock, evs: seq<Event>, wakeup: int, interest: set<int>, env: Env)
    requires Proper(s, wakeup) && Fresh(s, evs, wakeup, env)
    ensures Proper(OnEvents(s, evs, wakeup, interest, env).sock, wakeup)
    decreases evs
  {
    if evs != [] {
      var one := OnEvent(s, evs[0], wakeup, interest, env);
      EventKeeps(s, evs, wakeup, interest, env);
      EventsProper(one.sock, evs[1..], wakeup, one.interest, env);
    }
  }

  /** A batch keeps a socket fit, and gives it no descriptor but the new connection. */
  lemma BatchProper(s: Sock, evs: seq<Event>, wakeup: int, interest: set<int>, env: Env, x: int)
    requires Proper(s, wakeup) && Fresh(s, evs, wakeup, env)
    ensures var t := HandleBatch(s, evs, wakeup, interest, env).sock;
      && Proper(t, wakeup)
      && (IsInternal(t, x) ==> IsInternal(s, x) || x in NewConn(s, evs, env))
  {
    SameFresh(s, Reported(s), evs, wakeup, env);
    EventsProper(Reported(s), evs, wakeup, interest, env);
    EventsInterest(Reported(s), evs, wakeup, interest, env, x);
    BatchMembers(s, evs, wakeup, interest, env);
    FilterIn(s.comfds, Stays(evs, env.recv), x);
  }

  lemma ReplaceProper(done: seq<Sock>, s: Sock, t: Sock, rest: seq<Sock>, wakeup: int, added: seq<int>)
    requires AllProper(done + [s] + rest, wakeup) && Proper(t, wakeup)
    requires forall x :: IsInternal(t, x) ==> IsInternal(s, x) || x in added
    requires forall c, o :: c in added && o in done + rest ==> !IsInternal(o, c)
    ensures AllProper(done + [t] + rest, wakeup)
  {
    var all, all' := done + [s] + rest, done + [t] + rest;
    assert forall i :: 0 <= i < |all| && i != |done| ==> all'[i] == all[i] && all[i] in done + rest;
    forall i, j | 0 <= i < j < |all| ensures Disjoint(all'[i], all'[j]) {
      assert Disjoint(all[i], all[j]);
    }
    forall i | 0 <= i < |all| ensures Proper(all'[i], wakeup) {
      assert Proper(all[i], wakeup);
    }
  }

  /** Handling a batch keeps all of the library's descriptors different. */
  lemma {:induction false} ProperKept(done: seq<Sock>, socks: seq<Sock>, evs: seq<Event>, wakeup: int,
                                      interest: set<int>, env: Env)
    requires AllProper(done + socks, wakeup)
    requires AllFresh(socks, evs, wakeup, interest, env) && AllNew(done, socks, evs, wakeup, interest, env)
    ensures AllProper(done + HandleAll(socks, evs, wakeup, interest, env).socks, wakeup)
    decreases socks
  {
    if socks != [] {
      var s, rest, p := socks[0], socks[1..], HandleBatch(socks[0], evs, wakeup, interest, env);
      assert done + socks == done + [s] + rest;
      ProperAtTurn(done, s, rest, evs, wakeup, interest, env);
      ProperKept(done + [p.sock], rest, p.evs, wakeup, p.interest, env);
      Assoc(done, [p.sock], HandleAll(rest, p.evs, wakeup, p.interest, env).socks);
    }
  }

  lemma ProperAtTurn(done: seq<Sock>, s: Sock, rest: seq<Sock>, evs: seq<Event>, wakeup: int, interest: set<int>,
                     env: Env)
    requires AllProper(done + [s] + rest, wakeup) && Fresh(s, evs, wakeup, env)
    requires forall c, o :: c in NewConn(s, evs, env) && o in done + rest ==> !IsInternal(o, c)
    ensures AllProper(done + [HandleBatch(s, evs, wakeup, interest, env).sock] + rest, wakeup)
  {
    var t := HandleBatch(s, evs, wakeup, interest, env).sock;
    assert Proper((done + [s] + rest)[|done|], wakeup);
    forall x ensures IsInternal(t, x) ==> IsInternal(s, x) || x in NewConn(s, evs, env) {
      BatchProper(s, evs, wakeup, interest, env, x);
    }
    BatchProper(s, evs, wakeup, interest, env, 0);
    ReplaceProper(done, s, t, rest, wakeup, NewConn(s, evs, env));
  }
}
