/**
  The two ends of an internal connection together: what a worker of the old
  version writes while it handles a round of events, and what `bind` in the
  new version reads.
 */
module Inherit {
  import opened Internals
  import Core
  import Select
  import Epoll
  import EpollBatch

  /** One message on an internal connection: a descriptor, and the port beside it. */
  datatype Message = Message(fd: int, port: int)

  /** The messages that the calls send on connection c, in order. */
  function Sent(calls: seq<Call>, c: int): seq<Message> {
    if calls == [] then []
    else
      (if calls[0].SendFd? && calls[0].on == c then [Message(calls[0].fd, calls[0].port)] else [])
      + Sent(calls[1..], c)
  }

  /** How often the calls close descriptor c. */
  function Closes(calls: seq<Call>, c: int): nat {
    if calls == [] then 0 else (if calls[0] == Close(c) then 1 else 0) + Closes(calls[1..], c)
  }

  /** The two reads of dsu_inherit_fd; a read that finds nothing leaves its variables alone. */
  function TwoReads(ms: seq<Message>, dup2: bool): Core.Inheritance {
    var port := if ms == [] then 0 else ms[0].port;
    if |ms| < 2 then Core.Received(port, 0, dup2) else Core.Received(ms[1].port, ms[1].fd, dup2)
  }

  /** What happens on c decides what is sent on c, and how often c is closed. */
  lemma {:induction false} OnlyOn(calls: seq<Call>, c: int)
    ensures Sent(calls, c) == Sent(On(calls, c), c)
    ensures Closes(calls, c) == Closes(On(calls, c), c)
  {
    if calls != [] {
      OnlyOn(calls[1..], c);
      if About(calls[0], c) {
        assert On(calls, c)[0] == calls[0] && On(calls, c)[1..] == On(calls[1..], c);
      } else {
        assert On(calls, c) == On(calls[1..], c);
      }
    }
  }

  /** The reply to a connection, message by message. */
  lemma ReplySends(s: Sock, c: int, r: Recv)
    ensures var calls := [Receive(c)] + Reply(s, c, r);
      && Sent(calls, c) == (if r.Error? then [Message(s.fd, -1), Message(s.comfd, -1)]
                            else if r.Data? && r.value != 1 then [Message(s.fd, s.port), Message(s.comfd, s.port)]
                            else [])
      && Closes(calls, c) == (if Ends(r) then 1 else 0)
  {
    var calls, reply := [Receive(c)] + Reply(s, c, r), Reply(s, c, r);
    assert calls[1..] == reply && Sent(calls, c) == Sent(reply, c) && Closes(calls, c) == Closes(reply, c);
    if |reply| == 1 {
      assert reply[1..] == [] && Sent(reply, c) == Sent([], c) && Closes(reply, c) == 1 + Closes([], c);
    } else if |reply| == 2 {
      var last := reply[1..];
      assert last == [reply[1]] && last[1..] == [];
      assert Sent(last, c) == [Message(reply[1].fd, reply[1].port)] + Sent([], c);
      assert Sent(reply, c) == [Message(reply[0].fd, reply[0].port)] + Sent(last, c);
      assert Closes(reply, c) == Closes(last, c) == Closes([], c);
    }
  }

  /** An integer that is read as a request; 1 means ready. */
  predicate Request(r: Recv) {
    r.Data? && r.value != 1
  }

  /** What the client must get from the socket that answers: its monitor descriptor, its port, its public descriptor. */
  predicate Handed(s: Sock, calls: seq<Call>, c: int, dup2: bool) {
    var ms := Sent(calls, c);
    && |ms| == 2 && ms[0].fd == s.fd
    && TwoReads(ms, dup2) == Core.Received(s.port, s.comfd, dup2)
  }

  /** bind inherits from what was sent on x. */
  predicate Inherited(calls: seq<Call>, x: int, dup2: bool) {
    Core.Inherits(Core.InUse(TwoReads(Sent(calls, x), dup2)))
  }

  /**
    A request is answered, read back and inherited.  After one round of the
    select wrapper over all sockets, the client's two reads give it the public
    and monitor descriptors of the socket that it connected to and its port, in
    this order, and `bind` inherits if and only if its message was read as a
    request, the port is positive and dup2 succeeds.
   */
  lemma SelectHandsOver(socks: seq<Sock>, bits: set<int>, env: Env, t: nat, x: int, dup2: bool)
    requires AllSound(socks) && Select.AllOpen(socks, bits, env.open)
    requires FreeAccepts(env.open, Select.Round(socks, bits, env).calls, env)
    requires forall u :: 0 <= u < |socks| ==> socks[u].comfdClose != x
    requires t < |socks| && x in socks[t].comfds && x in bits
    ensures var calls := Select.Round(socks, bits, env).calls;
      && (Request(env.recv(x)) ==> Handed(socks[t], calls, x, dup2))
      && (Inherited(calls, x, dup2) <==> Request(env.recv(x)) && socks[t].port > 0 && dup2)
  {
    Select.RoundConnections(socks, bits, env, x);
    OnlyOn(Select.Round(socks, bits, env).calls, x);
    ReplySends(socks[t], x, env.recv(x));
  }

  /** The same for one batch of the epoll wrapper. */
  lemma EpollHandsOver(socks: seq<Sock>, evs: seq<Epoll.Event>, wakeup: int, interest: set<int>, env: Env, t: nat,
                       x: int, dup2: bool)
    requires Epoll.AllProper(socks, wakeup) && EpollBatch.KernelBatch(socks, evs, wakeup, interest, env)
    requires forall u :: 0 <= u < |socks| ==> socks[u].comfdClose != x
    requires t < |socks| && x in socks[t].comfds && Epoll.HasEvent(evs, x)
    ensures var calls := Epoll.HandleAll(socks, evs, wakeup, interest, env).calls;
      && (Request(env.recv(x)) ==> Handed(socks[t], calls, x, dup2))
      && (Inherited(calls, x, dup2) <==> Request(env.recv(x)) && socks[t].port > 0 && dup2)
  {
    EpollBatch.BatchConnections(socks, evs, wakeup, interest, env, x);
    OnlyOn(Epoll.HandleAll(socks, evs, wakeup, interest, env).calls, x);
    ReplySends(socks[t], x, env.recv(x));
  }

  /**
    In a round of the select wrapper a connection is closed exactly once if it
    has traffic and what is read ends it, and not at all otherwise, also when
    its number is accepted again in the same round.
   */
  lemma SelectClosesEnded(socks: seq<Sock>, bits: set<int>, env: Env, x: int)
    requires AllSound(socks) && Select.AllOpen(socks, bits, env.open)
    requires FreeAccepts(env.open, Select.Round(socks, bits, env).calls, env)
    requires forall u :: 0 <= u < |socks| ==> socks[u].comfdClose != x
    ensures Closes(Select.Round(socks, bits, env).calls, x) ==
            if Select.Pending(socks, bits, x) && Ends(env.recv(x)) then 1 else 0
  {
    Select.RoundConnections(socks, bits, env, x);
    OnlyOn(Select.Round(socks, bits, env).calls, x);
    if Select.Pending(socks, bits, x) {
      var t :| 0 <= t < |socks| && x in socks[t].comfds;
      ReplySends(socks[t], x, env.recv(x));
    }
  }

  /** The same for a batch of the epoll wrapper. */
  lemma EpollClosesEnded(socks: seq<Sock>, evs: seq<Epoll.Event>, wakeup: int, interest: set<int>, env: Env, x: int)
    requires Epoll.AllProper(socks, wakeup) && EpollBatch.KernelBatch(socks, evs, wakeup, interest, env)
    requires forall u :: 0 <= u < |socks| ==> socks[u].comfdClose != x
    ensures Closes(Epoll.HandleAll(socks, evs, wakeup, interest, env).calls, x) ==
            if EpollBatch.Pending(socks, evs, x) && Ends(env.recv(x)) then 1 else 0
  {
    EpollBatch.BatchConnections(socks, evs, wakeup, interest, env, x);
    OnlyOn(Epoll.HandleAll(socks, evs, wakeup, interest, env).calls, x);
    if EpollBatch.Pending(socks, evs, x) {
      var o :| o in socks && x in o.comfds;
      ReplySends(o, x, env.recv(x));
    }
  }
}
