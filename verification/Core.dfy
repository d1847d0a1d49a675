/**
  The shadow state of a process and the wrappers that maintain it.

  `sockets` holds a node for every socket the application created, `binds` a
  node for every socket it has bound.
 */
module Core {
  import opened ShadowLists

  /** struct dsu_socket_list without its link. */
  datatype Shadow = Shadow(
    fd: int,
    port: int,
    comfds: List<int>,
    comfd: int,
    comfdClose: int,
    readyfd: int,
    markreadyfd: int,
    ready: bool)

  /** How the attempt to bind the abstract name of the port went. */
  datatype Monitor =
    | Bound
    | InUse(got: Inheritance)
    | Refused

  /** What came back from the version that holds the name. */
  datatype Inheritance =
    | Nothing
    | Received(port: int, comfd: int, dup2: bool)

  function FdOf(s: Shadow): int { s.fd }

  /** The first node of a list for descriptor fd, as an index. */
  function IndexOf(s: seq<Shadow>, fd: int): nat { Find(s, FdOf, fd) }

  /** The first descriptor and a positive port came back, and dup2 put the descriptor in place. */
  predicate Inherits(monitor: Monitor) {
    monitor.InUse? && monitor.got.Received? && monitor.got.port > 0 && monitor.got.dup2
  }

  class ProgramState {
    const sockets: List<Shadow>
    const binds: List<Shadow>

    ghost predicate Valid()
      reads this, sockets, binds, sockets.repr, binds.repr
    {
      sockets.Valid() && binds.Valid() && sockets.repr !! binds.repr
    }

    constructor ()
      ensures Valid() && sockets.contents == binds.contents == []
    {
      sockets := new List();
      binds := new List();
    }

    /** socket(): a node for every descriptor but 0; `garbage` is the field that is not initialised. */
    method Socket(sockfd: int, garbage: int)
      requires Valid()
      modifies sockets.repr
      ensures Valid() && binds.contents == old(binds.contents)
      ensures sockfd <= 0 ==> sockets.contents == old(sockets.contents)
      ensures sockfd > 0 ==>
        && |sockets.contents| == |old(sockets.contents)| + 1
        && var v := sockets.contents[|old(sockets.contents)|];
           && sockets.contents == old(sockets.contents) + [v]
           && v.fd == sockfd && v.port == 0 && v.comfd == v.comfdClose == v.readyfd == -1
           && !v.ready && v.comfds.Valid() && v.comfds.contents == []
    {
      if sockfd > 0 {
        var comfds := new List();
        var v := Shadow(sockfd, 0, comfds, -1, -1, -1, garbage, false);
        sockets.Append(v);
      }
    }

    /** Appends a copy of the node to binds, then frees the first node of sockets with its descriptor. */
    method Transfer(node: Node<Shadow>)
      requires Valid() && sockets.Live(node)
      modifies sockets.repr, binds.repr
      ensures Valid()
      ensures binds.contents == old(binds.contents) + [old(node.value)]
      ensures sockets.contents == Cut(old(sockets.contents), IndexOf(old(sockets.contents), old(node.value.fd)))
    {
      var value := sockets.Value(node);
      var fd := value.fd;
      binds.Append(value);
      ghost var i := sockets.RemoveFirst(FdOf, fd);
    }

    /**
      bind(): whatever the outcome, the first node for the descriptor moves
      from sockets to the end of binds.  It keeps its descriptor, connections
      and readiness, and records the port and the latch.  If it inherits, it
      watches the monitor descriptor it received and owes ready on its own
      connection; otherwise it watches its own socket and owes nothing new.
     */
    method Bind(sockfd: int, port: int, comfd: int, readyfd: int, markreadyfd: int, monitor: Monitor, publicBind: int)
      returns (r: int)
      requires Valid()
      modifies sockets.repr, binds.repr
      ensures Valid()
      ensures var before := old(sockets.contents); var i := IndexOf(before, sockfd);
        if i == |before| then
          r == -1 && sockets.contents == before && binds.contents == old(binds.contents)
        else
          && |binds.contents| == |old(binds.contents)| + 1
          && var u, v := before[i], binds.contents[|old(binds.contents)|];
             && sockets.contents == Cut(before, i) && binds.contents == old(binds.contents) + [v]
             && multiset(sockets.contents + binds.contents) == multiset(before[i := v] + old(binds.contents))
             && v.fd == u.fd && v.comfds == u.comfds && v.ready == u.ready
             && v.port == port && v.readyfd == readyfd && v.markreadyfd == markreadyfd
             && if monitor.InUse? && monitor.got.Received? && monitor.got.port > 0 && monitor.got.dup2
                then v.comfd == monitor.got.comfd && v.comfdClose == comfd && r == 0
                else v.comfd == comfd && v.comfdClose == u.comfdClose && r == publicBind
    {
      var _, node := sockets.Locate(FdOf, sockfd);
      if node == null {
        return -1;
      }
      ghost var before := sockets.contents;
      ghost var i := IndexOf(before, sockfd);
      var v := sockets.Value(node).(port := port, comfd := comfd, readyfd := readyfd, markreadyfd := markreadyfd);
      r := publicBind;
      if Inherits(monitor) {
        v := v.(comfdClose := v.comfd);
        v := v.(comfd := monitor.got.comfd);
        r := 0;
      }
      sockets.Store(node, v, i);
      RecordKeepsIndex(before, i, v);
      CutConserves(before[i := v], binds.contents, i);
      Transfer(node);
    }

    /**
      dsu_termination_detection: no session token is queued, and every bound
      socket is ready and has no internal connection.
     */
    method TerminationDetection(tokens: nat) returns (drained: bool)
      requires Valid()
      ensures drained <==>
        && tokens == 0
        && forall i :: 0 <= i < |binds.contents| ==> binds.contents[i].ready && binds.contents[i].comfds.head == null
    {
      if tokens > 0 {
        return false;
      }
      var current := binds.head;
      ghost var i := 0;
      while current != null
        invariant i <= |binds.nodes| && current == At(binds.nodes, i)
        invariant forall j :: 0 <= j < i ==> binds.contents[j].ready && binds.contents[j].comfds.head == null
        decreases |binds.nodes| - i
      {
        if !binds.Value(current).ready || binds.Value(current).comfds.head != null {
          assert !(binds.contents[i].ready && binds.contents[i].comfds.head == null);
          return false;
        }
        current := binds.Next(current);
        i := i + 1;
      }
      return true;
    }
  }

  /** Moving an element to the end of another list loses nothing and duplicates nothing. */
  lemma CutConserves(s: seq<Shadow>, b: seq<Shadow>, i: nat)
    requires i < |s|
    ensures multiset(Cut(s, i) + (b + [s[i]])) == multiset(s + b)
  {
    assert s == s[..i] + [s[i]] + s[i + 1..];
    assert Cut(s, i) == s[..i] + s[i + 1..];
  }

  /** Recording in the first node for a descriptor keeps it the first, and cutting it forgets the record. */
  lemma RecordKeepsIndex(s: seq<Shadow>, i: nat, v: Shadow)
    requires i < |s| && i == IndexOf(s, s[i].fd) && v.fd == s[i].fd
    ensures IndexOf(s[i := v], v.fd) == i && Cut(s[i := v], i) == Cut(s, i)
  {
    FindFirst(s[i := v], FdOf, v.fd, i);
  }
}
