/**
  The singly linked lists behind the shadow state: sockets, binds, and the
  descriptors of accepted internal connections.  The source edits them through
  a moving pointer to the link to change; here that pointer is the node that
  holds the link, or null for the head.
 */
module ShadowLists {

  class Node<T> {
    var value: T
    var next: Node?<T>

    constructor (value: T)
      ensures this.value == value && next == null
    {
      this.value := value;
      next := null;
    }
  }

  /** The node at index i, or null past the end. */
  function At<T>(nodes: seq<Node<T>>, i: nat): Node?<T> {
    if i < |nodes| then nodes[i] else null
  }

  /** Index of the first element with key k, or the length. */
  function Find<T>(s: seq<T>, key: T -> int, k: int): (i: nat)
    ensures i <= |s|
    ensures i < |s| ==> key(s[i]) == k
    ensures forall j :: 0 <= j < i ==> key(s[j]) != k
  {
    if s == [] || key(s[0]) == k then 0 else 1 + Find(s[1..], key, k)
  }

  /** s without its element at index i, if there is one. */
  function Cut<T>(s: seq<T>, i: nat): seq<T> {
    if i < |s| then s[..i] + s[i + 1..] else s
  }

  /** The first element with key k is the only index that Find can return. */
  lemma FindFirst<T>(s: seq<T>, key: T -> int, k: int, i: nat)
    requires i < |s| && key(s[i]) == k && forall j :: 0 <= j < i ==> key(s[j]) != k
    ensures Find(s, key, k) == i
  {
    assert key(s[i]) == k;
  }

  lemma CutConcat<T>(xs: seq<T>, ys: seq<T>)
    requires ys != []
    ensures (xs + ys)[|xs|] == ys[0] && Cut(xs + ys, |xs|) == xs + ys[1..]
  {
    assert (xs + ys)[..|xs|] == xs && (xs + ys)[|xs| + 1..] == ys[1..];
  }

  class List<T> {
    var head: Node?<T>
    ghost var nodes: seq<Node<T>>
    ghost var contents: seq<T>     // the values of the nodes
    ghost var repr: set<object>    // this, the nodes, and nodes freed since
    ghost var freed: set<object>   // the nodes freed since

    /** The node belongs to the list and was not freed. */
    ghost predicate Live(node: Node<T>)
      reads this
    {
      node in repr && node !in freed
    }

    /** The program reads nodes by Value and Next only, so it reads no freed node. */
    function Value(node: Node<T>): T
      requires Live(node)
      reads this, node
    {
      node.value
    }

    function Next(node: Node<T>): Node?<T>
      requires Live(node)
      reads this, node
    {
      node.next
    }

    ghost predicate Valid()
      reads this, repr
    {
      && this in repr
      && |contents| == |nodes|
      && head == At(nodes, 0)
      && freed <= repr
      && (forall i :: 0 <= i < |nodes| ==> Live(nodes[i]))
      && (forall i :: 0 <= i < |nodes| ==> nodes[i].next == At(nodes, i + 1) && nodes[i].value == contents[i])
      && (forall i, j :: 0 <= i < j < |nodes| ==> nodes[i] != nodes[j])
    }

    constructor ()
      ensures Valid() && contents == [] && freed == {} && fresh(repr)
    {
      freed := {};
      head := null;
      nodes := [];
      contents := [];
      repr := {this};
    }

    /** Appends a new node that holds the value. */
    method Append(value: T)
      requires Valid()
      modifies repr
      ensures Valid() && fresh(repr - old(repr))
      ensures contents == old(contents) + [value] && old(nodes) <= nodes && freed == old(freed)
    {
      var node := new Node(value);
      var link: Node?<T> := null;
      var current := head;
      ghost var i := 0;
      while current != null
        invariant i <= |nodes| && current == At(nodes, i)
        invariant if i == 0 then link == null else link == nodes[i - 1]
        decreases |nodes| - i
      {
        link, current := current, Next(current);
        i := i + 1;
      }
      if link == null {
        head := node;
      } else {
        link.next := node;
      }
      nodes := nodes + [node];
      contents := contents + [value];
      repr := repr + {node};
    }

    /** Redirects the link that holds node i to its successor, which frees the node. */
    method Unlink(link: Node?<T>, current: Node<T>, ghost i: nat)
      requires Valid() && i < |nodes| && current == nodes[i]
      requires link == if i == 0 then null else nodes[i - 1]
      modifies repr
      ensures Valid() && repr == old(repr) && freed == old(freed) + {current}
      ensures nodes == Cut(old(nodes), i) && contents == Cut(old(contents), i)
    {
      if link == null {
        head := Next(current);
      } else {
        link.next := Next(current);
      }
      freed := freed + {current};
      ghost var before, values := nodes, contents;
      nodes := Cut(nodes, i);
      contents := Cut(contents, i);
      forall j | 0 <= j < |nodes|
        ensures Live(nodes[j])
        ensures nodes[j].next == At(nodes, j + 1) && nodes[j].value == contents[j]
      {
        assert nodes[j] == if j < i then before[j] else before[j + 1];
        assert contents[j] == if j < i then values[j] else values[j + 1];
      }
    }

    /** Unlinks the first node with key k, if there is one; returns its index. */
    method RemoveFirst(key: T -> int, k: int) returns (ghost i: nat)
      requires Valid()
      modifies repr
      ensures Valid() && repr == old(repr) && i == Find(old(contents), key, k)
      ensures nodes == Cut(old(nodes), i) && contents == Cut(old(contents), i)
      ensures freed == old(freed) + if i < |old(nodes)| then {old(nodes)[i]} else {}
    {
      var link, current := Locate(key, k);
      i := Find(contents, key, k);
      if current != null {
        Unlink(link, current, i);
      }
    }

    /** The first node with key k, or null, and the node before it. */
    method Locate(key: T -> int, k: int) returns (link: Node?<T>, current: Node?<T>)
      requires Valid()
      ensures var i := Find(contents, key, k);
        && current == At(nodes, i)
        && (current != null ==> Live(current))
        && link == if i == 0 then null else nodes[i - 1]
    {
      link, current := null, head;
      ghost var i := 0;
      while current != null && key(Value(current)) != k
        invariant i <= |nodes| && current == At(nodes, i)
        invariant if i == 0 then link == null else link == nodes[i - 1]
        invariant forall j :: 0 <= j < i ==> key(contents[j]) != k
        decreases |nodes| - i
      {
        link, current := current, Next(current);
        i := i + 1;
      }
    }

    /** Overwrites the value of node i. */
    method Store(node: Node<T>, value: T, ghost i: nat)
      requires Valid() && i < |nodes| && nodes[i] == node
      modifies repr
      ensures Valid() && repr == old(repr) && nodes == old(nodes) && freed == old(freed)
      ensures contents == old(contents)[i := value]
    {
      node.value := value;
      contents := contents[i := value];
    }
  }
}
