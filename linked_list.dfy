/**
 * The registration list: a head-inserting doubly linked list of opaque
 * pointers with a node count, a search by pointer identity, unlinking of a
 * given node and a head-to-tail traversal.
 *
 * Every C function of the list becomes a method of this module that takes the
 * list (or the node) as a possibly-null reference, so that the NULL-argument
 * branches of the C code are part of the model.  A list carries a ghost
 * sequence `nodes` of its nodes from head to tail; `Valid()` ties `head`,
 * `count` and every node's `next` and `prev` fields to that sequence.
 */
module LinkedList {
  import opened Optional

  /** Position of the first occurrence of `x` in `s`. */
  function IndexOf<T(==)>(s: seq<T>, x: T): (k: nat)
    requires x in s
    ensures k < |s| && s[k] == x && x !in s[..k]
  {
    if s[0] == x then 0
    else
      var k := IndexOf(s[1..], x);
      assert s[..k + 1] == [s[0]] + s[1..][..k];
      k + 1
  }

  /** `f` applied to the elements of `s` one after the other, from the first to the last, starting from `acc`. */
  function FoldLeft<D, R>(f: (R, D) -> R, acc: R, s: seq<D>): R
  {
    if s == [] then acc else f(FoldLeft(f, acc, s[..|s| - 1]), s[|s| - 1])
  }

  /** The pointers held by the nodes `ns`, in order. */
  ghost function DataOf<D>(ns: seq<Node<D>>): (s: seq<D>)
    ensures |s| == |ns|
    ensures forall i :: 0 <= i < |ns| ==> s[i] == ns[i].data
  {
    seq(|ns|, i requires 0 <= i < |ns| => ns[i].data)
  }

  /** Dropping the node at position `k` drops the pointer at position `k`. */
  lemma DataOfWithout<D>(ns: seq<Node<D>>, k: nat)
    requires k < |ns|
    ensures DataOf(Without(ns, k)) == Without(DataOf(ns), k)
  {
    var rest := ns[..k] + ns[k + 1..];
    assert forall i :: 0 <= i < |rest| ==> rest[i] == (if i < k then ns[i] else ns[i + 1]);
  }

  /** A node in front adds its pointer in front. */
  lemma DataOfPush<D>(n: Node<D>, ns: seq<Node<D>>)
    ensures DataOf([n] + ns) == [n.data] + DataOf(ns)
  {
  }

  /** Dropping a node from `ns` keeps the rest inside any set that held all of `ns`. */
  lemma WithoutWithin<D>(ns: seq<Node<D>>, k: nat, r: set<object>)
    requires k < |ns| && forall i :: 0 <= i < |ns| ==> ns[i] in r
    ensures forall i :: 0 <= i < |ns| - 1 ==> Without(ns, k)[i] in r
  {
    var rest := ns[..k] + ns[k + 1..];
    assert forall i :: 0 <= i < |rest| ==> rest[i] == (if i < k then ns[i] else ns[i + 1]);
  }

  /** `ns` is a chain: each node's `next` and `prev` lead to its neighbours in `ns`, and no node occurs twice. */
  ghost predicate Chain<D>(ns: seq<Node<D>>)
    reads ns
  {
    && (forall i {:trigger ns[i].next} :: 0 <= i < |ns| ==> ns[i].next == (if i + 1 < |ns| then ns[i + 1] else null))
    && (forall i {:trigger ns[i].prev} :: 0 <= i < |ns| ==> ns[i].prev == (if i == 0 then null else ns[i - 1]))
    && (forall i, j :: 0 <= i < j < |ns| ==> ns[i] != ns[j])
  }

  /**
   * Once the predecessor of position `k` points past it and the successor
   * points back past it, with every other link as in a chain `ns`, the nodes
   * other than the one at `k` form a chain.
   */
  lemma ChainAfterUnlink<D>(ns: seq<Node<D>>, k: nat)
    requires k < |ns|
    requires forall i {:trigger ns[i].next} :: 0 <= i < |ns| && i != k - 1 && i != k ==>
      ns[i].next == (if i + 1 < |ns| then ns[i + 1] else null)
    requires forall i {:trigger ns[i].prev} :: 0 <= i < |ns| && i != k + 1 && i != k ==>
      ns[i].prev == (if i == 0 then null else ns[i - 1])
    requires k > 0 ==> ns[k - 1].next == (if k + 1 < |ns| then ns[k + 1] else null)
    requires k + 1 < |ns| ==> ns[k + 1].prev == (if k == 0 then null else ns[k - 1])
    requires forall i, j :: 0 <= i < j < |ns| ==> ns[i] != ns[j]
    ensures Chain(ns[..k] + ns[k + 1..])
  {
    var rest := ns[..k] + ns[k + 1..];
    assert forall i :: 0 <= i < |rest| ==> rest[i] == (if i < k then ns[i] else ns[i + 1]);
    forall i | 0 <= i < |rest| ensures rest[i].next == (if i + 1 < |rest| then rest[i + 1] else null) {
      if i + 1 < k {
        assert rest[i].next == ns[i].next;
      } else if i + 1 == k {
        assert rest[i].next == ns[k - 1].next;
      } else {
        assert rest[i].next == ns[i + 1].next;
      }
    }
    forall i | 0 <= i < |rest| ensures rest[i].prev == (if i == 0 then null else rest[i - 1]) {
      if i < k {
        assert rest[i].prev == ns[i].prev;
      } else if i == k {
        assert rest[i].prev == ns[k + 1].prev;
      } else {
        assert rest[i].prev == ns[i + 1].prev;
      }
    }
    forall i, j | 0 <= i < j < |rest| ensures rest[i] != rest[j] {
      var i', j' := if i < k then i else i + 1, if j < k then j else j + 1;
      assert rest[i] == ns[i'] && rest[j] == ns[j'] && i' < j';
    }
  }

  /** A fresh node in front of a chain, with the old head's `prev` leading back to it, gives a chain. */
  lemma ChainAfterPush<D>(n: Node<D>, ns: seq<Node<D>>)
    requires n !in ns && n.next == (if ns == [] then null else ns[0]) && n.prev == null
    requires forall i {:trigger ns[i].next} :: 0 <= i < |ns| ==> ns[i].next == (if i + 1 < |ns| then ns[i + 1] else null)
    requires forall i {:trigger ns[i].prev} :: 0 < i < |ns| ==> ns[i].prev == ns[i - 1]
    requires ns != [] ==> ns[0].prev == n
    requires forall i, j :: 0 <= i < j < |ns| ==> ns[i] != ns[j]
    ensures Chain([n] + ns)
  {
    var ms := [n] + ns;
    assert forall i :: 0 < i < |ms| ==> ms[i] == ns[i - 1];
    forall i | 0 <= i < |ms| ensures ms[i].next == (if i + 1 < |ms| then ms[i + 1] else null) {
      if i > 0 { assert ms[i].next == ns[i - 1].next; }
    }
    forall i | 0 <= i < |ms| ensures ms[i].prev == (if i == 0 then null else ms[i - 1]) {
      if i > 1 { assert ms[i].prev == ns[i - 1].prev; }
    }
  }

  /** `s` without its element at position `k`. */
  ghost function Without<T>(s: seq<T>, k: nat): seq<T>
    requires k < |s|
  {
    s[..k] + s[k + 1..]
  }

  /** A list node; `data` is the opaque pointer it carries and is never changed after the node is built. */
  class Node<D> {
    const data: D
    var next: Node?<D>
    var prev: Node?<D>

    constructor (data: D, next: Node?<D>)
      ensures this.data == data && this.next == next && this.prev == null
    {
      this.data := data;
      this.next := next;
      this.prev := null;
    }
  }

  class List<D> {
    var head: Node?<D>
    var count: nat
    /** The nodes from head to tail. */
    ghost var nodes: seq<Node<D>>
    ghost var Repr: set<object>

    /** The list invariant: `count` is the chain length and the `next`/`prev` links are consistent. */
    ghost predicate Valid()
      reads this, Repr
      ensures Valid() ==> this in Repr
    {
      && this in Repr
      && (forall i :: 0 <= i < |nodes| ==> nodes[i] in Repr)
      && count == |nodes|
      && head == (if nodes == [] then null else nodes[0])
      && Chain(nodes)
    }

    /** The pointers stored in the list, from head to tail. */
    ghost function Elements(): seq<D>
      reads this
    {
      DataOf(nodes)
    }

    /** list_create: an empty list. */
    constructor ()
      ensures Valid() && fresh(Repr)
      ensures head == null && count == 0 && nodes == [] && Elements() == []
    {
      head := null;
      count := 0;
      nodes := [];
      Repr := {this};
    }
  }

  /** list_begin: the head node, or NULL for a NULL or empty list. */
  method Begin<D>(l: List?<D>) returns (r: Node?<D>)
    requires l != null ==> l.Valid()
    ensures r == null <==> l == null || l.nodes == []
    ensures r != null ==> r == l.nodes[0]
  {
    if l != null {
      return l.head;
    }
    return null;
  }

  /** list_next: the node after `node` in head-to-tail order, or NULL after the last node or for a NULL node. */
  method Next<D>(node: Node?<D>, ghost l: List?<D>) returns (r: Node?<D>)
    requires node != null ==> l != null && l.Valid() && node in l.nodes
    ensures node == null ==> r == null
    ensures node != null ==>
      var k := IndexOf(l.nodes, node);
      r == if k + 1 < |l.nodes| then l.nodes[k + 1] else null
  {
    if node != null {
      return node.next;
    }
    return null;
  }

  /** list_data: the pointer stored in `node`, or nothing for a NULL node. */
  method Data<D>(node: Node?<D>, ghost l: List?<D>) returns (r: Option<D>)
    requires node != null ==> l != null && l.Valid() && node in l.nodes
    ensures node == null ==> r == None
    ensures node != null ==> r == Some(l.Elements()[IndexOf(l.nodes, node)])
  {
    if node != null {
      return Some(node.data);
    }
    return None;
  }

  /** list_count: the number of elements; 0 for a NULL list. */
  method Count<D>(l: List?<D>) returns (n: nat)
    requires l != null ==> l.Valid()
    ensures n == if l == null then 0 else |l.Elements()|
  {
    if l != null {
      return l.count;
    }
    return 0;
  }

  /** list_find: the first node from the head whose pointer equals `data`; NULL exactly when there is none. */
  method Find<D(==)>(l: List?<D>, data: D) returns (r: Node?<D>)
    requires l != null ==> l.Valid()
    ensures l == null ==> r == null
    ensures l != null ==> (r == null <==> data !in l.Elements())
    ensures r != null ==> r == l.nodes[IndexOf(l.Elements(), data)]
  {
    if l != null {
      var t := l.head;
      ghost var k := 0;
      while t != null
        invariant 0 <= k <= |l.nodes|
        invariant t == if k < |l.nodes| then l.nodes[k] else null
        invariant data !in l.Elements()[..k]
        decreases |l.nodes| - k
      {
        if t.data == data {
          ghost var j := IndexOf(l.Elements(), data);
          assert j == k;
          return t;
        }
        assert l.Elements()[..k + 1] == l.Elements()[..k] + [t.data];
        t := t.next;
        k := k + 1;
      }
      assert l.Elements()[..k] == l.Elements();
    }
    return null;
  }

  /** list_insert: a new node holding `data` becomes the head; the old nodes follow in their previous order. */
  method Insert<D>(l: List?<D>, data: D)
    requires l != null ==> l.Valid()
    modifies if l == null then {} else l.Repr
    ensures l != null ==> l.Valid() && fresh(l.Repr - old(l.Repr))
    ensures l != null ==> |l.nodes| == |old(l.nodes)| + 1 && fresh(l.nodes[0]) && l.nodes[1..] == old(l.nodes)
    ensures l != null ==> l.count == old(l.count) + 1
    ensures l != null ==> l.Elements() == [data] + old(l.Elements())
  {
    if l != null {
      ghost var ns := l.nodes;
      var node := Link(l, data);
      l.count := l.count + 1;
      l.nodes := [node] + ns;
      l.Repr := l.Repr + {node};
      assert l.nodes[1..] == ns;
      DataOfPush(node, ns);
    }
  }

  /** The pointer surgery of list_insert: a fresh node holding `data` is linked in front of the head and becomes the head. */
  method Link<D>(l: List<D>, data: D) returns (node: Node<D>)
    requires l.Valid()
    modifies l.Repr
    ensures fresh(node) && node.data == data
    ensures l.nodes == old(l.nodes) && l.count == old(l.count) && l.Repr == old(l.Repr)
    ensures l.head == node && Chain([node] + l.nodes)
  {
    ghost var ns := l.nodes;
    node := new Node(data, l.head);
    if l.head != null {
      l.head.prev := node;
    }
    l.head := node;
    assert forall i {:trigger ns[i].next} :: 0 <= i < |ns| ==> ns[i].next == old(ns[i].next);
    assert forall i {:trigger ns[i].prev} :: 0 < i < |ns| ==> ns[i].prev == old(ns[i].prev);
    ChainAfterPush(node, ns);
  }

  /**
   * list_remove: unlinks `node`, which must be one of the list's nodes; the
   * others keep their relative order and the count drops by one.  A NULL list
   * or node leaves everything as it was.
   */
  method Remove<D>(l: List?<D>, node: Node?<D>)
    requires l != null ==> l.Valid()
    requires l != null && node != null ==> node in l.nodes
    modifies if l == null then {} else l.Repr
    ensures l != null ==> l.Valid() && l.Repr <= old(l.Repr)
    ensures l != null && node == null ==> l.nodes == old(l.nodes)
    ensures l != null && node != null ==>
      var k := IndexOf(old(l.nodes), node);
      && l.nodes == Without(old(l.nodes), k)
      && l.Elements() == Without(old(l.Elements()), k)
      && l.count == old(l.count) - 1
  {
    if l != null && node != null {
      ghost var ns := l.nodes;
      ghost var k := IndexOf(ns, node);
      Unlink(l, node, k);
      l.count := l.count - 1;
      l.nodes := Without(ns, k);
      DataOfWithout(ns, k);
      WithoutWithin(ns, k, l.Repr);
    }
  }

  /** The pointer surgery of list_remove: the neighbours of `node` are linked to each other, and `head` moves past it if it was the head. */
  method Unlink<D>(l: List<D>, node: Node<D>, ghost k: nat)
    requires l.Valid() && k < |l.nodes| && l.nodes[k] == node
    modifies l.Repr
    ensures l.nodes == old(l.nodes) && l.count == old(l.count) && l.Repr == old(l.Repr)
    ensures Chain(Without(l.nodes, k))
    ensures l.head == if Without(l.nodes, k) == [] then null else Without(l.nodes, k)[0]
  {
    ghost var ns := l.nodes;
    ghost var rest := Without(ns, k);
    assert k > 0 ==> node.prev == ns[k - 1];
    assert k == 0 ==> node.prev == null;
    assert k + 1 < |ns| ==> node.next == ns[k + 1];
    assert k + 1 == |ns| ==> node.next == null;
    if node.prev != null {
      node.prev.next := node.next;
    } else {
      l.head := node.next;
    }
    if node.next != null {
      node.next.prev := node.prev;
    }
    assert forall i {:trigger ns[i].next} :: 0 <= i < |ns| && i != k - 1 ==> ns[i].next == old(ns[i].next);
    assert forall i {:trigger ns[i].prev} :: 0 <= i < |ns| && i != k + 1 ==> ns[i].prev == old(ns[i].prev);
    assert forall i {:trigger ns[i].next} :: 0 <= i < |ns| && i != k - 1 && i != k ==>
      ns[i].next == (if i + 1 < |ns| then ns[i + 1] else null);
    assert forall i {:trigger ns[i].prev} :: 0 <= i < |ns| && i != k + 1 && i != k ==>
      ns[i].prev == (if i == 0 then null else ns[i - 1]);
    ChainAfterUnlink(ns, k);
    if k == 0 && |ns| > 1 { assert rest[0] == ns[1]; }
    if k > 0 { assert rest[0] == ns[0]; }
  }

  /**
   * list_foreach: applies `f` once to every element, from head to tail, and
   * leaves the list unchanged.  The C callback acts by side effect; here the
   * state it acts on is threaded through `f`, from `init` to the result.
   */
  method Foreach<D, R>(l: List?<D>, f: (R, D) -> R, init: R) returns (r: R)
    requires l != null ==> l.Valid()
    ensures r == if l == null then init else FoldLeft(f, init, l.Elements())
  {
    r := init;
    if l != null {
      var t := l.head;
      ghost var k := 0;
      while t != null
        invariant 0 <= k <= |l.nodes|
        invariant t == if k < |l.nodes| then l.nodes[k] else null
        invariant r == FoldLeft(f, init, l.Elements()[..k])
        decreases |l.nodes| - k
      {
        assert l.Elements()[..k + 1][..k] == l.Elements()[..k];
        r := f(r, t.data);
        t := t.next;
        k := k + 1;
      }
      assert l.Elements()[..k] == l.Elements();
    }
  }

  /**
   * list_destroy with its loop corrected: `temp` advances with `head`, so
   * every node is released exactly once, from head to tail.  Releasing is
   * modelled by returning the released nodes in order; afterwards `head` is
   * NULL.
   */
  method Destroy<D>(l: List?<D>) returns (freed: seq<Node<D>>)
    requires l != null ==> l.Valid()
    modifies if l == null then {} else {l}
    ensures l == null ==> freed == []
    ensures l != null ==> freed == old(l.nodes) && l.head == null
  {
    freed := [];
    if l != null {
      var temp := l.head;
      ghost var k := 0;
      while l.head != null
        invariant l.nodes == old(l.nodes)
        invariant 0 <= k <= |l.nodes|
        invariant forall i {:trigger l.nodes[i].next} :: 0 <= i < |l.nodes| ==> l.nodes[i].next == (if i + 1 < |l.nodes| then l.nodes[i + 1] else null)
        invariant l.head == temp && temp == if k < |l.nodes| then l.nodes[k] else null
        invariant freed == l.nodes[..k]
        decreases |l.nodes| - k
      {
        l.head := temp.next;
        freed := freed + [temp];
        temp := l.head;
        k := k + 1;
      }
      assert l.nodes[..k] == l.nodes;
    }
  }

  /**
   * The loop of list_destroy as written, on a list of `n` nodes numbered from
   * the head (the successor of node i is i + 1, and n stands for NULL):
   * `head` becomes the successor of `temp` and `temp` is released, but `temp`
   * itself is never advanced.  The result lists the nodes released during at
   * most `fuel` iterations.
   */
  function FreedAsWritten(n: nat, head: nat, temp: nat, fuel: nat): (freed: seq<nat>)
    requires head <= n && (head == n || temp < n)
    ensures |freed| <= fuel && (head == n ==> freed == [])
    ensures forall i :: 0 <= i < |freed| ==> freed[i] == temp
    decreases fuel
  {
    if fuel == 0 || head == n then []
    else [temp] + FreedAsWritten(n, temp + 1, temp, fuel - 1)
  }

  /**
   * On a list of two or more nodes the loop as written releases the head node
   * on every iteration and never reaches NULL: the second iteration already
   * frees the same node twice.
   */
  lemma {:induction false} DestroyAsWrittenDoubleFree(n: nat, head: nat, fuel: nat)
    requires head <= 1 < n
    decreases fuel
    ensures var freed := FreedAsWritten(n, head, 0, fuel);
      |freed| == fuel && forall i :: 0 <= i < fuel ==> freed[i] == 0
  {
    if fuel > 0 {
      DestroyAsWrittenDoubleFree(n, 1, fuel - 1);
    }
  }
}
