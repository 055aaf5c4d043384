/**
  The chained hash map: an array of bucket heads, nodes linked in place, rehashing that moves the nodes, and an
  iterator. Ghost fields record the chain of every bucket and the node of every key.
 */
module HashMap {
  import opened Collections

  class Node<K, V> {
    const key: K
    var value: V
    var next: Node?<K, V>

    constructor (key: K, value: V, next: Node?<K, V>)
      ensures this.key == key && this.value == value && this.next == next
    {
      this.key, this.value, this.next := key, value, next;
    }
  }

  ghost function At<K, V>(c: seq<Node<K, V>>, j: nat): Node?<K, V>
  {
    if j < |c| then c[j] else null
  }

  /** Following `next` from `head` visits exactly the nodes of `c`, in order. */
  ghost predicate ChainOk<K, V>(head: Node?<K, V>, c: seq<Node<K, V>>)
    reads c`next
  {
    && head == At(c, 0)
    && (forall j :: 0 <= j < |c| ==> c[j].next == At(c, j + 1))
    && (forall i, j :: 0 <= i < j < |c| ==> c[i] != c[j])
  }

  ghost function NodesOf<K, V>(cs: seq<seq<Node<K, V>>>): set<Node<K, V>>
  {
    set i, n | 0 <= i < |cs| && n in cs[i] :: n
  }

  ghost predicate ChainsOk<K, V>(heads: seq<Node?<K, V>>, cs: seq<seq<Node<K, V>>>)
    reads NodesOf(cs)`next
  {
    && |heads| == |cs|
    && (forall i :: 0 <= i < |cs| ==> (ChainNodes(cs, i); ChainOk(heads[i], cs[i])))
  }

  ghost predicate TableOk<K, V>(bs: array<Node?<K, V>>, cs: seq<seq<Node<K, V>>>)
    reads bs, NodesOf(cs)`next
  {
    ChainsOk(bs[..], cs)
  }

  lemma ChainNodes<K, V>(cs: seq<seq<Node<K, V>>>, i: nat)
    requires i < |cs|
    ensures forall n :: n in cs[i] ==> n in NodesOf(cs)
  {
  }

  /** Every node lies in the bucket of its key's hash. */
  ghost predicate Placed<K, V>(hash: K -> nat, cs: seq<seq<Node<K, V>>>)
  {
    forall i, n :: 0 <= i < |cs| && n in cs[i] ==> hash(n.key) % |cs| == i
  }

  /** The nodes in the chains are exactly those of `nodes`, each under its own key. */
  ghost predicate Indexed<K, V>(cs: seq<seq<Node<K, V>>>, nodes: map<K, Node<K, V>>)
  {
    && (forall n :: n in NodesOf(cs) ==> n.key in nodes && nodes[n.key] == n)
    && (forall k :: k in nodes ==> nodes[k].key == k && nodes[k] in NodesOf(cs))
  }

  ghost function ValuesOf<K, V>(nodes: map<K, Node<K, V>>): map<K, V>
    reads nodes.Values`value
  {
    map k | k in nodes :: nodes[k].value
  }

  lemma ValuesOfUpdate<K, V>(nodes: map<K, Node<K, V>>, n: Node<K, V>)
    ensures ValuesOf(nodes[n.key := n]) == ValuesOf(nodes)[n.key := n.value]
  {
  }

  lemma ValuesOfWithout<K, V>(nodes: map<K, Node<K, V>>, k: K)
    ensures k !in nodes ==> nodes - {k} == nodes && ValuesOf(nodes) - {k} == ValuesOf(nodes) && k !in ValuesOf(nodes)
    ensures ValuesOf(nodes - {k}) == ValuesOf(nodes) - {k}
  {
  }

  lemma ValueAt<K, V>(nodes: map<K, Node<K, V>>, k: K)
    requires k in nodes
    ensures k in ValuesOf(nodes) && ValuesOf(nodes)[k] == nodes[k].value
  {
  }

  /** Taking one node out of the chains and of the index. */
  lemma IndexedCut<K, V>(cs: seq<seq<Node<K, V>>>, ds: seq<seq<Node<K, V>>>, nodes: map<K, Node<K, V>>, n: Node<K, V>)
    requires Indexed(cs, nodes) && n in NodesOf(cs) && NodesOf(ds) == NodesOf(cs) - {n}
    ensures n.key in nodes && Indexed(ds, nodes - {n.key}) && |nodes - {n.key}| == |nodes| - 1
  {
    hide NodesOf;
    assert (nodes - {n.key}).Keys == nodes.Keys - {n.key};
  }

  /** Adding a node under a new key to a bucket and to the index. */
  lemma IndexedPush<K, V>(cs: seq<seq<Node<K, V>>>, ds: seq<seq<Node<K, V>>>, nodes: map<K, Node<K, V>>, n: Node<K, V>)
    requires Indexed(cs, nodes) && n.key !in nodes && NodesOf(ds) == NodesOf(cs) + {n}
    ensures Indexed(ds, nodes[n.key := n]) && |nodes[n.key := n]| == |nodes| + 1
  {
    hide NodesOf;
    var nodes' := nodes[n.key := n];
    assert nodes'.Keys == nodes.Keys + {n.key};
  }

  lemma InBucket<K, V>(hash: K -> nat, cs: seq<seq<Node<K, V>>>, nodes: map<K, Node<K, V>>, k: K)
    requires |cs| > 0 && Placed(hash, cs) && Indexed(cs, nodes) && k in nodes
    ensures nodes[k] in cs[hash(k) % |cs|]
  {
    var n := nodes[k];
    assert n in NodesOf(cs);
    var i :| 0 <= i < |cs| && n in cs[i];
  }

  /** The threshold of the source: a quarter of the buckets is kept free. */
  function Capacity(nbuckets: nat): nat
  {
    nbuckets - nbuckets / 4
  }

  class Map<K(==), V> {
    const hash: K -> nat
    var buckets: array<Node?<K, V>>
    var len: nat
    ghost var chains: seq<seq<Node<K, V>>>
    ghost var nodes: map<K, Node<K, V>>

    ghost predicate Valid()
      reads this, buckets, NodesOf(chains)`next
    {
      && buckets.Length > 0
      && TableOk(buckets, chains)
      && Placed(hash, chains)
      && Indexed(chains, nodes)
      && len == |nodes|
    }

    /** The mathematical map this object stands for. */
    ghost function Contents(): map<K, V>
      reads this, nodes.Values`value
    {
      ValuesOf(nodes)
    }

    ghost predicate WithinLoad()
      reads this
    {
      len <= Capacity(buckets.Length)
    }

    constructor (hash: K -> nat, nbuckets: nat)
      requires nbuckets > 0
      ensures Valid() && fresh(buckets) && this.hash == hash && buckets.Length == nbuckets
      ensures nodes == map[] && Contents() == map[] && WithinLoad()
    {
      this.hash := hash;
      buckets := new Node?<K, V>[nbuckets](_ => null);
      len := 0;
      chains := seq(nbuckets, _ => []);
      nodes := map[];
    }

    /**
      `hmap_grow`: twice the buckets, the same nodes. When the new array cannot be allocated nothing changes.
     */
    method Grow(callocOk: bool)
      requires Valid()
      modifies this`buckets, this`chains, NodesOf(chains)`next
      ensures Valid()
      ensures NodesOf(chains) == old(NodesOf(chains))
      ensures if callocOk then buckets.Length == 2 * old(buckets.Length) && fresh(buckets) else buckets == old(buckets)
    {
      if callocOk {
        assert buckets.Length > 0;
        hide *;
        var bs := new Node?<K, V>[2 * buckets.Length](_ => null);
        MoveTo(bs);
      }
    }

    method MoveTo(bs: array<Node?<K, V>>)
      requires Valid() && bs != buckets && bs.Length > 0
      requires forall i :: 0 <= i < bs.Length ==> bs[i] == null
      modifies this`buckets, this`chains, bs, NodesOf(chains)`next
      ensures Valid() && buckets == bs && NodesOf(chains) == old(NodesOf(chains))
    {
      hide TableOk, Placed, Indexed, NodesOf;
      ghost var ds := Rehash(hash, buckets, chains, bs);
      IndexedSame(chains, ds, nodes);
      buckets := bs;
      chains := ds;
    }

    /** `hmap_get`: the node of a key, or null. */
    method Get(key: K) returns (n: Node?<K, V>)
      requires Valid()
      ensures Valid()
      ensures n == if key in nodes then nodes[key] else null
    {
      var b := hash(key) % buckets.Length;
      ghost var j;
      n, j := FindInChain(buckets[b], key, chains[b]);
      KeyInChain(hash, chains, nodes, key, b, j, n);
    }

    /**
      `hmap_insert`: grows first when the load threshold is reached, then overwrites the key's value or links a new
      node. `callocOk` and `mallocOk` say whether the two allocations succeed.
     */
    method Insert(key: K, value: V, callocOk: bool, mallocOk: bool) returns (n: Node?<K, V>)
      requires Valid()
      modifies this, buckets, NodesOf(chains)
      ensures Valid()
      ensures n == null <==> key !in old(nodes) && !mallocOk
      ensures n == null ==> nodes == old(nodes) && Contents() == old(Contents())
      ensures n != null ==> nodes == old(nodes)[key := n] && Contents() == old(Contents())[key := value]
      ensures key in old(nodes) ==> n == old(nodes)[key]
      ensures old(WithinLoad()) && callocOk ==> WithinLoad()
      ensures var full := old(len) >= old(buckets.Length) - old(buckets.Length) / 4;
              buckets.Length == if full && callocOk then 2 * old(buckets.Length) else old(buckets.Length)
    {
      hide TableOk, Placed, Indexed, ValuesOf, NodesOf, Capacity;
      MakeRoom(callocOk);
      n := Get(key);
      if n != null {
        Owns(key);
        Overwrite(n, value);
      } else if mallocOk {
        n := AddNode(key, value);
      }
    }

    /** Grows when the load threshold, three quarters of the buckets, is reached. */
    method MakeRoom(callocOk: bool)
      requires Valid()
      modifies this`buckets, this`chains, NodesOf(chains)`next
      ensures Valid() && NodesOf(chains) == old(NodesOf(chains)) && (buckets == old(buckets) || fresh(buckets))
      ensures var full := len >= old(buckets.Length) - old(buckets.Length) / 4;
              buckets.Length == if full && callocOk then 2 * old(buckets.Length) else old(buckets.Length)
      ensures old(WithinLoad()) && callocOk ==> len < Capacity(buckets.Length)
    {
      hide TableOk, Placed, Indexed, NodesOf, Capacity;
      CapacityGrows();
      if len >= Capacity(buckets.Length) {
        Grow(callocOk);
      }
    }

    method AddNode(key: K, value: V) returns (n: Node<K, V>)
      requires Valid() && key !in nodes
      modifies this`len, this`chains, this`nodes, buckets
      ensures Valid() && fresh(n) && nodes == old(nodes)[key := n] && len == old(len) + 1
      ensures Contents() == old(Contents())[key := value]
    {
      n := new Node(key, value, null);
      Link(n);
    }

    /** Doubling the buckets makes room for at least one more entry. */
    lemma CapacityGrows()
      requires buckets.Length > 0
      ensures Capacity(2 * buckets.Length) > Capacity(buckets.Length)
      ensures Capacity(buckets.Length) == buckets.Length - buckets.Length / 4
    {
    }

    lemma Owns(key: K)
      requires Valid() && key in nodes
      ensures nodes[key] in NodesOf(chains) && nodes[key].key == key
    {
    }

    /** The value of a key that is present is replaced in its node. */
    method Overwrite(n: Node<K, V>, value: V)
      requires Valid() && n.key in nodes && nodes[n.key] == n
      modifies n`value
      ensures Valid() && Contents() == old(Contents())[n.key := value]
    {
      hide TableOk, Placed;
      n.value := value;
    }

    /** A node with a new key goes to the head of its bucket. */
    method Link(n: Node<K, V>)
      requires Valid() && n.key !in nodes
      modifies this`len, this`chains, this`nodes, buckets, n`next
      ensures Valid() && nodes == old(nodes)[n.key := n] && len == old(len) + 1
      ensures Contents() == old(Contents())[n.key := n.value]
    {
      hide TableOk, ChainOk, Placed, Indexed, NodesOf, ValuesOf, Pushed;
      var b := hash(n.key) % buckets.Length;
      TableLength(buckets, chains);
      LinkFacts(hash, chains, nodes, n, b);
      PushFront(buckets, b, n, chains);
      chains := Pushed(chains, b, n);
      nodes := nodes[n.key := n];
      len := len + 1;
    }

    /** `hmap_delete`: unlinks the key's node and hands its value back. */
    method Delete(key: K) returns (out: Option<V>)
      requires Valid()
      modifies this`len, this`chains, this`nodes, buckets, NodesOf(chains)`next
      ensures Valid()
      ensures out == if key in old(Contents()) then Some(old(Contents())[key]) else None
      ensures nodes == old(nodes) - {key} && Contents() == old(Contents()) - {key}
      ensures old(WithinLoad()) ==> WithinLoad()
    {
      hide TableOk, Placed, Indexed, NodesOf, ValuesOf;
      var b := hash(key) % buckets.Length;
      var prev, node, j := Locate(key, b);
      if node == null {
        out := None;
        ValuesOfWithout(nodes, key);
      } else {
        out := Some(node.value);
        ValueAt(nodes, key);
        Unlink(b, prev, node, j);
      }
    }

    method Locate(key: K, b: nat) returns (prev: Node?<K, V>, node: Node?<K, V>, ghost j: nat)
      requires Valid() && b == hash(key) % buckets.Length
      ensures Valid() && |chains| == buckets.Length
      ensures node == if key in nodes then nodes[key] else null
      ensures node != null ==> node.key == key && j < |chains[b]| && node == chains[b][j]
      ensures node != null ==> prev == if j == 0 then null else chains[b][j - 1]
    {
      prev, node, j := FindWithPrev(buckets[b], key, chains[b]);
      KeyInChain(hash, chains, nodes, key, b, j, node);
    }

    /** Takes the node at position `j` of bucket `b` out of its chain. */
    method Unlink(b: nat, prev: Node?<K, V>, node: Node<K, V>, ghost j: nat)
      requires Valid() && b < buckets.Length == |chains| && j < |chains[b]| && node == chains[b][j]
      requires prev == if j == 0 then null else chains[b][j - 1]
      modifies this`len, this`chains, this`nodes, buckets, NodesOf(chains)`next
      ensures Valid()
      ensures nodes == old(nodes) - {node.key} && Contents() == old(Contents()) - {node.key}
      ensures len < old(len)
    {
      hide TableOk, Placed, Indexed, NodesOf, ValuesOf, Without;
      ghost var ds := Without(chains, b, j);
      UnlinkFacts(hash, buckets, chains, nodes, b, j);
      BypassNode(buckets, b, prev, node, chains, j);
      chains := ds;
      nodes := nodes - {node.key};
      len := len - 1;
    }

    method Contains(key: K) returns (found: bool)
      requires Valid()
      ensures found <==> key in Contents()
    {
      var n := Get(key);
      found := n != null;
    }
  }

  // ---------------------------------------------------------------- linking

  lemma PushChain<K, V>(head: Node?<K, V>, c: seq<Node<K, V>>, node: Node<K, V>)
    requires ChainOk(head, c) && node !in c && node.next == head
    ensures ChainOk(node, [node] + c)
  {
    var d := [node] + c;
    forall j | 0 <= j < |d|
      ensures d[j].next == At(d, j + 1)
    {
      if j > 0 {
        assert d[j] == c[j - 1];
      }
    }
  }

  ghost function Pushed<K, V>(cs: seq<seq<Node<K, V>>>, b: nat, node: Node<K, V>): seq<seq<Node<K, V>>>
    requires b < |cs|
  {
    cs[b := [node] + cs[b]]
  }

  lemma PushedNodes<K, V>(cs: seq<seq<Node<K, V>>>, b: nat, node: Node<K, V>)
    requires b < |cs|
    ensures NodesOf(Pushed(cs, b, node)) == NodesOf(cs) + {node}
  {
    var ds := Pushed(cs, b, node);
    forall n | n in NodesOf(cs)
      ensures n in NodesOf(ds)
    {
      var i :| 0 <= i < |cs| && n in cs[i];
      assert n in ds[i];
    }
    assert node in ds[b];
    forall n | n in NodesOf(ds)
      ensures n in NodesOf(cs) || n == node
    {
      var i :| 0 <= i < |ds| && n in ds[i];
      assert n in cs[i] || n == node;
    }
  }

  lemma TableLength<K, V>(bs: array<Node?<K, V>>, cs: seq<seq<Node<K, V>>>)
    requires TableOk(bs, cs)
    ensures bs.Length == |cs|
  {
  }

  /** What linking a node with a new key does to the index and to the contents. */
  lemma LinkFacts<K, V>(hash: K -> nat, cs: seq<seq<Node<K, V>>>, nodes: map<K, Node<K, V>>, n: Node<K, V>, b: nat)
    requires |cs| > 0 && Placed(hash, cs) && Indexed(cs, nodes) && n.key !in nodes && b == hash(n.key) % |cs|
    ensures n !in NodesOf(cs)
    ensures Placed(hash, Pushed(cs, b, n))
    ensures Indexed(Pushed(cs, b, n), nodes[n.key := n])
    ensures |nodes[n.key := n]| == |nodes| + 1
    ensures ValuesOf(nodes[n.key := n]) == ValuesOf(nodes)[n.key := n.value]
  {
    assert n !in NodesOf(cs);
    PushedNodes(cs, b, n);
    PlacedPush(hash, cs, b, n);
    IndexedPush(cs, Pushed(cs, b, n), nodes, n);
    ValuesOfUpdate(nodes, n);
  }

  /** Links `node` in at the head of bucket `b`. */
  method PushFront<K, V>(bs: array<Node?<K, V>>, b: nat, node: Node<K, V>, ghost cs: seq<seq<Node<K, V>>>)
    requires b < bs.Length && TableOk(bs, cs) && node !in NodesOf(cs)
    modifies bs, node`next
    ensures TableOk(bs, Pushed(cs, b, node))
  {
    ghost var heads := bs[..];
    node.next := bs[b];
    bs[b] := node;
    ghost var ds := Pushed(cs, b, node);
    forall i | 0 <= i < |ds|
      ensures ChainOk(bs[..][i], ds[i])
    {
      ChainNodes(cs, i);
      assert ChainOk(heads[i], cs[i]);
      if i == b {
        PushChain(heads[i], cs[i], node);
      }
    }
  }

  /** The search loop shared by lookup, insertion and deletion. */
  method FindInChain<K(==), V>(head: Node?<K, V>, key: K, ghost c: seq<Node<K, V>>)
    returns (n: Node?<K, V>, ghost j: nat)
    requires ChainOk(head, c)
    ensures j <= |c| && n == At(c, j)
    ensures n != null ==> n.key == key
    ensures forall i :: 0 <= i < j ==> c[i].key != key
  {
    n, j := head, 0;
    while n != null && n.key != key
      invariant 0 <= j <= |c| && n == At(c, j)
      invariant forall i :: 0 <= i < j ==> c[i].key != key
      decreases |c| - j
    {
      n := n.next;
      j := j + 1;
    }
  }

  /** A search of the key's bucket finds the key's node if there is one, and nothing otherwise. */
  lemma KeyInChain<K, V>(hash: K -> nat, cs: seq<seq<Node<K, V>>>, nodes: map<K, Node<K, V>>, key: K,
                         b: nat, j: nat, n: Node?<K, V>)
    requires |cs| > 0 && Placed(hash, cs) && Indexed(cs, nodes) && b == hash(key) % |cs|
    requires j <= |cs[b]| && n == At(cs[b], j) && (n != null ==> n.key == key)
    requires forall i :: 0 <= i < j ==> cs[b][i].key != key
    ensures n == if key in nodes then nodes[key] else null
  {
    if n != null {
      assert n in cs[b];
      ChainNodes(cs, b);
    } else if key in nodes {
      InBucket(hash, cs, nodes, key);
    }
  }

  // ---------------------------------------------------------------- unlinking

  /** The search loop of `hmap_delete`, which also keeps the node before. */
  method FindWithPrev<K(==), V>(head: Node?<K, V>, key: K, ghost c: seq<Node<K, V>>)
    returns (prev: Node?<K, V>, n: Node?<K, V>, ghost j: nat)
    requires ChainOk(head, c)
    ensures j <= |c| && n == At(c, j)
    ensures n != null ==> n.key == key
    ensures prev == if j == 0 then null else c[j - 1]
    ensures forall i :: 0 <= i < j ==> c[i].key != key
  {
    prev, n, j := null, head, 0;
    while n != null && n.key != key
      invariant 0 <= j <= |c| && n == At(c, j)
      invariant prev == if j == 0 then null else c[j - 1]
      invariant forall i :: 0 <= i < j ==> c[i].key != key
      decreases |c| - j
    {
      prev := n;
      n := n.next;
      j := j + 1;
    }
  }

  ghost function Cut<T>(c: seq<T>, j: nat): seq<T>
    requires j < |c|
  {
    c[..j] + c[j + 1..]
  }

  ghost function Without<K, V>(cs: seq<seq<Node<K, V>>>, b: nat, j: nat): seq<seq<Node<K, V>>>
    requires b < |cs| && j < |cs[b]|
  {
    cs[b := Cut(cs[b], j)]
  }

  method BypassNode<K, V>(bs: array<Node?<K, V>>, b: nat, prev: Node?<K, V>, node: Node<K, V>,
                          ghost cs: seq<seq<Node<K, V>>>, ghost j: nat)
    requires TableOk(bs, cs) && b < bs.Length && j < |cs[b]| && node == cs[b][j]
    requires prev == if j == 0 then null else cs[b][j - 1]
    requires forall k :: 0 <= k < |cs| && k != b ==> NoneShared(cs[b], cs[k])
    modifies bs, NodesOf(cs)`next
    ensures TableOk(bs, Without(cs, b, j))
  {
    ghost var heads, c := bs[..], cs[b];
    assert forall k :: 0 <= k < |cs| ==> ChainOk(heads[k], cs[k]);
    ChainNodes(cs, b);
    if prev != null {
      prev.next := node.next;
    } else {
      bs[b] := node.next;
    }
    ghost var ds := Without(cs, b, j);
    forall k | 0 <= k < |ds|
      ensures ChainOk(bs[k], ds[k])
    {
      if k == b {
        CutChain(bs[b], c, j);
      } else {
        assert NoneShared(cs[b], cs[k]);
      }
    }
  }

  /** Bypassing one node of a chain leaves the chain without it. */
  lemma CutChain<K, V>(head: Node?<K, V>, c: seq<Node<K, V>>, j: nat)
    requires j < |c| && (forall i, k :: 0 <= i < k < |c| ==> c[i] != c[k])
    requires head == if j == 0 then At(c, 1) else c[0]
    requires forall i :: 0 <= i < |c| && i != j ==> c[i].next == if i == j - 1 then At(c, j + 1) else At(c, i + 1)
    ensures ChainOk(head, Cut(c, j))
  {
    var d := Cut(c, j);
    forall i | 0 <= i < |d|
      ensures d[i].next == At(d, i + 1)
    {
      assert d[i] == if i < j then c[i] else c[i + 1];
    }
  }

  /** What unlinking a node does to the index and to the contents. */
  lemma UnlinkFacts<K, V>(hash: K -> nat, bs: array<Node?<K, V>>, cs: seq<seq<Node<K, V>>>,
                          nodes: map<K, Node<K, V>>, b: nat, j: nat)
    requires TableOk(bs, cs) && Placed(hash, cs) && Indexed(cs, nodes)
    requires b < |cs| && j < |cs[b]|
    ensures var n, ds := cs[b][j], Without(cs, b, j);
            && n.key in nodes
            && Placed(hash, ds) && Indexed(ds, nodes - {n.key})
            && |nodes - {n.key}| == |nodes| - 1
            && ValuesOf(nodes - {n.key}) == ValuesOf(nodes) - {n.key}
    ensures forall k :: 0 <= k < |cs| && k != b ==> NoneShared(cs[b], cs[k])
  {
    var n, ds := cs[b][j], Without(cs, b, j);
    SplitChains(hash, cs, b);
    ChainNodes(cs, b);
    assert ChainOk(bs[..][b], cs[b]);
    WithoutNodes(cs, b, j);
    hide TableOk, Indexed, NodesOf, Placed, ValuesOf;
    IndexedCut(cs, ds, nodes, n);
    PlacedWithout(hash, cs, b, j);
    ValuesOfWithout(nodes, n.key);
  }

  lemma PlacedWithout<K, V>(hash: K -> nat, cs: seq<seq<Node<K, V>>>, b: nat, j: nat)
    requires Placed(hash, cs) && b < |cs| && j < |cs[b]|
    ensures Placed(hash, Without(cs, b, j))
  {
    var ds := Without(cs, b, j);
    forall i: int, m: Node<K, V> | 0 <= i < |ds| && m in ds[i]
      ensures hash(m.key) % |ds| == i
    {
      assert m in cs[i];
    }
  }

  lemma WithoutNodes<K, V>(cs: seq<seq<Node<K, V>>>, b: nat, j: nat)
    requires b < |cs| && j < |cs[b]|
    requires forall i, k :: 0 <= i < k < |cs[b]| ==> cs[b][i] != cs[b][k]
    requires forall k :: 0 <= k < |cs| && k != b ==> NoneShared(cs[b], cs[k])
    ensures NodesOf(Without(cs, b, j)) == NodesOf(cs) - {cs[b][j]}
  {
    var ds, n := Without(cs, b, j), cs[b][j];
    forall m | m in NodesOf(ds)
      ensures m in NodesOf(cs) && m != n
    {
      var i :| 0 <= i < |ds| && m in ds[i];
      assert m in cs[i];
      if i != b {
        assert NoneShared(cs[b], cs[i]);
      } else {
        var k :| 0 <= k < |ds[b]| && ds[b][k] == m;
        assert m == if k < j then cs[b][k] else cs[b][k + 1];
      }
    }
    forall m | m in NodesOf(cs) && m != n
      ensures m in NodesOf(ds)
    {
      var i :| 0 <= i < |cs| && m in cs[i];
      if i == b {
        var k :| 0 <= k < |cs[b]| && cs[b][k] == m;
        assert m == if k < j then ds[b][k] else ds[b][k - 1];
      }
      assert m in ds[i];
    }
  }

  // ---------------------------------------------------------------- rehashing

  ghost predicate Disjoint<K, V>(c: seq<Node<K, V>>, cs: seq<seq<Node<K, V>>>)
  {
    forall n :: n in c ==> n !in NodesOf(cs)
  }

  /** The inner loop of `hmap_grow`: every node of one old chain moves to the bucket of its hash. */
  method MoveChain<K, V>(hash: K -> nat, bs: array<Node?<K, V>>, head: Node?<K, V>, ghost c: seq<Node<K, V>>,
                         ghost cs: seq<seq<Node<K, V>>>) returns (ghost ds: seq<seq<Node<K, V>>>)
    requires bs.Length > 0 && ChainOk(head, c) && TableOk(bs, cs) && Placed(hash, cs) && Disjoint(c, cs)
    modifies bs, c`next
    ensures TableOk(bs, ds) && Placed(hash, ds)
    ensures NodesOf(ds) == NodesOf(cs) + Elems(c)
  {
    hide TableOk, Placed, NodesOf;
    ds := cs;
    var node := head;
    ghost var j := 0;
    assert Elems(c[..0]) == {} && c[0..] == c;
    while node != null
      invariant 0 <= j <= |c| && ChainOk(node, c[j..])
      invariant TableOk(bs, ds) && Placed(hash, ds)
      invariant NodesOf(ds) == NodesOf(cs) + Elems(c[..j])
      decreases |c| - j
    {
      var next := node.next;
      SuffixStep(c, j);
      TailChain(node, c[j..]);
      ds := MoveNode(hash, bs, node, ds);
      node := next;
      j := j + 1;
    }
    assert c[..j] == c;
  }

  lemma SuffixStep<T>(c: seq<T>, j: nat)
    requires j < |c| && forall i, k :: 0 <= i < k < |c| ==> c[i] != c[k]
    ensures c[j..][0] == c[j] && c[j..][1..] == c[j + 1..]
    ensures Elems(c[..j + 1]) == Elems(c[..j]) + {c[j]} && c[j] !in Elems(c[..j])
  {
    assert c[..j + 1] == c[..j] + [c[j]];
  }

  method MoveNode<K, V>(hash: K -> nat, bs: array<Node?<K, V>>, node: Node<K, V>, ghost cs: seq<seq<Node<K, V>>>)
    returns (ghost ds: seq<seq<Node<K, V>>>)
    requires bs.Length > 0 && TableOk(bs, cs) && Placed(hash, cs) && node !in NodesOf(cs)
    modifies bs, node`next
    ensures TableOk(bs, ds) && Placed(hash, ds)
    ensures NodesOf(ds) == NodesOf(cs) + {node}
  {
    var b := hash(node.key) % bs.Length;
    PushFront(bs, b, node, cs);
    PushedNodes(cs, b, node);
    PlacedPush(hash, cs, b, node);
    ds := Pushed(cs, b, node);
  }

  /** The outer loop of `hmap_grow`: all old chains move into the empty array `bs`. */
  method Rehash<K, V>(hash: K -> nat, from: array<Node?<K, V>>, ghost cs: seq<seq<Node<K, V>>>,
                      bs: array<Node?<K, V>>) returns (ghost ds: seq<seq<Node<K, V>>>)
    requires from != bs && bs.Length > 0 && TableOk(from, cs) && Placed(hash, cs)
    requires forall i :: 0 <= i < bs.Length ==> bs[i] == null
    modifies bs, NodesOf(cs)`next
    ensures TableOk(bs, ds) && Placed(hash, ds) && NodesOf(ds) == NodesOf(cs)
  {
    ds := seq(bs.Length, _ => []);
    assert NodesOf(ds) == {} && TableOk(bs, ds) && Placed(hash, ds);
    ghost var heads := from[..];
    assert NodesOf(cs[..0]) == {} && |heads| == |cs|;
    assert forall k :: 0 <= k < |cs| ==> ChainOk(heads[k], cs[k]);
    hide TableOk, ChainOk, NodesOf, Placed;
    var i := 0;
    while i < from.Length
      invariant 0 <= i <= |heads| == |cs| && from[..] == heads
      invariant forall k :: i <= k < |cs| ==> ChainOk(heads[k], cs[k])
      invariant TableOk(bs, ds) && Placed(hash, ds)
      invariant NodesOf(ds) == NodesOf(cs[..i])
    {
      SplitChains(hash, cs, i);
      label Before:
      ds := MoveChain(hash, bs, from[i], cs[i], ds);
      forall k | i < k < |cs|
        ensures ChainOk(heads[k], cs[k])
      {
        assert NoneShared(cs[i], cs[k]);
        assert old@Before(ChainOk(heads[k], cs[k]));
      }
      i := i + 1;
    }
    assert cs[..i] == cs;
  }

  lemma IndexedSame<K, V>(cs: seq<seq<Node<K, V>>>, ds: seq<seq<Node<K, V>>>, nodes: map<K, Node<K, V>>)
    requires Indexed(cs, nodes) && NodesOf(cs) == NodesOf(ds)
    ensures Indexed(ds, nodes)
  {
  }

  lemma OneBucket<K, V>(hash: K -> nat, cs: seq<seq<Node<K, V>>>, i: nat, j: nat, n: Node<K, V>)
    requires Placed(hash, cs) && i < |cs| && j < |cs| && n in cs[i] && n in cs[j]
    ensures i == j
  {
    assert hash(n.key) % |cs| == i;
    assert hash(n.key) % |cs| == j;
  }

  lemma TailChain<K, V>(head: Node?<K, V>, c: seq<Node<K, V>>)
    requires ChainOk(head, c) && c != []
    ensures ChainOk(c[0].next, c[1..])
    ensures c[0] !in c[1..]
  {
    var d := c[1..];
    forall j | 0 <= j < |d|
      ensures d[j].next == At(d, j + 1)
    {
      assert d[j] == c[j + 1];
    }
  }

  lemma PlacedPush<K, V>(hash: K -> nat, cs: seq<seq<Node<K, V>>>, b: nat, node: Node<K, V>)
    requires b < |cs| && Placed(hash, cs) && hash(node.key) % |cs| == b
    ensures Placed(hash, Pushed(cs, b, node))
  {
  }

  /** Chain `i` is apart from all the others. */
  lemma SplitChains<K, V>(hash: K -> nat, cs: seq<seq<Node<K, V>>>, i: nat)
    requires i < |cs| && Placed(hash, cs)
    ensures Disjoint(cs[i], cs[..i])
    ensures forall k :: 0 <= k < |cs| && k != i ==> NoneShared(cs[i], cs[k])
    ensures NodesOf(cs[..i + 1]) == NodesOf(cs[..i]) + Elems(cs[i])
    ensures forall n :: n in cs[i] ==> n in NodesOf(cs)
  {
    ChainNodes(cs, i);
    forall k | 0 <= k < |cs| && k != i
      ensures NoneShared(cs[i], cs[k])
    {
      forall n | n in cs[i] && n in cs[k]
        ensures false
      {
        OneBucket(hash, cs, i, k, n);
      }
    }
    forall n | n in NodesOf(cs[..i])
      ensures n !in cs[i]
    {
      var k :| 0 <= k < i && n in cs[..i][k];
      assert NoneShared(cs[i], cs[k]);
    }
    NodesOfSnoc(cs[..i], cs[i]);
    assert cs[..i + 1] == cs[..i] + [cs[i]];
  }

  lemma NodesOfSnoc<K, V>(cs: seq<seq<Node<K, V>>>, c: seq<Node<K, V>>)
    ensures NodesOf(cs + [c]) == NodesOf(cs) + Elems(c)
  {
    var ds := cs + [c];
    forall n | n in NodesOf(cs)
      ensures n in NodesOf(ds)
    {
      var i :| 0 <= i < |cs| && n in cs[i];
      assert n in ds[i];
    }
    forall n | n in c
      ensures n in NodesOf(ds)
    {
      assert n in ds[|cs|];
    }
  }

  // ---------------------------------------------------------------- iteration

  /** All nodes, bucket by bucket: the order in which the iterator visits them. */
  ghost function Flatten<K, V>(cs: seq<seq<Node<K, V>>>): seq<Node<K, V>>
  {
    if cs == [] then [] else cs[0] + Flatten(cs[1..])
  }

  /** What comes after the node at position `pos` of the chain before bucket `idx`. */
  ghost function AfterNode<K, V>(cs: seq<seq<Node<K, V>>>, idx: nat, pos: nat): seq<Node<K, V>>
    requires 0 < idx <= |cs| && pos < |cs[idx - 1]|
  {
    cs[idx - 1][pos + 1..] + Flatten(cs[idx..])
  }

  lemma AfterNodeStep<K, V>(cs: seq<seq<Node<K, V>>>, idx: nat, pos: nat)
    requires 0 < idx <= |cs| && pos < |cs[idx - 1]|
    ensures pos + 1 < |cs[idx - 1]| ==>
              AfterNode(cs, idx, pos) == [cs[idx - 1][pos + 1]] + AfterNode(cs, idx, pos + 1)
    ensures pos + 1 == |cs[idx - 1]| ==> AfterNode(cs, idx, pos) == Flatten(cs[idx..])
  {
    hide Flatten;
    var c := cs[idx - 1];
    if pos + 1 < |c| {
      assert c[pos + 1..] == [c[pos + 1]] + c[pos + 2..];
    } else {
      assert c[pos + 1..] == [];
    }
  }

  lemma FlattenStep<K, V>(cs: seq<seq<Node<K, V>>>, idx: nat)
    requires idx <= |cs|
    ensures idx == |cs| ==> Flatten(cs[idx..]) == []
    ensures idx < |cs| && cs[idx] == [] ==> Flatten(cs[idx..]) == Flatten(cs[idx + 1..])
    ensures idx < |cs| && cs[idx] != [] ==> Flatten(cs[idx..]) == [cs[idx][0]] + AfterNode(cs, idx + 1, 0)
  {
    if idx < |cs| {
      assert cs[idx..][1..] == cs[idx + 1..];
      assert Flatten(cs[idx..]) == cs[idx] + Flatten(cs[idx + 1..]);
      hide Flatten;
      if cs[idx] != [] {
        assert cs[idx] == [cs[idx][0]] + cs[idx][1..];
      }
    }
  }

  lemma TableLinks<K, V>(bs: array<Node?<K, V>>, cs: seq<seq<Node<K, V>>>, i: nat, j: nat)
    requires TableOk(bs, cs) && i < |cs|
    ensures bs.Length == |cs| && bs[i] == At(cs[i], 0)
    ensures j < |cs[i]| ==> cs[i][j].next == At(cs[i], j + 1)
  {
    assert ChainOk(bs[..][i], cs[i]);
  }

  /** `hmap_iterator`. */
  class Iterator<K(==), V> {
    const hmap: Map<K, V>
    var bucketIdx: nat
    var node: Node?<K, V>
    /** The node's position in its chain. */
    ghost var pos: nat

    ghost predicate Valid()
      reads this, hmap, hmap.buckets, NodesOf(hmap.chains)`next
    {
      && hmap.Valid()
      && bucketIdx <= |hmap.chains|
      && (node != null ==>
            && bucketIdx > 0 && pos < |hmap.chains[bucketIdx - 1]|
            && node == hmap.chains[bucketIdx - 1][pos])
    }

    /** The nodes still to be visited, in order. */
    ghost function Remaining(): seq<Node<K, V>>
      requires Valid()
      reads this, hmap, hmap.buckets, NodesOf(hmap.chains)`next
    {
      if node == null then Flatten(hmap.chains[bucketIdx..]) else AfterNode(hmap.chains, bucketIdx, pos)
    }

    constructor (hmap: Map<K, V>)
      requires hmap.Valid()
      ensures Valid() && this.hmap == hmap && Remaining() == Flatten(hmap.chains)
    {
      this.hmap := hmap;
      bucketIdx := 0;
      node := null;
      pos := 0;
      new;
      assert hmap.chains[0..] == hmap.chains;
    }

    /** `hmap_iter_next`: moves to the next node, if any is left; once none is, none ever will be. */
    method Next() returns (ok: bool)
      requires Valid()
      modifies this
      ensures Valid()
      ensures ok <==> old(Remaining()) != []
      ensures ok ==> node != null && [node] + Remaining() == old(Remaining())
      ensures !ok ==> node == null && Remaining() == []
    {
      hide TableOk, Placed, Indexed, NodesOf, AfterNode, Flatten;
      if node != null {
        TableLinks(hmap.buckets, hmap.chains, bucketIdx - 1, pos);
        AfterNodeStep(hmap.chains, bucketIdx, pos);
        node := node.next;
        pos := pos + 1;
        if node != null {
          return true;
        }
      }
      ok := NextBucket();
    }

    /** The loop of `hmap_iter_next` that skips empty buckets. */
    method NextBucket() returns (ok: bool)
      requires Valid() && node == null
      modifies this
      ensures Valid()
      ensures ok <==> old(Remaining()) != []
      ensures ok ==> node != null && [node] + Remaining() == old(Remaining())
      ensures !ok ==> node == null && Remaining() == []
    {
      hide TableOk, Placed, Indexed, NodesOf, AfterNode, Flatten;
      TableLength(hmap.buckets, hmap.chains);
      while bucketIdx < hmap.buckets.Length
        invariant Valid() && node == null && Remaining() == old(Remaining())
      {
        TableLinks(hmap.buckets, hmap.chains, bucketIdx, 0);
        FlattenStep(hmap.chains, bucketIdx);
        if hmap.buckets[bucketIdx] != null {
          node := hmap.buckets[bucketIdx];
          bucketIdx := bucketIdx + 1;
          pos := 0;
          return true;
        }
        bucketIdx := bucketIdx + 1;
      }
      FlattenStep(hmap.chains, bucketIdx);
      ok := false;
    }
  }

  lemma {:induction false} FlattenNodes<K, V>(cs: seq<seq<Node<K, V>>>)
    ensures forall n :: n in Flatten(cs) <==> n in NodesOf(cs)
    decreases |cs|
  {
    if cs != [] {
      FlattenNodes(cs[1..]);
      forall n
        ensures n in NodesOf(cs) <==> n in cs[0] || n in NodesOf(cs[1..])
      {
        if n in NodesOf(cs[1..]) {
          var i :| 0 <= i < |cs[1..]| && n in cs[1..][i];
          assert n in cs[i + 1];
        }
        if n in NodesOf(cs) && n !in cs[0] {
          var i :| 0 <= i < |cs| && n in cs[i];
          assert n in cs[1..][i - 1];
        }
        if n in cs[0] {
          ChainNodes(cs, 0);
        }
      }
    }
  }

  lemma {:induction false} FlattenNoDup<K, V>(cs: seq<seq<Node<K, V>>>)
    requires forall i :: 0 <= i < |cs| ==> NoDup(cs[i])
    requires forall i, j :: 0 <= i < j < |cs| ==> NoneShared(cs[i], cs[j])
    ensures NoDup(Flatten(cs))
    decreases |cs|
  {
    if cs != [] {
      var ds := cs[1..];
      assert forall i :: 0 <= i < |ds| ==> ds[i] == cs[i + 1];
      FlattenNoDup(ds);
      FlattenNodes(ds);
      hide NoDup;
      assert forall i :: 0 <= i < |ds| ==> NoneShared(cs[0], ds[i]);
      assert forall n :: n in cs[0] ==> n !in NodesOf(ds);
      NoDupConcat(cs[0], Flatten(ds));
    }
  }

  /** Iterator completeness: the nodes visited are all nodes of the map, each exactly once, `len` of them. */
  lemma VisitsEachNodeOnce<K, V>(m: Map<K, V>)
    requires m.Valid()
    ensures var visited := Flatten(m.chains);
            && NoDup(visited)
            && (forall n :: n in visited <==> n.key in m.nodes && m.nodes[n.key] == n)
            && (forall k :: k in m.nodes ==> m.nodes[k].key == k && m.nodes[k] in visited)
            && |visited| == m.len
  {
    hide Flatten, NodesOf, TableOk, Placed, Indexed, NoDup, NoneShared;
    ChainsApart(m);
    assert NoDup(Flatten(m.chains)) by {
      FlattenNoDup(m.chains);
    }
    VisitedIndexed(m.chains, m.nodes);
    assert forall n :: n in Flatten(m.chains) ==> n.key in m.nodes && m.nodes[n.key] == n;
    VisitedKeys(m.nodes, Flatten(m.chains));
  }

  lemma {:induction false} VisitedIndexed<K, V>(cs: seq<seq<Node<K, V>>>, nodes: map<K, Node<K, V>>)
    requires Indexed(cs, nodes)
    ensures forall n :: n in Flatten(cs) <==> n.key in nodes && nodes[n.key] == n
    ensures forall k :: k in nodes ==> nodes[k].key == k && nodes[k] in Flatten(cs)
  {
    FlattenNodes(cs);
    hide NodesOf, Flatten;
  }

  lemma ChainsApart<K, V>(m: Map<K, V>)
    requires m.Valid()
    ensures forall i :: 0 <= i < |m.chains| ==> NoDup(m.chains[i])
    ensures forall i, j :: 0 <= i < j < |m.chains| ==> NoneShared(m.chains[i], m.chains[j])
  {
    forall i | 0 <= i < |m.chains|
      ensures NoDup(m.chains[i])
    {
      assert ChainOk(m.buckets[..][i], m.chains[i]);
    }
    forall i, j | 0 <= i < j < |m.chains|
      ensures NoneShared(m.chains[i], m.chains[j])
    {
      SplitChains(m.hash, m.chains, i);
    }
  }

  lemma VisitedKeys<K, V>(nodes: map<K, Node<K, V>>, visited: seq<Node<K, V>>)
    requires NoDup(visited)
    requires forall n :: n in visited ==> n.key in nodes && nodes[n.key] == n
    requires forall k :: k in nodes ==> nodes[k].key == k && nodes[k] in visited
    ensures |visited| == |nodes|
  {
    var keys := seq(|visited|, i requires 0 <= i < |visited| => visited[i].key);
    assert NoDup(keys) by {
      forall i, j | 0 <= i < j < |keys|
        ensures keys[i] != keys[j]
      {
        assert visited[i] in visited && visited[j] in visited;
      }
    }
    NoDupCount(keys);
    assert Elems(keys) == nodes.Keys by {
      forall k | k in nodes
        ensures k in keys
      {
        var i :| 0 <= i < |visited| && visited[i] == nodes[k];
        assert keys[i] == k;
      }
      forall k | k in keys
        ensures k in nodes
      {
        var i :| 0 <= i < |keys| && keys[i] == k;
        assert visited[i] in visited;
      }
    }
  }

  lemma SnocStep<T>(s: seq<T>, x: T, rest: seq<T>)
    ensures s + ([x] + rest) == (s + [x]) + rest
  {
  }

  /** `HMAP_FOREACH`: visits the whole map. */
  method VisitAll<K(==), V>(m: Map<K, V>) returns (visited: seq<Node<K, V>>)
    requires m.Valid()
    ensures visited == Flatten(m.chains)
  {
    hide TableOk, Placed, Indexed, NodesOf, Flatten, AfterNode;
    var it := new Iterator(m);
    visited := [];
    ghost var all := it.Remaining();
    var more := it.Next();
    assert [] + all == all;
    while more
      invariant it.Valid() && fresh(it) && it.hmap == m && (more ==> it.node != null)
      invariant all == visited + (if more then [it.node] + it.Remaining() else [])
      decreases |all| - |visited|, more
    {
      var n: Node<K, V> := it.node;
      SnocStep(visited, n, it.Remaining());
      visited := visited + [n];
      more := it.Next();
    }
    assert visited + [] == visited;
  }
}
