/**
 * The chained hash table of the debug database, which the source writes out twice: once for iterator nodes and
 * once for container nodes. Nodes are linked in place; a full table is rehashed by relinking every node.
 */
module HashTables {
  import opened PrimeSearch
  import opened Primes

  type Ptr = nat

  class Node<V> {
    const key: Ptr
    var next: Node?<V>
    var val: V

    constructor (key: Ptr, next: Node?<V>, val: V)
      ensures this.key == key && this.next == next && this.val == val
    {
      this.key := key;
      this.next := next;
      this.val := val;
    }
  }

  ghost function SetOf<V>(c: seq<Node<V>>): set<Node<V>> {
    set n | n in c
  }

  ghost predicate Distinct<V>(c: seq<Node<V>>) {
    forall j, k :: 0 <= j < k < |c| ==> c[j] != c[k]
  }

  /** The nodes of c are linked in order, starting at head and ending in null. */
  ghost predicate Linked<V>(head: Node?<V>, c: seq<Node<V>>)
    reads SetOf(c)`next
  {
    && head == (if c == [] then null else c[0])
    && forall k {:trigger c[k].next} :: 0 <= k < |c| ==> c[k].next == if k + 1 < |c| then c[k + 1] else null
  }

  /** Row b of a table of m rows: distinct linked nodes whose keys hash to b. */
  ghost predicate Row<V>(head: Node?<V>, c: seq<Node<V>>, hash: Ptr -> nat, m: nat, b: nat)
    reads SetOf(c)`next
  {
    && m > 0
    && Distinct(c)
    && (forall n :: n in SetOf(c) ==> hash(n.key) % m == b)
    && Linked(head, c)
  }

  /** A node sits in the row its key hashes to. */
  ghost predicate InRow<V>(n: Node<V>, chains: seq<seq<Node<V>>>, hash: Ptr -> nat) {
    |chains| > 0 && n in chains[hash(n.key) % |chains|]
  }

  ghost predicate Rows<V>(heads: seq<Node?<V>>, chains: seq<seq<Node<V>>>, ns: set<Node<V>>, hash: Ptr -> nat)
    reads ns`next
  {
    && |heads| == |chains|
    && (forall b :: 0 <= b < |heads| ==> SetOf(chains[b]) <= ns && Row(heads[b], chains[b], hash, |heads|, b))
    && (forall n :: n in ns ==> InRow(n, chains, hash))
  }

  /** Links q in at the head of bucket h. */
  method Push<V>(bs: array<Node?<V>>, h: nat, q: Node<V>,
                 ghost chains: seq<seq<Node<V>>>, ghost ns: set<Node<V>>, ghost hash: Ptr -> nat)
    returns (ghost newChains: seq<seq<Node<V>>>)
    requires h < bs.Length && Rows(bs[..], chains, ns, hash) && q !in ns && hash(q.key) % bs.Length == h
    modifies bs, q`next
    ensures newChains == chains[h := [q] + chains[h]]
    ensures Rows(bs[..], newChains, ns + {q}, hash)
    ensures q.next == old(bs[h]) && bs[..] == old(bs[..])[h := q]
  {
    ghost var c := chains[h];
    assert Row(bs[h], c, hash, bs.Length, h) && SetOf(c) <= ns;
    q.next := bs[h];
    bs[h] := q;
    ghost var d := [q] + c;
    newChains := chains[h := d];
    assert SetOf(d) == SetOf(c) + {q};
    assert Row(bs[h], d, hash, bs.Length, h) by {
      assert c == d[1..];
      assert forall k :: 0 <= k < |c| ==> c[k] in SetOf(c);
    }
    forall b | 0 <= b < bs.Length && b != h
      ensures SetOf(newChains[b]) <= ns + {q} && Row(bs[b], newChains[b], hash, bs.Length, b)
    {
      assert old(SetOf(chains[b]) <= ns && Row(bs[b], chains[b], hash, bs.Length, b));
    }
  }

  /** Relinks a whole row, node by node, into the new buckets. */
  method MoveRow<V>(head: Node?<V>, bs: array<Node?<V>>, hash: Ptr -> nat,
                    ghost c: seq<Node<V>>, ghost chains: seq<seq<Node<V>>>, ghost ns: set<Node<V>>)
    returns (ghost newChains: seq<seq<Node<V>>>)
    requires bs.Length > 0 && Rows(bs[..], chains, ns, hash)
    requires Linked(head, c) && Distinct(c) && SetOf(c) !! ns
    modifies bs, SetOf(c)`next
    ensures Rows(bs[..], newChains, ns + SetOf(c), hash)
  {
    var q := head;
    ghost var k := 0;
    ghost var moved: set<Node<V>> := ns;
    newChains := chains;
    while q != null
      invariant 0 <= k <= |c| && q == if k < |c| then c[k] else null
      invariant forall j {:trigger c[j].next} :: k <= j < |c| ==> c[j].next == if j + 1 < |c| then c[j + 1] else null
      invariant Rows(bs[..], newChains, moved, hash)
      invariant ns <= moved <= ns + SetOf(c)
      invariant forall j :: 0 <= j < k ==> c[j] in moved
      invariant forall j :: k <= j < |c| ==> c[j] !in moved
      decreases |c| - k
    {
      var n: Node<V> := q;
      var h := hash(n.key) % bs.Length;
      var r := n.next;
      assert r == c[k].next;
      newChains := Push(bs, h, n, newChains, moved, hash);
      moved := moved + {n};
      q := r;
      k := k + 1;
    }
    assert moved == ns + SetOf(c);
  }

  lemma RowsApart<V>(c: seq<Node<V>>, d: seq<Node<V>>, hash: Ptr -> nat, m: nat, a: nat, b: nat)
    requires m > 0 && a != b
    requires forall n :: n in SetOf(c) ==> hash(n.key) % m == a
    requires forall n :: n in SetOf(d) ==> hash(n.key) % m == b
    ensures SetOf(c) !! SetOf(d)
  {
  }

  /** nodes and owned describe the same nodes. */
  ghost predicate Indexed<V>(nodes: map<Ptr, Node<V>>, owned: set<Node<V>>) {
    && (forall p :: p in nodes ==> nodes[p] in owned && nodes[p].key == p)
    && (forall n :: n in owned ==> n.key in nodes && nodes[n.key] == n)
  }

  lemma IndexedAdd<V>(nodes: map<Ptr, Node<V>>, owned: set<Node<V>>, n: Node<V>)
    requires Indexed(nodes, owned) && n.key !in nodes
    ensures Indexed(nodes[n.key := n], owned + {n}) && |nodes[n.key := n]| == |nodes| + 1
  {
  }

  lemma IndexedDrop<V>(nodes: map<Ptr, Node<V>>, owned: set<Node<V>>, n: Node<V>)
    requires Indexed(nodes, owned) && n in owned
    ensures Indexed(nodes - {n.key}, owned - {n}) && |nodes - {n.key}| == |nodes| - 1
  {
  }

  class HashTable<V> {
    const hash: Ptr -> nat
    const word: Word
    var buckets: array<Node?<V>>
    var size: nat

    /** What the table represents: the node of each key. */
    ghost var nodes: map<Ptr, Node<V>>
    ghost var owned: set<Node<V>>
    ghost var chains: seq<seq<Node<V>>>

    ghost predicate Valid()
      reads this, buckets, owned`next
    {
      && Rows(buckets[..], chains, owned, hash)
      && Indexed(nodes, owned)
      && size == |nodes| <= buckets.Length
      && buckets.Length <= word.MaxPointers()
    }

    /** All buckets are in use, and no prime of the next size both fits in the word and can be allocated. */
    ghost predicate CannotGrow()
      reads this
    {
      size == buckets.Length && NoPrimeIn(2 * buckets.Length + 1, word.MaxPointers() + 1)
    }

    /** In numbers: the table is full, and twice its bucket count is beyond the last one. */
    lemma GrowsUntil()
      requires Valid()
      ensures CannotGrow() <==> size == buckets.Length && 2 * buckets.Length + 1 > word.LastBucketCount()
      ensures CannotGrow() ==> |nodes| >= word.Room()
    {
      hide Rows, Indexed;
      BucketCountsEnd(word, 2 * buckets.Length + 1);
    }

    lemma NodeOwned(key: Ptr)
      requires Valid() && key in nodes
      ensures nodes[key] in owned && nodes[key].key == key
    {
    }

    lemma Facts()
      requires Valid()
      ensures Indexed(nodes, owned)
    {
    }

    constructor (hash: Ptr -> nat, word: Word)
      ensures Valid() && fresh(buckets) && nodes == map[] && owned == {}
      ensures this.hash == hash && this.word == word
    {
      this.hash := hash;
      this.word := word;
      buckets := new Node?<V>[0];
      size := 0;
      nodes := map[];
      owned := {};
      chains := [];
    }

    /** The node of a key, or null. */
    method Find(key: Ptr) returns (r: Node?<V>)
      requires Valid()
      ensures r == if key in nodes then nodes[key] else null
    {
      if key in nodes {
        assert InRow(nodes[key], chains, hash);
      }
      r := null;
      if buckets.Length != 0 {
        var h := hash(key) % buckets.Length;
        ghost var c := chains[h];
        assert Row(buckets[h], c, hash, buckets.Length, h);
        ghost var k := 0;
        var nd := buckets[h];
        while nd != null
          invariant 0 <= k <= |c| && nd == if k < |c| then c[k] else null
          invariant forall j :: 0 <= j < k ==> c[j].key != key
          decreases |c| - k
        {
          if nd.key == key {
            assert c[k] in SetOf(c);
            return nd;
          }
          assert nd.next == c[k].next;
          nd := nd.next;
          k := k + 1;
        }
      }
    }

    /** Replaces the buckets by nc empty ones and relinks every node into them. */
    method Rehash(nc: nat)
      requires Valid() && nc >= size && nc > 0 && nc <= word.MaxPointers()
      modifies this`buckets, this`chains, owned`next
      ensures Valid() && fresh(buckets) && buckets.Length == nc
    {
      hide Rows;
      var nb := new Node?<V>[nc](_ => null);
      ghost var newChains := RelinkAll(buckets, nb, hash, chains, owned);
      ghost var heads := nb[..];
      chains := newChains;
      buckets := nb;
      assert buckets[..] == heads;
    }

    /**
     * Makes room for one more node. Fails, leaving everything as it was, exactly when the table is full and no
     * prime of the next size fits in the word and its bucket array in memory.
     */
    method Reserve() returns (ok: bool)
      requires Valid()
      modifies this`buckets, this`chains, owned`next
      ensures Valid() && (buckets == old(buckets) || fresh(buckets))
      ensures ok ==> size < buckets.Length
      ensures ok ==> if size < old(buckets.Length) then buckets == old(buckets)
                     else IsLeastPrimeFrom(2 * old(buckets.Length) + 1, buckets.Length)
      ensures !ok ==> buckets == old(buckets) && chains == old(chains)
      ensures !ok <==> old(CannotGrow())
    {
      if size + 1 > buckets.Length {
        var nc := NextPrime(Wrap(word, 2 * buckets.Length + 1), word);
        if nc.OverflowError? || nc.prime > word.MaxPointers() {
          return false;
        }
        Rehash(nc.prime);
      }
      return true;
    }

    /** Links in a node for a key that has none; null exactly when the table cannot grow. */
    method Insert(key: Ptr, v: V) returns (r: Node?<V>)
      requires Valid() && key !in nodes
      modifies this, buckets, owned`next
      ensures Valid() && (buckets == old(buckets) || fresh(buckets))
      ensures r == null <==> old(CannotGrow())
      ensures r == null ==> nodes == old(nodes) && owned == old(owned) && CannotGrow()
      ensures r != null ==> fresh(r) && r.key == key && r.val == v
      ensures r != null ==> nodes == old(nodes)[key := r] && owned == old(owned) + {r}
    {
      hide Rows, Indexed;
      var ok := Reserve();
      if !ok {
        return null;
      }
      var h := hash(key) % buckets.Length;
      var n := new Node(key, null, v);
      IndexedAdd(nodes, owned, n);
      ghost var newChains := Push(buckets, h, n, chains, owned, hash);
      ghost var heads := buckets[..];
      chains := newChains;
      nodes := nodes[key := n];
      owned := owned + {n};
      size := size + 1;
      assert buckets[..] == heads;
      return n;
    }

    /** Unlinks the node of a key and returns it; null when there is none. */
    method Unlink(key: Ptr) returns (r: Node?<V>)
      requires Valid()
      modifies this, buckets, owned`next
      ensures Valid() && buckets == old(buckets)
      ensures r == if key in old(nodes) then old(nodes)[key] else null
      ensures r == null ==> nodes == old(nodes) && owned == old(owned)
      ensures r != null ==> nodes == old(nodes) - {key} && owned == old(owned) - {r} && r in old(owned) && r.key == key
    {
      hide Rows, Indexed;
      ghost var k;
      var q;
      q, r, k := Search(key);
      if r == null {
        return;
      }
      var h := hash(key) % buckets.Length;
      IndexedDrop(nodes, owned, r);
      ghost var newChains := Detach(buckets, h, q, r, chains, owned, hash, k);
      ghost var heads := buckets[..];
      chains := newChains;
      nodes := nodes - {key};
      owned := owned - {r};
      size := size - 1;
      assert buckets[..] == heads;
    }

    /** Walks the row of a key: r is its node, the k-th of the row, and q the one before; r is null when there is none. */
    method Search(key: Ptr) returns (q: Node?<V>, r: Node?<V>, ghost k: nat)
      requires Valid()
      ensures r == if key in nodes then nodes[key] else null
      ensures r != null ==> r in owned && r.key == key
      ensures r != null ==>
        && buckets.Length > 0 && |chains| == buckets.Length
        && var c := chains[hash(key) % buckets.Length];
        && k < |c| && r == c[k] && q == if k == 0 then null else c[k - 1]
    {
      q, k := null, 0;
      if key in nodes {
        assert InRow(nodes[key], chains, hash);
      }
      if buckets.Length == 0 {
        return q, null, k;
      }
      var h := hash(key) % buckets.Length;
      ghost var c := chains[h];
      assert Row(buckets[h], c, hash, buckets.Length, h);
      var p := buckets[h];
      if p == null {
        return q, null, k;
      }
      while p.key != key
        invariant 0 <= k < |c| && p == c[k] && q == if k == 0 then null else c[k - 1]
        invariant forall j :: 0 <= j < k ==> c[j].key != key
        decreases |c| - k
      {
        q := p;
        assert p.next == c[k].next;
        p := p.next;
        k := k + 1;
        if p == null {
          return q, null, k;
        }
      }
      assert c[k] in SetOf(c);
      return q, p, k;
    }
  }

  /** Takes node p, which follows q or heads the bucket, out of its row. */
  method Detach<V>(bs: array<Node?<V>>, h: nat, q: Node?<V>, p: Node<V>,
                   ghost chains: seq<seq<Node<V>>>, ghost ns: set<Node<V>>, ghost hash: Ptr -> nat, ghost k: nat)
    returns (ghost newChains: seq<seq<Node<V>>>)
    requires h < bs.Length && Rows(bs[..], chains, ns, hash)
    requires k < |chains[h]| && p == chains[h][k] && q == if k == 0 then null else chains[h][k - 1]
    modifies bs, ns`next
    ensures Rows(bs[..], newChains, ns - {p}, hash)
  {
    ghost var c := chains[h];
    assert Row(bs[h], c, hash, bs.Length, h) && SetOf(c) <= ns;
    assert p.next == c[k].next;
    if q == null {
      bs[h] := p.next;
    } else {
      assert q in SetOf(c);
      q.next := p.next;
    }
    ghost var d := c[..k] + c[k + 1..];
    newChains := chains[h := d];
    RemoveFromChain(c, k);
    assert Row(bs[h], d, hash, bs.Length, h);
    forall b | 0 <= b < bs.Length && b != h
      ensures SetOf(newChains[b]) <= ns - {p} && Row(bs[b], newChains[b], hash, bs.Length, b)
    {
      assert old(SetOf(chains[b]) <= ns && Row(bs[b], chains[b], hash, bs.Length, b));
      RowsApart(c, chains[b], hash, bs.Length, h, b);
      assert p in SetOf(c);
    }
  }

  lemma RemoveFromChain<V>(c: seq<Node<V>>, k: nat)
    requires k < |c| && Distinct(c)
    ensures var d := c[..k] + c[k + 1..];
      Distinct(d) && SetOf(d) == SetOf(c) - {c[k]}
  {
  }

  /** The nodes of ns in the rows before p. */
  ghost function RowsBefore<V>(ns: set<Node<V>>, hash: Ptr -> nat, m: nat, p: nat): set<Node<V>>
    requires m > 0
  {
    set n | n in ns && hash(n.key) % m < p
  }

  lemma RowsBeforeStep<V>(ns: set<Node<V>>, hash: Ptr -> nat, chains: seq<seq<Node<V>>>, p: nat)
    requires p < |chains|
    requires forall n :: n in ns ==> InRow(n, chains, hash)
    requires SetOf(chains[p]) <= ns && forall n :: n in SetOf(chains[p]) ==> hash(n.key) % |chains| == p
    ensures RowsBefore(ns, hash, |chains|, p + 1) == RowsBefore(ns, hash, |chains|, p) + SetOf(chains[p])
    ensures SetOf(chains[p]) !! RowsBefore(ns, hash, |chains|, p)
  {
  }

  /** Moves every node of a table into the empty buckets nb. */
  method RelinkAll<V>(bs: array<Node?<V>>, nb: array<Node?<V>>, hash: Ptr -> nat,
                      ghost chains: seq<seq<Node<V>>>, ghost ns: set<Node<V>>)
    returns (ghost newChains: seq<seq<Node<V>>>)
    requires Rows(bs[..], chains, ns, hash) && nb != bs && nb.Length > 0 && forall b :: 0 <= b < nb.Length ==> nb[b] == null
    modifies nb, ns`next
    ensures Rows(nb[..], newChains, ns, hash)
  {
    newChains := seq(nb.Length, _ => []);
    if bs.Length == 0 {
      assert ns == {};
      return;
    }
    var p := 0;
    while p < bs.Length
      invariant 0 <= p <= bs.Length && bs[..] == old(bs[..])
      invariant Rows(nb[..], newChains, RowsBefore(ns, hash, bs.Length, p), hash)
      invariant forall b :: p <= b < bs.Length ==> Row(bs[b], chains[b], hash, bs.Length, b)
    {
      ghost var c := chains[p];
      assert old(Row(bs[p], c, hash, bs.Length, p) && SetOf(c) <= ns);
      RowsBeforeStep(ns, hash, chains, p);
      label before:
      newChains := MoveRow(bs[p], nb, hash, c, newChains, RowsBefore(ns, hash, bs.Length, p));
      forall b | p < b < bs.Length
        ensures Row(bs[b], chains[b], hash, bs.Length, b)
      {
        assert old@before(Row(bs[b], chains[b], hash, bs.Length, b));
        RowsApart(c, chains[b], hash, bs.Length, p, b);
      }
      p := p + 1;
    }
    assert RowsBefore(ns, hash, bs.Length, p) == ns;
  }
}
