/**
 * The debug-mode iterator database: a table of iterators and a table of containers. An iterator node points to
 * the node of its container, and the container node keeps a growable array of its iterator nodes. The database
 * refines a map from iterators to optional containers.
 */
module DebugDb {
  import opened HashTables
  import opened PrimeSearch
  import opened Primes
  import DebugSpec

  /** The array of a container node: beg_ is buf, end_ an index into it, cap_ its length. */
  datatype Vec = Vec(buf: array<INode?>, end: nat)

  type CNode = Node<Vec>
  type CNode? = Node?<Vec>
  type INode = Node<CNode?>
  type INode? = Node?<CNode?>

  ghost predicate Stores(v: Vec, list: seq<INode>)
    reads v.buf
  {
    && v.end == |list| <= v.buf.Length
    && forall k :: 0 <= k < |list| ==> v.buf[k] == list[k]
  }

  /** The iterators registered with a container, in order. */
  ghost predicate Holds(c: CNode, list: seq<INode>)
    reads c`val, c.val.buf
  {
    Stores(c.val, list)
  }

  /** Appends an iterator, doubling a full array first. */
  method Add(c: CNode, i: INode, ghost list: seq<INode>)
    requires Holds(c, list)
    modifies c`val, c.val.buf
    ensures Holds(c, list + [i]) && (c.val.buf == old(c.val.buf) || fresh(c.val.buf))
    ensures |list| < old(c.val.buf.Length) ==> c.val.buf == old(c.val.buf)
    ensures |list| == old(c.val.buf.Length) ==> c.val.buf.Length == if |list| == 0 then 1 else 2 * |list|
  {
    if c.val.end == c.val.buf.Length {
      var nc := 2 * c.val.buf.Length;
      if nc == 0 {
        nc := 1;
      }
      var beg := new INode?[nc](_ => null);
      var k := 0;
      while k < nc / 2
        modifies beg
        invariant 0 <= k <= nc / 2
        invariant forall j :: 0 <= j < k ==> beg[j] == c.val.buf[j]
      {
        beg[k] := c.val.buf[k];
        k := k + 1;
      }
      c.val := Vec(beg, nc / 2);
    }
    c.val.buf[c.val.end] := i;
    c.val := c.val.(end := c.val.end + 1);
  }

  function Without<T>(s: seq<T>, k: nat): seq<T>
    requires k < |s|
  {
    s[..k] + s[k + 1..]
  }

  /** Finds an iterator and closes the gap it leaves. */
  method Remove(c: CNode, p: INode, ghost list: seq<INode>) returns (ghost at: nat)
    requires Holds(c, list) && p in list
    modifies c`val, c.val.buf
    ensures at < |list| && list[at] == p && Holds(c, Without(list, at)) && c.val.buf == old(c.val.buf)
  {
    var b := c.val.buf;
    var r := 0;
    while b[r] != p
      invariant 0 <= r < |list| && forall j :: 0 <= j < r ==> list[j] != p
      decreases |list| - r
    {
      r := r + 1;
    }
    at := r;
    c.val := c.val.(end := c.val.end - 1);
    while r < c.val.end
      modifies b
      invariant at <= r <= c.val.end
      invariant forall j :: 0 <= j < r ==> b[j] == Without(list, at)[j]
      invariant forall j :: r < j < |list| ==> b[j] == list[j]
    {
      b[r] := b[r + 1];
      r := r + 1;
    }
  }

  /** Empties the array from the back, clearing the back pointer of every iterator in it. */
  method Clear(c: CNode, ghost list: seq<INode>)
    requires Holds(c, list)
    modifies c`val, SetOf(list)`val
    ensures Holds(c, []) && c.val.buf == old(c.val.buf)
    ensures forall i :: i in list ==> i.val == null
  {
    var b := c.val.buf;
    while c.val.end != 0
      modifies c`val, SetOf(list)`val
      invariant c.val.buf == b && c.val.end <= |list|
      invariant forall k :: c.val.end <= k < |list| ==> list[k].val == null
    {
      c.val := c.val.(end := c.val.end - 1);
      var i := b[c.val.end];
      assert i == list[c.val.end] && i in SetOf(list);
      i.val := null;
    }
  }

  // ---- the two-way relation, on values ----

  /** Every iterator in a list is owned by that container, once, and every owned iterator is in its owner's list. */
  ghost predicate Tied(owner: map<INode, CNode?>, lists: map<CNode, seq<INode>>) {
    && (forall c, k :: c in lists && 0 <= k < |lists[c]| ==> lists[c][k] in owner && owner[lists[c][k]] == c)
    && (forall c :: c in lists ==> Distinct(lists[c]))
    && (forall i :: i in owner && owner[i] != null ==> owner[i] in lists && i in lists[owner[i]])
  }

  lemma TiedNode(owner: map<INode, CNode?>, lists: map<CNode, seq<INode>>, i: INode)
    requires Tied(owner, lists) && i !in owner
    ensures Tied(owner[i := null], lists)
  {
  }

  lemma TiedContainer(owner: map<INode, CNode?>, lists: map<CNode, seq<INode>>, c: CNode)
    requires Tied(owner, lists) && c !in lists
    ensures Tied(owner, lists[c := []])
  {
  }

  lemma TiedAttach(owner: map<INode, CNode?>, lists: map<CNode, seq<INode>>, i: INode, c: CNode)
    requires Tied(owner, lists) && i in owner && owner[i] == null && c in lists
    ensures Tied(owner[i := c], lists[c := lists[c] + [i]])
  {
  }

  lemma TiedRelease(owner: map<INode, CNode?>, lists: map<CNode, seq<INode>>, i: INode, c: CNode, at: nat)
    requires Tied(owner, lists) && c in lists && at < |lists[c]| && lists[c][at] == i
    ensures Tied(owner[i := null], lists[c := Without(lists[c], at)])
  {
  }

  lemma TiedForget(owner: map<INode, CNode?>, lists: map<CNode, seq<INode>>, i: INode)
    requires Tied(owner, lists) && i in owner && owner[i] == null
    ensures Tied(owner - {i}, lists)
  {
  }

  lemma TiedDrop(owner: map<INode, CNode?>, lists: map<CNode, seq<INode>>, i: INode, c: CNode, at: nat)
    requires Tied(owner, lists) && c in lists && at < |lists[c]| && lists[c][at] == i
    ensures Tied(owner - {i}, lists[c := Without(lists[c], at)])
  {
  }

  ghost function Cleared(owner: map<INode, CNode?>, c: CNode): map<INode, CNode?> {
    map i | i in owner :: if owner[i] == c then null else owner[i]
  }

  lemma TiedClear(owner: map<INode, CNode?>, lists: map<CNode, seq<INode>>, c: CNode)
    requires Tied(owner, lists) && c in lists
    ensures Tied(Cleared(owner, c), lists[c := []]) && Tied(Cleared(owner, c), lists - {c})
    ensures Cleared(owner, c).Keys == owner.Keys && (lists - {c}).Keys == lists.Keys - {c}
  {
  }

  ghost function Swapped(owner: map<INode, CNode?>, c: CNode, d: CNode): map<INode, CNode?> {
    map i | i in owner :: if owner[i] == c then d else if owner[i] == d then c else owner[i]
  }

  lemma TiedSwap(owner: map<INode, CNode?>, lists: map<CNode, seq<INode>>, c: CNode, d: CNode)
    requires Tied(owner, lists) && c in lists && d in lists
    ensures Tied(Swapped(owner, c, d), lists[c := lists[d]][d := lists[c]])
  {
  }

  // ---- the nodes of all iterators and all containers together ----

  /** The back pointers are those of the map. */
  ghost predicate Owners(owner: map<INode, CNode?>)
    reads owner.Keys`val
  {
    forall i :: i in owner ==> i.val == owner[i]
  }

  lemma OwnerIs(owner: map<INode, CNode?>, i: INode)
    requires Owners(owner) && i in owner
    ensures i.val == owner[i] && Owners(owner - {i})
  {
  }

  /** Each container node holds its list, in an array of its own. */
  ghost predicate Arrays(lists: map<CNode, seq<INode>>, bufs: set<array<INode?>>)
    reads lists.Keys`val, bufs
  {
    && (forall c :: c in lists ==> c.val.buf in bufs && Holds(c, lists[c]))
    && (forall c, d :: c in lists && d in lists && c != d ==> c.val.buf != d.val.buf)
  }

  lemma BufOf(lists: map<CNode, seq<INode>>, bufs: set<array<INode?>>, c: CNode)
    requires Arrays(lists, bufs) && c in lists
    ensures c.val.buf in bufs
  {
  }

  lemma ArraysNew(lists: map<CNode, seq<INode>>, bufs: set<array<INode?>>, c: CNode)
    requires Arrays(lists, bufs) && c !in lists && c.val.buf !in bufs && c.val.end == 0
    ensures Arrays(lists[c := []], bufs + {c.val.buf})
  {
  }

  method AddTo(c: CNode, i: INode, ghost lists: map<CNode, seq<INode>>, ghost bufs: set<array<INode?>>)
    returns (ghost newBufs: set<array<INode?>>)
    requires Arrays(lists, bufs) && c in lists
    modifies c`val, c.val.buf
    ensures Arrays(lists[c := lists[c] + [i]], newBufs) && newBufs == bufs + {c.val.buf}
    ensures c.val.buf == old(c.val.buf) || fresh(c.val.buf)
  {
    Add(c, i, lists[c]);
    newBufs := bufs + {c.val.buf};
  }

  method RemoveFrom(c: CNode, i: INode, ghost lists: map<CNode, seq<INode>>, ghost bufs: set<array<INode?>>)
    returns (ghost at: nat)
    requires Arrays(lists, bufs) && c in lists && i in lists[c]
    modifies c`val, c.val.buf
    ensures at < |lists[c]| && lists[c][at] == i && Arrays(lists[c := Without(lists[c], at)], bufs)
  {
    at := Remove(c, i, lists[c]);
  }

  /** c lets go of all its iterators. */
  method ClearAll(c: CNode, ghost owner: map<INode, CNode?>, ghost lists: map<CNode, seq<INode>>, ghost bufs: set<array<INode?>>)
    requires Owners(owner) && Arrays(lists, bufs) && c in lists
    requires Tied(owner, lists)
    modifies c`val, owner.Keys`val
    ensures Owners(Cleared(owner, c)) && Arrays(lists[c := []], bufs) && Arrays(lists - {c}, bufs)
  {
    ListedOwned(owner, lists, c);
    Clear(c, lists[c]);
  }

  /** c and d exchange their arrays. */
  method SwapArrays(c: CNode, d: CNode, ghost lists: map<CNode, seq<INode>>, ghost bufs: set<array<INode?>>)
    requires Arrays(lists, bufs) && c in lists && d in lists
    modifies c`val, d`val
    ensures Arrays(lists[c := lists[d]][d := lists[c]], bufs)
  {
    hide Stores;
    c.val, d.val := d.val, c.val;
    forall x | x in lists
      ensures x.val.buf in bufs && Holds(x, lists[c := lists[d]][d := lists[c]][x])
    {
      var y := if x == c then d else if x == d then c else x;
      assert x.val == old(y.val) && old(Holds(y, lists[y]));
    }
  }

  /** Points every iterator in the array of c at c. */
  method Repoint(c: CNode, ghost list: seq<INode>)
    requires Holds(c, list)
    modifies SetOf(list)`val
    ensures forall i :: i in list ==> i.val == c
  {
    var k := 0;
    while k != c.val.end
      modifies SetOf(list)`val
      invariant 0 <= k <= |list| && forall j :: 0 <= j < k ==> list[j].val == c
      decreases |list| - k
    {
      var i := c.val.buf[k];
      assert i == list[k] && i in SetOf(list);
      i.val := c;
      k := k + 1;
    }
  }

  /** c and d exchange their arrays, and every iterator in them is pointed at its new container. */
  method Exchange(c: CNode, d: CNode, ghost owner: map<INode, CNode?>, ghost lists: map<CNode, seq<INode>>, ghost bufs: set<array<INode?>>)
    requires Owners(owner) && Arrays(lists, bufs) && c in lists && d in lists && Tied(owner, lists)
    modifies c`val, d`val, owner.Keys`val
    ensures Owners(Swapped(owner, c, d)) && Arrays(lists[c := lists[d]][d := lists[c]], bufs)
  {
    hide Arrays, Tied, Holds, Owners;
    SwapArrays(c, d, lists, bufs);
    SwappedHold(c, d, lists, bufs);
    RepointBoth(c, d, owner, lists);
  }

  /** Points the iterators that c and d have exchanged at the one that has them now. */
  method RepointBoth(c: CNode, d: CNode, ghost owner: map<INode, CNode?>, ghost lists: map<CNode, seq<INode>>)
    requires Owners(owner) && Tied(owner, lists) && c in lists && d in lists
    requires Holds(c, lists[d]) && Holds(d, lists[c])
    modifies owner.Keys`val
    ensures Owners(Swapped(owner, c, d))
  {
    hide Tied;
    ListedOwned(owner, lists, c);
    ListedOwned(owner, lists, d);
    Repoint(c, lists[d]);
    Repoint(d, lists[c]);
  }

  // ---- the abstract view ----

  ghost function KeyOf(c: CNode?): DebugSpec.Option<Ptr> {
    if c == null then DebugSpec.None else DebugSpec.Some(c.key)
  }

  ghost function OwnerView(nodes: map<Ptr, INode>, owner: map<INode, CNode?>): map<Ptr, DebugSpec.Option<Ptr>> {
    map p | p in nodes && nodes[p] in owner :: KeyOf(owner[nodes[p]])
  }

  lemma ViewNode(nodes: map<Ptr, INode>, owner: map<INode, CNode?>, n: INode, v: CNode?)
    requires Indexed(nodes, owner.Keys) && n !in owner && n.key !in nodes
    ensures OwnerView(nodes[n.key := n], owner[n := v]) == OwnerView(nodes, owner)[n.key := KeyOf(v)]
  {
  }

  lemma ViewSet(nodes: map<Ptr, INode>, owner: map<INode, CNode?>, n: INode, v: CNode?)
    requires Indexed(nodes, owner.Keys) && n in owner
    ensures OwnerView(nodes, owner[n := v]) == OwnerView(nodes, owner)[n.key := KeyOf(v)]
  {
  }

  lemma ViewForget(nodes: map<Ptr, INode>, owner: map<INode, CNode?>, n: INode)
    requires Indexed(nodes, owner.Keys) && n in owner
    ensures OwnerView(nodes - {n.key}, owner - {n}) == OwnerView(nodes, owner) - {n.key}
  {
  }

  lemma ViewCleared(nodes: map<Ptr, INode>, owner: map<INode, CNode?>,
                    lists: map<CNode, seq<INode>>, cnodes: map<Ptr, CNode>, c: CNode)
    requires Indexed(nodes, owner.Keys) && Indexed(cnodes, lists.Keys) && Tied(owner, lists) && c in lists
    ensures OwnerView(nodes, Cleared(owner, c)) == DebugSpec.Invalidated(OwnerView(nodes, owner), c.key)
  {
  }

  lemma ViewSwapped(nodes: map<Ptr, INode>, owner: map<INode, CNode?>,
                    lists: map<CNode, seq<INode>>, cnodes: map<Ptr, CNode>, c: CNode, d: CNode)
    requires Indexed(nodes, owner.Keys) && Indexed(cnodes, lists.Keys) && Tied(owner, lists) && c in lists && d in lists
    ensures OwnerView(nodes, Swapped(owner, c, d)) == DebugSpec.Exchanged(OwnerView(nodes, owner), c.key, d.key)
  {
  }

  lemma UpdateTwice<K, V>(m: map<K, V>, k: K, a: V, b: V)
    ensures m[k := a][k := b] == m[k := b]
  {
  }

  lemma DropAbsent<K, V>(m: map<K, V>, k: K)
    requires k !in m
    ensures m - {k} == m
  {
  }

  method SetBack(i: INode, c: CNode?, ghost owner: map<INode, CNode?>)
    requires Owners(owner)
    modifies i`val
    ensures Owners(owner[i := c])
  {
    i.val := c;
  }

  datatype Links = Links(owner: map<INode, CNode?>, lists: map<CNode, seq<INode>>, bufs: set<array<INode?>>)

  /** Array and back pointer, when an iterator joins a container. */
  method TieTo(c: CNode, i: INode, ghost owner: map<INode, CNode?>, ghost lists: map<CNode, seq<INode>>,
               ghost bufs: set<array<INode?>>) returns (ghost newBufs: set<array<INode?>>)
    requires Owners(owner) && Arrays(lists, bufs) && c in lists
    modifies i`val, c`val, c.val.buf
    ensures Owners(owner[i := c]) && Arrays(lists[c := lists[c] + [i]], newBufs)
    ensures newBufs == bufs + {c.val.buf} && (c.val.buf == old(c.val.buf) || fresh(c.val.buf))
  {
    hide Arrays, Owners;
    newBufs := AddTo(c, i, lists, bufs);
    SetBack(i, c, owner);
  }

  /** Array and back pointer, when an iterator leaves a container. */
  method UntieFrom(c: CNode, i: INode, ghost owner: map<INode, CNode?>, ghost lists: map<CNode, seq<INode>>,
                   ghost bufs: set<array<INode?>>) returns (ghost at: nat)
    requires Owners(owner) && Arrays(lists, bufs) && c in lists && i in lists[c]
    modifies i`val, c`val, c.val.buf
    ensures at < |lists[c]| && lists[c][at] == i
    ensures Owners(owner[i := null]) && Arrays(lists[c := Without(lists[c], at)], bufs)
  {
    hide Arrays, Owners;
    at := RemoveFrom(c, i, lists, bufs);
    SetBack(i, null, owner);
  }

  class Database {
    /** The bucket arrays of iterators and of containers, with their sizes. */
    const its: HashTable<CNode?>
    const cs: HashTable<Vec>

    /** What the nodes represent together. */
    ghost var g: Links

    ghost predicate Valid()
      reads this, its, its.buckets, its.owned, cs, cs.buckets, cs.owned, g.bufs
    {
      && its.Valid() && cs.Valid()
      && g.owner.Keys == its.owned && g.lists.Keys == cs.owned && its.buckets !in g.bufs
      && Owners(g.owner) && Arrays(g.lists, g.bufs) && Tied(g.owner, g.lists)
    }

    /** The container of each iterator, as the callers see it. */
    ghost function OwnerOf(): map<Ptr, DebugSpec.Option<Ptr>>
      reads this, its
    {
      OwnerView(its.nodes, g.owner)
    }

    ghost function View(): DebugSpec.State
      reads this, its, cs
    {
      DebugSpec.State(OwnerOf(), cs.nodes.Keys)
    }

    constructor (hash: Ptr -> nat, word: Word)
      ensures Valid() && fresh(its) && fresh(cs) && fresh(its.buckets) && fresh(cs.buckets)
      ensures View() == DebugSpec.State(map[], {})
      ensures its.owned == {} && cs.owned == {} && g.bufs == {}
      ensures its.word == word && cs.word == word
    {
      hide Rows, IsPrime;
      its := new HashTable(hash, word);
      cs := new HashTable(hash, word);
      g := Links(map[], map[], {});
    }

    lemma Facts()
      requires Valid()
      ensures Indexed(its.nodes, g.owner.Keys) && Indexed(cs.nodes, g.lists.Keys)
      ensures OwnerOf().Keys == its.nodes.Keys
    {
    }

    /** Where the nodes and their arrays lie. */
    lemma Footprint()
      requires Valid()
      ensures g.owner.Keys == its.owned && g.lists.Keys == cs.owned && its.buckets !in g.bufs
      ensures OwnerOf().Keys == its.nodes.Keys
    {
      Facts();
    }

    lemma BufIn(c: CNode)
      requires Valid() && c in g.lists
      ensures c.val.buf in g.bufs
    {
      BufOf(g.lists, g.bufs, c);
    }

    /** Links in a node for a new iterator, not yet in any container; null exactly when the table cannot grow. */
    method InsertIterator(i: Ptr) returns (n: INode?)
      requires Valid() && i !in its.nodes
      modifies this`g, its, its.buckets, its.owned`next
      ensures Valid() && (its.buckets == old(its.buckets) || fresh(its.buckets))
      ensures n == null <==> old(its.CannotGrow())
      ensures n == null ==> its.nodes == old(its.nodes) && g == old(g) && its.CannotGrow()
      ensures fresh(its.owned - old(its.owned)) && g.bufs == old(g.bufs)
      ensures n != null ==> fresh(n) && n.key == i && n.val == null && its.nodes == old(its.nodes)[i := n]
      ensures n != null ==> g == old(g).(owner := old(g).owner[n := null])
      ensures OwnerOf() == if n == null then old(OwnerOf()) else old(OwnerOf())[i := DebugSpec.None]
    {
      hide Arrays, Tied, HashTable.Valid, HashTable.CannotGrow, OwnerView, Indexed;
      Facts();
      n := its.Insert(i, null);
      if n != null {
        TiedNode(g.owner, g.lists, n);
        ViewNode(old(its.nodes), g.owner, n, null);
        g := g.(owner := g.owner[n := null]);
      }
    }

    /** i, which is in no container, joins container c. */
    method Attach(i: INode, c: CNode)
      requires Valid() && i in g.owner && g.owner[i] == null && c in g.lists
      modifies this`g, i`val, c`val, c.val.buf
      ensures Valid() && g.owner == old(g).owner[i := c]
      ensures OwnerOf() == old(OwnerOf())[i.key := DebugSpec.Some(c.key)]
      ensures fresh(g.bufs - old(g.bufs))
    {
      hide Arrays, Tied, HashTable.Valid, OwnerView, Indexed, Owners;
      Facts();
      ViewSet(its.nodes, g.owner, i, c);
      AttachNodes(i, c);
    }

    method AttachNodes(i: INode, c: CNode)
      requires Valid() && i in g.owner && g.owner[i] == null && c in g.lists
      modifies this`g, i`val, c`val, c.val.buf
      ensures Valid() && g.owner == old(g).owner[i := c]
      ensures fresh(g.bufs - old(g.bufs))
    {
      hide Arrays, Tied, HashTable.Valid, Owners;
      TiedAttach(g.owner, g.lists, i, c);
      BufOf(g.lists, g.bufs, c);
      ghost var newBufs := TieTo(c, i, g.owner, g.lists, g.bufs);
      g := Links(g.owner[i := c], g.lists[c := g.lists[c] + [i]], newBufs);
    }

    method InsertI(i: Ptr) returns (ok: bool)
      requires Valid() && i !in OwnerOf()
      modifies this`g, its, its.buckets, its.owned`next
      ensures Valid() && (its.buckets == old(its.buckets) || fresh(its.buckets))
      ensures !ok <==> old(its.CannotGrow())
      ensures !ok ==> its.CannotGrow()
      ensures OwnerOf() == if ok then old(OwnerOf())[i := DebugSpec.None] else old(OwnerOf())
      ensures fresh(its.owned - old(its.owned)) && g.bufs == old(g.bufs)
    {
      hide HashTable.CannotGrow;
      Facts();
      var n := InsertIterator(i);
      ok := n != null;
    }

    method InsertC(c: Ptr) returns (ok: bool)
      requires Valid() && c !in cs.nodes
      modifies this`g, cs, cs.buckets, cs.owned`next
      ensures Valid() && OwnerOf() == old(OwnerOf()) && (cs.buckets == old(cs.buckets) || fresh(cs.buckets))
      ensures !ok <==> old(cs.CannotGrow())
      ensures !ok ==> cs.CannotGrow()
      ensures cs.nodes.Keys == if ok then old(cs.nodes.Keys) + {c} else old(cs.nodes.Keys)
      ensures fresh(cs.owned - old(cs.owned)) && fresh(g.bufs - old(g.bufs))
    {
      hide Arrays, Tied, HashTable.Valid, HashTable.CannotGrow, OwnerView, Indexed, Owners;
      var b := new INode?[0];
      var n := cs.Insert(c, Vec(b, 0));
      if n == null {
        return false;
      }
      TiedContainer(g.owner, g.lists, n);
      ArraysNew(g.lists, g.bufs, n);
      g := g.(lists := g.lists[n := []], bufs := g.bufs + {b});
      return true;
    }

    /** An iterator of the container with node c. */
    method InsertInto(i: Ptr, c: CNode) returns (ok: bool)
      requires Valid() && i !in OwnerOf() && c in g.lists
      modifies this`g, its, its.buckets, its.owned`next, cs.owned`val, g.bufs
      ensures Valid() && (its.buckets == old(its.buckets) || fresh(its.buckets))
      ensures !ok <==> old(its.CannotGrow())
      ensures !ok ==> its.CannotGrow()
      ensures OwnerOf() == if ok then old(OwnerOf())[i := DebugSpec.Some(c.key)] else old(OwnerOf())
      ensures fresh(its.owned - old(its.owned)) && fresh(g.bufs - old(g.bufs))
    {
      hide Valid, OwnerOf, HashTable.Valid, HashTable.CannotGrow;
      Footprint();
      var n := InsertIterator(i);
      if n == null {
        return false;
      }
      Footprint();
      BufIn(c);
      Attach(n, c);
      UpdateTwice(old(OwnerOf()), i, DebugSpec.None, DebugSpec.Some(c.key));
      return true;
    }

    /** An iterator of a registered container; nothing happens when the container is not registered. */
    method InsertIC(i: Ptr, c: Ptr) returns (ok: bool)
      requires Valid() && i !in OwnerOf()
      modifies this`g, its, its.buckets, its.owned`next, cs.owned`val, g.bufs
      ensures Valid() && (its.buckets == old(its.buckets) || fresh(its.buckets))
      ensures !ok <==> c in cs.nodes && old(its.CannotGrow())
      ensures !ok ==> its.CannotGrow()
      ensures OwnerOf() == if ok && c in cs.nodes then old(OwnerOf())[i := DebugSpec.Some(c)] else old(OwnerOf())
      ensures fresh(its.owned - old(its.owned)) && fresh(g.bufs - old(g.bufs))
    {
      hide Valid, OwnerOf, HashTable.Valid, HashTable.CannotGrow;
      FindContainer(c);
      var cn := cs.Find(c);
      if cn == null {
        return true;
      }
      ok := InsertInto(i, cn);
    }

    /** i leaves its container. */
    method Release(i: INode, c: CNode)
      requires Valid() && i in g.owner && g.owner[i] == c && c in g.lists
      modifies this`g, i`val, c`val, c.val.buf
      ensures Valid() && g.owner == old(g).owner[i := null] && g.bufs == old(g).bufs
      ensures OwnerOf() == old(OwnerOf())[i.key := DebugSpec.None]
    {
      hide Arrays, Tied, HashTable.Valid, OwnerView, Indexed, Owners;
      Facts();
      ViewSet(its.nodes, g.owner, i, null);
      BufOf(g.lists, g.bufs, c);
      ListedOnce(g.owner, g.lists, i);
      ghost var at := UntieFrom(c, i, g.owner, g.lists, g.bufs);
      TiedRelease(g.owner, g.lists, i, c, at);
      g := g.(owner := g.owner[i := null], lists := g.lists[c := Without(g.lists[c], at)]);
    }

    /** Forgets an iterator and takes it out of its container. */
    method EraseI(i: Ptr)
      requires Valid()
      modifies this`g, its, its.buckets, its.owned`next, cs.owned`val, g.bufs
      ensures Valid() && OwnerOf() == old(OwnerOf()) - {i}
      ensures its.buckets == old(its.buckets) && its.owned <= old(its.owned) && g.bufs == old(g.bufs)
    {
      hide Arrays, Tied, HashTable.Valid, OwnerView, Indexed, Owners;
      Facts();
      var p := its.Unlink(i);
      if p == null {
        DropAbsent(OwnerOf(), i);
        return;
      }
      ViewForget(old(its.nodes), g.owner, p);
      FreeIterator(p);
    }

    /** The second half of EraseI: the unlinked node p leaves the array of its container. */
    method FreeIterator(p: INode)
      requires its.Valid() && cs.Valid() && p !in its.owned
      requires g.owner.Keys == its.owned + {p} && g.lists.Keys == cs.owned && its.buckets !in g.bufs
      requires Owners(g.owner) && Arrays(g.lists, g.bufs) && Tied(g.owner, g.lists)
      modifies this`g, cs.owned`val, g.bufs
      ensures Valid() && g.owner == old(g).owner - {p} && g.bufs == old(g.bufs)
    {
      hide Arrays, Tied, HashTable.Valid, OwnerView, Indexed, Owners;
      OwnerIs(g.owner, p);
      var c := p.val;
      if c != null {
        ListedOnce(g.owner, g.lists, p);
        BufOf(g.lists, g.bufs, c);
        ghost var at := RemoveFrom(c, p, g.lists, g.bufs);
        TiedDrop(g.owner, g.lists, p, c, at);
        g := g.(owner := g.owner - {p}, lists := g.lists[c := Without(g.lists[c], at)]);
      } else {
        TiedForget(g.owner, g.lists, p);
        g := g.(owner := g.owner - {p});
      }
    }

    method InvalidateAll(c: Ptr)
      requires Valid()
      modifies this`g, its.owned`val, cs.owned`val
      ensures Valid() && OwnerOf() == DebugSpec.Invalidated(old(OwnerOf()), c) && g.bufs == old(g.bufs)
    {
      hide Arrays, Tied, HashTable.Valid, OwnerView, Indexed, Owners;
      Facts();
      var p := cs.Find(c);
      if p == null {
        UnknownContainer(its.nodes, g.owner, g.lists, cs.nodes, c);
        return;
      }
      cs.NodeOwned(c);
      ViewCleared(its.nodes, g.owner, g.lists, cs.nodes, p);
      InvalidateNode(p);
    }

    method InvalidateNode(p: CNode)
      requires Valid() && p in g.lists
      modifies this`g, its.owned`val, p`val
      ensures Valid() && g.owner == Cleared(old(g).owner, p) && g.bufs == old(g.bufs)
    {
      hide Arrays, Tied, HashTable.Valid, OwnerView, Indexed, Owners;
      TiedClear(g.owner, g.lists, p);
      ClearAll(p, g.owner, g.lists, g.bufs);
      g := g.(owner := Cleared(g.owner, p), lists := g.lists[p := []]);
    }

    method EraseC(c: Ptr)
      requires Valid()
      modifies this`g, cs, cs.buckets, cs.owned, its.owned`val
      ensures Valid() && OwnerOf() == DebugSpec.Invalidated(old(OwnerOf()), c)
      ensures cs.nodes == old(cs.nodes) - {c}
      ensures cs.buckets == old(cs.buckets) && cs.owned <= old(cs.owned) && g.bufs == old(g.bufs)
    {
      hide Arrays, Tied, HashTable.Valid, OwnerView, Indexed, Owners;
      Facts();
      var p := cs.Unlink(c);
      if p == null {
        DropAbsent(cs.nodes, c);
        UnknownContainer(its.nodes, g.owner, g.lists, cs.nodes, c);
        return;
      }
      ViewCleared(its.nodes, g.owner, g.lists, old(cs.nodes), p);
      FreeNode(p);
    }

    /** The second half of EraseC: the unlinked node p lets go of its iterators. */
    method FreeNode(p: CNode)
      requires its.Valid() && cs.Valid() && p !in cs.owned
      requires g.owner.Keys == its.owned && g.lists.Keys == cs.owned + {p} && its.buckets !in g.bufs
      requires Owners(g.owner) && Arrays(g.lists, g.bufs) && Tied(g.owner, g.lists)
      modifies this`g, its.owned`val, p`val
      ensures Valid() && g.owner == Cleared(old(g).owner, p) && g.bufs == old(g.bufs)
    {
      hide Arrays, Tied, HashTable.Valid, OwnerView, Indexed, Owners, Cleared;
      TiedClear(g.owner, g.lists, p);
      ClearAll(p, g.owner, g.lists, g.bufs);
      g := g.(owner := Cleared(g.owner, p), lists := g.lists - {p});
    }

    /** Two registered containers exchange their iterators. */
    method Swap(c1: Ptr, c2: Ptr)
      requires Valid() && c1 in cs.nodes && c2 in cs.nodes
      modifies this`g, its.owned`val, cs.owned`val
      ensures Valid() && OwnerOf() == DebugSpec.Exchanged(old(OwnerOf()), c1, c2) && g.bufs == old(g.bufs)
    {
      hide Arrays, Tied, HashTable.Valid, OwnerView, Indexed, Owners;
      Facts();
      var p1 := cs.Find(c1);
      var p2 := cs.Find(c2);
      cs.NodeOwned(c1);
      cs.NodeOwned(c2);
      ViewSwapped(its.nodes, g.owner, g.lists, cs.nodes, p1, p2);
      SwapNodes(p1, p2);
    }

    method SwapNodes(p1: CNode, p2: CNode)
      requires Valid() && p1 in g.lists && p2 in g.lists
      modifies this`g, its.owned`val, p1`val, p2`val
      ensures Valid() && g.owner == Swapped(old(g).owner, p1, p2) && g.bufs == old(g.bufs)
    {
      hide Arrays, Tied, HashTable.Valid, OwnerView, Indexed, Owners;
      TiedSwap(g.owner, g.lists, p1, p2);
      Exchange(p1, p2, g.owner, g.lists, g.bufs);
      g := g.(owner := Swapped(g.owner, p1, p2), lists := g.lists[p1 := g.lists[p2]][p2 := g.lists[p1]]);
    }

    /** i takes the container of i0; it is registered first when only i0 is. */
    method IteratorCopy(i: Ptr, i0: Ptr) returns (ok: bool)
      requires Valid()
      modifies this`g, its, its.buckets, its.owned`next, its.owned`val, cs.owned`val, g.bufs
      ensures Valid() && (its.buckets == old(its.buckets) || fresh(its.buckets))
      ensures !ok <==> i !in old(OwnerOf()) && i0 in old(OwnerOf()) && old(its.CannotGrow())
      ensures !ok ==> its.CannotGrow()
      ensures fresh(its.owned - old(its.owned)) && fresh(g.bufs - old(g.bufs))
      ensures var m := old(OwnerOf());
        OwnerOf() == if !ok then m
                     else if i0 in m then m[i := m[i0]]
                     else if i in m then m[i := DebugSpec.None]
                     else m
    {
      hide Valid, OwnerOf, HashTable.CannotGrow, HashTable.Valid;
      Footprint();
      var n := Lookup(i);
      var n0 := Lookup(i0);
      var c0: CNode? := null;
      if n0 != null {
        c0 := n0.val;
      }
      ok := CopyOwner(i, n, n0 != null, c0);
    }

    /** The rest of IteratorCopy, with the nodes looked up: n that of i, if any, and c0 the container to take. */
    method CopyOwner(i: Ptr, n: INode?, known: bool, c0: CNode?) returns (ok: bool)
      requires Valid() && (n != null <==> i in OwnerOf()) && (c0 != null ==> known && c0 in g.lists)
      requires n != null ==> n in g.owner && n.key == i && n.val == g.owner[n]
      modifies this`g, its, its.buckets, its.owned`next, its.owned`val, cs.owned`val, g.bufs
      ensures Valid() && (its.buckets == old(its.buckets) || fresh(its.buckets))
      ensures !ok <==> n == null && known && old(its.CannotGrow())
      ensures !ok ==> its.CannotGrow()
      ensures fresh(its.owned - old(its.owned)) && fresh(g.bufs - old(g.bufs))
      ensures OwnerOf() == if ok && (n != null || known) then old(OwnerOf())[i := KeyOf(c0)] else old(OwnerOf())
    {
      hide Valid, OwnerOf, HashTable.CannotGrow, HashTable.Valid;
      Footprint();
      ok := true;
      if n != null {
        Relocate(n, c0);
      } else if known {
        ok := CopyToNew(i, c0);
      }
    }

    /** The node of an iterator, or null when it is not registered. */
    method Lookup(i: Ptr) returns (n: INode?)
      requires Valid()
      ensures n != null <==> i in OwnerOf()
      ensures n != null ==> n in g.owner && n.key == i && n.val == g.owner[n] && OwnerOf()[i] == KeyOf(n.val)
      ensures n != null && n.val != null ==> n.val in g.lists
    {
      hide Arrays, Tied, HashTable.Valid, OwnerView, Indexed, Owners;
      Facts();
      n := its.Find(i);
      if n != null {
        NodeFacts(i);
      }
    }

    /** IteratorCopy to an iterator that is not registered. */
    method CopyToNew(i: Ptr, c0: CNode?) returns (ok: bool)
      requires Valid() && i !in OwnerOf() && (c0 != null ==> c0 in g.lists)
      modifies this`g, its, its.buckets, its.owned`next, cs.owned`val, g.bufs
      ensures Valid() && (its.buckets == old(its.buckets) || fresh(its.buckets))
      ensures !ok <==> old(its.CannotGrow())
      ensures !ok ==> its.CannotGrow()
      ensures OwnerOf() == if ok then old(OwnerOf())[i := KeyOf(c0)] else old(OwnerOf())
      ensures fresh(its.owned - old(its.owned)) && fresh(g.bufs - old(g.bufs))
    {
      hide Valid, OwnerOf, HashTable.Valid, HashTable.CannotGrow;
      Footprint();
      var n := InsertIterator(i);
      if n == null {
        return false;
      }
      Footprint();
      Relocate(n, c0);
      UpdateTwice(old(OwnerOf()), i, DebugSpec.None, KeyOf(c0));
      return true;
    }

    lemma NodeFacts(p: Ptr)
      requires Valid() && p in its.nodes
      ensures its.nodes[p] in g.owner && its.nodes[p].val == g.owner[its.nodes[p]] && its.nodes[p].key == p
      ensures its.nodes[p].val != null ==> its.nodes[p].val in g.lists
      ensures p in OwnerOf() && OwnerOf()[p] == KeyOf(its.nodes[p].val)
    {
      its.NodeOwned(p);
    }

    lemma SameContainer(c: CNode, d: CNode)
      requires Valid() && c in g.lists && d in g.lists
      ensures c.key == d.key ==> c == d
    {
      cs.Facts();
    }

    /** The last part of IteratorCopy: n moves to container c0, if it is not there already. */
    method Relocate(n: INode, c0: CNode?)
      requires Valid() && n in g.owner && n.val == g.owner[n] && (c0 != null ==> c0 in g.lists)
      modifies this`g, n`val, cs.owned`val, g.bufs
      ensures Valid() && OwnerOf() == old(OwnerOf())[n.key := KeyOf(c0)]
      ensures fresh(g.bufs - old(g.bufs))
    {
      hide Valid, OwnerOf;
      Footprint();
      var c := n.val;
      if c != c0 {
        if c != null {
          OwnerListed(n);
          BufIn(c);
          Release(n, c);
        } else {
          Unmoved(n);
        }
        if c0 != null {
          Footprint();
          BufIn(c0);
          Attach(n, c0);
        }
        UpdateTwice(old(OwnerOf()), n.key, DebugSpec.None, KeyOf(c0));
      } else {
        Unmoved(n);
      }
    }

    lemma OwnerListed(n: INode)
      requires Valid() && n in g.owner && g.owner[n] != null
      ensures g.owner[n] in g.lists
    {
      ListedOnce(g.owner, g.lists, n);
    }

    lemma Unmoved(n: INode)
      requires Valid() && n in g.owner
      ensures OwnerOf()[n.key := KeyOf(g.owner[n])] == OwnerOf()
    {
      hide Arrays, Tied, HashTable.Valid, OwnerView, Indexed, Owners;
      Facts();
      ViewSet(its.nodes, g.owner, n, g.owner[n]);
      assert g.owner[n := g.owner[n]] == g.owner;
    }

    lemma FindContainer(c: Ptr)
      requires Valid()
      ensures cs.Valid() && g.lists.Keys == cs.owned && (c in cs.nodes ==> cs.nodes[c] in cs.owned && cs.nodes[c].key == c)
    {
      if c in cs.nodes {
        cs.NodeOwned(c);
      }
    }

    /** When a call fails: only to register something new, and only when its table cannot grow. */
    ghost predicate Fails(op: DebugSpec.Op)
      reads this, its, cs
    {
      match op
      case InsertC(c) => cs.CannotGrow()
      case InsertI(i) => its.CannotGrow()
      case InsertIC(i, c) => c in cs.nodes && its.CannotGrow()
      case IteratorCopy(i, i0) => i !in OwnerOf() && i0 in OwnerOf() && its.CannotGrow()
      case _ => false
    }

    /** Then the table holds as much as it can always hold. */
    lemma FailsFull(op: DebugSpec.Op)
      requires Valid() && Fails(op)
      ensures |View().owner| >= its.word.Room() || |View().containers| >= cs.word.Room()
    {
      hide HashTable.CannotGrow, Arrays, Tied, Owners;
      Facts();
      assert |OwnerOf()| == |OwnerOf().Keys| == |its.nodes.Keys| == |its.nodes|;
      its.GrowsUntil();
      cs.GrowsUntil();
    }

    /** One call, whichever it is: the database changes as the specification says, or not at all when the call fails. */
    method Perform(op: DebugSpec.Op) returns (ok: bool)
      requires Valid() && DebugSpec.Legal(op, View())
      modifies this`g, its, its.buckets, its.owned, cs, cs.buckets, cs.owned, g.bufs
      ensures Valid() && View() == if ok then DebugSpec.Apply(op, old(View())) else old(View())
      ensures !ok <==> old(Fails(op))
      ensures !ok ==> Fails(op)
      ensures its.buckets == old(its.buckets) || fresh(its.buckets)
      ensures cs.buckets == old(cs.buckets) || fresh(cs.buckets)
      ensures fresh(its.owned - old(its.owned)) && fresh(cs.owned - old(cs.owned)) && fresh(g.bufs - old(g.bufs))
    {
      hide Valid, OwnerOf, HashTable.Valid, HashTable.CannotGrow;
      ok := true;
      match op
      case InsertC(c) => ok := InsertC(c);
      case InsertI(i) => ok := InsertI(i);
      case InsertIC(i, c) => ok := InsertIC(i, c);
      case EraseI(i) => EraseI(i);
      case EraseC(c) => EraseC(c);
      case InvalidateAll(c) => InvalidateAll(c);
      case IteratorCopy(i, i0) => ok := IteratorCopy(i, i0);
      case Swap(c, d) => Swap(c, d);
    }

    /** Every back pointer on the heap leads to the node of a registered container. */
    ghost predicate NoneDangling()
      reads its, its.nodes.Values`val, cs
    {
      forall i :: i in its.nodes && its.nodes[i].val != null ==>
        its.nodes[i].val in cs.owned && its.nodes[i].val.key in cs.nodes
        && cs.nodes[its.nodes[i].val.key] == its.nodes[i].val
    }

    lemma ViewWellFormed()
      requires Valid()
      ensures View().WellFormed()
    {
      forall p | p in its.nodes
        ensures p in OwnerOf() && (OwnerOf()[p].Some? ==> OwnerOf()[p].value in cs.nodes)
      {
        NodeFacts(p);
        cs.Facts();
      }
    }

    /** What the map says of dangling iterators, the heap says too. */
    lemma HeapWellFormed()
      requires Valid() && View().WellFormed()
      ensures NoneDangling()
    {
      forall p | p in its.nodes && its.nodes[p].val != null
        ensures its.nodes[p].val in cs.owned && its.nodes[p].val.key in cs.nodes
        ensures cs.nodes[its.nodes[p].val.key] == its.nodes[p].val
      {
        NodeFacts(p);
        cs.Facts();
        assert p in View().owner;
      }
    }

    /** Calls one after another, up to the first that fails. */
    method RunUntil(ops: seq<DebugSpec.Op>) returns (done: nat)
      requires Valid() && DebugSpec.LegalRun(ops, View())
      modifies this`g, its, its.buckets, its.owned, cs, cs.buckets, cs.owned, g.bufs
      ensures Valid() && done <= |ops| && View() == DebugSpec.ApplyAll(ops[..done], old(View()))
      ensures done < |ops| ==> Fails(ops[done])
      ensures (its.buckets == old(its.buckets) || fresh(its.buckets)) && (cs.buckets == old(cs.buckets) || fresh(cs.buckets))
      ensures fresh(its.owned - old(its.owned)) && fresh(cs.owned - old(cs.owned)) && fresh(g.bufs - old(g.bufs))
    {
      hide Valid, View, Fails;
      ghost var start := View();
      done := 0;
      while done < |ops|
        invariant Valid() && done <= |ops| && View() == DebugSpec.ApplyAll(ops[..done], start)
        invariant its.buckets == old(its.buckets) || fresh(its.buckets)
        invariant cs.buckets == old(cs.buckets) || fresh(cs.buckets)
        invariant fresh(its.owned - old(its.owned)) && fresh(cs.owned - old(cs.owned)) && fresh(g.bufs - old(g.bufs))
      {
        DebugSpec.ApplyOneMore(ops, done, start);
        var ok := Perform(ops[done]);
        if !ok {
          break;
        }
        done := done + 1;
      }
    }

    /**
     * The database has gone through the calls before the first that fails as the map does, no iterator on the heap
     * points to a container that was erased, and while there is room for as many entries as calls, none fails.
     */
    method Run(ops: seq<DebugSpec.Op>) returns (done: nat)
      requires Valid() && DebugSpec.LegalRun(ops, View())
      modifies this`g, its, its.buckets, its.owned, cs, cs.buckets, cs.owned, g.bufs
      ensures Valid() && done <= |ops| && View() == DebugSpec.ApplyAll(ops[..done], old(View()))
      ensures done < |ops| ==> Fails(ops[done])
      ensures |old(View()).owner| + |ops| <= its.word.Room() && |old(View()).containers| + |ops| <= cs.word.Room()
              ==> done == |ops|
      ensures View().WellFormed() && NoneDangling()
      ensures (its.buckets == old(its.buckets) || fresh(its.buckets)) && (cs.buckets == old(cs.buckets) || fresh(cs.buckets))
      ensures fresh(its.owned - old(its.owned)) && fresh(cs.owned - old(cs.owned)) && fresh(g.bufs - old(g.bufs))
    {
      hide Valid, View, Fails, NoneDangling;
      ViewWellFormed();
      ghost var start := View();
      done := RunUntil(ops);
      if done < |ops| {
        FailsFull(ops[done]);
      }
      DebugSpec.RunGrows(ops, done, start);
      DebugSpec.RunWellFormed(ops, done, start);
      HeapWellFormed();
    }

    /** The container of a registered iterator, or None when it has none. */
    method FindCFromI(i: Ptr) returns (c: DebugSpec.Option<Ptr>)
      requires Valid() && i in OwnerOf()
      ensures c == OwnerOf()[i]
    {
      hide Arrays, Tied, HashTable.Valid, OwnerView, Indexed, Owners;
      Facts();
      var n := its.Find(i);
      NodeFacts(i);
      c := if n.val != null then DebugSpec.Some(n.val.key) else DebugSpec.None;
    }

    /** Two iterators may be compared when both belong to the same container. */
    method LessThanComparable(i: Ptr, j: Ptr) returns (b: bool)
      requires Valid()
      ensures b <==> i in OwnerOf() && j in OwnerOf() && OwnerOf()[i].Some? && OwnerOf()[i] == OwnerOf()[j]
    {
      hide Arrays, Tied, HashTable.Valid, OwnerView, Indexed, Owners;
      Facts();
      var ni := its.Find(i);
      var nj := its.Find(j);
      var ci: CNode? := null;
      var cj: CNode? := null;
      if ni != null {
        NodeFacts(i);
        ci := ni.val;
      }
      if nj != null {
        NodeFacts(j);
        cj := nj.val;
      }
      if ci != null && cj != null {
        SameContainer(ci, cj);
      }
      b := ci != null && ci == cj;
    }
  }

  /** A database of its own for a run that starts from nothing. */
  method Replay(ops: seq<DebugSpec.Op>, hash: Ptr -> nat, word: Word) returns (db: Database, done: nat)
    requires DebugSpec.LegalRun(ops, DebugSpec.State(map[], {}))
    ensures fresh(db) && db.Valid() && done <= |ops|
    ensures db.View() == DebugSpec.ApplyAll(ops[..done], DebugSpec.State(map[], {}))
    ensures done < |ops| ==> db.Fails(ops[done])
    ensures |ops| <= word.Room() ==> done == |ops|
    ensures db.NoneDangling()
    ensures fresh(db.its) && fresh(db.cs) && fresh(db.its.buckets) && fresh(db.cs.buckets)
    ensures fresh(db.its.owned) && fresh(db.cs.owned) && fresh(db.g.bufs)
  {
    hide Database.Valid, Database.View, Database.Fails, Database.NoneDangling;
    db := new Database(hash, word);
    done := db.Run(ops);
  }

  lemma SwappedHold(c: CNode, d: CNode, lists: map<CNode, seq<INode>>, bufs: set<array<INode?>>)
    requires c in lists && d in lists && Arrays(lists[c := lists[d]][d := lists[c]], bufs)
    ensures Holds(c, lists[d]) && Holds(d, lists[c])
  {
  }

  lemma ListedOnce(owner: map<INode, CNode?>, lists: map<CNode, seq<INode>>, i: INode)
    requires Tied(owner, lists) && i in owner && owner[i] != null
    ensures owner[i] in lists && i in lists[owner[i]]
  {
  }

  lemma ListedOwned(owner: map<INode, CNode?>, lists: map<CNode, seq<INode>>, c: CNode)
    requires Tied(owner, lists) && c in lists
    ensures SetOf(lists[c]) <= owner.Keys
    ensures forall i :: i in lists[c] <==> i in owner && owner[i] == c
  {
  }

  lemma UnknownContainer(nodes: map<Ptr, INode>, owner: map<INode, CNode?>,
                         lists: map<CNode, seq<INode>>, cnodes: map<Ptr, CNode>, c: Ptr)
    requires Indexed(cnodes, lists.Keys) && Tied(owner, lists) && c !in cnodes
    ensures DebugSpec.Invalidated(OwnerView(nodes, owner), c) == OwnerView(nodes, owner)
  {
  }
}
