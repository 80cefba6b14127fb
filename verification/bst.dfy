/**
 * The unbalanced binary search tree (`ArvoreBinariaBusca`) keyed by integers.
 * Insert and remove return the new subtree root, as the recursive helpers of
 * the source do; no rebalancing is performed.
 */
module Bst {
  import opened Wrappers

  datatype Tree<V> = Leaf | Node(left: Tree<V>, key: int, value: V, right: Tree<V>)

  /** The keys stored anywhere in the tree. */
  function Keys<V>(t: Tree<V>): set<int> {
    match t
    case Leaf => {}
    case Node(l, k, _, r) => Keys(l) + {k} + Keys(r)
  }

  /** Number of nodes. */
  function Size<V>(t: Tree<V>): nat {
    match t
    case Leaf => 0
    case Node(l, _, _, r) => Size(l) + 1 + Size(r)
  }

  /** The ordering invariant: left keys < node key < right keys, at every node. */
  predicate IsBst<V>(t: Tree<V>) {
    match t
    case Leaf => true
    case Node(l, k, _, r) =>
      && IsBst(l) && IsBst(r)
      && (forall x :: x in Keys(l) ==> x < k)
      && (forall x :: x in Keys(r) ==> k < x)
  }

  /** The key-to-value mapping a search tree represents. */
  function Contents<V>(t: Tree<V>): (m: map<int, V>)
    ensures m.Keys == Keys(t)
  {
    match t
    case Leaf => map[]
    case Node(l, k, v, r) => (Contents(l) + Contents(r))[k := v]
  }

  /** Insert-or-update: a new leaf when `k` is absent, otherwise the value is replaced in place. */
  function Insert<V>(t: Tree<V>, k: int, v: V): (r: Tree<V>)
    ensures Keys(r) == Keys(t) + {k}
    ensures IsBst(t) ==> IsBst(r)
  {
    match t
    case Leaf => Node(Leaf, k, v, Leaf)
    case Node(l, nk, nv, rt) =>
      if k < nk then Node(Insert(l, k, v), nk, nv, rt)
      else if k > nk then Node(l, nk, nv, Insert(rt, k, v))
      else Node(l, nk, v, rt)
  }

  /**
   * On a search tree, insert maps `k` to `v` and leaves every other entry alone.
   */
  lemma {:induction false} InsertCorrect<V>(t: Tree<V>, k: int, v: V)
    requires IsBst(t)
    ensures Contents(Insert(t, k, v)) == Contents(t)[k := v]
  {
    match t
    case Leaf =>
    case Node(l, nk, nv, rt) =>
      if k < nk {
        InsertCorrect(l, k, v);
        assert k !in Keys(rt);
        MapsUpdateInner(Contents(l), Contents(rt), k, v, nk, nv);
      } else if k > nk {
        InsertCorrect(rt, k, v);
        MapsUpdateInnerRight(Contents(l), Contents(rt), k, v, nk, nv);
      }
  }

  /** A node is added only when the key was absent. */
  lemma {:induction false} InsertSize<V>(t: Tree<V>, k: int, v: V)
    requires IsBst(t)
    ensures Size(Insert(t, k, v)) == if k in Keys(t) then Size(t) else Size(t) + 1
  {
    match t
    case Leaf =>
    case Node(l, nk, nv, rt) =>
      if k < nk {
        InsertSize(l, k, v);
        assert k !in Keys(rt);
      } else if k > nk {
        InsertSize(rt, k, v);
        assert k !in Keys(l);
      }
  }

  /** Updating a key that only the first map holds commutes with the union and the root update. */
  lemma MapsUpdateInner<V>(a: map<int, V>, b: map<int, V>, k: int, v: V, nk: int, nv: V)
    requires k !in b && k != nk
    ensures (a[k := v] + b)[nk := nv] == ((a + b)[nk := nv])[k := v]
  {
  }

  /** Updating a key of the second map commutes with the union and the root update. */
  lemma MapsUpdateInnerRight<V>(a: map<int, V>, b: map<int, V>, k: int, v: V, nk: int, nv: V)
    requires k != nk
    ensures (a + b[k := v])[nk := nv] == ((a + b)[nk := nv])[k := v]
  {
  }

  /** Lookup by walking down from the root; None when the key is not stored. */
  function Search<V>(t: Tree<V>, k: int): (r: Option<V>)
    ensures IsBst(t) ==> (r.None? <==> k !in Keys(t))
    ensures IsBst(t) && k in Keys(t) ==> r == Some(Contents(t)[k])
  {
    match t
    case Leaf => None
    case Node(l, nk, nv, rt) =>
      if k < nk then Search(l, k)
      else if k > nk then Search(rt, k)
      else Some(nv)
  }

  /** Leftmost entry of a non-empty subtree, found by following left children. */
  function MinEntry<V>(t: Tree<V>): (r: (int, V))
    requires t.Node?
    ensures r.0 in Keys(t)
    ensures IsBst(t) ==> forall x :: x in Keys(t) ==> r.0 <= x
    ensures IsBst(t) ==> Contents(t)[r.0] == r.1
  {
    if t.left.Leaf? then (t.key, t.value) else MinEntry(t.left)
  }

  /**
   * Deletes `k`. A node with at most one child is spliced out; a node with two
   * children takes the key and value of its in-order successor, which is then
   * deleted from the right subtree. RemoveCorrect states the effect on a search tree.
   */
  function Remove<V>(t: Tree<V>, k: int): (r: Tree<V>)
    ensures k !in Keys(t) ==> r == t
    ensures Keys(r) <= Keys(t)
  {
    match t
    case Leaf => Leaf
    case Node(l, nk, nv, rt) =>
      if k < nk then Node(Remove(l, k), nk, nv, rt)
      else if k > nk then Node(l, nk, nv, Remove(rt, k))
      else if l.Leaf? then rt
      else if rt.Leaf? then l
      else
        var m := MinEntry(rt);
        Node(l, m.0, m.1, Remove(rt, m.0))
  }

  /** Remove keeps the ordering invariant, drops exactly `k`, and leaves every other entry alone. */
  lemma {:induction false} RemoveCorrect<V>(t: Tree<V>, k: int)
    requires IsBst(t)
    ensures IsBst(Remove(t, k))
    ensures Keys(Remove(t, k)) == Keys(t) - {k}
    ensures Contents(Remove(t, k)) == Contents(t) - {k}
    decreases t
  {
    match t
    case Leaf =>
    case Node(l, nk, nv, rt) =>
      if k < nk {
        RemoveCorrect(l, k);
        RemoveLeft(l, nk, nv, rt, k);
      } else if k > nk {
        RemoveCorrect(rt, k);
        RemoveRight(l, nk, nv, rt, k);
      } else if l.Leaf? || rt.Leaf? {
        MapsRemoveRoot(Contents(l), Contents(rt), k, nv);
      } else {
        var m := MinEntry(rt);
        RemoveCorrect(rt, m.0);
        RemoveSuccessor(l, nk, nv, rt, m.0, m.1);
      }
  }

  lemma RemoveLeft<V>(l: Tree<V>, nk: int, nv: V, rt: Tree<V>, k: int)
    requires IsBst(Node(l, nk, nv, rt)) && k < nk
    requires IsBst(Remove(l, k)) && Keys(Remove(l, k)) == Keys(l) - {k}
    requires Contents(Remove(l, k)) == Contents(l) - {k}
    ensures IsBst(Node(Remove(l, k), nk, nv, rt))
    ensures Contents(Node(Remove(l, k), nk, nv, rt)) == Contents(Node(l, nk, nv, rt)) - {k}
  {
    assert k !in Keys(rt);
    MapsRemoveInner(Contents(l), Contents(rt), k, nk, nv);
  }

  lemma RemoveRight<V>(l: Tree<V>, nk: int, nv: V, rt: Tree<V>, k: int)
    requires IsBst(Node(l, nk, nv, rt)) && k > nk
    requires IsBst(Remove(rt, k)) && Keys(Remove(rt, k)) == Keys(rt) - {k}
    requires Contents(Remove(rt, k)) == Contents(rt) - {k}
    ensures IsBst(Node(l, nk, nv, Remove(rt, k)))
    ensures Contents(Node(l, nk, nv, Remove(rt, k))) == Contents(Node(l, nk, nv, rt)) - {k}
  {
    assert k !in Keys(l);
    MapsRemoveInnerRight(Contents(l), Contents(rt), k, nk, nv);
  }

  lemma RemoveSuccessor<V>(l: Tree<V>, nk: int, nv: V, rt: Tree<V>, mk: int, mv: V)
    requires IsBst(Node(l, nk, nv, rt))
    requires mk in Keys(rt) && Contents(rt)[mk] == mv
    requires forall x :: x in Keys(rt) ==> mk <= x
    requires IsBst(Remove(rt, mk)) && Keys(Remove(rt, mk)) == Keys(rt) - {mk}
    requires Contents(Remove(rt, mk)) == Contents(rt) - {mk}
    ensures IsBst(Node(l, mk, mv, Remove(rt, mk)))
    ensures Contents(Node(l, mk, mv, Remove(rt, mk))) == Contents(Node(l, nk, nv, rt)) - {nk}
  {
    SuccessorOrdered(l, nk, nv, rt, mk, Remove(rt, mk));
    assert mk !in Keys(l);
    assert nk !in Keys(l) && nk !in Keys(rt);
    MapsRemoveRoot(Contents(l), Contents(rt), nk, nv);
    MapsPromote(Contents(l), Contents(rt), mk, mv);
  }

  /** The successor key sits between the left subtree and what remains of the right one. */
  lemma SuccessorOrdered<V>(l: Tree<V>, nk: int, nv: V, rt: Tree<V>, mk: int, rest: Tree<V>)
    requires IsBst(Node(l, nk, nv, rt))
    requires mk in Keys(rt)
    requires forall x :: x in Keys(rt) ==> mk <= x
    requires IsBst(rest) && Keys(rest) == Keys(rt) - {mk}
    ensures forall x :: x in Keys(l) ==> x < mk
    ensures forall x :: x in Keys(rest) ==> mk < x
    ensures IsBst(Node(l, mk, nv, rest))
  {
    assert nk < mk;
  }

  /** Deleting a key that only the first map holds commutes with the union and the root update. */
  lemma MapsRemoveInner<V>(a: map<int, V>, b: map<int, V>, k: int, nk: int, v: V)
    requires k !in b && k != nk
    ensures ((a - {k}) + b)[nk := v] == ((a + b)[nk := v]) - {k}
  {
  }

  /** Deleting a key that only the second map holds commutes with the union and the root update. */
  lemma MapsRemoveInnerRight<V>(a: map<int, V>, b: map<int, V>, k: int, nk: int, v: V)
    requires k !in a && k != nk
    ensures (a + (b - {k}))[nk := v] == ((a + b)[nk := v]) - {k}
  {
  }

  /** Deleting the root key of disjoint subtrees leaves their union. */
  lemma MapsRemoveRoot<V>(a: map<int, V>, b: map<int, V>, k: int, v: V)
    requires k !in a && k !in b
    ensures (a + b)[k := v] - {k} == a + b
  {
  }

  /** Replacing the minimum of `b` by a root holding the same entry rebuilds `a + b`. */
  lemma MapsPromote<V>(a: map<int, V>, b: map<int, V>, k: int, v: V)
    requires k in b && b[k] == v && k !in a
    ensures (a + (b - {k}))[k := v] == a + b
  {
  }

  /** Keys strictly increase along the sequence. */
  predicate StrictlyAscending<V>(ps: seq<(int, V)>) {
    forall i, j :: 0 <= i < j < |ps| ==> ps[i].0 < ps[j].0
  }

  /** In-order traversal: left subtree, node, right subtree. */
  function InOrder<V>(t: Tree<V>): (r: seq<(int, V)>)
    ensures |r| == Size(t)
    ensures forall i :: 0 <= i < |r| ==> r[i].0 in Keys(t)
    ensures IsBst(t) ==> StrictlyAscending(r)
  {
    match t
    case Leaf => []
    case Node(l, k, v, rt) => InOrder(l) + [(k, v)] + InOrder(rt)
  }

  /** Sum of `f` over the stored values. */
  function SumValues<V>(t: Tree<V>, f: V -> int): int {
    match t
    case Leaf => 0
    case Node(l, _, v, r) => SumValues(l, f) + f(v) + SumValues(r, f)
  }

  /** The in-order pairs are exactly the tree's entries. */
  lemma {:induction false} InOrderMatchesContents<V>(t: Tree<V>)
    requires IsBst(t)
    ensures forall p :: p in InOrder(t) <==> p.0 in Contents(t) && Contents(t)[p.0] == p.1
  {
    match t
    case Leaf =>
    case Node(l, k, v, rt) =>
      InOrderMatchesContents(l);
      InOrderMatchesContents(rt);
      forall p
        ensures p in InOrder(t) <==> p.0 in Contents(t) && Contents(t)[p.0] == p.1
      {
        if p.0 < k {
          assert p.0 !in Keys(rt);
          assert p !in InOrder(rt) && p != (k, v);
        } else if p.0 > k {
          assert p.0 !in Keys(l);
          assert p !in InOrder(l) && p != (k, v);
        } else {
          assert p.0 !in Keys(l) && p.0 !in Keys(rt);
        }
      }
  }

  /** Re-inserting a stored key keeps the traversal length: no duplicate node appears. */
  lemma InsertExistingKeepsLength<V>(t: Tree<V>, k: int, v: V)
    requires IsBst(t) && k in Keys(t)
    ensures |InOrder(Insert(t, k, v))| == |InOrder(t)|
  {
    InsertSize(t, k, v);
  }

  /** After insert, search finds the inserted value. */
  lemma SearchAfterInsert<V>(t: Tree<V>, k: int, v: V)
    requires IsBst(t)
    ensures Search(Insert(t, k, v), k) == Some(v)
  {
    InsertCorrect(t, k, v);
  }

  /** After remove, search finds nothing. */
  lemma SearchAfterRemove<V>(t: Tree<V>, k: int)
    requires IsBst(t)
    ensures Search(Remove(t, k), k) == None
  {
    RemoveCorrect(t, k);
  }

  /** Insert changes the value sum by the replaced value (if any) and the new one. */
  lemma {:induction false} SumValuesInsert<V>(t: Tree<V>, k: int, v: V, f: V -> int)
    requires IsBst(t)
    ensures SumValues(Insert(t, k, v), f)
         == SumValues(t, f) - (if k in Keys(t) then f(Contents(t)[k]) else 0) + f(v)
  {
    match t
    case Leaf =>
    case Node(l, nk, nv, rt) =>
      if k < nk {
        SumValuesInsert(l, k, v, f);
        assert k !in Keys(rt);
      } else if k > nk {
        SumValuesInsert(rt, k, v, f);
        assert k !in Keys(l);
      } else {
        assert k !in Keys(l) && k !in Keys(rt);
      }
  }

  /** The stored values in ascending key order. */
  function InOrderValues<V>(t: Tree<V>): (vs: seq<V>)
    ensures |vs| == |InOrder(t)|
    ensures forall i :: 0 <= i < |vs| ==> vs[i] == InOrder(t)[i].1
  {
    var ps := InOrder(t);
    seq(|ps|, i requires 0 <= i < |ps| => ps[i].1)
  }

  /** Every value in the in-order listing is stored under some key. */
  lemma InOrderValueStored<V>(t: Tree<V>, v: V)
    requires IsBst(t) && v in InOrderValues(t)
    ensures exists k :: k in Contents(t) && Contents(t)[k] == v
  {
    var i :| 0 <= i < |InOrderValues(t)| && InOrderValues(t)[i] == v;
    InOrderMatchesContents(t);
    assert InOrder(t)[i] in InOrder(t);
  }

  /** In a search tree every node has its own key, so the traversal has one entry per key. */
  lemma {:induction false} SizeIsKeyCount<V>(t: Tree<V>)
    requires IsBst(t)
    ensures Size(t) == |Keys(t)|
  {
    match t
    case Leaf =>
    case Node(l, k, _, r) =>
      SizeIsKeyCount(l);
      SizeIsKeyCount(r);
      assert k !in Keys(l) && k !in Keys(r);
      assert Keys(l) !! Keys(r) by {
        forall x | x in Keys(l) ensures x !in Keys(r) {
          assert x < k;
        }
      }
      assert |Keys(l) + {k}| == |Keys(l)| + 1;
  }
}
