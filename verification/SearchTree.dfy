/** The ordered search trees of driver/LKM/src/filter.c, without the rebalancing, over any order. */
module SearchTree {
  import opened Options

  datatype Tree<K, V> = Leaf | Fork(left: Tree<K, V>, key: K, value: V, right: Tree<K, V>)

  type Comparison<!K> = (K, K) -> int

  /** cmp is a total order, as strcmp and < are. */
  ghost predicate Total<K(!new)>(cmp: Comparison<K>) {
    && (forall a, b :: cmp(a, b) == 0 <==> a == b)
    && (forall a, b :: cmp(a, b) < 0 <==> cmp(b, a) > 0)
    && (forall a, b, c :: cmp(a, b) < 0 && cmp(b, c) < 0 ==> cmp(a, c) < 0)
  }

  function Keys<K, V>(t: Tree<K, V>): set<K> {
    if t.Leaf? then {} else Keys(t.left) + {t.key} + Keys(t.right)
  }

  ghost predicate Sorted<K(!new), V>(t: Tree<K, V>, cmp: Comparison<K>) {
    t.Fork? ==>
      && Sorted(t.left, cmp) && Sorted(t.right, cmp)
      && (forall k :: k in Keys(t.left) ==> cmp(k, t.key) < 0)
      && (forall k :: k in Keys(t.right) ==> cmp(t.key, k) < 0)
  }

  /** The tree as a map. */
  function View<K, V>(t: Tree<K, V>): (m: map<K, V>)
    ensures m.Keys == Keys(t)
  {
    if t.Leaf? then map[] else View(t.left) + View(t.right) + map[t.key := t.value]
  }

  /** The key can only be where the comparison leads. */
  lemma Descend<K(!new), V>(t: Tree<K, V>, cmp: Comparison<K>, k: K)
    requires Total(cmp) && Sorted(t, cmp) && t.Fork?
    ensures cmp(k, t.key) < 0 ==>
      (k in View(t) <==> k in View(t.left)) && (k in View(t) ==> View(t)[k] == View(t.left)[k])
    ensures cmp(k, t.key) > 0 ==>
      (k in View(t) <==> k in View(t.right)) && (k in View(t) ==> View(t)[k] == View(t.right)[k])
    ensures cmp(k, t.key) == 0 ==> k in View(t) && View(t)[k] == t.value
  {
  }

  /** search_rb and file_notify_search_rb */
  method Search<K(!new), V>(root: Tree<K, V>, cmp: Comparison<K>, k: K) returns (r: Option<V>)
    requires Total(cmp) && Sorted(root, cmp)
    ensures r == if k in View(root) then Some(View(root)[k]) else None
  {
    var node := root;
    while node.Fork?
      invariant Sorted(node, cmp) && (k in View(root) <==> k in View(node))
        && (k in View(root) ==> View(root)[k] == View(node)[k])
      decreases node
    {
      Descend(node, cmp, k);
      var res := cmp(k, node.key);
      if res < 0 { node := node.left; }
      else if res > 0 { node := node.right; }
      else { return Some(node.value); }
    }
    return None;
  }

  /** insert_rb: a new key becomes a leaf where the search ends; a known key changes nothing. */
  function Insert<K, V>(t: Tree<K, V>, cmp: Comparison<K>, k: K, v: V): Tree<K, V> {
    if t.Leaf? then Fork(Leaf, k, v, Leaf)
    else if cmp(k, t.key) < 0 then t.(left := Insert(t.left, cmp, k, v))
    else if cmp(k, t.key) > 0 then t.(right := Insert(t.right, cmp, k, v))
    else t
  }

  /** Which half a key is not in. */
  lemma Side<K(!new), V>(t: Tree<K, V>, cmp: Comparison<K>, k: K)
    requires Total(cmp) && Sorted(t, cmp) && t.Fork?
    ensures cmp(k, t.key) < 0 ==> k != t.key && k !in Keys(t.right)
    ensures cmp(k, t.key) > 0 ==> k != t.key && k !in Keys(t.left) && cmp(t.key, k) < 0
    ensures cmp(k, t.key) == 0 ==> k == t.key
    ensures Keys(t.left) !! Keys(t.right) && t.key !in Keys(t.left) && t.key !in Keys(t.right)
  {
  }

  lemma MergeUpdate<K, V>(l: map<K, V>, r: map<K, V>, key: K, value: V, k: K, v: V)
    requires k != key
    ensures k !in r ==> l[k := v] + r + map[key := value] == (l + r + map[key := value])[k := v]
    ensures l + r[k := v] + map[key := value] == (l + r + map[key := value])[k := v]
  {
  }

  lemma {:induction false} Inserted<K(!new), V>(t: Tree<K, V>, cmp: Comparison<K>, k: K, v: V)
    requires Total(cmp) && Sorted(t, cmp)
    ensures Sorted(Insert(t, cmp, k, v), cmp) && View(Insert(t, cmp, k, v)) == if k in View(t) then View(t)
      else View(t)[k := v]
  {
    hide Total;
    InsertedKeys(t, cmp, k, v);
    if t.Fork? {
      Side(t, cmp, k);
      if cmp(k, t.key) < 0 {
        Inserted(t.left, cmp, k, v);
        InsertedKeys(t.left, cmp, k, v);
        MergeUpdate(View(t.left), View(t.right), t.key, t.value, k, v);
      } else if cmp(k, t.key) > 0 {
        Inserted(t.right, cmp, k, v);
        InsertedKeys(t.right, cmp, k, v);
        MergeUpdate(View(t.left), View(t.right), t.key, t.value, k, v);
      }
    }
  }

  lemma {:induction false} InsertedKeys<K(!new), V>(t: Tree<K, V>, cmp: Comparison<K>, k: K, v: V)
    ensures Keys(Insert(t, cmp, k, v)) <= Keys(t) + {k}
  {
    if t.Fork? {
      InsertedKeys(t.left, cmp, k, v);
      InsertedKeys(t.right, cmp, k, v);
    }
  }

  /** The two halves of an erased node: the right one under the last key of the left one. */
  function Join<K, V>(l: Tree<K, V>, r: Tree<K, V>): Tree<K, V> {
    if l.Leaf? then r else l.(right := Join(l.right, r))
  }

  lemma {:induction false} JoinedKeys<K(!new), V>(l: Tree<K, V>, r: Tree<K, V>)
    ensures Keys(Join(l, r)) == Keys(l) + Keys(r)
  {
    if l.Fork? { JoinedKeys(l.right, r); }
  }

  lemma {:induction false} JoinedSorted<K(!new), V>(l: Tree<K, V>, r: Tree<K, V>, cmp: Comparison<K>)
    requires Sorted(l, cmp) && Sorted(r, cmp) && forall a, b :: a in Keys(l) && b in Keys(r) ==> cmp(a, b) < 0
    ensures Sorted(Join(l, r), cmp)
  {
    if l.Fork? {
      JoinedSorted(l.right, r, cmp);
      JoinedKeys(l.right, r);
    }
  }

  lemma MergeBack<K, V>(a: map<K, V>, b: map<K, V>, c: map<K, V>, key: K, value: V)
    requires key !in c
    ensures a + (b + c) + map[key := value] == a + b + map[key := value] + c
  {
  }

  lemma {:induction false} JoinedView<K(!new), V>(l: Tree<K, V>, r: Tree<K, V>)
    requires Keys(l) !! Keys(r)
    ensures View(Join(l, r)) == View(l) + View(r)
  {
    if l.Fork? {
      JoinedView(l.right, r);
      assert l.key in Keys(l);
      MergeBack(View(l.left), View(l.right), View(r), l.key, l.value);
    }
  }

  lemma Ends<K(!new), V>(t: Tree<K, V>, cmp: Comparison<K>)
    requires Total(cmp) && Sorted(t, cmp) && t.Fork?
    ensures forall a, b :: a in Keys(t.left) && b in Keys(t.right) ==> cmp(a, b) < 0
  {
  }

  /** rb_erase, without the rebalancing. */
  function Erase<K, V>(t: Tree<K, V>, cmp: Comparison<K>, k: K): Tree<K, V> {
    if t.Leaf? then t
    else if cmp(k, t.key) < 0 then t.(left := Erase(t.left, cmp, k))
    else if cmp(k, t.key) > 0 then t.(right := Erase(t.right, cmp, k))
    else Join(t.left, t.right)
  }

  lemma {:induction false} ErasedKeys<K(!new), V>(t: Tree<K, V>, cmp: Comparison<K>, k: K)
    requires Total(cmp) && Sorted(t, cmp)
    ensures Keys(Erase(t, cmp, k)) == Keys(t) - {k}
  {
    hide Total;
    if t.Fork? {
      Side(t, cmp, k);
      if cmp(k, t.key) < 0 { ErasedKeys(t.left, cmp, k); }
      else if cmp(k, t.key) > 0 { ErasedKeys(t.right, cmp, k); }
      else { JoinedKeys(t.left, t.right); }
    }
  }

  lemma {:induction false} ErasedSorted<K(!new), V>(t: Tree<K, V>, cmp: Comparison<K>, k: K)
    requires Total(cmp) && Sorted(t, cmp)
    ensures Sorted(Erase(t, cmp, k), cmp)
  {
    hide Total;
    if t.Fork? {
      if cmp(k, t.key) < 0 {
        ErasedSorted(t.left, cmp, k);
        ErasedKeys(t.left, cmp, k);
      } else if cmp(k, t.key) > 0 {
        ErasedSorted(t.right, cmp, k);
        ErasedKeys(t.right, cmp, k);
      } else {
        Ends(t, cmp);
        JoinedSorted(t.left, t.right, cmp);
      }
    }
  }

  lemma MergeErase<K, V>(l: map<K, V>, r: map<K, V>, key: K, value: V, k: K)
    ensures k != key && k !in r ==> (l - {k}) + r + map[key := value] == l + r + map[key := value] - {k}
    ensures k != key && k !in l ==> l + (r - {k}) + map[key := value] == l + r + map[key := value] - {k}
    ensures key !in l && key !in r ==> l + r == l + r + map[key := value] - {key}
  {
  }

  lemma {:induction false} Erased<K(!new), V>(t: Tree<K, V>, cmp: Comparison<K>, k: K)
    requires Total(cmp) && Sorted(t, cmp)
    ensures Sorted(Erase(t, cmp, k), cmp) && View(Erase(t, cmp, k)) == View(t) - {k}
  {
    hide Total;
    ErasedSorted(t, cmp, k);
    if t.Fork? {
      Side(t, cmp, k);
      MergeErase(View(t.left), View(t.right), t.key, t.value, k);
      if cmp(k, t.key) < 0 { Erased(t.left, cmp, k); }
      else if cmp(k, t.key) > 0 { Erased(t.right, cmp, k); }
      else { JoinedView(t.left, t.right); }
    }
  }
}
