/** The file-notify policy of driver/LKM/src/filter.c: one node per directory inode under a search
    tree, each node a flat buffer of (uuid, name, mask) entries. */
module Checklist {
  import opened Bytes
  import opened Options
  import opened SearchTree
  import opened MaskBits
  import opened MaskLayout
  import opened MaskShelf
  import MN = MaskNode

  function InoCmp(a: nat, b: nat): int { a - b }

  lemma InoCmpTotal()
    ensures Total(InoCmp)
  {
  }

  /** The whole policy: what is stored for each inode. */
  type Policy = map<nat, Shelf>

  /** The accumulated mask for an inode, a volume and a name. */
  function Mask(p: Policy, ino: nat, key: Key): bv32 {
    if ino in p then Bits(p[ino].contents, key) else 0
  }

  /** The tree is in order and holds these nodes. */
  ghost predicate TreeHolds(t: Tree<nat, MN.Node>, m: map<nat, MN.Node>) { Sorted(t, InoCmp) && View(t) == m }

  ghost predicate Same(a: Shelf, b: Shelf) { a == b }
  ghost predicate SamePolicy(a: Policy, b: Policy) { a == b }

  /** The node of an inode is well formed, owns its buffer and holds its part of the policy. */
  ghost predicate NodeOk(n: MN.Node, p: Shelf, owner: map<object, nat>, ino: nat)
    reads n, n.data
  {
    n.data in owner && owner[n.data] == ino && n.Valid() && Same(n.View(), p)
  }

  /** Nodes and policy are about the same inodes, and every node belongs to one. */
  ghost predicate Indexed(nodes: map<nat, MN.Node>, policy: Policy, owner: map<object, nat>) {
    && (forall i :: i in nodes <==> i in policy)
    && (forall i :: i in nodes ==> nodes[i] in owner && owner[nodes[i]] == i)
  }

  ghost predicate AllOk(nodes: map<nat, MN.Node>, policy: Policy, owner: map<object, nat>)
    requires Indexed(nodes, policy, owner)
    reads owner.Keys
  {
    forall i :: i in nodes ==> nodes[i].data in owner && NodeOk(nodes[i], policy[i], owner, i)
  }

  class Checklist {
    var tree: Tree<nat, MN.Node>
    ghost var nodes: map<nat, MN.Node>
    ghost var policy: Policy
    ghost var owner: map<object, nat>

    ghost predicate Valid()
      reads this, owner.Keys
    {
      this !in owner && Indexed(nodes, policy, owner) && TreeHolds(tree, nodes) && AllOk(nodes, policy, owner)
    }

    constructor ()
      ensures Valid() && fresh(owner.Keys) && policy == map[]
    {
      tree, nodes, policy, owner := Leaf, map[], map[], map[];
    }

    /** file_notify_search_rb */
    method Find(ino: nat) returns (node: Option<MN.Node>)
      requires TreeHolds(tree, nodes)
      ensures node == if ino in nodes then Some(nodes[ino]) else None
    {
      hide Total, Sorted, View, Keys, InoCmp;
      InoCmpTotal();
      node := Search(tree, InoCmp, ino);
    }

    /** file_notify_check: some queried bit is in the accumulated mask. */
    method Check(uuid: seq<byte>, ino: nat, name: seq<byte>, mask: bv32) returns (r: bool)
      requires Valid() && |uuid| == 16
      ensures r <==> Meets(Mask(policy, ino, (uuid, name)), mask)
    {
      hide TreeHolds, Meets, MN.Holds;
      MeetsNothing(mask);
      assert ino in nodes ==> NodeOk(nodes[ino], policy[ino], owner, ino);
      var node := Find(ino);
      r := false;
      if node.Some? { r := node.value.Check(uuid, name, mask); }
    }

    ghost method Adopt(ns: map<nat, MN.Node>, p: Policy, w: map<object, nat>)
      requires this !in w && Indexed(ns, p, w) && TreeHolds(tree, ns) && AllOk(ns, p, w)
      modifies this`nodes, this`policy, this`owner
      ensures Valid() && nodes == ns && policy == p && owner == w
    {
      hide Indexed, TreeHolds, AllOk;
      nodes, policy, owner := ns, p, w;
    }

    /** A fresh node for an inode that has none. */
    method AddNode(ino: nat) returns (node: MN.Node)
      requires Valid() && ino !in nodes
      modifies this
      ensures Valid() && fresh(owner.Keys - old(owner.Keys)) && ino in nodes && nodes[ino] == node && fresh(node)
        && fresh(node.data)
      ensures SamePolicy(policy, old(policy)[ino := NEW_SHELF])
    {
      hide TreeHolds, MN.Holds, Insert, InoCmp, Same, SamePolicy, Indexed;
      EveryNode();
      node := new MN.Node();
      TreeInserted(tree, nodes, ino, node);
      Reflexive(NEW_SHELF, policy[ino := NEW_SHELF]);
      tree := Insert(tree, InoCmp, ino, node);
      Enlist(ino, node);
    }

    lemma EveryNode()
      requires Valid()
      ensures forall i :: i in nodes ==>
        i in policy && nodes[i] in owner && nodes[i].data in owner && NodeOk(nodes[i], policy[i], owner, i)
    {
      hide TreeHolds, MN.Holds, Same;
    }

    /** Take a new, empty node into the policy. */
    ghost method Enlist(ino: nat, node: MN.Node)
      requires this !in owner && Indexed(nodes, policy, owner) && ino !in nodes && TreeHolds(tree, nodes[ino := node])
      requires forall i :: i in nodes ==> nodes[i].data in owner && NodeOk(nodes[i], policy[i], owner, i)
      requires node !in owner && node.data !in owner && node.Valid() && node.View() == NEW_SHELF
      modifies this`nodes, this`policy, this`owner
      ensures Valid() && ino in nodes && nodes[ino] == node && policy == old(policy)[ino := NEW_SHELF]
      ensures owner == old(owner)[node := ino][node.data := ino]
    {
      hide TreeHolds, MN.Holds, Same;
      ghost var ns, p := nodes[ino := node], policy[ino := NEW_SHELF];
      ghost var w: map<object, nat> := owner[node := ino][node.data := ino];
      Reflexive(NEW_SHELF, p);
      assert Indexed(ns, p, w) && AllOk(ns, p, w);
      Adopt(ns, p, w);
    }

    method InsertInto(node: MN.Node, ghost ino: nat, uuid: seq<byte>, name: seq<byte>, mask: bv32, alloc: nat -> bool)
      returns (ok: bool)
      requires Valid() && ino in nodes && node == nodes[ino] && |uuid| == 16 && 0 !in name
        && forall n :: n >= MAX_SIZE ==> !alloc(n)
      modifies this`nodes, this`policy, this`owner, node, node.data
      ensures Valid() && fresh(owner.Keys - old(owner.Keys)) && ino in old(policy)
      ensures ok <==> Takes(old(policy)[ino], (uuid, name), alloc)
      ensures SamePolicy(policy, old(policy)[ino := PutIn(old(policy)[ino], (uuid, name), mask, alloc)])
    {
      hide TreeHolds, MN.Holds, Same, SamePolicy, Indexed, Takes, PutIn;
      IndexedHas(nodes, policy, owner, ino);
      ghost var p, was := policy, node.View();
      Others(ino);
      var inside;
      ok, inside := node.Insert(uuid, name, mask, alloc);
      PutInIs(p, ino, (uuid, name), mask, node.View(), was, alloc);
      Settle(ino, node);
    }

    /** Every other node is untouched by a change to this one. */
    lemma Others(ino: nat)
      requires Valid() && ino in nodes
      ensures nodes[ino] in owner && nodes[ino].data in owner && nodes[ino].Valid()
      ensures forall i :: i in nodes ==> i in policy && nodes[i] in owner && NodeOk(nodes[i], policy[i], owner, i)
      ensures forall i :: i in nodes && i != ino ==> nodes[i] != nodes[ino] && nodes[i].data != nodes[ino].data
    {
      hide TreeHolds, MN.Holds, Same;
    }

    /** Take the new contents of one node into the policy. */
    ghost method Settle(ino: nat, node: MN.Node)
      requires this !in owner && Indexed(nodes, policy, owner) && TreeHolds(tree, nodes) && ino in nodes
        && node == nodes[ino] && node.Valid()
      requires forall i :: i in nodes && i != ino ==>
        nodes[i].data in owner && nodes[i].data != node.data && NodeOk(nodes[i], policy[i], owner, i)
      modifies this`nodes, this`policy, this`owner
      ensures Valid() && nodes == old(nodes) && policy == old(policy)[ino := node.View()]
        && owner == old(owner)[node.data := ino]
    {
      hide TreeHolds, MN.Holds, Same;
      ghost var ns, p := nodes, policy[ino := node.View()];
      ghost var w: map<object, nat> := owner[node.data := ino];
      Reflexive(node.View(), p);
      assert Indexed(ns, p, w) && AllOk(ns, p, w);
      Adopt(ns, p, w);
    }

    /** add_file_notify_checklist: the bits are added to the accumulated mask of this inode, volume
        and name, and of no other, if there is memory.  `room` says whether a node could be
        allocated, `alloc` for each size whether a buffer could. */
    method Add(uuid: seq<byte>, ino: nat, name: seq<byte>, mask: bv32, room: bool, alloc: nat -> bool)
      returns (ok: bool)
      requires Valid() && |uuid| == 16 && 0 !in name && forall n :: n >= MAX_SIZE ==> !alloc(n)
      modifies this, owner.Keys
      ensures Valid() && fresh(owner.Keys - old(owner.Keys))
      ensures ok <==> CanGrant(old(policy), ino, (uuid, name), room, alloc)
      ensures SamePolicy(policy, Granted(old(policy), ino, (uuid, name), mask, room, alloc))
      ensures forall i, k :: Mask(policy, i, k) == AfterAdd(old(policy), ok, ino, (uuid, name), mask, i, k)
    {
      hide TreeHolds, Indexed, AllOk, MN.Holds, SamePolicy, Mask, AfterAdd, CanGrant, Granted, Takes, PutIn;
      ghost var p := policy;
      IndexedHas(nodes, policy, owner, ino);
      var found := Find(ino);
      var node;
      if found.None? {
        if !room {
          NoRoom(p, ino, (uuid, name), mask, alloc);
          return false;
        }
        node := AddNode(ino);
      } else {
        node := found.value;
        NodesOwned(ino);
        Reflexive(NEW_SHELF, p);
      }
      ghost var p1 := policy;
      ok := InsertInto(node, ino, uuid, name, mask, alloc);
      AddMeans(p, p1, policy, ok, ino, (uuid, name), mask, room, alloc);
    }

    lemma NodesOwned(ino: nat)
      requires Valid() && ino in nodes
      ensures nodes[ino] in owner && nodes[ino].data in owner
    {
      hide TreeHolds, MN.Holds;
    }

    method RemoveFrom(node: MN.Node, ghost ino: nat, uuid: seq<byte>, name: seq<byte>, mask: bv32) returns (spent: bool)
      requires Valid() && ino in nodes && node == nodes[ino] && |uuid| == 16
      modifies this`nodes, this`policy, this`owner, node, node.data
      ensures Valid() && owner == old(owner) && nodes == old(nodes) && ino in old(policy)
      ensures SamePolicy(policy, old(policy)[ino := TakenOut(old(policy)[ino], (uuid, name), mask)])
      ensures spent <==> Spends(old(policy)[ino], (uuid, name), mask)
    {
      hide TreeHolds, MN.Holds, Same, SamePolicy, Indexed, TakenOut, Spends;
      IndexedHas(nodes, policy, owner, ino);
      ghost var p, was, w := policy, node.View(), owner;
      Others(ino);
      var rc := node.Remove(uuid, name, mask);
      spent := rc && node.used == 0;
      TakenOutIs(p, ino, (uuid, name), mask, node.View(), was, rc);
      Settle(ino, node);
      assert owner == w;
    }

    /** rb_erase of a node that holds nothing any more. */
    method EraseNode(ino: nat)
      requires Valid() && ino in nodes
      modifies this`tree, this`nodes, this`policy, this`owner
      ensures Valid() && owner == old(owner) && SamePolicy(policy, old(policy) - {ino})
    {
      hide TreeHolds, MN.Holds, Erase, InoCmp, Same, SamePolicy;
      ghost var ns, p, w := nodes, policy, owner;
      assert forall i :: i in ns ==> NodeOk(ns[i], p[i], w, i);
      TreeErased(tree, ns, ino);
      Reflexive(NEW_SHELF, p - {ino});
      assert Indexed(ns - {ino}, p - {ino}, w) && AllOk(ns - {ino}, p - {ino}, w);
      tree := Erase(tree, InoCmp, ino);
      Adopt(ns - {ino}, p - {ino}, w);
    }

    /** del_rb_by_data_file_notify_checklist: the bits are taken from the accumulated mask of this
        inode, volume and name, and of no other; a node without entries goes. */
    method Del(uuid: seq<byte>, ino: nat, name: seq<byte>, mask: bv32)
      requires Valid() && |uuid| == 16
      modifies this, owner.Keys
      ensures Valid() && owner == old(owner)
      ensures SamePolicy(policy, Taken(old(policy), ino, (uuid, name), mask))
      ensures forall i, k :: Mask(policy, i, k) == AfterDel(old(policy), ino, (uuid, name), mask, i, k)
    {
      hide TreeHolds, Indexed, AllOk, MN.Holds, SamePolicy, Mask, AfterDel, Taken, TakenOut, Spends;
      ghost var p := policy;
      IndexedHas(nodes, policy, owner, ino);
      var found := Find(ino);
      if found.None? {
        NoneToDelete(p, ino, (uuid, name), mask);
        return;
      }
      NodesOwned(ino);
      var spent := RemoveFrom(found.value, ino, uuid, name, mask);
      ghost var p1 := policy;
      Reflexive(NEW_SHELF, p1);
      if spent { EraseNode(ino); }
      DelMeans(p, p1, policy, spent, ino, (uuid, name), mask);
    }

    /** del_all_file_notify_checklist */
    method DelAll()
      requires Valid()
      modifies this
      ensures Valid() && policy == map[] && owner == map[]
    {
      tree, nodes, policy, owner := Leaf, map[], map[], map[];
    }
  }

  // ------------------------------------------------------------------------------------------
  // What the commands do to the accumulated masks.
  // ------------------------------------------------------------------------------------------

  function AfterAdd(p: Policy, ok: bool, ino: nat, key: Key, mask: bv32, i: nat, k: Key): bv32 {
    if ok && i == ino && k == key then Plus(Mask(p, i, k), mask) else Mask(p, i, k)
  }

  function AfterDel(p: Policy, ino: nat, key: Key, mask: bv32, i: nat, k: Key): bv32 {
    if i == ino && k == key then Minus(Mask(p, i, k), mask) else Mask(p, i, k)
  }

  /** The shelf of an inode, or a new one. */
  function ShelfOf(p: Policy, ino: nat): Shelf { if ino in p then p[ino] else NEW_SHELF }

  /** Whether there is memory for an addition ... */
  ghost predicate CanGrant(p: Policy, ino: nat, key: Key, room: bool, alloc: nat -> bool) {
    (ino in p || room) && Takes(ShelfOf(p, ino), key, alloc)
  }

  /** ... and the policy after it. */
  ghost function Granted(p: Policy, ino: nat, key: Key, mask: bv32, room: bool, alloc: nat -> bool): Policy {
    if ino in p || room then p[ino := PutIn(ShelfOf(p, ino), key, mask, alloc)] else p
  }

  /** A removal finds its key and leaves nothing. */
  ghost predicate Spends(s: Shelf, key: Key, mask: bv32) {
    key in s.contents && Without(s.contents, key, mask) == map[]
  }

  ghost function Taken(p: Policy, ino: nat, key: Key, mask: bv32): Policy {
    if ino !in p then p else if Spends(p[ino], key, mask) then p - {ino} else p[ino := TakenOut(p[ino], key, mask)]
  }

  lemma NoRoom(p: Policy, ino: nat, key: Key, mask: bv32, alloc: nat -> bool)
    requires ino !in p
    ensures forall i, k :: Mask(p, i, k) == AfterAdd(p, false, ino, key, mask, i, k)
    ensures !CanGrant(p, ino, key, false, alloc) && SamePolicy(p, Granted(p, ino, key, mask, false, alloc))
  {
  }

  lemma NoneToDelete(p: Policy, ino: nat, key: Key, mask: bv32)
    requires ino !in p
    ensures SamePolicy(p, Taken(p, ino, key, mask)) && forall i, k :: Mask(p, i, k) == AfterDel(p, ino, key, mask, i, k)
  {
    MinusNothing(mask);
  }

  lemma IndexedHas(nodes: map<nat, MN.Node>, policy: Policy, owner: map<object, nat>, ino: nat)
    requires Indexed(nodes, policy, owner)
    ensures ino in nodes <==> ino in policy
  {
  }

  lemma AddMeans(p: Policy, p1: Policy, p2: Policy, ok: bool, ino: nat, key: Key, mask: bv32, room: bool,
                 alloc: nat -> bool)
    requires SamePolicy(p1, if ino in p then p else p[ino := NEW_SHELF]) && ino in p1 && (ino in p || room)
    requires (ok <==> Takes(p1[ino], key, alloc)) && SamePolicy(p2, p1[ino := PutIn(p1[ino], key, mask, alloc)])
    ensures (ok <==> CanGrant(p, ino, key, room, alloc)) && SamePolicy(p2, Granted(p, ino, key, mask, room, alloc))
    ensures forall i, k :: Mask(p2, i, k) == AfterAdd(p, ok, ino, key, mask, i, k)
  {
    hide Plus, Needed, Grown;
  }

  lemma DelMeans(p: Policy, p1: Policy, p2: Policy, spent: bool, ino: nat, key: Key, mask: bv32)
    requires ino in p && SamePolicy(p1, p[ino := TakenOut(p[ino], key, mask)]) && (spent <==> Spends(p[ino], key, mask))
    requires SamePolicy(p2, if spent then p1 - {ino} else p1)
    ensures SamePolicy(p2, Taken(p, ino, key, mask))
    ensures forall i, k :: Mask(p2, i, k) == AfterDel(p, ino, key, mask, i, k)
  {
    hide Minus, Freed;
    MinusNothing(mask);
    assert p1 - {ino} == p - {ino};
    forall i, k ensures Mask(p2, i, k) == AfterDel(p, ino, key, mask, i, k) {
      if i == ino {
        assert Bits(p1[ino].contents, k) == if k == key then Minus(Mask(p, i, k), mask) else Mask(p, i, k);
        assert spent ==> k !in p1[ino].contents;
      }
    }
  }

  lemma MinusNothing(mask: bv32)
    ensures Minus(0, mask) == 0
  {
  }

  lemma TakenOutIs(p: Policy, ino: nat, key: Key, mask: bv32, s: Shelf, was: Shelf, rc: bool)
    requires ino in p && Same(was, p[ino]) && s == TakenOut(was, key, mask) && rc == (key in was.contents)
    ensures SamePolicy(p[ino := s], p[ino := TakenOut(p[ino], key, mask)]) && Same(s, s)
    ensures (rc && s.contents == map[]) <==> Spends(p[ino], key, mask)
  {
    hide Minus, Freed, Without;
  }

  lemma TreeErased(t: Tree<nat, MN.Node>, m: map<nat, MN.Node>, ino: nat)
    requires TreeHolds(t, m)
    ensures TreeHolds(Erase(t, InoCmp, ino), m - {ino})
  {
    hide Total, Sorted, View, Keys, Erase, InoCmp;
    InoCmpTotal();
    Erased(t, InoCmp, ino);
  }

  lemma PutInIs(p: Policy, ino: nat, key: Key, mask: bv32, s: Shelf, was: Shelf, alloc: nat -> bool)
    requires ino in p && Same(was, p[ino]) && s == PutIn(was, key, mask, alloc)
    ensures SamePolicy(p[ino := s], p[ino := PutIn(p[ino], key, mask, alloc)]) && Same(s, s)
    ensures Takes(was, key, alloc) <==> Takes(p[ino], key, alloc)
  {
    hide PutIn, Takes;
  }

  lemma Reflexive(s: Shelf, p: Policy)
    ensures Same(s, s) && SamePolicy(p, p)
  {
  }

  lemma TreeInserted(t: Tree<nat, MN.Node>, m: map<nat, MN.Node>, ino: nat, n: MN.Node)
    requires TreeHolds(t, m) && ino !in m
    ensures TreeHolds(Insert(t, InoCmp, ino, n), m[ino := n])
  {
    hide Total, Sorted, View, Keys, Insert, InoCmp;
    InoCmpTotal();
    Inserted(t, InoCmp, ino, n);
  }

  lemma MeetsNothing(mask: bv32)
    ensures !Meets(0, mask)
  {
  }

  // ------------------------------------------------------------------------------------------
  // Whole runs of commands.
  // ------------------------------------------------------------------------------------------

  datatype Command = Grant(uuid: seq<byte>, ino: nat, name: seq<byte>, mask: bv32)
                   | Take(uuid: seq<byte>, ino: nat, name: seq<byte>, mask: bv32)
                   | Clear

  predicate GoodCommand(c: Command) { (!c.Clear? ==> |c.uuid| == 16) && (c.Grant? ==> 0 !in c.name) }

  predicate Gives(c: Command, ok: bool, ino: nat, key: Key, bit: bv32) {
    c.Grant? && ok && c.ino == ino && (c.uuid, c.name) == key && Meets(c.mask, bit)
  }

  predicate Revokes(c: Command, ino: nat, key: Key, bit: bv32) {
    c.Clear? || (c.Take? && c.ino == ino && (c.uuid, c.name) == key && Meets(c.mask, bit))
  }

  /** Among the first n commands, one gave the bit and none behind it took it back. */
  ghost predicate Stands(run: seq<Command>, oks: seq<bool>, n: nat, ino: nat, key: Key, bit: bv32)
    requires n <= |run| && n <= |oks|
  {
    exists i :: 0 <= i < n && Gives(run[i], oks[i], ino, key, bit)
      && forall j :: i < j < n ==> !Revokes(run[j], ino, key, bit)
  }

  /** The accumulated masks hold exactly the bits that stand. */
  ghost predicate Reflects(p: Policy, run: seq<Command>, oks: seq<bool>, n: nat)
    requires n <= |run| && n <= |oks|
  {
    forall ino, key, bit :: Single(bit) ==> (Meets(Mask(p, ino, key), bit) <==> Stands(run, oks, n, ino, key, bit))
  }

  lemma StandsOn(run: seq<Command>, oks: seq<bool>, ok: bool, n: nat, ino: nat, key: Key, bit: bv32)
    requires n < |run| && n == |oks|
    ensures Stands(run, oks + [ok], n + 1, ino, key, bit) <==>
      Gives(run[n], ok, ino, key, bit) || (Stands(run, oks, n, ino, key, bit) && !Revokes(run[n], ino, key, bit))
  {
    hide Gives, Revokes;
    var oks' := oks + [ok];
    if Stands(run, oks', n + 1, ino, key, bit) {
      var i :| 0 <= i < n + 1 && Gives(run[i], oks'[i], ino, key, bit)
        && forall j :: i < j < n + 1 ==> !Revokes(run[j], ino, key, bit);
      if i < n { assert Gives(run[i], oks[i], ino, key, bit); }
    }
    if Gives(run[n], ok, ino, key, bit) { assert Gives(run[n], oks'[n], ino, key, bit); }
    if Stands(run, oks, n, ino, key, bit) && !Revokes(run[n], ino, key, bit) {
      var i :| 0 <= i < n && Gives(run[i], oks[i], ino, key, bit)
        && forall j :: i < j < n ==> !Revokes(run[j], ino, key, bit);
      assert Gives(run[i], oks'[i], ino, key, bit);
    }
  }

  /** What one command makes of each accumulated mask. */
  function MaskAfter(p: Policy, c: Command, ok: bool, i: nat, k: Key): bv32 {
    match c
    case Grant(uuid, ino, name, mask) => AfterAdd(p, ok, ino, (uuid, name), mask, i, k)
    case Take(uuid, ino, name, mask) => AfterDel(p, ino, (uuid, name), mask, i, k)
    case Clear => 0
  }

  lemma ReflectsOn(p: Policy, p': Policy, run: seq<Command>, oks: seq<bool>, ok: bool)
    requires |oks| < |run| && Reflects(p, run, oks, |oks|)
    requires forall i, k :: Mask(p', i, k) == MaskAfter(p, run[|oks|], ok, i, k)
    ensures Reflects(p', run, oks + [ok], |oks| + 1)
  {
    hide Meets, Single, Plus, Minus, Stands, Mask;
    var n := |oks|;
    var c := run[n];
    forall ino, key, bit | Single(bit)
      ensures Meets(Mask(p', ino, key), bit) <==> Stands(run, oks + [ok], n + 1, ino, key, bit)
    {
      StandsOn(run, oks, ok, n, ino, key, bit);
      MeetsNothing(bit);
      if !c.Clear? { BitOf(Mask(p, ino, key), c.mask, bit); }
    }
  }

  /** What one command makes of the policy ... */
  ghost function Obeyed(p: Policy, c: Command, room: bool, alloc: nat -> bool): Policy {
    match c
    case Grant(uuid, ino, name, mask) => Granted(p, ino, (uuid, name), mask, room, alloc)
    case Take(uuid, ino, name, mask) => Taken(p, ino, (uuid, name), mask)
    case Clear => map[]
  }

  /** ... and whether there is memory for it. */
  ghost predicate CanObey(p: Policy, c: Command, room: bool, alloc: nat -> bool) {
    c.Grant? ==> CanGrant(p, c.ino, (c.uuid, c.name), room, alloc)
  }

  ghost function PolicyAfter(run: seq<Command>, room: nat -> bool, alloc: nat -> nat -> bool, n: nat): Policy
    requires n <= |run|
  {
    if n == 0 then map[] else Obeyed(PolicyAfter(run, room, alloc, n - 1), run[n - 1], room(n - 1), alloc(n - 1))
  }

  /** Command i finds the memory it needs. */
  ghost predicate Accepted(run: seq<Command>, room: nat -> bool, alloc: nat -> nat -> bool, i: nat)
    requires i < |run|
  {
    CanObey(PolicyAfter(run, room, alloc, i), run[i], room(i), alloc(i))
  }

  // ------------------------------------------------------------------------------------------
  // When every grant is accepted.
  // ------------------------------------------------------------------------------------------

  /** What the grants for an inode can take up at most, from the last clear on. */
  function Load(run: seq<Command>, n: nat, ino: nat): nat
    requires n <= |run|
  {
    if n == 0 then 0
    else
      var c := run[n - 1];
      if c.Clear? then 0
      else Load(run, n - 1, ino) + if c.Grant? && c.ino == ino then SOMASK + EntryLen(|c.name|) else 0
  }

  /** Every grant finds a node, and every buffer smaller than twice the load. */
  ghost predicate Ample(run: seq<Command>, room: nat -> bool, alloc: nat -> nat -> bool) {
    forall i :: 0 <= i < |run| && run[i].Grant? ==>
      room(i) && forall n :: LIMIT < n < 2 * Load(run, i + 1, run[i].ino) ==> alloc(i)(n)
  }

  ghost predicate Loaded(p: Policy, run: seq<Command>, n: nat)
    requires n <= |run|
  {
    forall ino :: ino in p ==> p[ino].used <= Load(run, n, ino) && p[ino].size >= LIMIT
  }

  /** No buffer holds more than its load. */
  lemma {:induction false} LoadBounds(run: seq<Command>, room: nat -> bool, alloc: nat -> nat -> bool, n: nat)
    requires n <= |run|
    ensures Loaded(PolicyAfter(run, room, alloc, n), run, n)
  {
    if n == 0 {
      hide Load, PutIn, TakenOut;
    } else {
      hide Loaded, Load, Obeyed;
      LoadBounds(run, room, alloc, n - 1);
      LoadOn(PolicyAfter(run, room, alloc, n - 1), run, room(n - 1), alloc(n - 1), n - 1);
    }
  }

  lemma LoadOn(p: Policy, run: seq<Command>, room: bool, alloc: nat -> bool, n: nat)
    requires n < |run| && Loaded(p, run, n)
    ensures Loaded(Obeyed(p, run[n], room, alloc), run, n + 1)
  {
    hide PutIn, TakenOut, EntryLen, CanGrant, Spends;
    var c := run[n];
    if c.Grant? { PutInBounds(ShelfOf(p, c.ino), (c.uuid, c.name), c.mask, alloc); }
    if c.Take? { TakenOutBounds(ShelfOf(p, c.ino), (c.uuid, c.name), c.mask); }
  }

  lemma PutInBounds(s: Shelf, key: Key, mask: bv32, alloc: nat -> bool)
    ensures var s' := PutIn(s, key, mask, alloc); s'.used <= s.used + SOMASK + EntryLen(|key.1|) && s.size <= s'.size
  {
    hide EntryLen, Grown, Plus;
    GrownIsLarger(s.size, s.used + Needed(s.contents, key), alloc);
  }

  lemma TakenOutBounds(s: Shelf, key: Key, mask: bv32)
    ensures var s' := TakenOut(s, key, mask); s'.used <= s.used && s'.size == s.size
  {
    hide Freed, Without;
  }

  lemma AllAccepted(run: seq<Command>, room: nat -> bool, alloc: nat -> nat -> bool, i: nat)
    requires i < |run| && Ample(run, room, alloc)
    ensures Accepted(run, room, alloc, i)
  {
    hide EntryLen, Grown;
    var c := run[i];
    if c.Grant? {
      LoadBounds(run, room, alloc, i);
      var s := ShelfOf(PolicyAfter(run, room, alloc, i), c.ino);
      GrowsEnough(s.size, s.used + Needed(s.contents, (c.uuid, c.name)), alloc(i));
    }
  }

  /** Every node holds an entry, as long as no addition was turned down: a spent node is removed. */
  lemma {:induction false} NodesHoldEntries(run: seq<Command>, room: nat -> bool, alloc: nat -> nat -> bool, n: nat)
    requires n <= |run| && forall i :: 0 <= i < n ==> Accepted(run, room, alloc, i)
    ensures forall ino :: ino in PolicyAfter(run, room, alloc, n) ==>
      PolicyAfter(run, room, alloc, n)[ino].contents != map[]
  {
    if n > 0 {
      NodesHoldEntries(run, room, alloc, n - 1);
      assert Accepted(run, room, alloc, n - 1);
      StaysInhabited(PolicyAfter(run, room, alloc, n - 1), run[n - 1], room(n - 1), alloc(n - 1));
    }
  }

  lemma StaysInhabited(p: Policy, c: Command, room: bool, alloc: nat -> bool)
    requires CanObey(p, c, room, alloc) && forall ino :: ino in p ==> p[ino].contents != map[]
    ensures var p' := Obeyed(p, c, room, alloc); forall ino :: ino in p' ==> p'[ino].contents != map[]
  {
    hide Plus, Minus, Needed, Grown, Freed;
    if c.Grant? { assert (c.uuid, c.name) in PutIn(ShelfOf(p, c.ino), (c.uuid, c.name), c.mask, alloc).contents; }
  }

  /** No entry is kept that has no bits. */
  ghost predicate NoIdleEntry(p: Policy) {
    forall ino, key :: ino in p && key in p[ino].contents ==> p[ino].contents[key] != 0
  }

  /** Commands that give bits, if any. */
  predicate Giving(run: seq<Command>) { forall c :: c in run && c.Grant? ==> c.mask != 0 }

  /** Every entry has bits, unless a command added it with none: a spent entry is removed. */
  lemma {:induction false} EntriesHoldBits(run: seq<Command>, room: nat -> bool, alloc: nat -> nat -> bool, n: nat)
    requires n <= |run| && Giving(run)
    ensures NoIdleEntry(PolicyAfter(run, room, alloc, n))
  {
    if n > 0 {
      EntriesHoldBits(run, room, alloc, n - 1);
      assert run[n - 1] in run;
      StaysBusy(PolicyAfter(run, room, alloc, n - 1), run[n - 1], room(n - 1), alloc(n - 1));
    }
  }

  lemma StaysBusy(p: Policy, c: Command, room: bool, alloc: nat -> bool)
    requires NoIdleEntry(p) && (c.Grant? ==> c.mask != 0)
    ensures NoIdleEntry(Obeyed(p, c, room, alloc))
  {
    hide Plus, Minus, Needed, Grown, Freed;
    if c.Grant? { PlusGives(Bits(ShelfOf(p, c.ino).contents, (c.uuid, c.name)), c.mask); }
  }

  lemma PlusGives(a: bv32, b: bv32)
    requires b != 0
    ensures Plus(a, b) != 0
  {
  }

  // ------------------------------------------------------------------------------------------
  // Runs.
  // ------------------------------------------------------------------------------------------

  /** Any sequence of file-notify commands on an empty list: a bit is in the accumulated mask of an
      inode, a volume and a name exactly if a command that found the memory it needed gave it and
      none behind that took it back.  `room` and `alloc` say what memory there is for each command;
      with enough of it every command is taken. */
  method Run(run: seq<Command>, room: nat -> bool, alloc: nat -> nat -> bool) returns (list: Checklist, oks: seq<bool>)
    requires (forall i :: 0 <= i < |run| ==> GoodCommand(run[i])) && forall i, n :: n >= MAX_SIZE ==> !alloc(i)(n)
    ensures list.Valid() && SamePolicy(list.policy, PolicyAfter(run, room, alloc, |run|))
    ensures |oks| == |run| && forall i :: 0 <= i < |run| ==> (oks[i] <==> Accepted(run, room, alloc, i))
    ensures Ample(run, room, alloc) ==> forall i :: 0 <= i < |run| ==> oks[i]
    ensures Ample(run, room, alloc) ==> forall ino :: ino in list.policy ==> list.policy[ino].contents != map[]
    ensures Giving(run) ==> NoIdleEntry(list.policy)
    ensures Reflects(list.policy, run, oks, |run|)
  {
    hide Reflects, MaskAfter, Mask, TreeHolds, Indexed, AllOk, Obeyed, CanObey, Ample, GoodCommand, PolicyAfter,
         Accepted, Giving, NoIdleEntry;
    PolicyBefore(run, room, alloc);
    list := new Checklist();
    oks := [];
    assert Reflects(list.policy, run, [], 0) by { NothingStands(run); }
    for i := 0 to |run|
      invariant fresh(list) && list.Valid() && fresh(list.owner.Keys) && list.policy == PolicyAfter(run, room, alloc, i)
      invariant |oks| == i && Reflects(list.policy, run, oks, i)
      invariant forall j :: 0 <= j < i ==> (oks[j] <==> Accepted(run, room, alloc, j))
    {
      ghost var p := list.policy;
      var ok := Obey(list, run[i], room(i), alloc(i));
      PolicyNext(run, room, alloc, i);
      ReflectsOn(p, list.policy, run, oks, ok);
      oks := oks + [ok];
    }
    if Ample(run, room, alloc) {
      forall i | 0 <= i < |run| ensures Accepted(run, room, alloc, i) { AllAccepted(run, room, alloc, i); }
      NodesHoldEntries(run, room, alloc, |run|);
    }
    if Giving(run) { EntriesHoldBits(run, room, alloc, |run|); }
  }

  lemma PolicyBefore(run: seq<Command>, room: nat -> bool, alloc: nat -> nat -> bool)
    ensures PolicyAfter(run, room, alloc, 0) == map[]
  {
  }

  lemma PolicyNext(run: seq<Command>, room: nat -> bool, alloc: nat -> nat -> bool, i: nat)
    requires i < |run|
    ensures var p := PolicyAfter(run, room, alloc, i);
      && PolicyAfter(run, room, alloc, i + 1) == Obeyed(p, run[i], room(i), alloc(i))
      && (Accepted(run, room, alloc, i) <==> CanObey(p, run[i], room(i), alloc(i)))
  {
    hide Obeyed, CanObey;
  }

  lemma NothingStands(run: seq<Command>)
    ensures Reflects(map[], run, [], 0)
  {
  }

  method Obey(list: Checklist, c: Command, room: bool, alloc: nat -> bool) returns (ok: bool)
    requires list.Valid() && GoodCommand(c) && forall n :: n >= MAX_SIZE ==> !alloc(n)
    modifies list, list.owner.Keys
    ensures list.Valid() && fresh(list.owner.Keys - old(list.owner.Keys))
    ensures (ok <==> CanObey(old(list.policy), c, room, alloc))
      && list.policy == Obeyed(old(list.policy), c, room, alloc)
    ensures forall i, k :: Mask(list.policy, i, k) == MaskAfter(old(list.policy), c, ok, i, k)
  {
    hide TreeHolds, Indexed, AllOk, AfterAdd, AfterDel, CanGrant, Granted, Taken;
    ok := true;
    match c {
      case Grant(uuid, ino, name, mask) => ok := list.Add(uuid, ino, name, mask, room, alloc);
      case Take(uuid, ino, name, mask) => list.Del(uuid, ino, name, mask);
      case Clear => list.DelAll();
    }
  }

  /** So an access is reported exactly if one of the queried bits stands. */
  method CheckAfter(run: seq<Command>, room: nat -> bool, alloc: nat -> nat -> bool,
                    uuid: seq<byte>, ino: nat, name: seq<byte>, mask: bv32)
    returns (r: bool, oks: seq<bool>)
    requires (forall i :: 0 <= i < |run| ==> GoodCommand(run[i])) && |uuid| == 16
    requires forall i, n :: n >= MAX_SIZE ==> !alloc(i)(n)
    ensures |oks| == |run| && forall i :: 0 <= i < |run| ==> (oks[i] <==> Accepted(run, room, alloc, i))
    ensures Ample(run, room, alloc) ==> forall i :: 0 <= i < |run| ==> oks[i]
    ensures r <==> exists bit :: Single(bit) && Meets(mask, bit) && Stands(run, oks, |run|, ino, (uuid, name), bit)
  {
    hide Single, Meets, Stands, Mask, TreeHolds, Indexed, AllOk, Accepted, Ample;
    var list;
    list, oks := Run(run, room, alloc);
    r := list.Check(uuid, ino, name, mask);
    ghost var v := Mask(list.policy, ino, (uuid, name));
    if r {
      var bit := CommonBit(v, mask);
      assert Stands(run, oks, |run|, ino, (uuid, name), bit);
    }
    forall bit | Single(bit) && Meets(mask, bit) && Meets(v, bit) ensures Meets(v, mask) { BitMeets(v, mask, bit); }
  }
}
