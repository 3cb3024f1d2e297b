/** The segments of a node as a map from (uuid, name) to mask: what each edit does to it. */
module MaskMap {
  import opened Bytes
  import opened MaskLayout

  /** Two places that hold the same key are the same place. */
  lemma SamePlace(segs: seq<Segment>, i: int, j: int, i': int, j': int, u: seq<byte>, n: seq<byte>)
    requires GoodStore(segs) && Here(segs, i, j, u, n) && Here(segs, i', j', u, n)
    ensures i == i' && j == j'
  {
    hide SegmentLen;
    assert GoodSegment(segs[i]);
  }

  function WithMask(segs: seq<Segment>, k: nat, q: nat, v: bv32): seq<Segment>
    requires k < |segs| && q < |segs[k].entries|
  {
    segs[k := segs[k].(entries := segs[k].entries[q := segs[k].entries[q].(mask := v)])]
  }

  lemma MaskSet(segs: seq<Segment>, m: map<Key, bv32>, k: nat, q: nat, v: bv32)
    requires GoodStore(segs) && Represents(segs, m) && k < |segs| && q < |segs[k].entries|
    ensures GoodStore(WithMask(segs, k, q, v))
    ensures Represents(WithMask(segs, k, q, v), m[(segs[k].uuid, segs[k].entries[q].name) := v])
  {
    hide SegmentLen;
    var segs' := WithMask(segs, k, q, v);
    var u0, n0 := segs[k].uuid, segs[k].entries[q].name;
    assert GoodSegment(segs[k]);
    SameLength(segs[k], q, segs[k].entries[q].(mask := v));
    assert GoodSegment(segs'[k]);
    assert forall i, j, u, n :: Here(segs', i, j, u, n) <==> Here(segs, i, j, u, n);
    assert Here(segs, k, q, u0, n0);
    var m' := m[(u0, n0) := v];
    forall i, j, u, n | Here(segs', i, j, u, n) ensures (u, n) in m' && m'[(u, n)] == segs'[i].entries[j].mask {
      if (u, n) == (u0, n0) { SamePlace(segs, i, j, k, q, u, n); }
    }
    forall u, n | (u, n) in m' ensures exists i, j :: Here(segs', i, j, u, n) {
      if (u, n) == (u0, n0) {
        assert Here(segs', k, q, u, n);
      } else {
        var i, j :| Here(segs, i, j, u, n);
        assert Here(segs', i, j, u, n);
      }
    }
  }

  function WithEntry(segs: seq<Segment>, k: nat, e: Entry): seq<Segment>
    requires k < |segs|
  {
    segs[k := segs[k].(entries := [e] + segs[k].entries)]
  }

  lemma EntryAdded(segs: seq<Segment>, m: map<Key, bv32>, k: nat, e: Entry)
    requires GoodStore(segs) && Represents(segs, m) && k < |segs| && 0 !in e.name
    requires SegmentLen(segs[k]) + EntryLen(|e.name|) < TWO32
    requires forall j :: 0 <= j < |segs[k].entries| ==> segs[k].entries[j].name != e.name
    ensures GoodStore(WithEntry(segs, k, e)) && (segs[k].uuid, e.name) !in m
    ensures Represents(WithEntry(segs, k, e), m[(segs[k].uuid, e.name) := e.mask])
  {
    hide SegmentLen;
    var segs' := WithEntry(segs, k, e);
    var u0 := segs[k].uuid;
    assert GoodSegment(segs[k]);
    EntryGrows(segs[k], e);
    assert GoodSegment(segs'[k]);
    NoSuchName(segs, m, k, e.name);
    var m' := m[(u0, e.name) := e.mask];
    forall i, j, u, n | Here(segs', i, j, u, n) ensures (u, n) in m' && m'[(u, n)] == segs'[i].entries[j].mask {
      if i != k { assert Here(segs, i, j, u, n); } else if j > 0 { assert Here(segs, i, j - 1, u, n); }
    }
    forall u, n | (u, n) in m' ensures exists i, j :: Here(segs', i, j, u, n) {
      if (u, n) == (u0, e.name) {
        assert Here(segs', k, 0, u, n);
      } else {
        var i, j :| Here(segs, i, j, u, n);
        assert Here(segs', i, if i == k then j + 1 else j, u, n);
      }
    }
  }

  lemma EntryGrows(s: Segment, e: Entry)
    ensures SegmentLen(s.(entries := [e] + s.entries)) == SegmentLen(s) + EntryLen(|e.name|)
  {
    hide EntriesBytes;
    OneEntry(e);
    EntriesJoin([e], s.entries);
  }

  lemma NoSuchName(segs: seq<Segment>, m: map<Key, bv32>, k: nat, name: seq<byte>)
    requires GoodStore(segs) && Represents(segs, m) && k < |segs|
    requires forall j :: 0 <= j < |segs[k].entries| ==> segs[k].entries[j].name != name
    ensures (segs[k].uuid, name) !in m
  {
    hide GoodSegment;
  }

  lemma NoSuchUuid(segs: seq<Segment>, m: map<Key, bv32>, uuid: seq<byte>, name: seq<byte>)
    requires Represents(segs, m) && forall k :: 0 <= k < |segs| ==> segs[k].uuid != uuid
    ensures (uuid, name) !in m
  {
  }

  function WithSegment(segs: seq<Segment>, p: nat, s: Segment): seq<Segment>
    requires p <= |segs|
  {
    segs[..p] + [s] + segs[p..]
  }

  lemma SegmentAdded(segs: seq<Segment>, m: map<Key, bv32>, p: nat, uuid: seq<byte>, e: Entry)
    requires GoodStore(segs) && Represents(segs, m) && p <= |segs| && |uuid| == 16 && 0 !in e.name
    requires SegmentLen(Segment(uuid, [e])) < TWO32 && forall k :: 0 <= k < |segs| ==> segs[k].uuid != uuid
    ensures GoodStore(WithSegment(segs, p, Segment(uuid, [e]))) && (uuid, e.name) !in m
    ensures Represents(WithSegment(segs, p, Segment(uuid, [e])), m[(uuid, e.name) := e.mask])
  {
    hide GoodSegment, GoodStore;
    var s := Segment(uuid, [e]);
    var segs' := WithSegment(segs, p, s);
    GoodWith(segs, p, s);
    assert forall i :: 0 <= i < |segs'| ==> segs'[i] == if i < p then segs[i] else if i == p then s else segs[i - 1];
    NoSuchUuid(segs, m, uuid, e.name);
    var m' := m[(uuid, e.name) := e.mask];
    forall i, j, u, n | Here(segs', i, j, u, n) ensures (u, n) in m' && m'[(u, n)] == segs'[i].entries[j].mask {
      if i != p { assert Here(segs, if i < p then i else i - 1, j, u, n); }
    }
    forall u, n | (u, n) in m' ensures exists i, j :: Here(segs', i, j, u, n) {
      if (u, n) == (uuid, e.name) {
        assert Here(segs', p, 0, u, n);
      } else {
        var i, j :| Here(segs, i, j, u, n);
        assert Here(segs', if i < p then i else i + 1, j, u, n);
      }
    }
  }

  lemma GoodWith(segs: seq<Segment>, p: nat, s: Segment)
    requires GoodStore(segs) && p <= |segs| && |s.uuid| == 16 && |s.entries| == 1 && 0 !in s.entries[0].name
    requires SegmentLen(s) < TWO32 && forall k :: 0 <= k < |segs| ==> segs[k].uuid != s.uuid
    ensures GoodStore(WithSegment(segs, p, s))
  {
    hide SegmentLen;
    var segs' := WithSegment(segs, p, s);
    assert GoodSegment(s);
    assert forall i :: 0 <= i < |segs'| ==> segs'[i] == if i < p then segs[i] else if i == p then s else segs[i - 1];
  }

  function WithoutEntry(segs: seq<Segment>, k: nat, q: nat): seq<Segment>
    requires k < |segs| && q < |segs[k].entries|
  {
    segs[k := segs[k].(entries := segs[k].entries[..q] + segs[k].entries[q + 1..])]
  }

  lemma EntryDropped(segs: seq<Segment>, m: map<Key, bv32>, k: nat, q: nat)
    requires GoodStore(segs) && Represents(segs, m) && k < |segs| && q < |segs[k].entries| && |segs[k].entries| > 1
    ensures GoodStore(WithoutEntry(segs, k, q))
    ensures Represents(WithoutEntry(segs, k, q), m - {(segs[k].uuid, segs[k].entries[q].name)})
  {
    hide GoodSegment, GoodStore;
    var segs' := WithoutEntry(segs, k, q);
    var u0, n0, es := segs[k].uuid, segs[k].entries[q].name, segs[k].entries;
    GoodWithout(segs, k, q);
    assert forall j :: 0 <= j < |es| - 1 ==> segs'[k].entries[j] == if j < q then es[j] else es[j + 1];
    assert Here(segs, k, q, u0, n0);
    var m' := m - {(u0, n0)};
    forall i, j, u, n | Here(segs', i, j, u, n) ensures (u, n) in m' && m'[(u, n)] == segs'[i].entries[j].mask {
      var j0 := if i == k && j >= q then j + 1 else j;
      assert Here(segs, i, j0, u, n);
      if (u, n) == (u0, n0) { SamePlace(segs, i, j0, k, q, u, n); }
    }
    forall u, n | (u, n) in m' ensures exists i, j :: Here(segs', i, j, u, n) {
      var i, j :| Here(segs, i, j, u, n);
      assert Here(segs', i, if i == k && j > q then j - 1 else j, u, n);
    }
  }

  lemma GoodWithout(segs: seq<Segment>, k: nat, q: nat)
    requires GoodStore(segs) && k < |segs| && q < |segs[k].entries| && |segs[k].entries| > 1
    ensures GoodStore(WithoutEntry(segs, k, q))
  {
    hide SegmentLen;
    var s, es := segs[k], segs[k].entries;
    var s' := s.(entries := es[..q] + es[q + 1..]);
    assert GoodSegment(s);
    DropLength(s, q);
    assert forall j :: 0 <= j < |es| - 1 ==> s'.entries[j] == if j < q then es[j] else es[j + 1];
    assert GoodSegment(s');
  }

  function WithoutSegment(segs: seq<Segment>, k: nat): seq<Segment>
    requires k < |segs|
  {
    segs[..k] + segs[k + 1..]
  }

  lemma SegmentDropped(segs: seq<Segment>, m: map<Key, bv32>, k: nat)
    requires GoodStore(segs) && Represents(segs, m) && k < |segs| && |segs[k].entries| == 1
    ensures GoodStore(WithoutSegment(segs, k))
    ensures Represents(WithoutSegment(segs, k), m - {(segs[k].uuid, segs[k].entries[0].name)})
  {
    hide GoodSegment;
    var segs' := WithoutSegment(segs, k);
    var u0, n0 := segs[k].uuid, segs[k].entries[0].name;
    assert forall i :: 0 <= i < |segs'| ==> segs'[i] == if i < k then segs[i] else segs[i + 1];
    var m' := m - {(u0, n0)};
    forall i, j, u, n | Here(segs', i, j, u, n) ensures (u, n) in m' && m'[(u, n)] == segs'[i].entries[j].mask {
      assert Here(segs, if i < k then i else i + 1, j, u, n);
    }
    forall u, n | (u, n) in m' ensures exists i, j :: Here(segs', i, j, u, n) {
      var i, j :| Here(segs, i, j, u, n);
      assert i != k;
      assert Here(segs', if i < k then i else i - 1, j, u, n);
    }
  }
}
