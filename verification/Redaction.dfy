/**
 Redaction of the served configuration (otelcol/extensions/statuscfgextension/
 resolvedconfig.go): first as a function on trees, with what it hides and what it
 keeps; then in place, on maps in the heap that may share sub-maps.
 */
module Redaction {

  datatype Tree =
    | Leaf(text: string)
    | Branch(fields: map<string, Tree>)
    | Items(items: seq<Tree>)

  const SENSITIVE_KEYS := {"token", "password", "secret", "api_key", "apikey"}

  const REDACTED := "***redacted***"

  predicate Sensitive(key: string, lower: string -> string) {
    lower(key) in SENSITIVE_KEYS
  }

  function Redact(t: Tree, lower: string -> string): Tree {
    match t
    case Leaf(_) => t
    case Branch(fields) =>
      Branch(map k | k in fields :: if Sensitive(k, lower) then Leaf(REDACTED) else Redact(fields[k], lower))
    case Items(items) =>
      Items(seq(|items|, i requires 0 <= i < |items| => Redact(items[i], lower)))
  }

  /** The names whose values must never be shown, in lower case. */
  predicate Secret(name: string) {
    name == "token" || name == "password" || name == "secret" || name == "api_key" || name == "apikey"
  }

  /** Nothing secret is left: under a secret name, in whatever case it is written and at
      whatever depth, stands the marker. */
  predicate Clean(t: Tree, lower: string -> string) {
    match t
    case Leaf(_) => true
    case Branch(fields) =>
      forall k :: k in fields ==>
        if Secret(lower(k)) then fields[k] == Leaf("***redacted***") else Clean(fields[k], lower)
    case Items(items) => forall i :: 0 <= i < |items| ==> Clean(items[i], lower)
  }

  lemma {:induction false} RedactedIsClean(t: Tree, lower: string -> string)
    ensures Clean(Redact(t, lower), lower)
  {
    match t
    case Leaf(_) =>
    case Branch(fields) =>
      forall k | k in fields ensures Clean(Redact(fields[k], lower), lower) { RedactedIsClean(fields[k], lower); }
    case Items(items) =>
      forall i | 0 <= i < |items| ensures Clean(Redact(items[i], lower), lower) { RedactedIsClean(items[i], lower); }
  }

  /** What is clean already is left alone. */
  lemma {:induction false} CleanIsKept(t: Tree, lower: string -> string)
    requires Clean(t, lower)
    ensures Redact(t, lower) == t
  {
    match t
    case Leaf(_) =>
    case Branch(fields) =>
      forall k | k in fields && !Secret(lower(k)) ensures Redact(fields[k], lower) == fields[k] {
        CleanIsKept(fields[k], lower);
      }
      assert Redact(t, lower).fields == fields;
    case Items(items) =>
      forall i | 0 <= i < |items| ensures Redact(items[i], lower) == items[i] { CleanIsKept(items[i], lower); }
      assert Redact(t, lower).items == items;
  }

  /** The trees are the same except for what stands under secret names. */
  predicate SameOutside(a: Tree, b: Tree, lower: string -> string) {
    match (a, b)
    case (Leaf(_), Leaf(_)) => a == b
    case (Branch(f), Branch(g)) =>
      f.Keys == g.Keys && forall k :: k in f && !Secret(lower(k)) ==> SameOutside(f[k], g[k], lower)
    case (Items(s), Items(t)) =>
      |s| == |t| && forall i :: 0 <= i < |s| ==> SameOutside(s[i], t[i], lower)
    case _ => false
  }

  /** Redaction is a function of the non-sensitive part, and of all of it: two trees redact
      to the same tree exactly when they differ at most under sensitive keys. */
  lemma {:induction false} RedactsEqualIff(a: Tree, b: Tree, lower: string -> string)
    ensures Redact(a, lower) == Redact(b, lower) <==> SameOutside(a, b, lower)
    decreases a, 1
  {
    match (a, b)
    case (Leaf(_), Leaf(_)) =>
    case (Branch(f), Branch(g)) => RedactsEqualIffBranch(f, g, a, b, lower);
    case (Items(s), Items(t)) => RedactsEqualIffItems(s, t, a, b, lower);
    case _ =>
  }

  lemma {:induction false} RedactsEqualIffBranch(f: map<string, Tree>, g: map<string, Tree>, a: Tree, b: Tree,
                                                 lower: string -> string)
    requires a == Branch(f) && b == Branch(g)
    ensures Redact(a, lower) == Redact(b, lower) <==> SameOutside(a, b, lower)
    decreases a, 0
  {
    var ra, rb := Redact(a, lower).fields, Redact(b, lower).fields;
    assert ra.Keys == f.Keys && rb.Keys == g.Keys;
    forall k | k in f && k in g ensures ra[k] == rb[k] <==> Sensitive(k, lower) || SameOutside(f[k], g[k], lower) {
      RedactsEqualIff(f[k], g[k], lower);
    }
    if f.Keys == g.Keys && (forall k :: k in f ==> ra[k] == rb[k]) { assert ra == rb; }
    if ra == rb { assert f.Keys == g.Keys; }
  }

  lemma {:induction false} RedactsEqualIffItems(s: seq<Tree>, t: seq<Tree>, a: Tree, b: Tree, lower: string -> string)
    requires a == Items(s) && b == Items(t)
    ensures Redact(a, lower) == Redact(b, lower) <==> SameOutside(a, b, lower)
    decreases a, 0
  {
    var rs, rt := Redact(a, lower).items, Redact(b, lower).items;
    forall i | 0 <= i < |s| && i < |t| ensures rs[i] == rt[i] <==> SameOutside(s[i], t[i], lower) {
      RedactsEqualIff(s[i], t[i], lower);
    }
    if |s| == |t| && (forall i :: 0 <= i < |s| ==> rs[i] == rt[i]) { assert rs == rt; }
    if rs == rt { assert |s| == |t| && forall i :: 0 <= i < |s| ==> rs[i] == rt[i]; }
  }

  /** What is not under a sensitive key keeps its shape and value. */
  lemma {:induction false} RedactKeepsTheRest(t: Tree, lower: string -> string)
    ensures SameOutside(t, Redact(t, lower), lower)
  {
    match t
    case Leaf(_) =>
    case Branch(fields) =>
      forall k | k in fields ensures SameOutside(fields[k], Redact(fields[k], lower), lower) {
        RedactKeepsTheRest(fields[k], lower);
      }
    case Items(items) =>
      forall i | 0 <= i < |items| ensures SameOutside(items[i], Redact(items[i], lower), lower) {
        RedactKeepsTheRest(items[i], lower);
      }
  }

  /** Redacting twice changes nothing. */
  lemma {:induction false} RedactTwice(t: Tree, lower: string -> string)
    ensures Redact(Redact(t, lower), lower) == Redact(t, lower)
  {
    RedactKeepsTheRest(t, lower);
    RedactsEqualIff(t, Redact(t, lower), lower);
  }

  // --- In place

  /** A decoded value: maps are shared references, lists hold values. */
  datatype Value =
    | Scalar(text: string)
    | MapRef(node: MapNode)
    | ListRef(items: seq<Value>)

  class MapNode {
    var entries: map<string, Value>
    ghost const rank: nat           // greater than that of every map below this one

    constructor (entries: map<string, Value>, ghost rank: nat)
      ensures this.entries == entries && this.rank == rank
    {
      this.entries := entries;
      this.rank := rank;
    }
  }

  type Heap = map<MapNode, map<string, Value>>

  ghost function Nodes(v: Value): set<MapNode> {
    match v
    case Scalar(_) => {}
    case MapRef(n) => {n}
    case ListRef(items) => set i, n | 0 <= i < |items| && n in Nodes(items[i]) :: n
  }

  /** v stands on maps of the heap, all of rank below r. */
  ghost predicate Below(v: Value, h: Heap, r: nat) {
    forall n :: n in Nodes(v) ==> n in h && n.rank < r
  }

  /** Decoded configurations have no cycles. */
  ghost predicate WellFounded(h: Heap) {
    forall n, k :: n in h && k in h[n] ==> Below(h[n][k], h, n.rank)
  }

  ghost function TreeOf(v: Value, h: Heap, r: nat): Tree
    requires WellFounded(h) && Below(v, h, r)
    decreases r, v
  {
    match v
    case Scalar(text) => Leaf(text)
    case MapRef(n) =>
      assert n in Nodes(v);
      Branch(FieldsOf(n, h))
    case ListRef(items) =>
      Items(seq(|items|, i requires 0 <= i < |items| => ItemBelow(v, i, h, r); TreeOf(items[i], h, r)))
  }

  ghost function FieldsOf(n: MapNode, h: Heap): map<string, Tree>
    requires WellFounded(h) && n in h
    decreases n.rank
  {
    map k | k in h[n] :: TreeOf(h[n][k], h, n.rank)
  }

  lemma ItemBelow(v: Value, i: nat, h: Heap, r: nat)
    requires v.ListRef? && i < |v.items| && Below(v, h, r)
    ensures Below(v.items[i], h, r)
  {
    forall n | n in Nodes(v.items[i]) ensures n in Nodes(v) {}
  }

  /** Same maps and keys; at most some values under sensitive keys have been redacted. */
  ghost predicate Towards(before: Heap, after: Heap, lower: string -> string) {
    && before.Keys == after.Keys
    && forall n :: n in before ==>
         && before[n].Keys == after[n].Keys
         && forall k :: k in before[n] ==>
              after[n][k] == before[n][k] || (Sensitive(k, lower) && after[n][k] == Scalar(REDACTED))
  }

  /** Nothing is left to redact below v. */
  ghost predicate Done(v: Value, h: Heap, r: nat, lower: string -> string)
    requires WellFounded(h) && Below(v, h, r)
    decreases r, v
  {
    match v
    case Scalar(_) => true
    case MapRef(n) =>
      assert n in Nodes(v);
      forall k :: k in h[n] ==> if Sensitive(k, lower) then h[n][k] == Scalar(REDACTED)
        else Done(h[n][k], h, n.rank, lower)
    case ListRef(items) =>
      forall i :: 0 <= i < |items| ==> (ItemBelow(v, i, h, r); Done(items[i], h, r, lower))
  }

  /** The given keys of one map are dealt with. */
  ghost predicate KeysDone(n: MapNode, keys: set<string>, h: Heap, lower: string -> string)
    requires WellFounded(h) && n in h && keys <= h[n].Keys
  {
    forall k :: k in keys ==>
      if Sensitive(k, lower) then h[n][k] == Scalar(REDACTED) else Done(h[n][k], h, n.rank, lower)
  }

  lemma TowardsKeeps(before: Heap, after: Heap, lower: string -> string)
    requires WellFounded(before) && Towards(before, after, lower)
    ensures WellFounded(after)
    ensures forall v, r :: Below(v, before, r) ==> Below(v, after, r)
  {
    forall n, k | n in after && k in after[n] ensures Below(after[n][k], after, n.rank) {
      assert Below(before[n][k], before, n.rank);
    }
  }

  lemma {:induction false} DoneStays(v: Value, before: Heap, after: Heap, r: nat, lower: string -> string)
    requires WellFounded(before) && WellFounded(after) && Towards(before, after, lower)
    requires Below(v, before, r) && Below(v, after, r) && Done(v, before, r, lower)
    ensures Done(v, after, r, lower)
    decreases r, v
  {
    match v
    case Scalar(_) =>
    case MapRef(n) =>
      assert n in Nodes(v);
      forall k | k in after[n] && !Sensitive(k, lower) ensures Done(after[n][k], after, n.rank, lower) {
        assert after[n][k] == before[n][k];
        DoneStays(before[n][k], before, after, n.rank, lower);
      }
    case ListRef(items) =>
      forall i | 0 <= i < |items| ensures (ItemBelow(v, i, after, r); Done(items[i], after, r, lower)) {
        ItemBelow(v, i, before, r);
        ItemBelow(v, i, after, r);
        DoneStays(items[i], before, after, r, lower);
      }
  }

  /** Redacting everything there is to redact in place is redacting the tree. */
  lemma {:induction false} DoneIsRedacted(v: Value, before: Heap, after: Heap, r: nat, lower: string -> string)
    requires WellFounded(before) && WellFounded(after) && Towards(before, after, lower)
    requires Below(v, before, r) && Below(v, after, r) && Done(v, after, r, lower)
    ensures TreeOf(v, after, r) == Redact(TreeOf(v, before, r), lower)
    decreases r, v, 1
  {
    match v
    case Scalar(_) =>
    case MapRef(n) => DoneIsRedactedMap(n, before, after, r, lower);
    case ListRef(items) =>
      var got, want := TreeOf(v, after, r).items, Redact(TreeOf(v, before, r), lower).items;
      forall i | 0 <= i < |items| ensures got[i] == want[i] {
        ItemBelow(v, i, before, r);
        ItemBelow(v, i, after, r);
        DoneIsRedacted(items[i], before, after, r, lower);
      }
      assert got == want;
  }

  lemma {:induction false} DoneIsRedactedMap(n: MapNode, before: Heap, after: Heap, r: nat, lower: string -> string)
    requires WellFounded(before) && WellFounded(after) && Towards(before, after, lower)
    requires n in before && n.rank < r && KeysDone(n, after[n].Keys, after, lower)
    ensures Branch(FieldsOf(n, after)) == Redact(Branch(FieldsOf(n, before)), lower)
    decreases r, MapRef(n), 0
  {
    hide Redact, Done, Towards, FieldsOf, KeysDone, WellFounded, Below;
    DoneKeys(n, before, after, lower);
    var was, got := FieldsOf(n, before), FieldsOf(n, after);
    FieldsAre(n, before);
    FieldsAre(n, after);
    forall k | k in was ensures got[k] == if Sensitive(k, lower) then Leaf(REDACTED) else Redact(was[k], lower) {
      if !Sensitive(k, lower) { DoneIsRedacted(before[n][k], before, after, n.rank, lower); }
    }
    RedactedFields(was, got, lower);
  }

  lemma FieldsAre(n: MapNode, h: Heap)
    requires WellFounded(h) && n in h
    ensures FieldsOf(n, h).Keys == h[n].Keys
    ensures forall k :: k in h[n] ==> Below(h[n][k], h, n.rank) && FieldsOf(n, h)[k] == TreeOf(h[n][k], h, n.rank)
  {
    hide TreeOf, Below;
  }

  lemma DoneKeys(n: MapNode, before: Heap, after: Heap, lower: string -> string)
    requires WellFounded(before) && WellFounded(after) && Towards(before, after, lower)
    requires n in before && KeysDone(n, after[n].Keys, after, lower)
    ensures n in after && before[n].Keys == after[n].Keys
    ensures forall k :: k in before[n] ==>
              && Below(before[n][k], before, n.rank) && Below(after[n][k], after, n.rank)
              && (if Sensitive(k, lower) then after[n][k] == Scalar(REDACTED)
                  else after[n][k] == before[n][k] && Done(before[n][k], after, n.rank, lower))
  {
    hide Done, Below;
  }

  lemma RedactedFields(was: map<string, Tree>, got: map<string, Tree>, lower: string -> string)
    requires was.Keys == got.Keys
    requires forall k :: k in was ==> got[k] == if Sensitive(k, lower) then Leaf(REDACTED) else Redact(was[k], lower)
    ensures Branch(got) == Redact(Branch(was), lower)
  {
    assert got == Redact(Branch(was), lower).fields;
  }

  ghost function Contents(nodes: set<MapNode>): Heap
    reads nodes
  {
    map n | n in nodes :: n.entries
  }

  lemma KeysStayDone(n: MapNode, keys: set<string>, before: Heap, after: Heap, lower: string -> string)
    requires WellFounded(before) && WellFounded(after) && Towards(before, after, lower)
    requires n in before && keys <= before[n].Keys && KeysDone(n, keys, before, lower)
    ensures KeysDone(n, keys, after, lower)
  {
    forall k | k in keys && !Sensitive(k, lower) ensures Done(after[n][k], after, n.rank, lower) {
      assert after[n][k] == before[n][k];
      DoneStays(before[n][k], before, after, n.rank, lower);
    }
  }

  lemma NothingDone(n: MapNode, h: Heap, lower: string -> string)
    requires WellFounded(h) && n in h
    ensures Towards(h, h, lower) && KeysDone(n, {}, h, lower)
  {
  }

  lemma OneMoreDone(n: MapNode, done: set<string>, k: string, before: Heap, mid: Heap, after: Heap,
                    lower: string -> string)
    requires WellFounded(mid) && WellFounded(after) && Towards(before, mid, lower) && Towards(mid, after, lower)
    requires n in mid && k in mid[n] && done <= mid[n].Keys && KeysDone(n, done, mid, lower)
    requires KeysDone(n, {k}, after, lower)
    ensures Towards(before, after, lower) && after[n].Keys == mid[n].Keys
    ensures KeysDone(n, done + {k}, after, lower)
  {
    KeysStayDone(n, done, mid, after, lower);
    assert k in {k};
  }

  lemma ItemsStayDone(v: Value, k: nat, before: Heap, after: Heap, r: nat, lower: string -> string)
    requires WellFounded(before) && WellFounded(after) && Towards(before, after, lower)
    requires Below(v, before, r) && Below(v, after, r)
    requires ItemsDone(v, k, before, r, lower)
    ensures ItemsDone(v, k, after, r, lower)
  {
    forall i | 0 <= i < k ensures (ItemBelow(v, i, after, r); Done(v.items[i], after, r, lower)) {
      ItemBelow(v, i, before, r);
      ItemBelow(v, i, after, r);
      DoneStays(v.items[i], before, after, r, lower);
    }
  }

  ghost predicate ItemsDone(v: Value, k: nat, h: Heap, r: nat, lower: string -> string)
    requires WellFounded(h) && Below(v, h, r)
  {
    v.ListRef? && k <= |v.items| &&
    forall i :: 0 <= i < k ==> (ItemBelow(v, i, h, r); Done(v.items[i], h, r, lower))
  }

  /** redactInPlace: overwrite the sensitive entries of every map reached, recurse into
      the rest, in whatever order the map is visited and however sub-maps are shared. */
  method RedactInPlace(v: Value, lower: string -> string, ghost nodes: set<MapNode>, ghost r: nat)
    requires WellFounded(Contents(nodes)) && Below(v, Contents(nodes), r)
    modifies nodes
    ensures WellFounded(Contents(nodes)) && Below(v, Contents(nodes), r)
    ensures Towards(old(Contents(nodes)), Contents(nodes), lower)
    ensures Done(v, Contents(nodes), r, lower)
    ensures TreeOf(v, Contents(nodes), r) == Redact(old(TreeOf(v, Contents(nodes), r)), lower)
    ensures Clean(TreeOf(v, Contents(nodes), r), lower)
    ensures SameOutside(old(TreeOf(v, Contents(nodes), r)), TreeOf(v, Contents(nodes), r), lower)
    decreases r, v
  {
    ghost var before := Contents(nodes);
    if v.MapRef? {
      assert v.node in Nodes(v);
      RedactMap(v.node, lower, nodes, r);
    } else if v.ListRef? {
      RedactList(v, lower, nodes, r);
    }
    TowardsKeeps(before, Contents(nodes), lower);
    DoneIsRedacted(v, before, Contents(nodes), r, lower);
    RedactedIsClean(TreeOf(v, before, r), lower);
    RedactKeepsTheRest(TreeOf(v, before, r), lower);
  }

  method RedactList(v: Value, lower: string -> string, ghost nodes: set<MapNode>, ghost r: nat)
    requires v.ListRef? && WellFounded(Contents(nodes)) && Below(v, Contents(nodes), r)
    modifies nodes
    ensures WellFounded(Contents(nodes)) && Below(v, Contents(nodes), r)
    ensures Towards(old(Contents(nodes)), Contents(nodes), lower)
    ensures ItemsDone(v, |v.items|, Contents(nodes), r, lower)
    decreases r, v, 0
  {
    ghost var before := Contents(nodes);
    for i := 0 to |v.items|
      invariant WellFounded(Contents(nodes)) && Towards(before, Contents(nodes), lower)
      invariant Below(v, Contents(nodes), r)
      invariant ItemsDone(v, i, Contents(nodes), r, lower)
    {
      ghost var mid := Contents(nodes);
      ItemBelow(v, i, mid, r);
      RedactInPlace(v.items[i], lower, nodes, r);
      TowardsKeeps(mid, Contents(nodes), lower);
      ItemsStayDone(v, i, mid, Contents(nodes), r, lower);
    }
  }

  method RedactMap(n: MapNode, lower: string -> string, ghost nodes: set<MapNode>, ghost r: nat)
    requires WellFounded(Contents(nodes)) && n in nodes && n.rank < r
    modifies nodes
    ensures WellFounded(Contents(nodes))
    ensures Towards(old(Contents(nodes)), Contents(nodes), lower)
    ensures KeysDone(n, n.entries.Keys, Contents(nodes), lower)
    decreases r, MapRef(n), 0
  {
    hide WellFounded, Towards, KeysDone;
    ghost var before := Contents(nodes);
    NothingDone(n, before, lower);
    ghost var done := {};
    var todo := n.entries.Keys;
    while todo != {}
      invariant n.entries.Keys == todo + done
      invariant WellFounded(Contents(nodes)) && Towards(before, Contents(nodes), lower)
      invariant KeysDone(n, done, Contents(nodes), lower)
      decreases |todo|
    {
      var k :| k in todo;
      ghost var mid := Contents(nodes);
      RedactEntry(n, k, lower, nodes);
      OneMoreDone(n, done, k, before, mid, Contents(nodes), lower);
      todo, done := todo - {k}, done + {k};
    }
  }

  /** The body of the loop over a map. */
  method RedactEntry(n: MapNode, k: string, lower: string -> string, ghost nodes: set<MapNode>)
    requires WellFounded(Contents(nodes)) && n in nodes && k in n.entries
    modifies nodes
    ensures WellFounded(Contents(nodes))
    ensures Towards(old(Contents(nodes)), Contents(nodes), lower)
    ensures KeysDone(n, {k}, Contents(nodes), lower)
    decreases n.rank
  {
    ghost var before := Contents(nodes);
    if Sensitive(k, lower) {
      n.entries := n.entries[k := Scalar(REDACTED)];
    } else {
      assert before[n][k] == n.entries[k];
      RedactInPlace(n.entries[k], lower, nodes, n.rank);
    }
    TowardsKeeps(before, Contents(nodes), lower);
  }
}
