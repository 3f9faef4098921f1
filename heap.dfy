/**
 * The `BinaryHeap<Packet<T>>` that `ParMap` buffers early packets in
 * (src/pool.rs:515), modelled as a sequence of packets. The heap is a max-heap
 * under `Packet::cmp`, so its top is the packet with the smallest index.
 */
module PacketHeap {
  import opened Wrappers
  import opened Packets

  /** The sequence without its element at position `i`. */
  function RemoveAt<T>(s: seq<T>, i: nat): (r: seq<T>)
    requires i < |s|
    ensures |r| == |s| - 1
    ensures forall j :: 0 <= j < i ==> r[j] == s[j]
    ensures forall j :: i <= j < |r| ==> r[j] == s[j + 1]
  {
    seq(|s| - 1, j requires 0 <= j < |s| - 1 => if j < i then s[j] else s[j + 1])
  }

  /** Some packet of `s` carries index `k`. */
  ghost predicate Carries<T>(s: seq<Packet<T>>, k: nat)
  {
    exists j :: 0 <= j < |s| && s[j].idx == k
  }

  /** The packets of `s` carry exactly the indices `lo..hi-1`. */
  ghost predicate CarriesExactly<T>(s: seq<Packet<T>>, lo: nat, hi: nat)
  {
    && (forall j :: 0 <= j < |s| ==> lo <= s[j].idx < hi)
    && (forall k :: lo <= k < hi ==> Carries(s, k))
  }

  /** The index carried by the packet at position `i` of `s`. */
  ghost function IdxAt<T>(s: seq<Packet<T>>, i: nat): nat
    requires i < |s|
  {
    s[i].idx
  }

  /** No two packets of `s` carry the same index. */
  ghost predicate Unique<T>(s: seq<Packet<T>>)
  {
    forall i: nat, j: nat {:trigger IdxAt(s, i), IdxAt(s, j)} ::
      i < |s| && j < |s| && IdxAt(s, i) == IdxAt(s, j) ==> i == j
  }

  /** Using `Unique`: two positions carrying the same index are the same position. */
  lemma UniqueAt<T>(s: seq<Packet<T>>, i: nat, j: nat)
    requires Unique(s) && i < |s| && j < |s| && s[i].idx == s[j].idx
    ensures i == j
  {
    assert IdxAt(s, i) == IdxAt(s, j);
  }

  /** Every packet of `s` carries an index of at least `lo`. */
  ghost predicate AllAtLeast<T>(s: seq<Packet<T>>, lo: nat)
  {
    forall j :: 0 <= j < |s| ==> lo <= s[j].idx
  }

  /**
   * The position of the heap's top: a packet no other packet compares
   * `Greater` than, that is one with the smallest index (the first such).
   */
  function Top<T>(q: seq<Packet<T>>): (t: nat)
    requires q != []
    ensures t < |q|
    ensures forall j :: 0 <= j < |q| ==> Cmp(q[j], q[t]) != Greater
    ensures forall j :: 0 <= j < |q| ==> q[t].idx <= q[j].idx
    ensures forall j :: 0 <= j < t ==> q[t].idx < q[j].idx
    decreases |q|
  {
    if |q| == 1 then 0
    else
      var t := Top(q[1..]) + 1;
      assert q[t] == q[1..][t - 1];
      if Cmp(q[0], q[t]) != Less then 0 else t
  }

  /** `BinaryHeap::peek`: the top packet, or `None` on an empty heap. */
  function Peek<T>(q: seq<Packet<T>>): (r: Option<Packet<T>>)
    ensures r.None? <==> q == []
    ensures r.Some? ==> r.value in q && forall j :: 0 <= j < |q| ==> r.value.idx <= q[j].idx
  {
    if q == [] then None else Some(q[Top(q)])
  }

  /** `BinaryHeap::push`. */
  function Push<T>(q: seq<Packet<T>>, p: Packet<T>): (r: seq<Packet<T>>)
    ensures multiset(r) == multiset(q) + multiset{p}
  {
    q + [p]
  }

  /** `BinaryHeap::pop` on a non-empty heap: the heap without the peeked packet. */
  function Pop<T>(q: seq<Packet<T>>): (r: seq<Packet<T>>)
    requires q != []
    ensures Peek(q).Some? && multiset(r) + multiset{Peek(q).value} == multiset(q)
  {
    var t := Top(q);
    assert q == q[..t] + [q[t]] + q[t + 1..];
    assert RemoveAt(q, t) == q[..t] + q[t + 1..];
    RemoveAt(q, t)
  }

  /** The first position of `s` whose packet carries index `k`, if any. */
  function Find<T>(s: seq<Packet<T>>, k: nat): (r: Option<nat>)
    ensures r.None? ==> forall j :: 0 <= j < |s| ==> s[j].idx != k
    ensures r.Some? ==> r.value < |s| && s[r.value].idx == k
    ensures r.Some? ==> forall j :: 0 <= j < r.value ==> s[j].idx != k
    decreases |s|
  {
    if s == [] then None
    else if s[0].idx == k then Some(0)
    else
      match Find(s[1..], k)
      case None =>
        assert forall j :: 1 <= j < |s| ==> s[j] == s[1..][j - 1];
        None
      case Some(i) => Some(i + 1)
  }

  /** One more than the largest index in `s`; 0 for no packets. */
  function Bound<T>(s: seq<Packet<T>>): (b: nat)
    ensures forall j :: 0 <= j < |s| ==> s[j].idx < b
    decreases |s|
  {
    if s == [] then 0
    else
      var b := Bound(s[1..]);
      assert forall j :: 1 <= j < |s| ==> s[j] == s[1..][j - 1];
      if b <= s[0].idx then s[0].idx + 1 else b
  }

  /** `Find` returns the first position carrying `k`, whatever the rest holds. */
  lemma FindFirst<T>(s: seq<Packet<T>>, k: nat, i: nat)
    requires i < |s| && s[i].idx == k
    requires forall j :: 0 <= j < i ==> s[j].idx != k
    ensures Find(s, k) == Some(i)
  {
  }

  /** Removing from the front part of a concatenation. */
  lemma RemoveAtConcat<T>(q: seq<T>, r: seq<T>, i: nat)
    requires i < |q|
    ensures RemoveAt(q, i) + r == RemoveAt(q + r, i)
  {
  }

  /** Removing one packet of a unique sequence keeps it unique and removes just that packet's index. */
  lemma RemoveAtUnique<T>(s: seq<Packet<T>>, i: nat)
    requires i < |s| && Unique(s)
    ensures Unique(RemoveAt(s, i))
    ensures AllAtLeast(s, s[i].idx) ==> AllAtLeast(RemoveAt(s, i), s[i].idx + 1)
  {
    var r := RemoveAt(s, i);
    forall a: nat, b: nat | a < |r| && b < |r| && IdxAt(r, a) == IdxAt(r, b)
      ensures a == b
    {
      var a' := if a < i then a else a + 1;
      var b' := if b < i then b else b + 1;
      assert r[a] == s[a'] && r[b] == s[b'];
      UniqueAt(s, a', b');
    }
    forall j | 0 <= j < |r| && AllAtLeast(s, s[i].idx) ensures s[i].idx + 1 <= r[j].idx {
      var j' := if j < i then j else j + 1;
      assert r[j] == s[j'];
      if r[j].idx == s[i].idx {
        UniqueAt(s, i, j');
      }
    }
  }

  /** Taking out a packet that does not carry `k` leaves `Find` finding the same packet, if any. */
  lemma FindSkipsRemoved<T>(s: seq<Packet<T>>, i: nat, k: nat)
    requires i < |s| && s[i].idx != k
    ensures Find(RemoveAt(s, i), k).None? <==> Find(s, k).None?
    ensures Find(s, k).Some? ==> RemoveAt(s, i)[Find(RemoveAt(s, i), k).value] == s[Find(s, k).value]
  {
    var r := RemoveAt(s, i);
    match Find(s, k)
    case None =>
      forall q | 0 <= q < |r| ensures r[q].idx != k {
        var q' := if q < i then q else q + 1;
        assert r[q] == s[q'];
      }
    case Some(j) =>
      var j' := if j < i then j else j - 1;
      assert r[j'] == s[j];
      forall q | 0 <= q < j' ensures r[q].idx != k {
        var q' := if q < i then q else q + 1;
        assert r[q] == s[q'];
      }
      FindFirst(r, k, j');
  }
}
