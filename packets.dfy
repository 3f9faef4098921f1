/**
 * The `Packet` record that workers send back to the caller in
 * `unordered_map` and `map`, with its `Ord`, `PartialOrd` and `PartialEq`
 * implementations (src/pool.rs:472-487).
 */
module Packets {
  import opened Wrappers

  /** `std::cmp::Ordering`. */
  datatype Ordering = Less | Equal | Greater {
    /** `Ordering::reverse`. */
    function Reverse(): Ordering {
      match this
      case Less => Greater
      case Equal => Equal
      case Greater => Less
    }
  }

  /** `usize::cmp` on two indices. */
  function CompareIdx(a: nat, b: nat): (r: Ordering)
    ensures r == Less <==> a < b
    ensures r == Equal <==> a == b
    ensures r == Greater <==> b < a
  {
    if a < b then Less else if a == b then Equal else Greater
  }

  /**
   * A result produced by a worker for the element at position `idx` of the
   * input; a `data` of `None` is the failure sentinel.
   */
  datatype Packet<T> = Packet(idx: nat, data: Option<T>)

  /**
   * `Packet::cmp`: the comparison of the indices, reversed, so that the
   * max-heap used by `ParMap` hands out the smallest index first.
   */
  function Cmp<T>(self: Packet<T>, other: Packet<T>): (r: Ordering)
    ensures r == CompareIdx(self.idx, other.idx).Reverse()
    ensures r == Greater <==> self.idx < other.idx
  {
    CompareIdx(other.idx, self.idx)
  }

  /** `Packet::partial_cmp`: always defined, and equal to `cmp`. */
  function PartialCmp<T>(self: Packet<T>, other: Packet<T>): (r: Option<Ordering>)
    ensures r.Some?
    ensures r.value == Greater <==> self.idx < other.idx
    ensures r.value == Equal <==> Eq(self, other)
  {
    Some(Cmp(self, other))
  }

  /** `Packet::eq`: two packets are equal when their indices are. */
  predicate Eq<T>(self: Packet<T>, other: Packet<T>)
    ensures Eq(self, other) <==> Cmp(self, other) == Equal
    ensures Eq(self, other) <==> Cmp(other, self) == Equal
  {
    self.idx == other.idx
  }

  /** Equality ignores the payload, and agrees with `cmp` returning `Equal`. */
  lemma EqIsIndexEquality<T>(a: Packet<T>, b: Packet<T>)
    ensures Eq(a, b) <==> a.idx == b.idx
    ensures Eq(a, b) <==> Cmp(a, b) == Equal
    ensures Eq(a, Packet(a.idx, b.data))
  {
  }

  /**
   * The order laws `Ord` asks of `cmp`: antisymmetric, reflexive and
   * transitive, with `Greater` asymmetric. Totality holds because
   * `Ordering` has only three values.
   */
  lemma CmpIsTotalOrder<T>(a: Packet<T>, b: Packet<T>, c: Packet<T>)
    ensures Cmp(a, b) == Cmp(b, a).Reverse()
    ensures Cmp(a, a) == Equal
    ensures Cmp(a, b) != Less && Cmp(b, c) != Less ==> Cmp(a, c) != Less
    ensures Cmp(a, b) != Greater || Cmp(b, a) != Greater
  {
  }
}
