/** The register accessor `Single<T, M>`: one register of type T at a fixed
    address, read and written through a mapper M. Only its address
    arithmetic is modelled: the address and the byte width of T. The
    mapper and the volatile accesses themselves are not. */
module Accessor {

  /** Byte widths of the register types. */
  const U32_BYTES: nat := 4
  const U64_BYTES: nat := 8

  datatype Single = Single(address: nat, size: nat) {

    /** The first byte past the register. */
    function End(): (e: nat)
    {
      address + size
    }

    /** The two accessors cover no byte in common. */
    predicate DisjointFrom(other: Single)
    {
      End() <= other.address || other.End() <= address
    }
  }

  /** Each accessor ends at or before the next one starts. */
  predicate Ascending(rs: seq<Single>)
  {
    forall i :: 0 <= i < |rs| - 1 ==> rs[i].End() <= rs[i + 1].address
  }

  /** In an ascending run every accessor ends at or before any later one
      starts. */
  lemma {:induction false} AscendingReach(rs: seq<Single>, i: nat, j: nat)
    requires Ascending(rs) && i < j < |rs|
    ensures rs[i].End() <= rs[j].address
    decreases j - i
  {
    if i + 1 < j {
      AscendingReach(rs, i + 1, j);
      assert rs[i + 1].address <= rs[i + 1].End();
    }
  }

  /** No two accessors of an ascending run overlap. */
  lemma AscendingDisjoint(rs: seq<Single>)
    requires Ascending(rs)
    ensures forall i, j :: 0 <= i < j < |rs| ==> rs[i].DisjointFrom(rs[j])
  {
    forall i, j | 0 <= i < j < |rs|
      ensures rs[i].DisjointFrom(rs[j])
    {
      AscendingReach(rs, i, j);
    }
  }
}
