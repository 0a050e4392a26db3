/**
 * The slot array beneath the Bloom filter.
 *
 * Despite its name a BitSets is a plain byte slice with ONE BYTE PER SLOT:
 * nothing is packed into words. Set writes 1, Unset writes 0 and IsSet tests
 * for exactly 1, so a slot holding any other byte (one restored from a file,
 * say) reads as unset.
 */
module BitSets {

  /** A Go byte. */
  newtype byte = x: int | 0 <= x < 256

  /**
   * A Go slice value of fixed length. Methods on the slice write through to
   * its shared backing storage, which is what a Dafny array is.
   */
  type BitSets = array<byte>

  /** The meaning of one slot: set iff it holds exactly 1. */
  predicate SlotIsSet(s: seq<byte>, index: nat)
    requires index < |s|
  {
    s[index] == 1
  }

  /** Every slot holds 0 or 1, as it does when only NewBitSets, Set and Unset wrote it. */
  predicate Binary(s: seq<byte>)
  {
    forall i :: 0 <= i < |s| ==> s[i] == 0 || s[i] == 1
  }

  /** The contents of a freshly made slice of n slots. */
  function Zeros(n: nat): (s: seq<byte>)
    ensures |s| == n
    ensures Binary(s)
    ensures forall i :: 0 <= i < n ==> !SlotIsSet(s, i)
  {
    seq(n, _ => 0)
  }

  /** Contents after Set(index). */
  function WithSet(s: seq<byte>, index: nat): (r: seq<byte>)
    requires index < |s|
    ensures |r| == |s|
    ensures SlotIsSet(r, index)
    ensures forall j :: 0 <= j < |s| && j != index ==> r[j] == s[j]
  {
    s[index := 1]
  }

  /** Contents after Unset(index). */
  function WithUnset(s: seq<byte>, index: nat): (r: seq<byte>)
    requires index < |s|
    ensures |r| == |s|
    ensures !SlotIsSet(r, index)
    ensures forall j :: 0 <= j < |s| && j != index ==> r[j] == s[j]
  {
    s[index := 0]
  }

  /** NewBitSets(n): n slots, all zero. */
  method NewBitSets(n: nat) returns (bs: BitSets)
    ensures fresh(bs)
    ensures bs.Length == n
    ensures bs[..] == Zeros(n)
  {
    bs := new byte[n](_ => 0);
  }

  /** Set(index) writes 1 into slot index; the slice must be long enough (Go panics otherwise). */
  method Set(bs: BitSets, index: nat)
    requires index < bs.Length
    modifies bs
    ensures bs[..] == WithSet(old(bs[..]), index)
  {
    bs[index] := 1;
  }

  /** Unset(index) writes 0 into slot index; the slice must be long enough (Go panics otherwise). */
  method Unset(bs: BitSets, index: nat)
    requires index < bs.Length
    modifies bs
    ensures bs[..] == WithUnset(old(bs[..]), index)
  {
    bs[index] := 0;
  }

  /**
   * IsSet(index) reads slot index; the slice must be long enough (Go panics
   * otherwise). On a slice written only through this module it is the same as
   * "the slot is not zero".
   */
  function IsSet(bs: BitSets, index: nat): (r: bool)
    requires index < bs.Length
    reads bs
    ensures r <==> SlotIsSet(bs[..], index)
    ensures Binary(bs[..]) ==> (r <==> bs[index] != 0)
  {
    bs[index] == 1
  }

  /** Setting a slot twice leaves the same contents as setting it once. */
  lemma SetIdempotent(s: seq<byte>, index: nat)
    requires index < |s|
    ensures WithSet(WithSet(s, index), index) == WithSet(s, index)
  {
  }

  /** Unsetting a slot twice leaves the same contents as unsetting it once. */
  lemma UnsetIdempotent(s: seq<byte>, index: nat)
    requires index < |s|
    ensures WithUnset(WithUnset(s, index), index) == WithUnset(s, index)
  {
  }

  /** Set and Unset keep every slot 0 or 1, so IsSet agrees with "not zero" on such slices. */
  lemma WritesPreserveBinary(s: seq<byte>, index: nat)
    requires index < |s|
    requires Binary(s)
    ensures Binary(WithSet(s, index))
    ensures Binary(WithUnset(s, index))
  {
  }
}
