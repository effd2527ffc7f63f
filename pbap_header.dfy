// Declarations of the Phone Book Access server: the application-parameter
// tags of section 6.2.1 of PBAP 1.2, the packet and digest sizes, and the
// feature-bit test over the 32-bit feature mask the client announces.
//
// Bit arithmetic is modelled on natural numbers: bit n of x is
// (x / 2^n) % 2, which is what `x & (1 << n)` tests for x < 2^32.

module PbapHeader {

  import opened Obex

  // Application parameter tags, section 6.2.1 of PBAP 1.2.
  const Order: byte := 0x01
  const SearchValue: byte := 0x02
  const SearchProperty: byte := 0x03
  const MaxListCount: byte := 0x04
  const ListStartOffset: byte := 0x05
  const PropertySelector: byte := 0x06
  const Format: byte := 0x07
  const PhonebookSize: byte := 0x08
  const NewMissedCalls: byte := 0x09
  const PrimaryVersionCounter: byte := 0x0A
  const SecondaryVersionCounter: byte := 0x0B
  const VCardSelector: byte := 0x0C
  const DatabaseIdentifier: byte := 0x0D
  const VCardSelectorOperator: byte := 0x0E
  const ResetNewMissedCalls: byte := 0x0F
  const PbapSupportedFeatures: byte := 0x10

  /** The tags in declaration order. */
  const AppParameterTags: seq<byte> := [
    Order, SearchValue, SearchProperty, MaxListCount, ListStartOffset,
    PropertySelector, Format, PhonebookSize, NewMissedCalls,
    PrimaryVersionCounter, SecondaryVersionCounter, VCardSelector,
    DatabaseIdentifier, VCardSelectorOperator, ResetNewMissedCalls,
    PbapSupportedFeatures]

  const MaxPacketLength: int := 0xFFFE
  const DigestLength: int := 16

  /** The tags are the sixteen distinct codes 0x01..0x10, in order. */
  lemma AppParameterTagCodes()
    ensures |AppParameterTags| == 16
    ensures forall i | 0 <= i < |AppParameterTags| :: AppParameterTags[i] as int == i + 1
    ensures forall i, j | 0 <= i < j < |AppParameterTags| :: AppParameterTags[i] != AppParameterTags[j]
  {
  }

  // ---------------------------------------------------------------------
  // Bits of a natural number

  function Pow2(n: nat): (p: nat)
    ensures p >= 1
  {
    if n == 0 then 1 else 2 * Pow2(n - 1)
  }

  predicate Bit(x: nat, n: nat) {
    (x / Pow2(n)) % 2 == 1
  }

  lemma MulMono(d: int, a: int, b: int)
    requires d >= 0 && a <= b
    ensures d * a <= d * b
  {
  }

  /** Euclidean division has exactly one quotient and remainder. */
  lemma DivUnique(a: int, d: int, q: int, r: int)
    requires d > 0 && 0 <= r < d && a == d * q + r
    ensures a / d == q && a % d == r
  {
    var q0, r0 := a / d, a % d;
    assert a == d * q0 + r0;
    if q0 > q {
      MulMono(d, q + 1, q0);
      assert false;
    } else if q0 < q {
      MulMono(d, q0 + 1, q);
      assert false;
    }
  }

  lemma DivDiv(x: nat, p: nat)
    requires p > 0
    ensures (x / 2) / p == x / (2 * p)
  {
    var q, r := x / (2 * p), x % (2 * p);
    assert x == (2 * p) * q + r;
    DivUnique(x, 2, p * q + r / 2, r % 2);
    DivUnique(x / 2, p, q, r / 2);
  }

  /** Shifting right by one moves every bit down one place. */
  lemma BitStep(x: nat, m: nat)
    ensures Bit(x, m + 1) <==> Bit(x / 2, m)
  {
    DivDiv(x, Pow2(m));
  }

  /** Positions of the set bits of x, each offset by `from`, lowest first. */
  function BitIndices(x: nat, from: nat): seq<nat>
    decreases x
  {
    if x == 0 then [] else (if x % 2 == 1 then [from] else []) + BitIndices(x / 2, from + 1)
  }

  /** j is listed exactly when bit j - from of x is set. */
  lemma {:induction false} BitIndicesMembers(x: nat, from: nat, j: nat)
    ensures j in BitIndices(x, from) <==> from <= j && Bit(x, j - from)
    decreases x
  {
    if x == 0 {
      if from <= j {
        assert x / Pow2(j - from) == 0;
      }
    } else {
      BitIndicesMembers(x / 2, from + 1, j);
      if j > from {
        BitStep(x, j - from - 1);
      }
    }
  }

  /** The positions are listed in strictly increasing order, all at least `from`. */
  lemma {:induction false} BitIndicesIncreasing(x: nat, from: nat)
    ensures forall i | 0 <= i < |BitIndices(x, from)| :: BitIndices(x, from)[i] >= from
    ensures forall i, j | 0 <= i < j < |BitIndices(x, from)| :: BitIndices(x, from)[i] < BitIndices(x, from)[j]
    decreases x
  {
    if x != 0 {
      BitIndicesIncreasing(x / 2, from + 1);
    }
  }

  /** A number below 2^n lists only positions below from + n. */
  lemma {:induction false} BitIndicesBelow(x: nat, from: nat, n: nat)
    requires x < Pow2(n)
    ensures forall i | 0 <= i < |BitIndices(x, from)| :: BitIndices(x, from)[i] < from + n
    decreases x
  {
    if x != 0 {
      BitIndicesBelow(x / 2, from + 1, n - 1);
    }
  }

  /** `mPceSupportedFeatures & (1 << aFeatureBit)`, for a feature bit of the 32-bit mask. */
  function CheckFeatureSupport(features: nat, featureBit: nat): (r: bool)
    requires features < 0x1_0000_0000 && featureBit < 32
    ensures r <==> featureBit in BitIndices(features, 0)
  {
    BitIndicesMembers(features, 0, featureBit);
    (features / Pow2(featureBit)) % 2 == 1
  }
}
