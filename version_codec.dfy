/**
 * Packed Mach-O OS versions.
 *
 * The version fields of `version_min_command` and `build_version_command`
 * are 32-bit words laid out as `xxxx.yy.zz`: the major version in bits 16-23
 * (the top byte is unused by the versions the tool produces), the minor
 * version in bits 8-15 and the patch level in bits 0-7.  This module holds
 * the codec for that layout and the iOS-to-macOS major-version mapping the
 * Mac Catalyst rewrite applies to every version field it touches.
 */
module VersionCodec {

  /** A field of a Mach-O load command: an unsigned 32-bit word. */
  type uint32 = bv32

  /**
   * A (major, minor, patch) triple, as `decode_os_version` returns it.  The
   * components are kept as 32-bit words so that the codec stays in bit-vector
   * arithmetic; every value `decode_os_version` and `encode_os_version`'s
   * callers put in a triple fits in a byte.
   */
  type Triple = (uint32, uint32, uint32)

  predicate IsComponent(x: uint32) { x <= 0xFF }

  /**
   * `(major << 16) | (minor << 8) | patch`.  `encode_os_version` does no range
   * check, so the components are required to fit in a byte; then the three fields
   * do not overlap, the triple decodes back unchanged and the top byte is 0.
   */
  function Encode(major: uint32, minor: uint32, patch: uint32): (r: uint32)
    requires IsComponent(major) && IsComponent(minor) && IsComponent(patch)
    ensures Decode(r) == (major, minor, patch)
    ensures r >> 24 == 0
  {
    (major << 16) | (minor << 8) | patch
  }

  /**
   * `((v >> 16) & 0xFF, (v >> 8) & 0xFF, v & 0xFF)`: total, and every
   * component lies in 0..255.
   */
  function Decode(v: uint32): (t: Triple)
    ensures IsComponent(t.0) && IsComponent(t.1) && IsComponent(t.2)
  {
    ((v >> 16) & 0xFF, (v >> 8) & 0xFF, v & 0xFF)
  }

  /** Re-encoding a decoded version gives back every version whose top byte is clear. */
  lemma EncodeDecode(v: uint32)
    requires v >> 24 == 0
    ensures Encode(Decode(v).0, Decode(v).1, Decode(v).2) == v
  {
  }

  /** Encode is injective on in-range triples. */
  lemma EncodeInjective(a: Triple, b: Triple)
    requires IsComponent(a.0) && IsComponent(a.1) && IsComponent(a.2)
    requires IsComponent(b.0) && IsComponent(b.1) && IsComponent(b.2)
    requires Encode(a.0, a.1, a.2) == Encode(b.0, b.1, b.2)
    ensures a == b
  {
    assert Decode(Encode(a.0, a.1, a.2)) == a;
    assert Decode(Encode(b.0, b.1, b.2)) == b;
  }

  /**
   * `ios_build_to_macos`: only the major version of the input is looked at;
   * below 14 (before Mac Catalyst existed) the result is 11.0.0, otherwise it
   * is (major - 3).0.0.  Minor and patch of the result are always 0 and its
   * major lies in 11..252.
   */
  function MapOsVersion(v: uint32): (r: uint32)
    ensures Decode(r).1 == 0 && Decode(r).2 == 0
    ensures Decode(v).0 < 14 ==> Decode(r).0 == 11
    ensures Decode(v).0 >= 14 ==> Decode(r).0 == Decode(v).0 - 3
    ensures Decode(v).0 < 14 ==> r == Encode(11, 0, 0)
    ensures Decode(v).0 >= 14 ==> r == Encode(Decode(v).0 - 3, 0, 0)
    ensures 11 <= Decode(r).0 <= 252
  {
    var major := Decode(v).0;
    if major < 14 then Encode(11, 0, 0) else Encode(major - 3, 0, 0)
  }

  /** The two branches of the mapping meet at major 14, both giving 11.0.0. */
  lemma MapBranchesAgreeAt14(v: uint32)
    requires Decode(v).0 == 14
    ensures MapOsVersion(v) == Encode(11, 0, 0) == Encode(14 - 3, 0, 0)
  {
  }

  /** The mapping depends on the major version only. */
  lemma MapDependsOnMajorOnly(v: uint32, w: uint32)
    requires Decode(v).0 == Decode(w).0
    ensures MapOsVersion(v) == MapOsVersion(w)
  {
  }

  /** The mapping never decreases the major order: it is monotone in the major version. */
  lemma MapMonotone(v: uint32, w: uint32)
    requires Decode(v).0 <= Decode(w).0
    ensures Decode(MapOsVersion(v)).0 <= Decode(MapOsVersion(w)).0
  {
  }

  /**
   * Mapping twice is the same as mapping once exactly when the input's major
   * version is at most 14: the first pass yields 11.0.0, on which the mapping
   * is stable; any larger major gives a first result above 11, which the second
   * pass changes again (15 goes to 12, then 11; 17 to 14, then 11).
   */
  lemma MapTwiceIff(v: uint32)
    ensures MapOsVersion(MapOsVersion(v)) == MapOsVersion(v) <==> Decode(v).0 <= 14
  {
    var once := MapOsVersion(v);
    var twice := MapOsVersion(once);
    if twice == once {
      assert Decode(twice).0 == Decode(once).0;
    }
    if Decode(v).0 <= 14 {
      assert once == Encode(11, 0, 0);
    }
  }

  /** iOS 17.0.0 maps to macOS 14.0.0, iOS 18.0.0 to macOS 15.0.0; 15.0.0 maps to 12.0.0. */
  lemma MapExamples()
    ensures MapOsVersion(Encode(17, 0, 0)) == Encode(14, 0, 0)
    ensures MapOsVersion(Encode(18, 0, 0)) == Encode(15, 0, 0)
    ensures MapOsVersion(Encode(12, 4, 1)) == Encode(11, 0, 0)
    ensures MapOsVersion(Encode(15, 0, 0)) == Encode(12, 0, 0)
  {
  }
}
