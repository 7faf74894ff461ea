/** The loading flags of `winapi::Module` (win32cpp/src/winapi/module.h):
    the scoped enumeration `LoadingFlags` over `std::uint32_t` and the
    `operator|` that combines two of its values. */
module WinapiModule {

  import opened Bits32

  /** `enum class LoadingFlags : std::uint32_t`. As with any C++ scoped
      enumeration, a value may hold any 32-bit pattern, not only one of the
      named enumerators: `operator|` produces patterns that have no name.
      `value` is `static_cast<std::uint32_t>(flags)`. */
  datatype LoadingFlags = LoadingFlags(value: UInt32) {
    static const DONT_RESOLVE_DLL_REFERENCES := LoadingFlags(0x0000_0001)
    static const LOAD_LIBRARY_AS_DATAFILE := LoadingFlags(0x0000_0002)
    static const LOAD_WITH_ALTERED_SEARCH_PATH := LoadingFlags(0x0000_0008)
    static const LOAD_IGNORE_CODE_AUTHZ_LEVEL := LoadingFlags(0x0000_0010)
    static const LOAD_LIBRARY_AS_IMAGE_RESOURCE := LoadingFlags(0x0000_0020)
    static const LOAD_LIBRARY_AS_DATAFILE_EXCLUSIVE := LoadingFlags(0x0000_0040)
    static const LOAD_LIBRARY_REQUIRE_SIGNED_TARGET := LoadingFlags(0x0000_0080)
    static const LOAD_LIBRARY_SEARCH_DLL_LOAD_DIR := LoadingFlags(0x0000_0100)
    static const LOAD_LIBRARY_SEARCH_APPLICATION_DIR := LoadingFlags(0x0000_0200)
    static const LOAD_LIBRARY_SEARCH_USER_DIRS := LoadingFlags(0x0000_0400)
    static const LOAD_LIBRARY_SEARCH_SYSTEM32 := LoadingFlags(0x0000_0800)
    static const LOAD_LIBRARY_SEARCH_DEFAULT_DIRS := LoadingFlags(0x0000_1000)
  }

  /** The twelve named enumerators, in declaration order. */
  const Named: seq<LoadingFlags> := [
    LoadingFlags.DONT_RESOLVE_DLL_REFERENCES,
    LoadingFlags.LOAD_LIBRARY_AS_DATAFILE,
    LoadingFlags.LOAD_WITH_ALTERED_SEARCH_PATH,
    LoadingFlags.LOAD_IGNORE_CODE_AUTHZ_LEVEL,
    LoadingFlags.LOAD_LIBRARY_AS_IMAGE_RESOURCE,
    LoadingFlags.LOAD_LIBRARY_AS_DATAFILE_EXCLUSIVE,
    LoadingFlags.LOAD_LIBRARY_REQUIRE_SIGNED_TARGET,
    LoadingFlags.LOAD_LIBRARY_SEARCH_DLL_LOAD_DIR,
    LoadingFlags.LOAD_LIBRARY_SEARCH_APPLICATION_DIR,
    LoadingFlags.LOAD_LIBRARY_SEARCH_USER_DIRS,
    LoadingFlags.LOAD_LIBRARY_SEARCH_SYSTEM32,
    LoadingFlags.LOAD_LIBRARY_SEARCH_DEFAULT_DIRS
  ]

  /** The bit each enumerator of `Named` sets, in the same order. Bit 2
      (0x4) belongs to no enumerator. */
  const NamedBits: seq<nat> := [0, 1, 3, 4, 5, 6, 7, 8, 9, 10, 11, 12]

  /** Every bit that some enumerator uses: bits 0, 1 and 3 to 12. */
  const NamedMask: UInt32 := 0x0000_1FFB

  /** `operator|(LoadingFlags, LoadingFlags)`: OR of the underlying values.
      A bit is set in the result exactly when it is set in either operand,
      so nothing is lost and nothing is added. */
  function Or(left: LoadingFlags, right: LoadingFlags): (r: LoadingFlags)
    ensures forall i: nat :: Bit(r.value, i) <==> Bit(left.value, i) || Bit(right.value, i)
  {
    Pow2Is2To32();
    BitOrBound(left.value, right.value, 32);
    BitOrAllBits(left.value, right.value);
    LoadingFlags(BitOr(left.value, right.value))
  }

  /** The C++ expression `fs[0] | fs[1] | ... | fs[n-1]`, which `operator|`
      evaluates from the left. An expression has at least one operand. */
  function Combine(fs: seq<LoadingFlags>): LoadingFlags
    requires |fs| > 0
  {
    if |fs| == 1 then fs[0] else Or(Combine(fs[..|fs| - 1]), fs[|fs| - 1])
  }

  /** Two flag values with the same bits are the same value. */
  lemma SameBits(a: LoadingFlags, b: LoadingFlags)
    requires forall i: nat :: Bit(a.value, i) == Bit(b.value, i)
    ensures a == b
  {
    BitsDetermine(a.value, b.value);
  }

  // ---------------------------------------------------------------------
  // The enumerators

  /** Each enumerator is a single bit, the one `NamedBits` gives. */
  lemma NamedAreSingleBits()
    ensures |Named| == |NamedBits| == 12
    ensures forall k :: 0 <= k < |Named| ==> Named[k].value == Pow2(NamedBits[k])
    ensures forall k :: 0 <= k < |Named| ==> IsSingleBit(Named[k].value)
  {
    forall k | 0 <= k < |Named|
      ensures Named[k].value == Pow2(NamedBits[k])
    {
    }
  }

  /** No two enumerators share a bit. */
  lemma NamedAreDisjoint()
    ensures forall j, k :: 0 <= j < |Named| && 0 <= k < |Named| && j != k ==>
      BitAnd(Named[j].value, Named[k].value) == 0
  {
    NamedAreSingleBits();
    forall j, k | 0 <= j < |Named| && 0 <= k < |Named| && j != k
      ensures BitAnd(Named[j].value, Named[k].value) == 0
    {
      Pow2Disjoint(NamedBits[j], NamedBits[k]);
    }
  }

  // ---------------------------------------------------------------------
  // The algebra of operator|

  /** Every bit of each operand is set in the result: `(a | b) & a == a`. */
  lemma OrKeepsOperands(a: LoadingFlags, b: LoadingFlags)
    ensures BitAnd(Or(a, b).value, a.value) == a.value
    ensures BitAnd(Or(a, b).value, b.value) == b.value
  {
    BitAndAllBits(Or(a, b).value, a.value);
    BitsDetermine(BitAnd(Or(a, b).value, a.value), a.value);
    BitAndAllBits(Or(a, b).value, b.value);
    BitsDetermine(BitAnd(Or(a, b).value, b.value), b.value);
  }

  /** The order of the two operands does not matter. */
  lemma OrCommutative(a: LoadingFlags, b: LoadingFlags)
    ensures Or(a, b) == Or(b, a)
  {
    SameBits(Or(a, b), Or(b, a));
  }

  /** `(a | b) | c` and `a | (b | c)` are the same flags. */
  lemma OrAssociative(a: LoadingFlags, b: LoadingFlags, c: LoadingFlags)
    ensures Or(Or(a, b), c) == Or(a, Or(b, c))
  {
    SameBits(Or(Or(a, b), c), Or(a, Or(b, c)));
  }

  /** Repeating a flag changes nothing: `f | f == f` and `(a | b) | b == a | b`. */
  lemma OrIdempotent(a: LoadingFlags, b: LoadingFlags)
    ensures Or(a, a) == a
    ensures Or(Or(a, b), b) == Or(a, b)
  {
    SameBits(Or(a, a), a);
    SameBits(Or(Or(a, b), b), Or(a, b));
  }

  // ---------------------------------------------------------------------
  // Chains of operator|

  /** A bit is set in the combination exactly when it is set in some operand. */
  lemma {:induction false} CombineBits(fs: seq<LoadingFlags>, i: nat)
    requires |fs| > 0
    ensures Bit(Combine(fs).value, i) <==> exists k :: 0 <= k < |fs| && Bit(fs[k].value, i)
  {
    if |fs| > 1 {
      var p := fs[..|fs| - 1];
      CombineBits(p, i);
      if exists k :: 0 <= k < |p| && Bit(p[k].value, i) {
        var k :| 0 <= k < |p| && Bit(p[k].value, i);
        assert fs[k] == p[k];
      }
      if exists k :: 0 <= k < |fs| && Bit(fs[k].value, i) {
        var k :| 0 <= k < |fs| && Bit(fs[k].value, i);
        if k < |p| {
          assert fs[k] == p[k];
        }
      }
    }
  }

  /** Every bit of every operand is set in the combination. */
  lemma CombineKeepsOperands(fs: seq<LoadingFlags>, k: nat)
    requires k < |fs|
    ensures BitAnd(Combine(fs).value, fs[k].value) == fs[k].value
  {
    forall i: nat
      ensures Bit(BitAnd(Combine(fs).value, fs[k].value), i) == Bit(fs[k].value, i)
    {
      BitAndBits(Combine(fs).value, fs[k].value, i);
      CombineBits(fs, i);
    }
    BitsDetermine(BitAnd(Combine(fs).value, fs[k].value), fs[k].value);
  }

  /** The combination depends only on which flags take part: neither their
      order nor how often a flag is repeated changes the result. */
  lemma CombineOrderIndependent(fs: seq<LoadingFlags>, gs: seq<LoadingFlags>)
    requires |fs| > 0 && |gs| > 0
    requires forall f :: f in fs <==> f in gs
    ensures Combine(fs) == Combine(gs)
  {
    forall i: nat
      ensures Bit(Combine(fs).value, i) == Bit(Combine(gs).value, i)
    {
      CombineBits(fs, i);
      CombineBits(gs, i);
      if exists k :: 0 <= k < |fs| && Bit(fs[k].value, i) {
        var k :| 0 <= k < |fs| && Bit(fs[k].value, i);
        assert fs[k] in gs;
      }
      if exists k :: 0 <= k < |gs| && Bit(gs[k].value, i) {
        var k :| 0 <= k < |gs| && Bit(gs[k].value, i);
        assert gs[k] in fs;
      }
    }
    SameBits(Combine(fs), Combine(gs));
  }

  /** OR-ing two chains gives the chain of all their operands, so any
      bracketing of `|` over a list of flags equals the left-associated
      chain, and the results about `Combine` hold for every bracketing. */
  lemma OrOfCombines(fs: seq<LoadingFlags>, gs: seq<LoadingFlags>)
    requires |fs| > 0 && |gs| > 0
    ensures Or(Combine(fs), Combine(gs)) == Combine(fs + gs)
  {
    var hs := fs + gs;
    forall i: nat
      ensures Bit(Or(Combine(fs), Combine(gs)).value, i) == Bit(Combine(hs).value, i)
    {
      CombineBits(fs, i);
      CombineBits(gs, i);
      CombineBits(hs, i);
      if exists k :: 0 <= k < |fs| && Bit(fs[k].value, i) {
        var k :| 0 <= k < |fs| && Bit(fs[k].value, i);
        assert hs[k] == fs[k];
      }
      if exists k :: 0 <= k < |gs| && Bit(gs[k].value, i) {
        var k :| 0 <= k < |gs| && Bit(gs[k].value, i);
        assert hs[|fs| + k] == gs[k];
      }
      if exists k :: 0 <= k < |hs| && Bit(hs[k].value, i) {
        var k :| 0 <= k < |hs| && Bit(hs[k].value, i);
        if k < |fs| {
          assert hs[k] == fs[k];
        } else {
          assert hs[k] == gs[k - |fs|];
        }
      }
    }
    SameBits(Or(Combine(fs), Combine(gs)), Combine(hs));
  }

  /** The bits of `NamedMask` are exactly the bits of the enumerators. */
  lemma NamedMaskBits(i: nat)
    ensures Bit(NamedMask, i) <==> i in NamedBits
  {
    // 0x1FFB is ten one-bits above bit 3, plus bits 0 and 1
    assert Pow2(10) == 0x400;
    assert NamedMask == Pow2(3) * (Pow2(10) - 1) + 3;
    ShiftedBits(Pow2(10) - 1, 3, 3, i);
    if i < 3 {
      assert Bit(3, 0) && Bit(3, 1) && !Bit(3, 2);
    } else {
      LowOnesBits(10, i - 3);
    }
  }

  /** A bit set in an enumerator is one of `NamedBits`. */
  lemma NamedBitOf(f: LoadingFlags, i: nat)
    requires f in Named && Bit(f.value, i)
    ensures i in NamedBits
  {
    NamedAreSingleBits();
    var j :| 0 <= j < |Named| && Named[j] == f;
    Pow2Bits(NamedBits[j], i);
  }

  /** Combining all twelve enumerators gives exactly `NamedMask`. */
  lemma CombineNamedIsMask()
    ensures Combine(Named).value == NamedMask
  {
    NamedAreSingleBits();
    forall i: nat
      ensures Bit(Combine(Named).value, i) == Bit(NamedMask, i)
    {
      CombineBits(Named, i);
      NamedMaskBits(i);
      if i in NamedBits {
        var k :| 0 <= k < |NamedBits| && NamedBits[k] == i;
        Pow2Bits(i, i);
      } else if exists k :: 0 <= k < |Named| && Bit(Named[k].value, i) {
        var k :| 0 <= k < |Named| && Bit(Named[k].value, i);
        NamedBitOf(Named[k], i);
      }
    }
    BitsDetermine(Combine(Named).value, NamedMask);
  }

  /** Any combination of enumerators stays inside `NamedMask`; in
      particular bit 2 (0x4) and every bit from 13 up (above 0x1000) stay
      clear. */
  lemma CombineNamedWithinMask(fs: seq<LoadingFlags>)
    requires |fs| > 0
    requires forall k :: 0 <= k < |fs| ==> fs[k] in Named
    ensures BitAnd(Combine(fs).value, NamedMask) == Combine(fs).value
    ensures !Bit(Combine(fs).value, 2)
    ensures Combine(fs).value < 0x2000
  {
    var v := Combine(fs).value;
    forall i: nat | Bit(v, i)
      ensures Bit(NamedMask, i)
    {
      CombineBits(fs, i);
      var k :| 0 <= k < |fs| && Bit(fs[k].value, i);
      NamedBitOf(fs[k], i);
      NamedMaskBits(i);
    }
    forall i: nat
      ensures Bit(BitAnd(v, NamedMask), i) == Bit(v, i)
    {
      BitAndBits(v, NamedMask, i);
    }
    BitsDetermine(BitAnd(v, NamedMask), v);
    NamedMaskBits(2);
    assert Pow2(13) == 0x2000;
    forall i: nat | 13 <= i
      ensures !Bit(v, i)
    {
      BitAbove(NamedMask, 13, i);
    }
    BelowFromBits(v, 13);
  }
}
