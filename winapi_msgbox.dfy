/** The message-box style and result codes of `winapi::MsgBox`
    (win32cpp/src/cpp11msgbox/msgbox.h): the scoped enumeration `MB` over
    `std::uint32_t` with its `operator|`, and the scoped enumeration `ID`
    over `int`. */
module WinapiMsgBox {

  import opened Bits32

  datatype Option<T> = None | Some(value: T)

  // ---------------------------------------------------------------------
  // MB: message-box styles
  // ---------------------------------------------------------------------

  /** `enum class MB : std::uint32_t`. An `MB` is a packed value, not a set
      of independent flags: the low four bits hold a button group (0 to 5)
      and bits 4 to 7 an icon (0x10 to 0x40). `value` is
      `static_cast<std::uint32_t>(type)`. */
  datatype MB = MB(value: UInt32) {
    static const OK := MB(0x0000_0000)
    static const OKCANCEL := MB(0x0000_0001)
    static const ABORTRETRYIGNORE := MB(0x0000_0002)
    static const YESNOCANCEL := MB(0x0000_0003)
    static const YESNO := MB(0x0000_0004)
    static const RETRYCANCEL := MB(0x0000_0005)

    static const ICONHAND := MB(0x0000_0010)
    static const ICONQUESTION := MB(0x0000_0020)
    static const ICONEXCLAMATION := MB(0x0000_0030)
    static const ICONASTERISK := MB(0x0000_0040)
  }

  /** The button-group enumerators, in declaration order. */
  const Buttons: seq<MB> :=
    [MB.OK, MB.OKCANCEL, MB.ABORTRETRYIGNORE, MB.YESNOCANCEL, MB.YESNO, MB.RETRYCANCEL]

  /** The icon enumerators, in declaration order. */
  const Icons: seq<MB> :=
    [MB.ICONHAND, MB.ICONQUESTION, MB.ICONEXCLAMATION, MB.ICONASTERISK]

  /** `operator|(MB, MB)`: OR of the underlying values. A bit is set in the
      result exactly when it is set in either operand. */
  function Or(l: MB, r: MB): (m: MB)
    ensures forall i: nat :: Bit(m.value, i) <==> Bit(l.value, i) || Bit(r.value, i)
  {
    Pow2Is2To32();
    BitOrBound(l.value, r.value, 32);
    BitOrAllBits(l.value, r.value);
    MB(BitOr(l.value, r.value))
  }

  /** The button group of a style, `type & 0xF`: the low four bits. */
  function Button(m: MB): (b: MB)
    ensures forall i: nat :: Bit(b.value, i) <==> i < 4 && Bit(m.value, i)
  {
    Pow2Is2To32();
    assert 0xF < Pow2(32);
    BitAndBound(m.value, 0xF, 32);
    forall i: nat
      ensures Bit(BitAnd(m.value, 0xF), i) <==> i < 4 && Bit(m.value, i)
    {
      BitAndBits(m.value, 0xF, i);
      LowNibbleBits(i);
    }
    MB(BitAnd(m.value, 0xF))
  }

  /** The icon of a style, `type & 0xF0`: bits 4 to 7. */
  function Icon(m: MB): (c: MB)
    ensures forall i: nat :: Bit(c.value, i) <==> 4 <= i < 8 && Bit(m.value, i)
  {
    Pow2Is2To32();
    assert 0xF0 < Pow2(32);
    BitAndBound(m.value, 0xF0, 32);
    forall i: nat
      ensures Bit(BitAnd(m.value, 0xF0), i) <==> 4 <= i < 8 && Bit(m.value, i)
    {
      BitAndBits(m.value, 0xF0, i);
      IconMaskBits(i);
    }
    MB(BitAnd(m.value, 0xF0))
  }

  /** The bits of 0xF are bits 0 to 3. */
  lemma LowNibbleBits(i: nat)
    ensures Bit(0xF, i) <==> i < 4
  {
    assert Pow2(4) - 1 == 0xF;
    LowOnesBits(4, i);
  }

  /** The bits of 0xF0 are bits 4 to 7. */
  lemma IconMaskBits(i: nat)
    ensures Bit(0xF0, i) <==> 4 <= i < 8
  {
    assert Pow2(4) * (Pow2(4) - 1) + 0 == 0xF0;
    ShiftedBits(Pow2(4) - 1, 4, 0, i);
    if 4 <= i {
      LowOnesBits(4, i - 4);
    }
  }

  // ---------------------------------------------------------------------
  // Where buttons and icons live
  // ---------------------------------------------------------------------

  /** A style below 0x10 is all button group: its button is itself and its
      icon is `MB::OK` (no icon). */
  lemma LowNibbleIsButton(m: MB)
    requires m.value < 0x10
    ensures Button(m) == m && Icon(m) == MB.OK
  {
    assert Pow2(4) == 0x10;
    forall i: nat
      ensures Bit(Button(m).value, i) == Bit(m.value, i)
      ensures Bit(Icon(m).value, i) == Bit(MB.OK.value, i)
    {
      if 4 <= i {
        BitAbove(m.value, 4, i);
      }
      BitOfZero(i);
    }
    BitsDetermine(Button(m).value, m.value);
    BitsDetermine(Icon(m).value, MB.OK.value);
  }

  /** A style that is a multiple of 0x10 below 0x100 is all icon: its icon
      is itself and its button group is `MB::OK`. */
  lemma BitsFourToSevenIsIcon(m: MB)
    requires m.value % 0x10 == 0 && m.value < 0x100
    ensures Icon(m) == m && Button(m) == MB.OK
  {
    assert Pow2(4) == 0x10;
    var hi := m.value / 0x10;
    assert m.value == Pow2(4) * hi + 0;
    assert hi < Pow2(4);
    forall i: nat
      ensures Bit(Icon(m).value, i) == Bit(m.value, i)
      ensures Bit(Button(m).value, i) == Bit(MB.OK.value, i)
    {
      ShiftedBits(hi, 4, 0, i);
      BitOfZero(i);
      if 8 <= i {
        BitAbove(hi, 4, i - 4);
      }
    }
    BitsDetermine(Icon(m).value, m.value);
    BitsDetermine(Button(m).value, MB.OK.value);
  }

  /** The button groups `OK` to `RETRYCANCEL` are 0 to 5, so they fit in the
      low four bits: each one is its own button group and carries no icon. */
  lemma ButtonsFitLowNibble()
    ensures |Buttons| == 6
    ensures forall k :: 0 <= k < |Buttons| ==> Buttons[k].value == k
    ensures forall b :: b in Buttons ==> b.value < 0x10 && Button(b) == b && Icon(b) == MB.OK
  {
    forall b | b in Buttons
      ensures b.value < 0x10 && Button(b) == b && Icon(b) == MB.OK
    {
      LowNibbleIsButton(b);
    }
  }

  /** The icons `ICONHAND` to `ICONASTERISK` are 0x10 to 0x40, so they lie in
      bits 4 to 7 only: each one is its own icon and carries no button
      group. */
  lemma IconsInBitsFourToSeven()
    ensures |Icons| == 4
    ensures forall k :: 0 <= k < |Icons| ==> Icons[k].value == 0x10 * (k + 1)
    ensures forall c :: c in Icons ==>
      c.value % 0x10 == 0 && c.value < 0x100 && Icon(c) == c && Button(c) == MB.OK
  {
    forall c | c in Icons
      ensures c.value % 0x10 == 0 && c.value < 0x100 && Icon(c) == c && Button(c) == MB.OK
    {
      BitsFourToSevenIsIcon(c);
    }
  }

  // ---------------------------------------------------------------------
  // operator|
  // ---------------------------------------------------------------------

  /** `MB::OK` is zero, so OR-ing it in changes nothing, on either side. */
  lemma OkIsIdentity(m: MB)
    ensures Or(MB.OK, m) == m && Or(m, MB.OK) == m
  {
    forall i: nat
      ensures Bit(Or(MB.OK, m).value, i) == Bit(m.value, i)
      ensures Bit(Or(m, MB.OK).value, i) == Bit(m.value, i)
    {
      BitOfZero(i);
    }
    BitsDetermine(Or(MB.OK, m).value, m.value);
    BitsDetermine(Or(m, MB.OK).value, m.value);
  }

  /** A button-group value (below 0x10) OR-ed with an icon value (a multiple
      of 0x10 below 0x100) can be taken apart again: the low nibble gives
      back the button group and bits 4 to 7 give back the icon. */
  lemma ButtonIconRoundTrip(b: MB, c: MB)
    requires b.value < 0x10
    requires c.value % 0x10 == 0 && c.value < 0x100
    ensures Button(Or(b, c)) == b && Icon(Or(b, c)) == c
  {
    LowNibbleIsButton(b);
    BitsFourToSevenIsIcon(c);
    var m := Or(b, c);
    forall i: nat
      ensures Bit(Button(m).value, i) == Bit(b.value, i)
      ensures Bit(Icon(m).value, i) == Bit(c.value, i)
    {
      // b has bits only below 4 and c only in 4 to 7.
      assert Bit(Button(b).value, i) == Bit(b.value, i);
      assert Bit(Icon(b).value, i) == Bit(MB.OK.value, i);
      assert Bit(Icon(c).value, i) == Bit(c.value, i);
      assert Bit(Button(c).value, i) == Bit(MB.OK.value, i);
      BitOfZero(i);
    }
    BitsDetermine(Button(m).value, b.value);
    BitsDetermine(Icon(m).value, c.value);
  }

  /** Every named button group combined with every named icon, in either
      order, round-trips. */
  lemma NamedButtonIconRoundTrip(b: MB, c: MB)
    requires b in Buttons && c in Icons
    ensures Button(Or(b, c)) == b && Icon(Or(b, c)) == c
    ensures Button(Or(c, b)) == b && Icon(Or(c, b)) == c
  {
    ButtonsFitLowNibble();
    IconsInBitsFourToSeven();
    ButtonIconRoundTrip(b, c);
    BitsDetermine(Or(b, c).value, Or(c, b).value);
  }

  /** Different (button group, icon) pairs give different styles. */
  lemma StyleDeterminesPair(b1: MB, c1: MB, b2: MB, c2: MB)
    requires b1 in Buttons && c1 in Icons && b2 in Buttons && c2 in Icons
    requires Or(b1, c1) == Or(b2, c2)
    ensures b1 == b2 && c1 == c2
  {
    NamedButtonIconRoundTrip(b1, c1);
    NamedButtonIconRoundTrip(b2, c2);
  }

  /** Any style below 0x100 is its button group OR-ed with its icon. */
  lemma SplitRecombine(m: MB)
    requires m.value < 0x100
    ensures Or(Button(m), Icon(m)) == m
  {
    assert Pow2(8) == 0x100;
    forall i: nat
      ensures Bit(Or(Button(m), Icon(m)).value, i) == Bit(m.value, i)
    {
      if 8 <= i {
        BitAbove(m.value, 8, i);
      }
    }
    BitsDetermine(Or(Button(m), Icon(m)).value, m.value);
  }

  /** `MB` is not a flag set: OR-ing two button groups can give a third, and
      OR-ing two icons can give a third, so a combined style does not record
      which enumerators went into it. */
  lemma NotAFlagSet()
    ensures Or(MB.OKCANCEL, MB.ABORTRETRYIGNORE) == MB.YESNOCANCEL
    ensures Or(MB.ICONHAND, MB.ICONQUESTION) == MB.ICONEXCLAMATION
    ensures MB.OKCANCEL != MB.YESNOCANCEL && MB.ABORTRETRYIGNORE != MB.YESNOCANCEL
  {
    assert BitOr(1, 2) == 3;
    assert BitOr(0x10, 0x20) == 0x30 by {
      assert BitOr(0x10, 0x20) == 16 * BitOr(1, 2) by {
        assert BitOr(0x10, 0x20) == 2 * BitOr(8, 16);
        assert BitOr(8, 16) == 2 * BitOr(4, 8);
        assert BitOr(4, 8) == 2 * BitOr(2, 4);
        assert BitOr(2, 4) == 2 * BitOr(1, 2);
      }
    }
  }

  /** The style `ICONQUESTION | YESNO` is 0x24, and it splits back into
      `YESNO` and `ICONQUESTION`. */
  lemma QuestionYesNo()
    ensures Or(MB.ICONQUESTION, MB.YESNO).value == 0x24
    ensures Button(Or(MB.ICONQUESTION, MB.YESNO)) == MB.YESNO
    ensures Icon(Or(MB.ICONQUESTION, MB.YESNO)) == MB.ICONQUESTION
  {
    assert BitOr(0x20, 4) == 0x24 by {
      assert BitOr(0x20, 4) == 2 * BitOr(0x10, 2);
      assert BitOr(0x10, 2) == 2 * BitOr(8, 1) + 0;
      assert BitOr(8, 1) == 2 * BitOr(4, 0) + 1;
      assert BitOr(4, 0) == 2 * BitOr(2, 0);
      assert BitOr(2, 0) == 2 * BitOr(1, 0);
      assert BitOr(1, 0) == 1;
    }
    NamedButtonIconRoundTrip(MB.YESNO, MB.ICONQUESTION);
  }

  // ---------------------------------------------------------------------
  // ID: dialog-box command identifiers
  // ---------------------------------------------------------------------

  /** `enum class ID : int`, the button a user chose. */
  datatype ID = OK | CANCEL | ABORT | RETRY | IGNORE | YES | NO

  /** `static_cast<int>(id)`: the command code of each enumerator. */
  function ToInt(id: ID): (n: int)
    ensures 1 <= n <= 7
  {
    match id
    case OK => 1
    case CANCEL => 2
    case ABORT => 3
    case RETRY => 4
    case IGNORE => 5
    case YES => 6
    case NO => 7
  }

  /** The enumerator whose code is `n`, if there is one. */
  function FromInt(n: int): (r: Option<ID>)
    ensures r.Some? <==> 1 <= n <= 7
    ensures r.Some? ==> ToInt(r.value) == n
  {
    if n == 1 then Some(OK)
    else if n == 2 then Some(CANCEL)
    else if n == 3 then Some(ABORT)
    else if n == 4 then Some(RETRY)
    else if n == 5 then Some(IGNORE)
    else if n == 6 then Some(YES)
    else if n == 7 then Some(NO)
    else None
  }

  /** No two enumerators share a code. */
  lemma ToIntInjective(a: ID, b: ID)
    requires ToInt(a) == ToInt(b)
    ensures a == b
  {
  }

  /** Reading back the code of an enumerator gives that enumerator. */
  lemma FromIntToInt(id: ID)
    ensures FromInt(ToInt(id)) == Some(id)
  {
  }
}
