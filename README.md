# win32cpp flag arithmetic in Dafny

This project models the typed flag values of the `winapi` C++ headers in
win32cpp. The headers wrap the Win32 API behind C++11 scoped enumerations.

- `LoadingFlags` (`win32cpp/src/winapi/module.h`) holds twelve single-bit
  `std::uint32_t` values. Its `operator|` combines them into the flags
  argument of `Module::Load`.
- `MB` (`win32cpp/src/cpp11msgbox/msgbox.h`) is the style passed to
  `MsgBox`. It packs a button group (0 to 5) in the low four bits and an icon
  (0x10 to 0x40) in bits 4 to 7, and has its own `operator|`.
- `ID` (same header) is the command code that `MsgBox` returns, 1 to 7.

The files:

- `bits32.dfy` (module `Bits32`) models `std::uint32_t` as a natural number
  below 2^32. `|` and `&` are defined one binary digit at a time. It proves
  that the operators act bit by bit, and that a number is determined by its
  bits.
- `winapi_module.dfy` (module `WinapiModule`) holds the `LoadingFlags`
  enumerators, `operator|` (`Or`) and left-associated chains `a | b | c`
  (`Combine`). It proves the flag-set algebra.
- `winapi_msgbox.dfy` (module `WinapiMsgBox`) holds the `MB` enumerators,
  `operator|` (`Or`), and the projections `Button` (`& 0xF`) and `Icon`
  (`& 0xF0`). It also holds `ID` with `ToInt` and a partial `FromInt`.

`LoadingFlags` and `MB` are one-field datatypes whose field is the
underlying `std::uint32_t`. A C++ scoped enumeration may hold any pattern of
its underlying type, and `operator|` produces patterns that no enumerator
names, so these two datatypes admit every 32-bit value. Their enumerators are
`static const` members, written `LoadingFlags.LOAD_LIBRARY_AS_DATAFILE` or
`MB.YESNO` as in C++. `ID` is instead a closed datatype with one constructor
per enumerator. An `int` outside 1 to 7, which `enum class ID : int` could
also hold, is not an `ID` value in the model: `FromInt` answers `None` for it.

`Combine(fs)` is the left-associated C++ expression `fs[0] | fs[1] | ... |
fs[n-1]` built from `operator|`. The header itself writes no such chain;
`OrOfCombines` shows that joining two chains with `|` gives the chain of all
their operands; applied at each `|` of a bracketed expression, it turns any
bracketing into the left-associated chain.

`Button` (`& 0xF`) and `Icon` (`& 0xF0`) do not appear in the header: it
never takes a style apart. They are observers the model adds so that the
layout the enumerator values imply (button group in bits 0 to 3, icon in bits
4 to 7) can be stated as a round trip.

## Model

| member | source | states |
|---|---|---|
| WinapiModule.Or | win32cpp/src/winapi/module.h:26-31 | a bit is set in `left OR right` exactly when it is set in `left` or in `right` (the result is the bitwise OR of the two 32-bit values) |
| WinapiModule.NamedAreSingleBits | win32cpp/src/winapi/module.h:9-20 | each of the twelve enumerators is 2^k for its own bit k (0, 1, 3, 4, ..., 12), so it has exactly one bit set |
| WinapiModule.NamedAreDisjoint | win32cpp/src/winapi/module.h:9-20 | any two different enumerators AND to zero: no two share a bit |
| WinapiModule.OrKeepsOperands | win32cpp/src/winapi/module.h:28-30 | nothing is lost: `(a OR b) & a == a` and `(a OR b) & b == b` |
| WinapiModule.OrCommutative | win32cpp/src/winapi/module.h:28-30 | `a OR b == b OR a` |
| WinapiModule.OrAssociative | win32cpp/src/winapi/module.h:28-30 | `(a OR b) OR c == a OR (b OR c)` |
| WinapiModule.OrIdempotent | win32cpp/src/winapi/module.h:28-30 | `a OR a == a` and `(a OR b) OR b == a OR b` |
| WinapiModule.CombineBits | win32cpp/src/winapi/module.h:26-31 | a bit is set in a chain `f0 OR f1 OR ... OR fn` exactly when some operand has it: nothing lost, nothing added |
| WinapiModule.CombineKeepsOperands | win32cpp/src/winapi/module.h:26-31 | every operand of a chain is contained in the result (`chain & fk == fk`) |
| WinapiModule.CombineOrderIndependent | win32cpp/src/winapi/module.h:26-31 | two chains over the same set of flags are equal, whatever the order or repetition of the operands |
| WinapiModule.OrOfCombines | win32cpp/src/winapi/module.h:26-31 | OR-ing the chain of `fs` with the chain of `gs` equals the chain of `fs + gs`: joining two left-associated chains (`Combine`) with OR gives the chain of all their operands |
| WinapiModule.NamedMaskBits | win32cpp/src/winapi/module.h:8-21 | the bits of 0x1FFB are exactly the bits the enumerators use |
| WinapiModule.CombineNamedIsMask | win32cpp/src/winapi/module.h:8-31 | OR-ing all twelve enumerators gives exactly 0x1FFB |
| WinapiModule.CombineNamedWithinMask | win32cpp/src/winapi/module.h:8-31 | any chain of enumerators stays within 0x1FFB: bit 0x4 is never set and the value is below 0x2000 |
| WinapiMsgBox.Or | win32cpp/src/cpp11msgbox/msgbox.h:31-35 | a bit is set in `l OR r` exactly when it is set in `l` or in `r` |
| WinapiMsgBox.Button | win32cpp/src/cpp11msgbox/msgbox.h:13-19 | the button group of a style (an observer `& 0xF` the model adds; the header never masks a style) has exactly the style's bits 0 to 3 |
| WinapiMsgBox.Icon | win32cpp/src/cpp11msgbox/msgbox.h:13-24 | the icon of a style (an observer `& 0xF0` the model adds; the header never masks a style) has exactly the style's bits 4 to 7 |
| WinapiMsgBox.LowNibbleIsButton | win32cpp/src/cpp11msgbox/msgbox.h:14-19 | a style below 0x10 is its own button group and has no icon |
| WinapiMsgBox.BitsFourToSevenIsIcon | win32cpp/src/cpp11msgbox/msgbox.h:21-24 | a multiple of 0x10 below 0x100 is its own icon and has button group `OK` |
| WinapiMsgBox.ButtonsFitLowNibble | win32cpp/src/cpp11msgbox/msgbox.h:14-19 | `OK` to `RETRYCANCEL` are 0 to 5, lie in the low four bits and carry no icon |
| WinapiMsgBox.IconsInBitsFourToSeven | win32cpp/src/cpp11msgbox/msgbox.h:21-24 | `ICONHAND` to `ICONASTERISK` are 0x10 to 0x40, lie in bits 4 to 7 and carry no button group |
| WinapiMsgBox.OkIsIdentity | win32cpp/src/cpp11msgbox/msgbox.h:14-35 | `MB::OK` is the identity of the OR operator on both sides |
| WinapiMsgBox.ButtonIconRoundTrip | win32cpp/src/cpp11msgbox/msgbox.h:13-35 | for a button value below 0x10 and an icon value that is a multiple of 0x10 below 0x100, the button and icon projections of `b OR c` give back `b` and `c` |
| WinapiMsgBox.NamedButtonIconRoundTrip | win32cpp/src/cpp11msgbox/msgbox.h:13-35 | every named button group combined with every named icon, in either order, splits back into that button group and that icon |
| WinapiMsgBox.StyleDeterminesPair | win32cpp/src/cpp11msgbox/msgbox.h:13-35 | different (button group, icon) pairs of enumerators give different styles |
| WinapiMsgBox.SplitRecombine | win32cpp/src/cpp11msgbox/msgbox.h:13-35 | any style below 0x100 equals its button group OR-ed with its icon |
| WinapiMsgBox.NotAFlagSet | win32cpp/src/cpp11msgbox/msgbox.h:15-23 | `OKCANCEL OR ABORTRETRYIGNORE == YESNOCANCEL` and `ICONHAND OR ICONQUESTION == ICONEXCLAMATION`, so `MB` values are not independent flags |
| WinapiMsgBox.QuestionYesNo | win32cpp/src/cpp11msgbox_test/main.cpp:6 | `MB::ICONQUESTION OR MB::YESNO` is 0x24 and splits back into `YESNO` and `ICONQUESTION` |
| WinapiMsgBox.ToInt | win32cpp/src/cpp11msgbox/msgbox.h:38-46 | every `ID` code lies between 1 and 7 |
| WinapiMsgBox.FromInt | win32cpp/src/cpp11msgbox/msgbox.h:38-46 | an integer names an `ID` exactly when it lies between 1 and 7, and the `ID` found has that code |
| WinapiMsgBox.ToIntInjective | win32cpp/src/cpp11msgbox/msgbox.h:38-46 | no two `ID` enumerators share a code |
| WinapiMsgBox.FromIntToInt | win32cpp/src/cpp11msgbox/msgbox.h:38-46 | reading back the code of an `ID` gives that `ID` |
| Bits32.BitOrBits | win32cpp/src/winapi/module.h:28-30 | bit `i` of `a OR b` is bit `i` of `a` or bit `i` of `b` |
| Bits32.BitOrBound | win32cpp/src/winapi/module.h:28-30 | the OR of two values below 2^n is below 2^n, so OR on two `std::uint32_t` gives a `std::uint32_t` |

## Left out

- `Module::Load`, `Module::Free` and `Module::GetProcAddress`
  (`win32cpp/src/winapi/module.h:33-42` and their implementations) are calls
  into `LoadLibraryA` (the one-argument `Load`), `LoadLibraryExA` (the
  three-argument `Load`), `FreeLibrary` and `GetProcAddress`. Their behaviour
  lives in Windows.
- The deleted destructor of `Module` and `static_assert(sizeof(Module) == 1)`
  are facts about the C++ object layout, not behaviour.
- The `MsgBox` prototypes (`win32cpp/src/cpp11msgbox/msgbox.h:10-11`) and the
  linker export aliases in `win32cpp/src/cpp11msgbox/msgbox.cpp` forward to
  `MessageBoxA`/`MessageBoxW`. Which `ID` comes back is decided by Windows and
  the user. `MessageBox` can also return codes that have no `ID` name (0 on
  failure, for example); `FromInt` gives `None` for those.
- The test programs show message boxes and load DLLs at run time. Only the
  style expression at `win32cpp/src/cpp11msgbox_test/main.cpp:6` is
  modelled, by `QuestionYesNo`.
- The website's article pages and metadata are literal data in PHP, with no
  code that orders, filters or validates them. The C++ listings inside the
  article text are prose, not compiled code.
- Integer width: `std::uint32_t` is a natural number below 2^32, and the
  operators are defined on binary digits rather than as machine bit-vector
  operations. OR and AND of 32-bit values never overflow, so no wrap-around
  needs modelling.
