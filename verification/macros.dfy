/** The adapter's minimal printing and assertion macros. The console write
    behind `puts` is not modelled; what is modelled is the byte sequence the
    calls to `puts` carry, in order. */
module Macros {
  import opened Base

  const ZERO: u8 := 48 // b'0'

  predicate IsDigit(b: u8) {
    ZERO <= b <= ZERO + 9
  }

  /** `eprint_u32_impl`: the digits of `x`, most significant first, one `puts`
      call per digit; nothing at all for 0. */
  function EprintU32Impl(x: u32): (out: seq<u8>)
    ensures |out| == 0 <==> x == 0
    ensures forall i :: 0 <= i < |out| ==> IsDigit(out[i])
    decreases x
  {
    if x != 0 then EprintU32Impl(x / 10) + [ZERO + x % 10] else []
  }

  /** `eprint_u32`: 0 prints as the single digit "0", anything else as its digits. */
  function EprintU32(x: u32): (out: seq<u8>)
    ensures |out| >= 1
    ensures x == 0 ==> out == [ZERO]
    ensures forall i :: 0 <= i < |out| ==> IsDigit(out[i])
  {
    if x == 0 then [ZERO] else EprintU32Impl(x)
  }

  /** Reading a digit sequence back in base 10. */
  function DecimalValue(digits: seq<u8>): nat
    requires forall i :: 0 <= i < |digits| ==> IsDigit(digits[i])
  {
    if digits == [] then 0
    else
      var last := digits[|digits| - 1];
      assert IsDigit(last);
      DecimalValue(digits[..|digits| - 1]) * 10 + (last - ZERO)
  }

  function Pow10(n: nat): nat {
    if n == 0 then 1 else 10 * Pow10(n - 1)
  }

  lemma {:induction false} ImplRoundTrip(x: u32)
    ensures DecimalValue(EprintU32Impl(x)) == x
    decreases x
  {
    if x != 0 {
      ImplRoundTrip(x / 10);
      var out := EprintU32Impl(x);
      assert out[..|out| - 1] == EprintU32Impl(x / 10);
    }
  }

  /** Reading the printed digits back gives the number printed. */
  lemma EprintU32RoundTrip(x: u32)
    ensures DecimalValue(EprintU32(x)) == x
  {
    if x != 0 {
      ImplRoundTrip(x);
    }
  }

  /** A positive number prints without a leading zero. */
  lemma {:induction false} EprintU32NoLeadingZero(x: u32)
    requires x > 0
    ensures EprintU32(x)[0] != ZERO
    decreases x
  {
    if x / 10 > 0 {
      EprintU32NoLeadingZero(x / 10);
      assert EprintU32Impl(x)[0] == EprintU32Impl(x / 10)[0];
    }
  }

  lemma {:induction false} ImplLength(x: u32, n: nat)
    requires x < Pow10(n)
    ensures |EprintU32Impl(x)| <= n
    decreases x
  {
    if x != 0 {
      assert n > 0;
      ImplLength(x / 10, n - 1);
    }
  }

  /** A `u32` prints as at most 10 digits. */
  lemma EprintU32AtMostTenDigits(x: u32)
    ensures |EprintU32(x)| <= 10
  {
    assert Pow10(10) == 10000000000 by {
      assert Pow10(0) == 1;
      assert Pow10(5) == 100000;
    }
    if x != 0 {
      ImplLength(x, 10);
    }
  }

  /** The bytes of an ASCII string. */
  function Ascii(s: string): (bytes: seq<u8>)
    requires forall i :: 0 <= i < |s| ==> s[i] as int < 128
    ensures |bytes| == |s|
  {
    seq(|s|, i requires 0 <= i < |s| => s[i] as int)
  }

  /** What a call to the `unreachable!(msg)` macro prints before it traps: a
      fixed prefix, the line number as decimal digits without a leading zero,
      then ": ", the message and a newline. With the `command` feature, `puts`
      itself traps, so nothing is printed. */
  function UnreachableOutput(line: u32, msg: seq<u8>, command: bool): (out: seq<u8>)
    ensures command ==> out == []
    ensures !command ==>
              var prefix := Ascii("unreachable executed at line ");
              var suffix := Ascii(": ") + msg + Ascii("\n");
              && |prefix| + |suffix| < |out| <= |prefix| + 10 + |suffix|
              && out[..|prefix|] == prefix
              && out[|out| - |suffix|..] == suffix
              && var digits := out[|prefix|..|out| - |suffix|];
                 && (forall i :: 0 <= i < |digits| ==> IsDigit(digits[i]))
                 && DecimalValue(digits) == line
                 && (|digits| > 1 ==> digits[0] != ZERO)
  {
    if command then []
    else
      var prefix := Ascii("unreachable executed at line ");
      var digits := EprintU32(line);
      var suffix := Ascii(": ") + msg + Ascii("\n");
      EprintU32RoundTrip(line);
      EprintU32AtMostTenDigits(line);
      assert line > 0 ==> digits[0] != ZERO by {
        if line > 0 {
          EprintU32NoLeadingZero(line);
        }
      }
      var out := prefix + digits + suffix;
      assert out[..|prefix|] == prefix;
      assert out[|out| - |suffix|..] == suffix;
      assert out[|prefix|..|out| - |suffix|] == digits;
      out
  }

  /** The effect of a macro: the bytes it printed and whether it then trapped. */
  datatype Effect = Effect(printed: seq<u8>, trapped: bool)

  /** `assert!(cond)` written at `line`: nothing when `cond` holds, otherwise
      the "assertion failed" report and a trap. */
  function Assert(cond: bool, line: u32, command: bool): (e: Effect)
    ensures e.trapped <==> !cond
    ensures cond ==> e.printed == []
    ensures !cond ==> e.printed == UnreachableOutput(line, Ascii("assertion failed"), command)
  {
    if cond then Effect([], false)
    else Effect(UnreachableOutput(line, Ascii("assertion failed"), command), true)
  }

  /** `assert_eq!(a, b)`: traps exactly when the two differ, and is in every
      respect `assert!(a == b)`. */
  function AssertEq<T(==)>(a: T, b: T, line: u32, command: bool): (e: Effect)
    ensures e.trapped <==> a != b
    ensures e == Assert(a == b, line, command)
  {
    Assert(a == b, line, command)
  }
}
