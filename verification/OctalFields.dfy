/**
  Numeric header fields of the ustar format: the writer's `octal` text and the reader of
  "ustar Interchange Format" in the `pax` utility of IEEE Std 1003.1 (octal digits, zero
  filled on the left, ended by one or more space or NUL octets).
 */
module OctalFields {
  import opened Bytes
  import opened Common

  const ZERO: byte := 48
  const SPACE: byte := 32
  const MINUS: byte := 45

  function Pow8(n: nat): (r: nat)
    ensures r > 0
  {
    if n == 0 then 1 else 8 * Pow8(n - 1)
  }

  predicate IsDigit(b: byte) {
    ZERO <= b < ZERO + 8
  }

  /** `toString(8)` of a number that is not negative. */
  function Digits(v: nat): (r: seq<byte>)
    ensures |r| > 0
    ensures forall i :: 0 <= i < |r| ==> IsDigit(r[i])
  {
    if v < 8 then [ZERO + v] else Digits(v / 8) + [ZERO + v % 8]
  }

  function Text(v: int): (r: seq<byte>)
    ensures |r| > 0
  {
    if v < 0 then [MINUS] + Digits(-v) else Digits(v)
  }

  function PadStart(s: seq<byte>, width: nat): (r: seq<byte>)
    ensures |r| == if |s| < width then width else |s|
  {
    if |s| < width then Repeat(ZERO, width - |s|) + s else s
  }

  /** The source's `octal`. */
  function Octal(value: int, width: nat): (r: seq<byte>)
    ensures |r| > width
  {
    PadStart(Text(value), width) + [0]
  }

  // ----- the reader

  function Value(s: seq<byte>): nat
    requires forall i :: 0 <= i < |s| ==> IsDigit(s[i])
  {
    if s == [] then 0
    else
      assert IsDigit(s[|s| - 1]);
      8 * Value(s[..|s| - 1]) + (s[|s| - 1] - ZERO)
  }

  function LeadingDigits(s: seq<byte>): (n: nat)
    ensures n <= |s|
    ensures forall i :: 0 <= i < n ==> IsDigit(s[i])
    ensures n < |s| ==> !IsDigit(s[n])
  {
    if s == [] || !IsDigit(s[0]) then 0 else 1 + LeadingDigits(s[1..])
  }

  /** A numeric field: at least one digit, then at least one terminator, and nothing else. */
  function Number(field: seq<byte>): Option<nat> {
    var n := LeadingDigits(field);
    if n == 0 || n == |field| || exists i :: n <= i < |field| && field[i] != 0 && field[i] != SPACE
    then None
    else Some(Value(field[..n]))
  }

  // ----- printing and reading are inverse, exactly within the width

  lemma {:induction false} DigitsFit(v: nat, width: nat)
    requires width > 0
    ensures |Digits(v)| <= width <==> v < Pow8(width)
  {
    if width == 1 {
      assert Pow8(1) == 8 * Pow8(0);
    } else if v >= 8 {
      DigitsFit(v / 8, width - 1);
      assert v / 8 < Pow8(width - 1) <==> v < 8 * Pow8(width - 1);
    } else {
      assert Pow8(width) == 8 * Pow8(width - 1);
    }
  }

  lemma {:induction false} ValueOfDigits(v: nat)
    ensures Value(Digits(v)) == v
  {
    if v >= 8 {
      ValueOfDigits(v / 8);
      assert Digits(v)[..|Digits(v)| - 1] == Digits(v / 8);
    }
  }

  lemma {:induction false} ValueIgnoresPadding(zeros: nat, s: seq<byte>)
    requires forall i :: 0 <= i < |s| ==> IsDigit(s[i])
    ensures Value(Repeat(ZERO, zeros) + s) == Value(s)
    decreases |s|, zeros
  {
    var all := Repeat(ZERO, zeros) + s;
    if |s| > 0 {
      ValueIgnoresPadding(zeros, s[..|s| - 1]);
      assert all[..|all| - 1] == Repeat(ZERO, zeros) + s[..|s| - 1];
    } else if zeros > 0 {
      ValueIgnoresPadding(zeros - 1, []);
      assert all[..|all| - 1] == Repeat(ZERO, zeros - 1) + [];
    }
  }

  lemma NumberOf(digits: seq<byte>, tail: seq<byte>)
    requires |digits| > 0 && |tail| > 0
    requires forall i :: 0 <= i < |digits| ==> IsDigit(digits[i])
    requires forall i :: 0 <= i < |tail| ==> tail[i] == 0 || tail[i] == SPACE
    ensures Number(digits + tail) == Some(Value(digits))
  {
    var field := digits + tail;
    var n := LeadingDigits(field);
    assert !IsDigit(field[|digits|]) by { assert field[|digits|] == tail[0]; }
    assert forall i :: 0 <= i < |digits| ==> field[i] == digits[i];
    assert n == |digits|;
    assert field[..n] == digits;
    forall i | n <= i < |field| ensures field[i] == 0 || field[i] == SPACE {
      assert field[i] == tail[i - n];
    }
  }

  /** The field a reader sees is the first `width + 1` octets: it is the number exactly when it fits. */
  lemma FieldRoundTrip(v: int, width: nat)
    requires width > 0
    ensures Number(Octal(v, width)[..width + 1]) == if 0 <= v < Pow8(width) then Some(v) else None
    ensures 0 <= v < Pow8(width) ==> |Octal(v, width)| == width + 1
  {
    var o := Octal(v, width);
    var field := o[..width + 1];
    if v >= 0 {
      DigitsFit(v, width);
      var padded := PadStart(Digits(v), width);
      if v < Pow8(width) {
        ValueOfDigits(v);
        ValueIgnoresPadding(width - |Digits(v)|, Digits(v));
        NumberOf(padded, [0]);
        assert field == padded + [0];
      } else {
        assert forall i :: 0 <= i <= width ==> field[i] == padded[i] && IsDigit(field[i]);
        assert LeadingDigits(field) == |field|;
      }
    } else {
      NegativeField(v, width);
    }
  }

  /** The sign of a negative number stops the digits, and is no terminator. */
  lemma NegativeField(v: int, width: nat)
    requires v < 0 && width > 0
    ensures Number(Octal(v, width)[..width + 1]) == None
  {
    var o := Octal(v, width);
    var k := if |Text(v)| < width then width - |Text(v)| else 0;
    assert o[k] == MINUS;
    var field := o[..width + 1];
    assert field[k] == MINUS && !IsDigit(field[k]);
    StopsAt(field, k);
  }

  lemma StopsAt(field: seq<byte>, k: nat)
    requires k < |field| && field[k] == MINUS
    ensures LeadingDigits(field) <= k && Number(field) == None
  {
    assert !IsDigit(field[k]);
  }
}
