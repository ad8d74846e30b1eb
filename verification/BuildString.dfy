/** The ATUSB_BUILD reply of firmware/ep0.c: the build number printed backwards
    into a fixed buffer, then the build date. */
module BuildString {
  import opened Wire
  import opened UsbRequests

  const EP0_SIZE := 64
  const BUILD_OFFSET := 7   // '#', "65535" and ' '

  function Digit(d: nat): byte
    requires d < 10
  {
    (d + 48) as byte
  }

  /** Decimal digits, none for zero. */
  function Digits(n: nat): seq<byte> {
    if n == 0 then [] else Digits(n / 10) + [Digit(n % 10)]
  }

  /** Reads a string of decimal digits. */
  function Value(s: seq<byte>): int {
    if s == [] then 0 else 10 * Value(s[..|s| - 1]) + (s[|s| - 1] as int - 48)
  }

  lemma DigitCode(d: nat)
    requires d < 10
    ensures Digit(d) as int == d + 48
  {
  }

  lemma ValueSnoc(s: seq<byte>, d: nat)
    requires d < 10
    ensures Value(s + [Digit(d)]) == 10 * Value(s) + d
  {
    DigitCode(d);
    assert (s + [Digit(d)])[..|s|] == s;
  }

  lemma {:induction false} DigitsValue(n: nat)
    ensures Value(Digits(n)) == n
    ensures forall d | d in Digits(n) :: 48 <= d as int <= 57
  {
    if n != 0 {
      DigitsValue(n / 10);
      ValueSnoc(Digits(n / 10), n % 10);
      DigitCode(n % 10);
    }
  }

  lemma FewDigits(n: nat)
    requires n < 0x1_0000
    ensures |Digits(n)| <= 5
  {
    assert n / 10 < 6554 && n / 10 / 10 < 656 && n / 10 / 10 / 10 < 66 && n / 10 / 10 / 10 / 10 < 7;
    assert n / 10 / 10 / 10 / 10 / 10 == 0;
    assert |Digits(n / 10 / 10 / 10 / 10)| <= 1;
    assert |Digits(n / 10 / 10 / 10)| <= 2;
    assert |Digits(n / 10 / 10)| <= 3;
    assert |Digits(n / 10)| <= 4;
  }

  /** The reply: '#', the digits, ' ', the date. */
  function Reply(number: u16, date: seq<byte>): seq<byte> {
    [35] + Digits(number) + [32] + date
  }

  /** The digit loop runs from index 5 down and stays in front of '#'. */
  method PrintDigits(buf: array<byte>, number: u16) returns (i: nat)
    requires buf.Length == EP0_SIZE
    modifies buf
    ensures i <= BUILD_OFFSET - 2
    ensures buf[i + 1..BUILD_OFFSET - 1] == Digits(number)
  {
    FewDigits(number);
    var tmp: nat := number;
    i := BUILD_OFFSET - 2;
    while tmp > 0
      invariant 0 <= i <= BUILD_OFFSET - 2 && |Digits(tmp)| <= i
      invariant Digits(number) == Digits(tmp) + buf[i + 1..BUILD_OFFSET - 1]
      decreases tmp
    {
      ghost var done := buf[i + 1..BUILD_OFFSET - 1];
      buf[i] := Digit(tmp % 10);
      assert buf[i..BUILD_OFFSET - 1] == [Digit(tmp % 10)] + done;
      tmp := tmp / 10;
      i := i - 1;
    }
  }

  /** strcpy of the build date behind the number. */
  method CopyDate(buf: array<byte>, date: seq<byte>) returns (size: nat)
    requires buf.Length == EP0_SIZE && |date| <= EP0_SIZE - BUILD_OFFSET
    modifies buf
    ensures size == |date| && buf[BUILD_OFFSET..BUILD_OFFSET + size] == date
    ensures buf[..BUILD_OFFSET] == old(buf[..BUILD_OFFSET])
  {
    size := 0;
    while size < |date|
      invariant 0 <= size <= |date|
      invariant buf[..BUILD_OFFSET] == old(buf[..BUILD_OFFSET])
      invariant buf[BUILD_OFFSET..BUILD_OFFSET + size] == date[..size]
    {
      buf[BUILD_OFFSET + size] := date[size];
      size := size + 1;
    }
    assert date[..size] == date;
  }

  /** `from` and `size` delimit the reply in the buffer. */
  method Format(buf: array<byte>, number: u16, date: seq<byte>) returns (from: nat, size: nat)
    requires buf.Length == EP0_SIZE && |date| <= EP0_SIZE - BUILD_OFFSET
    modifies buf
    ensures from + size <= buf.Length && size == BUILD_OFFSET - from + |date|
    ensures buf[from..from + size] == Reply(number, date)
  {
    from := PrintDigits(buf, number);
    ghost var digits := buf[from + 1..BUILD_OFFSET - 1];
    buf[from] := 35;
    buf[BUILD_OFFSET - 1] := 32;
    assert buf[..BUILD_OFFSET][from..] == [35] + digits + [32];
    size := CopyDate(buf, date);
    size := size + (BUILD_OFFSET - from);
    assert buf[from..from + size] == buf[..BUILD_OFFSET][from..] + buf[BUILD_OFFSET..BUILD_OFFSET + |date|];
  }

  /** The build number can be read back out of the reply. */
  lemma ReplyInvertible(number: u16, date: seq<byte>)
    ensures var r, n := Reply(number, date), |Digits(number)|;
            && r[0] == 35 && Value(r[1..1 + n]) == number && r[1 + n] == 32 && r[n + 2..] == date
            && |r| == n + 2 + |date| <= 7 + |date|
            && (forall k | 1 <= k < 1 + n :: 48 <= r[k] as int <= 57)
  {
    DigitsValue(number);
    FewDigits(number);
    var r, n := Reply(number, date), |Digits(number)|;
    assert r[1..1 + n] == Digits(number);
    forall k | 1 <= k < 1 + n
      ensures 48 <= r[k] as int <= 57
    {
      assert r[k] == Digits(number)[k - 1];
      assert r[k] in Digits(number);
    }
  }

  /** Different numbers print differently, whatever the date. */
  lemma ReplyInjective(n1: u16, n2: u16, date: seq<byte>)
    requires Reply(n1, date) == Reply(n2, date)
    ensures n1 == n2
  {
    ReplyInvertible(n1, date);
    ReplyInvertible(n2, date);
    assert |Digits(n1)| == |Digits(n2)|;
  }
}
