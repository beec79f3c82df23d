/** The countdown shown on every timer tick: the remaining seconds written as
    minutes and seconds, each padded to two digits with a leading zero. */
module Clock {

  predicate IsDigit(c: char) {
    '0' <= c <= '9'
  }

  predicate AllDigits(s: string) {
    forall i :: 0 <= i < |s| ==> IsDigit(s[i])
  }

  function DigitChar(d: nat): (c: char)
    requires d < 10
    ensures IsDigit(c)
  {
    ('0' as int + d) as char
  }

  /** The number a string of decimal digits stands for. */
  function ValueOf(s: string): nat
    requires AllDigits(s)
  {
    if s == [] then 0 else ValueOf(s[..|s| - 1]) * 10 + (s[|s| - 1] as int - '0' as int)
  }

  /** `n.toString()` for a non-negative integer: its decimal digits, with no
      leading zero. */
  function Decimal(n: nat): (r: string)
    ensures 1 <= |r| && AllDigits(r)
    ensures ValueOf(r) == n
    ensures |r| > 1 ==> r[0] != '0'
    ensures n < 10 ==> |r| == 1
    ensures n < 100 ==> |r| <= 2
  {
    if n < 10 then [DigitChar(n)]
    else
      var r := Decimal(n / 10) + [DigitChar(n % 10)];
      assert r[..|r| - 1] == Decimal(n / 10);
      r
  }

  /** `s.padStart(2, '0')`. */
  function PadTwo(s: string): string
  {
    if |s| >= 2 then s else seq(2 - |s|, _ => '0') + s
  }

  /** Leading zeros do not change the value of a digit string. */
  lemma {:induction false} LeadingZeros(z: string, s: string)
    requires forall i :: 0 <= i < |z| ==> z[i] == '0'
    requires AllDigits(s)
    ensures AllDigits(z + s) && ValueOf(z + s) == ValueOf(s)
  {
    if s == [] {
      assert z + s == z;
      AllZerosValue(z);
    } else {
      var p := s[..|s| - 1];
      assert (z + s)[..|z + s| - 1] == z + p;
      LeadingZeros(z, p);
    }
  }

  lemma PadTwoValue(s: string)
    requires AllDigits(s)
    ensures AllDigits(PadTwo(s)) && ValueOf(PadTwo(s)) == ValueOf(s)
    ensures |PadTwo(s)| == if |s| < 2 then 2 else |s|
  {
    if |s| < 2 {
      LeadingZeros(seq(2 - |s|, _ => '0'), s);
    }
  }

  lemma {:induction false} AllZerosValue(z: string)
    requires forall i :: 0 <= i < |z| ==> z[i] == '0'
    ensures AllDigits(z) && ValueOf(z) == 0
  {
    if z != [] {
      AllZerosValue(z[..|z| - 1]);
    }
  }

  /** The timer text: `MM:SS` as long as fewer than 100 minutes remain. Read
      back, the part before the colon is the whole minutes and the two digits
      after it are the remaining seconds. */
  function FormatClock(t: nat): (r: string)
    ensures |r| >= 5 && r[|r| - 3] == ':'
    ensures AllDigits(r[..|r| - 3]) && AllDigits(r[|r| - 2..])
    ensures ValueOf(r[..|r| - 3]) == t / 60 && ValueOf(r[|r| - 2..]) == t % 60
    ensures t < 6000 ==> |r| == 5
  {
    var m, s := Decimal(t / 60), Decimal(t % 60);
    var mm, ss := PadTwo(m), PadTwo(s);
    PadTwoValue(m);
    PadTwoValue(s);
    var r := mm + ":" + ss;
    assert r[..|r| - 3] == mm && r[|r| - 2..] == ss;
    r
  }
}
