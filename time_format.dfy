/** `formatTime` of scripts.js: whole seconds shown as `mm:ss`. */
module TimeFormat {

  function Digit(d: nat): char
    requires d < 10
  {
    ('0' as int + d) as char
  }

  predicate IsDigits(s: string)
  {
    forall k :: 0 <= k < |s| ==> '0' <= s[k] <= '9'
  }

  /** The number a string of decimal digits denotes (leading zeros allowed). */
  function DigitsValue(s: string): nat
    requires IsDigits(s)
    decreases |s|
  {
    if s == [] then 0 else 10 * DigitsValue(s[..|s| - 1]) + (s[|s| - 1] as int - '0' as int)
  }

  /** `String(n)` for a non-negative integer: its decimal digits, without
      leading zeros. */
  function Decimal(n: nat): string
    decreases n
  {
    if n < 10 then [Digit(n)] else Decimal(n / 10) + [Digit(n % 10)]
  }

  /** `s.padStart(2, '0')`. */
  function PadStart2(s: string): string
  {
    if |s| >= 2 then s else seq(2 - |s|, _ => '0') + s
  }

  /** `formatTime(sec)`: the whole minutes, padded to at least two digits, a
      colon, and the remaining seconds as exactly two digits. */
  function FormatTime(sec: nat): (r: string)
    ensures |r| >= 5 && r[|r| - 3] == ':'
    ensures IsDigits(r[..|r| - 3]) && IsDigits(r[|r| - 2..])
    ensures DigitsValue(r[|r| - 2..]) < 60
    ensures 60 * DigitsValue(r[..|r| - 3]) + DigitsValue(r[|r| - 2..]) == sec
    ensures |r| == 5 || r[0] != '0'
  {
    var m, s := sec / 60, sec % 60;
    DecimalDenotes(m);
    DecimalDenotes(s);
    PadStart2Denotes(Decimal(m));
    PadStart2Denotes(Decimal(s));
    var mm, ss := PadStart2(Decimal(m)), PadStart2(Decimal(s));
    assert DigitsValue(mm) == m && DigitsValue(ss) == s && |ss| == 2;
    Joined(mm, ss);
    mm + ":" + ss
  }

  lemma Joined(mm: string, ss: string)
    requires |ss| == 2
    ensures var r := mm + ":" + ss;
      && |r| == |mm| + 3 && r[|r| - 3] == ':' && r[..|r| - 3] == mm && r[|r| - 2..] == ss
      && (|mm| > 0 ==> r[0] == mm[0])
  {
  }

  /** `Decimal(n)` is a digit string denoting `n`, one digit long exactly when
      `n < 10`, and without a leading zero unless `n` is 0. */
  lemma {:induction false} DecimalDenotes(n: nat)
    ensures IsDigits(Decimal(n)) && DigitsValue(Decimal(n)) == n
    ensures |Decimal(n)| >= 1 && (|Decimal(n)| == 1 <==> n < 10)
    ensures n < 100 ==> |Decimal(n)| <= 2
    ensures Decimal(n)[0] != '0' || n == 0
    decreases n
  {
    if n >= 10 {
      DecimalDenotes(n / 10);
      var d := Decimal(n);
      assert d[..|d| - 1] == Decimal(n / 10);
      assert d[0] == Decimal(n / 10)[0];
    }
  }

  /** Padding with zeros on the left keeps the value and the digit-string form. */
  lemma PadStart2Denotes(s: string)
    requires IsDigits(s) && |s| >= 1
    ensures IsDigits(PadStart2(s)) && DigitsValue(PadStart2(s)) == DigitsValue(s)
    ensures |PadStart2(s)| == if |s| >= 2 then |s| else 2
    ensures |s| >= 2 ==> PadStart2(s) == s
  {
    if |s| < 2 {
      var p := PadStart2(s);
      assert p == ['0', s[0]];
      assert p[..1] == ['0'] && s[..0] == [];
    }
  }
}
