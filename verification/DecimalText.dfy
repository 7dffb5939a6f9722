/** Decimal text as JavaScript prints and reads it: template literals,
    `padStart(2, '0')`, `split('-')` and `Number`. */
module DecimalText {
  import opened Options

  predicate IsDigit(c: char) { '0' <= c <= '9' }

  predicate AllDigits(s: string) { forall i :: 0 <= i < |s| ==> IsDigit(s[i]) }

  function Digits(n: nat): (s: string)
    ensures s != "" && AllDigits(s)
  {
    var last := [('0' as int + n % 10) as char];
    if n < 10 then last else Digits(n / 10) + last
  }

  function PrintInt(n: int): string {
    if n < 0 then "-" + Digits(-n) else Digits(n)
  }

  function PadTwo(n: nat): (s: string)
    ensures s != "" && AllDigits(s)
  {
    var s := Digits(n);
    if |s| < 2 then "0" + s else s
  }

  function ValueOf(s: string): nat
    requires AllDigits(s)
  {
    if s == "" then 0 else ValueOf(s[..|s| - 1]) * 10 + (s[|s| - 1] as int - '0' as int)
  }

  /** `Number(s)`: the empty string is 0; anything but digits is NaN here. */
  function Number(s: string): Option<nat> {
    if AllDigits(s) then Some(ValueOf(s)) else None
  }

  /** `s.split('-')`. */
  function Split(s: string): (parts: seq<string>)
    ensures |parts| >= 1
  {
    if s == "" then [""]
    else
      var rest := Split(s[1..]);
      if s[0] == '-' then [""] + rest else [[s[0]] + rest[0]] + rest[1..]
  }

  lemma {:induction false} ValueOfSnoc(s: string, d: nat)
    requires AllDigits(s) && d < 10
    ensures AllDigits(s + [('0' as int + d) as char])
    ensures ValueOf(s + [('0' as int + d) as char]) == ValueOf(s) * 10 + d
  {
    var t := s + [('0' as int + d) as char];
    assert t[..|t| - 1] == s;
  }

  lemma {:induction false} NumberOfDigits(n: nat)
    ensures Number(Digits(n)) == Some(n)
  {
    if n < 10 {
      ValueOfSnoc("", n);
      assert "" + Digits(n) == Digits(n);
    } else {
      NumberOfDigits(n / 10);
      ValueOfSnoc(Digits(n / 10), n % 10);
    }
  }

  /** Only a number below ten has one digit. */
  lemma DigitCount(n: nat)
    ensures |Digits(n)| >= 1
    ensures n < 10 ==> Digits(n) == [('0' as int + n) as char]
    ensures n >= 10 ==> |Digits(n)| >= 2
  {
    if n >= 10 { assert |Digits(n / 10)| >= 1; }
  }

  lemma LeadingZero(n: nat)
    requires n < 10
    ensures AllDigits("0" + [('0' as int + n) as char]) && ValueOf("0" + [('0' as int + n) as char]) == n
  {
    hide Digits;
    ValueOfSnoc("", 0);
    assert "" + [('0' as int + 0) as char] == "0";
    ValueOfSnoc("0", n);
  }

  lemma NumberOfPadTwo(n: nat)
    ensures Number(PadTwo(n)) == Some(n)
  {
    hide Digits, ValueOf;
    DigitCount(n);
    NumberOfDigits(n);
    if n < 10 { LeadingZero(n); }
  }

  lemma {:induction false} SplitField(field: string, rest: string)
    requires AllDigits(field)
    ensures Split(field + "-" + rest) == [field] + Split(rest)
    ensures Split(field) == [field]
  {
    if field == "" {
      assert field + "-" + rest == "-" + rest;
      assert ("-" + rest)[1..] == rest;
    } else {
      SplitField(field[1..], rest);
      assert (field + "-" + rest)[1..] == field[1..] + "-" + rest;
      assert [field[0]] + field[1..] == field;
    }
  }
}
