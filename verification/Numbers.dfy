/**
 `std::atoi`, which reads the version number in the metrics (source/mqtt/IoTSDKMetrics.cpp), without overflow.
 */
module Numbers {

  predicate IsSpace(c: char) {
    c == ' ' || 9 as char <= c <= 13 as char
  }

  predicate IsDigit(c: char) {
    '0' <= c <= '9'
  }

  function Digits(s: string, acc: int): int {
    if s != "" && IsDigit(s[0]) then Digits(s[1..], 10 * acc + (s[0] as int - '0' as int)) else acc
  }

  /** Leading spaces, an optional sign, then digits up to the first other character. */
  function Atoi(s: string): int {
    if s == "" then 0
    else if IsSpace(s[0]) then Atoi(s[1..])
    else if s[0] == '-' then -Digits(s[1..], 0)
    else if s[0] == '+' then Digits(s[1..], 0)
    else Digits(s, 0)
  }

  predicate AllDigits(s: string) {
    forall i :: 0 <= i < |s| ==> '0' <= s[i] <= '9'
  }

  predicate AllSpaces(s: string) {
    forall i :: 0 <= i < |s| ==> s[i] == ' ' || 9 <= s[i] as int <= 13
  }

  /** The value of decimal digits by their places. */
  function Value(ds: string): int
    requires AllDigits(ds)
  {
    if ds == "" then 0 else 10 * Value(ds[..|ds| - 1]) + (ds[|ds| - 1] as int - '0' as int)
  }

  /** The decimal text of a number. */
  function Decimal(n: nat): (ds: string)
    ensures AllDigits(ds) && ds != ""
  {
    var last := '0' + (n % 10) as char;
    if n < 10 then [last] else Decimal(n / 10) + [last]
  }

  lemma {:induction false} ValueDecimal(n: nat)
    ensures Value(Decimal(n)) == n
  {
    var ds := Decimal(n);
    if n >= 10 {
      ValueDecimal(n / 10);
      assert ds[..|ds| - 1] == Decimal(n / 10);
    } else {
      assert ds[..0] == "";
    }
  }

  lemma ValueSnoc(done: string, d: char)
    requires AllDigits(done) && '0' <= d <= '9'
    ensures AllDigits(done + [d]) && Value(done + [d]) == 10 * Value(done) + (d as int - '0' as int)
  {
    assert (done + [d])[..|done|] == done;
  }

  lemma DigitFirst(d: char, s: string, acc: int)
    requires '0' <= d <= '9'
    ensures Digits([d] + s, acc) == Digits(s, 10 * acc + (d as int - '0' as int))
  {
    assert ([d] + s)[1..] == s;
  }

  lemma {:induction false} DigitsRead(done: string, ds: string, rest: string)
    requires AllDigits(done) && AllDigits(ds) && (rest == "" || !IsDigit(rest[0]))
    ensures AllDigits(done + ds) && Digits(ds + rest, Value(done)) == Value(done + ds)
    decreases |ds|
  {
    if ds == "" {
      assert ds + rest == rest && done + ds == done;
    } else {
      ValueSnoc(done, ds[0]);
      DigitsRead(done + [ds[0]], ds[1..], rest);
      DigitFirst(ds[0], ds[1..] + rest, Value(done));
      assert ds + rest == [ds[0]] + (ds[1..] + rest);
      assert done + ds == (done + [ds[0]]) + ds[1..];
    }
  }

  /** A text that starts with neither a space nor, without digits before it, a sign. */
  lemma UnsignedReads(ds: string, rest: string)
    requires AllDigits(ds) && (rest == "" || !IsDigit(rest[0]))
    requires ds == "" && rest != "" ==> !IsSpace(rest[0]) && rest[0] != '+' && rest[0] != '-'
    ensures Atoi(ds + rest) == Value(ds)
  {
    DigitsRead("", ds, rest);
    assert "" + ds == ds;
  }

  lemma SignedReads(sign: char, ds: string, rest: string)
    requires (sign == '+' || sign == '-') && AllDigits(ds) && (rest == "" || !IsDigit(rest[0]))
    ensures Atoi([sign] + (ds + rest)) == if sign == '-' then -Value(ds) else Value(ds)
  {
    var s := [sign] + (ds + rest);
    DigitsRead("", ds, rest);
    assert "" + ds == ds;
    assert s[1..] == ds + rest && s[0] == sign;
  }

  /** Leading spaces are read over. */
  lemma {:induction false} SpacesSkipped(spaces: string, s: string)
    requires AllSpaces(spaces)
    ensures Atoi(spaces + s) == Atoi(s)
  {
    if spaces == "" {
      assert spaces + s == s;
    } else {
      SpacesSkipped(spaces[1..], s);
      assert (spaces + s)[1..] == spaces[1..] + s;
    }
  }

  /** The decimal text of a number reads as it, with spaces before it and anything but a digit behind. */
  lemma NumberReads(spaces: string, n: nat, rest: string)
    requires AllSpaces(spaces) && (rest == "" || !('0' <= rest[0] <= '9'))
    ensures Atoi(spaces + (Decimal(n) + rest)) == n
  {
    ValueDecimal(n);
    UnsignedReads(Decimal(n), rest);
    SpacesSkipped(spaces, Decimal(n) + rest);
  }

  /** With a sign in front of it, it reads as the number or its negative. */
  lemma SignedNumberReads(spaces: string, sign: char, n: nat, rest: string)
    requires AllSpaces(spaces) && (sign == '+' || sign == '-') && (rest == "" || !('0' <= rest[0] <= '9'))
    ensures Atoi(spaces + ([sign] + (Decimal(n) + rest))) == if sign == '-' then 0 - n else n
  {
    ValueDecimal(n);
    SignedReads(sign, Decimal(n), rest);
    SpacesSkipped(spaces, [sign] + (Decimal(n) + rest));
  }

  /** A text without a number in front reads as 0. */
  lemma NoNumberReads(s: string)
    requires s == "" || (s[0] !in "+- " && !(9 <= s[0] as int <= 13) && !('0' <= s[0] <= '9'))
    ensures Atoi(s) == 0
  {
    UnsignedReads("", s);
    assert "" + s == s;
  }
}
