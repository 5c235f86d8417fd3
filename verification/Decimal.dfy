/** The decimal literals that carry amounts between the packages: one package prints them,
    the other parses and prints its own. */
module Decimal {

  datatype Option<+T> = None | Some(value: T)

  function Pow10(n: nat): (p: nat)
    ensures p > 0
  {
    if n == 0 then 1 else 10 * Pow10(n - 1)
  }

  predicate IsDigit(c: char) {
    '0' <= c <= '9'
  }

  predicate Digits(s: string) {
    forall i | 0 <= i < |s| :: IsDigit(s[i])
  }

  function DigitOf(d: nat): (c: char)
    requires d < 10
    ensures IsDigit(c)
  {
    '0' + d as char
  }

  /** Base ten without leading zeros, as `strconv.FormatInt` prints a non-negative number. */
  function Itoa(n: nat): (s: string)
    ensures s != "" && Digits(s)
  {
    if n < 10 then [DigitOf(n)] else Itoa(n / 10) + [DigitOf(n % 10)]
  }

  function SignedItoa(n: int): string {
    if n < 0 then "-" + Itoa(0 - n) else Itoa(n)
  }

  function Zeros(n: nat): (s: string)
    ensures |s| == n && Digits(s)
  {
    seq(n, _ => '0')
  }

  // ----- what a string of digits denotes -----

  function Value(s: string): nat
    requires Digits(s)
  {
    if s == "" then 0 else 10 * Value(s[..|s| - 1]) + (s[|s| - 1] - '0') as nat
  }

  lemma ValueAppend(s: string, c: char)
    requires Digits(s) && IsDigit(c)
    ensures Digits(s + [c]) && Value(s + [c]) == 10 * Value(s) + (c - '0') as nat
  {
    assert (s + [c])[..|s|] == s;
  }

  lemma TenTimes(a: nat, p: nat)
    ensures 10 * (a * p) == a * (10 * p)
  {
  }

  lemma {:induction false} ValueConcat(a: string, b: string)
    requires Digits(a) && Digits(b)
    ensures Digits(a + b) && Value(a + b) == Value(a) * Pow10(|b|) + Value(b)
    decreases |b|
  {
    if b == "" {
      assert a + b == a;
    } else {
      var c, x := b[..|b| - 1], b[|b| - 1];
      assert b == c + [x] && a + b == a + c + [x];
      ValueConcat(a, c);
      ValueAppend(a + c, x);
      ValueAppend(c, x);
      TenTimes(Value(a), Pow10(|c|));
    }
  }

  lemma {:induction false} ValueZeros(n: nat)
    ensures Value(Zeros(n)) == 0
  {
    if n > 0 {
      ValueZeros(n - 1);
      assert Zeros(n) == Zeros(n - 1) + ['0'];
      ValueAppend(Zeros(n - 1), '0');
    }
  }

  lemma {:induction false} ItoaValue(n: nat)
    ensures Value(Itoa(n)) == n
  {
    if n >= 10 {
      ItoaValue(n / 10);
      ValueAppend(Itoa(n / 10), DigitOf(n % 10));
    } else {
      ValueAppend("", DigitOf(n));
      assert "" + [DigitOf(n)] == [DigitOf(n)];
    }
  }

  lemma {:induction false} ItoaLength(n: nat, d: nat)
    requires d >= 1 && n < Pow10(d)
    ensures |Itoa(n)| <= d
    decreases d
  {
    if n >= 10 {
      ItoaLength(n / 10, d - 1);
    }
  }

  // ----- printing -----

  function Whole(magnitude: nat, decimals: nat): nat {
    QuotientRange(magnitude, Pow10(decimals));
    magnitude / Pow10(decimals)
  }

  function Fraction(magnitude: nat, decimals: nat): (f: nat)
    ensures f < Pow10(decimals)
  {
    QuotientRange(magnitude, Pow10(decimals));
    magnitude % Pow10(decimals)
  }

  lemma QuotientRange(m: nat, p: nat)
    requires p > 0
    ensures m / p >= 0 && 0 <= m % p < p && m == m / p * p + m % p
  {
  }

  function Magnitude(value: int): nat {
    if value < 0 then -value else value
  }

  /** `formatScaled` with the scale that has `decimals` zeros. */
  function FormatScaled(value: int, decimals: nat): string
    requires decimals >= 1
  {
    var whole, fraction := Whole(Magnitude(value), decimals), Fraction(Magnitude(value), decimals);
    ItoaLength(fraction, decimals);
    (if value < 0 then "-" else "") + Itoa(whole) + "." + Zeros(decimals - |Itoa(fraction)|) + Itoa(fraction)
  }

  function FormatCents(value: int): string {
    FormatScaled(value, 2)
  }

  /** Settlement's own printer of cents: it cuts the digits two from the end. */
  function SettlementCents(cents: int): string {
    var digits := SignedItoa(cents);
    var value := if |digits| < 3 then Zeros(3 - |digits|) + digits else digits;
    value[..|value| - 2] + "." + value[|value| - 2..]
  }

  // ----- parsing -----

  function Split(s: string, separator: char): (parts: seq<string>)
    ensures |parts| >= 1
  {
    if s == "" then [""]
    else if s[0] == separator then [""] + Split(s[1..], separator)
    else
      var rest := Split(s[1..], separator);
      [[s[0]] + rest[0]] + rest[1..]
  }

  /** Base ten with an optional sign. */
  function ParseInteger(s: string): Option<int> {
    var unsigned := if s != "" && (s[0] == '-' || s[0] == '+') then s[1..] else s;
    if unsigned == "" || !Digits(unsigned) then None
    else if s[0] == '-' then Some(0 - Value(unsigned))
    else Some(Value(unsigned))
  }

  function ParseFixed(input: string, decimals: nat): Option<int> {
    var parts := Split(input, '.');
    if |parts| > 2 || |parts[0]| == 0 then None
    else ParseParts(parts[0], if |parts| == 2 then parts[1] else "", decimals)
  }

  /** The fraction is padded to `decimals` digits; a longer one is refused. */
  function ParseParts(whole: string, fraction: string, decimals: nat): Option<int> {
    if |fraction| > decimals then None
    else
      match ParseInteger(whole + fraction + Zeros(decimals - |fraction|))
      case None => None
      case Some(value) => if value < 0 then None else Some(value)
  }

  // ----- the round trip -----

  lemma {:induction false} SplitNone(s: string, separator: char)
    requires separator !in s
    ensures Split(s, separator) == [s]
    decreases |s|
  {
    if s != "" {
      SplitNone(s[1..], separator);
      assert [s[0]] + s[1..] == s;
    }
  }

  lemma {:induction false} SplitOne(a: string, b: string, separator: char)
    requires separator !in a && separator !in b
    ensures Split(a + [separator] + b, separator) == [a, b]
    decreases |a|
  {
    var s := a + [separator] + b;
    if a == "" {
      assert s[1..] == b;
      SplitNone(b, separator);
    } else {
      assert s[1..] == a[1..] + [separator] + b;
      SplitOne(a[1..], b, separator);
      assert [a[0]] + a[1..] == a;
    }
  }

  lemma DigitsFree(s: string, c: char)
    requires Digits(s) && !IsDigit(c)
    ensures c !in s
  {
  }

  /** Padding a fraction with zeros scales it. */
  lemma PaddedValue(whole: string, fraction: string, decimals: nat)
    requires Digits(whole) && Digits(fraction) && |fraction| <= decimals
    ensures var text := whole + fraction + Zeros(decimals - |fraction|);
            Digits(text) && Value(text) == Value(whole) * Pow10(decimals) + Value(fraction) * Pow10(decimals - |fraction|)
  {
    var zeros := Zeros(decimals - |fraction|);
    assert whole + fraction + zeros == whole + (fraction + zeros);
    ValueConcat(whole, fraction + zeros);
    ValueConcat(fraction, zeros);
    ValueZeros(decimals - |fraction|);
  }

  lemma ParseSigned(sign: string, digits: string)
    requires sign in ["", "+", "-"] && digits != "" && Digits(digits)
    ensures ParseInteger(sign + digits) == Some(if sign == "-" then 0 - Value(digits) else Value(digits))
  {
    hide Value;
    assert IsDigit(digits[0]);
    if sign == "" {
      assert sign + digits == digits;
    } else {
      assert (sign + digits)[0] == sign[0] && (sign + digits)[1..] == digits;
    }
  }

  /** A sign, digits, and perhaps a point with more digits behind it. */
  function Literal(sign: string, whole: string, point: bool, fraction: string): string {
    sign + whole + if point then "." + fraction else ""
  }

  predicate IsLiteral(sign: string, whole: string, point: bool, fraction: string) {
    sign in ["", "+", "-"] && Digits(whole) && Digits(fraction) && (point || fraction == "")
  }

  /** The number it denotes in units of the last of `decimals` places. */
  function Units(whole: string, fraction: string, decimals: nat): nat
    requires Digits(whole) && Digits(fraction) && |fraction| <= decimals
  {
    Value(whole) * Pow10(decimals) + Value(fraction) * Pow10(decimals - |fraction|)
  }

  lemma SplitLiteral(sign: string, whole: string, point: bool, fraction: string)
    requires IsLiteral(sign, whole, point, fraction)
    ensures Split(Literal(sign, whole, point, fraction), '.') == if point then [sign + whole, fraction] else [sign + whole]
  {
    DigitsFree(whole, '.');
    DigitsFree(fraction, '.');
    if point {
      SplitOne(sign + whole, fraction, '.');
      assert Literal(sign, whole, point, fraction) == sign + whole + "." + fraction;
    } else {
      SplitNone(sign + whole, '.');
      assert Literal(sign, whole, point, fraction) == sign + whole;
    }
  }

  lemma FixedParts(sign: string, whole: string, point: bool, fraction: string, decimals: nat)
    requires IsLiteral(sign, whole, point, fraction) && sign + whole != ""
    ensures ParseFixed(Literal(sign, whole, point, fraction), decimals) == ParseParts(sign + whole, fraction, decimals)
  {
    hide ParseParts, Split;
    SplitLiteral(sign, whole, point, fraction);
  }

  lemma PartsText(sign: string, whole: string, fraction: string, decimals: nat)
    requires sign in ["", "+", "-"]
    requires |fraction| <= decimals && |whole| + decimals >= 1 && Digits(whole + fraction + Zeros(decimals - |fraction|))
    ensures var units := Value(whole + fraction + Zeros(decimals - |fraction|));
            ParseParts(sign + whole, fraction, decimals) == if sign == "-" && units > 0 then None else Some(units)
  {
    hide ParseInteger, Value, Digits;
    var zeros := Zeros(decimals - |fraction|);
    assert sign + whole + fraction + zeros == sign + (whole + fraction + zeros);
    ParseSigned(sign, whole + fraction + zeros);
  }

  /** What the parser reads out of a literal it can read. */
  lemma ParseMeaning(sign: string, whole: string, point: bool, fraction: string, decimals: nat)
    requires IsLiteral(sign, whole, point, fraction) && sign + whole != "" && |fraction| <= decimals && |whole| + decimals >= 1
    ensures var units := Units(whole, fraction, decimals);
            ParseFixed(Literal(sign, whole, point, fraction), decimals) == if sign == "-" && units > 0 then None else Some(units)
  {
    hide ParseFixed, ParseParts, Value, Pow10, Digits, Zeros, Literal;
    PaddedValue(whole, fraction, decimals);
    FixedParts(sign, whole, point, fraction, decimals);
    PartsText(sign, whole, fraction, decimals);
  }

  /** Cutting at a separator loses nothing. */
  lemma {:induction false} SplitJoin(s: string, separator: char)
    ensures var parts := Split(s, separator);
            && (|parts| == 1 ==> s == parts[0])
            && (|parts| == 2 ==> s == parts[0] + [separator] + parts[1])
    decreases |s|
  {
    if s != "" {
      var parts, rest := Split(s, separator), Split(s[1..], separator);
      assert parts == if s[0] == separator then [""] + rest else [[s[0]] + rest[0]] + rest[1..];
      SplitJoin(s[1..], separator);
      hide Split;
      assert s == [s[0]] + s[1..];
      if s[0] != separator && |rest| == 2 {
        assert parts[1] == rest[1] && s == [s[0]] + rest[0] + [separator] + rest[1];
      }
    }
  }

  predicate Signed(s: string) {
    s != "" && (s[0] == '-' || s[0] == '+')
  }

  lemma ReadInteger(head: string, tail: string)
    requires head != "" && ParseInteger(head + tail).Some?
    ensures var digits := (if Signed(head) then head[1..] else head) + tail; digits != "" && Digits(digits)
  {
    assert (head + tail)[0] == head[0];
    assert (head + tail)[1..] == head[1..] + tail;
  }

  lemma DigitsParts(a: string, b: string)
    requires Digits(a + b)
    ensures Digits(a) && Digits(b)
  {
    assert forall i | 0 <= i < |a| :: (a + b)[i] == a[i];
    assert forall i | 0 <= i < |b| :: (a + b)[|a| + i] == b[i];
  }

  /** Nothing but a literal is read: the sign and the digits of what was. */
  lemma ReadParts(head: string, fraction: string, decimals: nat) returns (sign: string, whole: string)
    requires head != "" && ParseParts(head, fraction, decimals).Some?
    ensures head == sign + whole && sign in ["", "+", "-"] && Digits(whole) && Digits(fraction)
    ensures |fraction| <= decimals && |whole| + decimals >= 1
  {
    var zeros := Zeros(decimals - |fraction|);
    sign, whole := if Signed(head) then [head[0]] else "", if Signed(head) then head[1..] else head;
    assert sign == "" || sign == "+" || sign == "-";
    assert head + fraction + zeros == head + (fraction + zeros);
    hide ParseInteger, Digits;
    ReadInteger(head, fraction + zeros);
    DigitsParts(whole, fraction + zeros);
    DigitsParts(fraction, zeros);
  }

  /** The parser accepts exactly the literals with something before the point, no more digits
      behind it than the scale has places, some digit once padded, and no value below zero; and
      it reads each as the number it denotes. */
  lemma ParseExactly(input: string, decimals: nat, value: int)
    ensures ParseFixed(input, decimals) == Some(value) <==>
            exists sign, whole, point, fraction :: IsLiteral(sign, whole, point, fraction)
              && input == Literal(sign, whole, point, fraction) && sign + whole != ""
              && |fraction| <= decimals && |whole| + decimals >= 1
              && value == Units(whole, fraction, decimals) && (sign == "-" ==> value == 0)
  {
    hide ParseParts, Split, Units, Digits, Zeros;
    if ParseFixed(input, decimals) == Some(value) {
      var parts := Split(input, '.');
      SplitJoin(input, '.');
      var point, fraction := |parts| == 2, if |parts| == 2 then parts[1] else "";
      var sign, whole := ReadParts(parts[0], fraction, decimals);
      assert input == Literal(sign, whole, point, fraction);
      ParseMeaning(sign, whole, point, fraction, decimals);
    }
    forall sign, whole, point, fraction | IsLiteral(sign, whole, point, fraction)
      && input == Literal(sign, whole, point, fraction) && sign + whole != ""
      && |fraction| <= decimals && |whole| + decimals >= 1
      && value == Units(whole, fraction, decimals) && (sign == "-" ==> value == 0)
      ensures ParseFixed(input, decimals) == Some(value)
    {
      ParseMeaning(sign, whole, point, fraction, decimals);
    }
  }

  /** The digits printed behind the point. */
  lemma FractionDigits(fraction: nat, decimals: nat)
    requires decimals >= 1 && fraction < Pow10(decimals)
    ensures |Itoa(fraction)| <= decimals
    ensures Value(Zeros(decimals - |Itoa(fraction)|) + Itoa(fraction)) == fraction
  {
    ItoaLength(fraction, decimals);
    ValueConcat(Zeros(decimals - |Itoa(fraction)|), Itoa(fraction));
    ValueZeros(decimals - |Itoa(fraction)|);
    ItoaValue(fraction);
  }

  /** Whatever the scale: parsing what was printed gives the value back, and a negative
      value is refused. */
  lemma RoundTrip(value: int, decimals: nat)
    requires decimals >= 1
    ensures ParseFixed(FormatScaled(value, decimals), decimals) == if value >= 0 then Some(value) else None
  {
    var n := Magnitude(value);
    var whole, fraction := Whole(n, decimals), Fraction(n, decimals);
    var sign := if value < 0 then "-" else "";
    FractionDigits(fraction, decimals);
    ItoaValue(whole);
    QuotientRange(n, Pow10(decimals));
    hide ParseFixed, Itoa, Zeros, Value;
    var digits := Zeros(decimals - |Itoa(fraction)|) + Itoa(fraction);
    assert FormatScaled(value, decimals) == Literal(sign, Itoa(whole), true, digits);
    assert decimals - |digits| == 0 && Pow10(0) == 1;
    hide FormatScaled, Literal, Whole, Fraction;
    ParseMeaning(sign, Itoa(whole), true, digits, decimals);
  }

  // ----- the two printers of cents -----

  lemma ItoaHundreds(n: nat)
    requires n >= 100
    ensures |Itoa(n)| >= 3 && Itoa(n)[..|Itoa(n)| - 2] == Itoa(n / 100)
    ensures Itoa(n)[|Itoa(n)| - 2..] == [DigitOf(n / 10 % 10), DigitOf(n % 10)]
  {
    TwoDivisions(n);
    var s, t, x, y := Itoa(n), Itoa(n / 100), DigitOf(n / 10 % 10), DigitOf(n % 10);
    assert s == Itoa(n / 10) + [y];
    assert Itoa(n / 10) == t + [x];
    CutTwo(t, x, y);
    assert s == t + [x] + [y];
  }

  lemma CutTwo(t: string, x: char, y: char)
    requires |t| >= 1
    ensures var s := t + [x] + [y]; |s| >= 3 && s[..|s| - 2] == t && s[|s| - 2..] == [x, y]
  {
  }

  lemma TwoDivisions(n: nat)
    ensures n / 10 / 10 == n / 100
  {
  }

  lemma LastTwoDigits(n: nat)
    ensures n % 100 / 10 == n / 10 % 10 && n % 100 % 10 == n % 10
  {
    var q, r := n / 100, n % 100;
    assert n == 10 * (10 * q + r / 10) + r % 10;
    assert n / 10 == 10 * q + r / 10;
  }

  /** A fraction of a unit, padded to two digits. */
  lemma TwoDigits(f: nat)
    requires f < 100
    ensures |Itoa(f)| <= 2 && Zeros(2 - |Itoa(f)|) + Itoa(f) == [DigitOf(f / 10), DigitOf(f % 10)]
  {
    if f < 10 {
      assert Itoa(f) == [DigitOf(f)] && Zeros(1) == ['0'];
    } else {
      assert Itoa(f) == [DigitOf(f / 10), DigitOf(f % 10)] && Zeros(0) == [];
    }
  }

  lemma TwoDecimals(n: nat)
    ensures FormatCents(n) == Itoa(n / 100) + "." + [DigitOf(n / 10 % 10), DigitOf(n % 10)]
    ensures n > 0 ==> FormatCents(0 - n) == "-" + FormatCents(n)
  {
    assert Pow10(1) == 10 && Pow10(2) == 100;
    LastTwoDigits(n);
    TwoDigits(n % 100);
    hide Itoa, Zeros, Pow10;
    assert Whole(n, 2) == n / 100 && Fraction(n, 2) == n % 100;
    assert FormatCents(n) == Itoa(n / 100) + "." + (Zeros(2 - |Itoa(n % 100)|) + Itoa(n % 100));
  }

  /** Three digits and more are cut two from the end, behind a sign or not. */
  lemma CutHundreds(n: nat)
    requires n >= 100
    ensures SettlementCents(n) == Itoa(n / 100) + "." + [DigitOf(n / 10 % 10), DigitOf(n % 10)]
    ensures SettlementCents(0 - n) == "-" + SettlementCents(n)
  {
    ItoaHundreds(n);
    hide Itoa;
    var s := Itoa(n);
    assert SignedItoa(n) == s && SignedItoa(0 - n) == "-" + s;
    assert ("-" + s)[..|s| - 1] == "-" + s[..|s| - 2];
    assert ("-" + s)[|s| - 1..] == s[|s| - 2..];
  }

  /** Fewer are padded to three first. */
  lemma CutUnits(n: nat)
    requires n < 100
    ensures SettlementCents(n) == Itoa(n / 100) + "." + [DigitOf(n / 10 % 10), DigitOf(n % 10)]
  {
    TwoDigits(n);
    assert Itoa(n / 100) == "0";
    hide Itoa, Zeros;
    var x, y := DigitOf(n / 10), DigitOf(n % 10);
    PaddedToThree(Itoa(n), x, y);
    CutTwo("0", x, y);
  }

  lemma PaddedToThree(digits: string, x: char, y: char)
    requires |digits| <= 2 && Zeros(2 - |digits|) + digits == [x, y]
    ensures Zeros(3 - |digits|) + digits == "0" + [x] + [y]
  {
    ZerosMore(2 - |digits|);
    hide Zeros;
    assert "0" + Zeros(2 - |digits|) + digits == "0" + (Zeros(2 - |digits|) + digits);
    assert "0" + [x, y] == "0" + [x] + [y];
  }

  lemma ZerosMore(n: nat)
    ensures Zeros(n + 1) == ['0'] + Zeros(n)
  {
  }

  lemma SettlementDecimals(n: nat)
    ensures SettlementCents(n) == Itoa(n / 100) + "." + [DigitOf(n / 10 % 10), DigitOf(n % 10)]
    ensures n >= 100 ==> SettlementCents(0 - n) == "-" + SettlementCents(n)
  {
    hide SettlementCents, Itoa;
    if n >= 100 { CutHundreds(n); } else { CutUnits(n); }
  }

  /** Settlement prints cents like the other packages for every amount it can meet, and
      differs exactly on debts smaller than one unit. */
  lemma PrintersAgree(cents: int)
    ensures SettlementCents(cents) == FormatCents(cents) <==> cents >= 0 || cents <= -100
  {
    var n := if cents < 0 then -cents else cents;
    TwoDecimals(n);
    SettlementDecimals(n);
    if -100 < cents < 0 {
      assert FormatCents(cents)[0] == '-' && FormatCents(cents)[1] == '0';
      if n >= 10 {
        assert Itoa(n) == [DigitOf(n / 10), DigitOf(n % 10)];
        assert SettlementCents(cents)[1] == '.';
      } else {
        assert SettlementCents(cents)[0] == '0';
      }
    }
  }

  // ----- distinct texts for distinct numbers -----

  lemma ItoaInjective(a: nat, b: nat)
    requires Itoa(a) == Itoa(b)
    ensures a == b
  {
    ItoaValue(a);
    ItoaValue(b);
  }

  function FirstOf(s: string, separator: char): nat {
    if s == "" || s[0] == separator then 0 else 1 + FirstOf(s[1..], separator)
  }

  lemma {:induction false} FirstAfter(a: string, x: string, separator: char)
    requires separator !in a
    ensures FirstOf(a + [separator] + x, separator) == |a|
    decreases |a|
  {
    var s := a + [separator] + x;
    if a == "" {
      assert s[0] == separator;
    } else {
      assert s[0] == a[0] && a[0] in a && s[1..] == a[1..] + [separator] + x;
      FirstAfter(a[1..], x, separator);
    }
  }

  /** The part before a separator it does not contain is determined. */
  lemma HeadDetermined(a: string, b: string, x: string, y: string, separator: char)
    requires separator !in a && separator !in b && a + [separator] + x == b + [separator] + y
    ensures a == b && x == y
  {
    var s := a + [separator] + x;
    FirstAfter(a, x, separator);
    FirstAfter(b, y, separator);
    assert a == s[..|a|] && b == s[..|b|];
    assert x == s[|a| + 1..] && y == s[|b| + 1..];
  }

  function LastOf(s: string, separator: char): nat {
    if s == "" || s[|s| - 1] == separator then 0 else 1 + LastOf(s[..|s| - 1], separator)
  }

  lemma {:induction false} LastBefore(x: string, a: string, separator: char)
    requires separator !in a
    ensures LastOf(x + [separator] + a, separator) == |a|
    decreases |a|
  {
    var s := x + [separator] + a;
    if a == "" {
      assert s[|s| - 1] == separator;
    } else {
      assert s[|s| - 1] == a[|a| - 1] && a[|a| - 1] in a && s[..|s| - 1] == x + [separator] + a[..|a| - 1];
      LastBefore(x, a[..|a| - 1], separator);
    }
  }

  /** So is the part after one. */
  lemma TailDetermined(x: string, y: string, a: string, b: string, separator: char)
    requires separator !in a && separator !in b && x + [separator] + a == y + [separator] + b
    ensures a == b && x == y
  {
    var s := x + [separator] + a;
    LastBefore(x, a, separator);
    LastBefore(y, b, separator);
    assert x == s[..|x|] && y == s[..|y|];
    assert a == s[|x| + 1..] && b == s[|y| + 1..];
  }
}
