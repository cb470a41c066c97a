/** Money as a Swedish invoice writes it: 1 234 567,89 SEK. */
module Format {
  import opened Options
  import Int64

  // ---- digits -----------------------------------------------------------------------------

  predicate IsDigit(c: char) {
    '0' <= c <= '9'
  }

  function Digit(d: nat): (c: char)
    requires d < 10
    ensures IsDigit(c) && ValueOf(c) == d
  {
    '0' + d as char
  }

  function ValueOf(c: char): int {
    c as int - '0' as int
  }

  function Digits(n: nat): (s: string)
    ensures s != [] && forall i | 0 <= i < |s| :: IsDigit(s[i])
  {
    if n < 10 then [Digit(n)] else Digits(n / 10) + [Digit(n % 10)]
  }

  /** strconv.FormatInt in base ten. */
  function Itoa(n: int): (s: string)
    ensures s != []
  {
    if n < 0 then "-" + Digits(-n) else Digits(n)
  }

  /** %02d. */
  function TwoDigits(n: int): string {
    if 0 <= n < 10 then "0" + Itoa(n) else Itoa(n)
  }

  // ---- printing -----------------------------------------------------------------------------

  /** Threes from the right, a space between. */
  function Grouped(s: string): string {
    if |s| <= 3 then s else Grouped(s[..|s| - 3]) + " " + s[|s| - 3..]
  }

  function Amount(minor: int): string
    requires Int64.Fits(minor)
  {
    var size := if minor < 0 then Int64.Wrap(-minor) else minor;
    var whole := Int64.Quo(size, 100);
    (if minor < 0 then "-" else "") + Grouped(Itoa(whole)) + "," + TwoDigits(size - whole * 100)
  }

  function FormatMinor(minor: int, currency: string): string
    requires Int64.Fits(minor)
  {
    Amount(minor) + " " + currency
  }

  /** The digit loop, a space wherever a multiple of three digits is left. */
  method Group(whole: string) returns (grouped: string)
    ensures grouped == Grouped(whole)
  {
    grouped := "";
    for i := 0 to |whole|
      invariant grouped == GroupedUpTo(whole, i)
    {
      if i > 0 && (|whole| - i) % 3 == 0 {
        grouped := grouped + " ";
      }
      grouped := grouped + [whole[i]];
    }
    UpToIsGrouped(whole);
  }

  method Format(minor: int, currency: string) returns (text: string)
    requires Int64.Fits(minor)
    ensures text == FormatMinor(minor, currency)
  {
    var negative := minor < 0;
    var size := minor;
    if negative {
      size := Int64.Wrap(-minor);
    }
    var whole := Int64.Quo(size, 100);
    var grouped := Group(Itoa(whole));
    var sign := if negative then "-" else "";
    var cents := size - whole * 100;
    AmountParts(minor, sign, whole, cents);
    var amount := sign + grouped + "," + TwoDigits(cents);
    text := amount + " " + currency;
  }

  /** What the loop has written after i digits of s. */
  function GroupedUpTo(s: string, i: nat): string
    requires i <= |s|
  {
    if i == 0 then ""
    else
      GroupedUpTo(s, i - 1)
      + (if i - 1 > 0 && (|s| - (i - 1)) % 3 == 0 then " " else "") + [s[i - 1]]
  }

  /** Three more digits at the end do not change what was written before them. */
  lemma {:induction false} UpToLonger(s: string, tail: string, i: nat)
    requires |tail| == 3 && i <= |s|
    ensures GroupedUpTo(s + tail, i) == GroupedUpTo(s, i)
  {
    if i > 0 {
      UpToLonger(s, tail, i - 1);
    }
  }

  lemma ThreeMore(s: string, n: nat)
    requires n > 0 && |s| == n + 3
    ensures GroupedUpTo(s, n + 3) == GroupedUpTo(s, n) + " " + s[n..]
  {
    var written := GroupedUpTo(s, n);
    assert GroupedUpTo(s, n + 1) == written + " " + [s[n]];
    assert GroupedUpTo(s, n + 2) == written + " " + [s[n], s[n + 1]];
    assert s[n..] == [s[n], s[n + 1]] + [s[n + 2]];
  }

  lemma {:induction false} UpToIsGrouped(s: string)
    ensures GroupedUpTo(s, |s|) == Grouped(s)
  {
    if |s| <= 3 {
      UpToShort(s, |s|);
    } else {
      var n := |s| - 3;
      UpToIsGrouped(s[..n]);
      UpToLonger(s[..n], s[n..], n);
      assert s == s[..n] + s[n..];
      ThreeMore(s, n);
    }
  }

  lemma {:induction false} UpToShort(s: string, i: nat)
    requires |s| <= 3 && i <= |s|
    ensures GroupedUpTo(s, i) == s[..i]
  {
    if i > 0 {
      UpToShort(s, i - 1);
      assert s[..i] == s[..i - 1] + [s[i - 1]];
    }
  }

  // ---- reading it back ------------------------------------------------------------------------

  /** Without spaces and the decimal comma. */
  function Bare(s: string): string {
    if s == "" then ""
    else Bare(s[..|s| - 1]) + if s[|s| - 1] == ' ' || s[|s| - 1] == ',' then "" else [s[|s| - 1]]
  }

  function Number(s: string): Option<int> {
    if s == "" then Some(0)
    else
      match Number(s[..|s| - 1])
      case None => None
      case Some(n) => if IsDigit(s[|s| - 1]) then Some(10 * n + ValueOf(s[|s| - 1])) else None
  }

  function Signed(s: string): Option<int> {
    if s != "" && s[0] == '-' then
      match Number(s[1..])
      case None => None
      case Some(n) => Some(-n)
    else
      match Number(s)
      case None => None
      case Some(n) => Some(n)
  }

  /** What a reader makes of a printed amount: the currency off the end, the spaces
      and the comma out, and a number, if it is one. */
  function ReadMinor(text: string, currency: string): Option<int> {
    if |text| <= |currency| then None
    else Signed(Bare(text[..|text| - |currency| - 1]))
  }

  lemma {:induction false} BareAppends(a: string, b: string)
    ensures Bare(a + b) == Bare(a) + Bare(b)
  {
    if b == "" {
      assert a + b == a;
    } else {
      var n := |b| - 1;
      assert (a + b)[..|a + b| - 1] == a + b[..n];
      BareAppends(a, b[..n]);
    }
  }

  lemma {:induction false} BareKeeps(s: string)
    requires forall i | 0 <= i < |s| :: s[i] != ' ' && s[i] != ','
    ensures Bare(s) == s
  {
    if s != "" {
      BareKeeps(s[..|s| - 1]);
      assert s == s[..|s| - 1] + [s[|s| - 1]];
    }
  }

  ghost predicate Plain(s: string) {
    forall i | 0 <= i < |s| :: s[i] != ' ' && s[i] != ','
  }

  lemma BareParted(a: string, separator: string, b: string)
    requires separator == " " || separator == ","
    ensures Bare(a + separator + b) == Bare(a) + Bare(b)
  {
    BareAppends(a + separator, b);
    assert (a + separator)[..|a|] == a;
  }

  lemma {:induction false} UngroupedAgain(s: string)
    requires Plain(s)
    ensures Bare(Grouped(s)) == s
  {
    if |s| <= 3 {
      BareKeeps(s);
    } else {
      var head, tail := s[..|s| - 3], s[|s| - 3..];
      UngroupedAgain(head);
      BareKeeps(tail);
      BareParted(Grouped(head), " ", tail);
      assert s == head + tail;
    }
  }

  lemma {:induction false} NumberOfDigits(n: nat)
    ensures Number(Digits(n)) == Some(n)
  {
    if n < 10 {
      assert [Digit(n)][..0] == "";
    } else {
      NumberOfDigits(n / 10);
      var s := Digits(n);
      assert s[..|s| - 1] == Digits(n / 10);
    }
  }

  lemma CentsAreTwoDigits(cents: nat)
    requires cents < 100
    ensures TwoDigits(cents) == [Digit(cents / 10), Digit(cents % 10)]
  {
    if cents >= 10 {
      assert Digits(cents / 10) == [Digit(cents / 10)];
    }
  }

  lemma NumberAppends(s: string, d: nat)
    requires d < 10 && Number(s).Some?
    ensures Number(s + [Digit(d)]) == Some(10 * Number(s).value + d)
  {
    assert (s + [Digit(d)])[..|s|] == s;
  }

  lemma NumberWithCents(whole: nat, cents: nat)
    requires cents < 100
    ensures Number(Digits(whole) + TwoDigits(cents)) == Some(100 * whole + cents)
  {
    var s := Digits(whole);
    NumberOfDigits(whole);
    CentsAreTwoDigits(cents);
    NumberAppends(s, cents / 10);
    NumberAppends(s + [Digit(cents / 10)], cents % 10);
    assert s + TwoDigits(cents) == s + [Digit(cents / 10)] + [Digit(cents % 10)];
  }

  lemma {:induction false} NotANumber(s: string)
    requires s != "" && !IsDigit(s[0])
    ensures Number(s) == None
  {
    if |s| > 1 {
      NotANumber(s[..|s| - 1]);
    }
  }

  lemma Associates(a: string, b: string, c: string)
    ensures a + b + c == a + (b + c)
  {
  }

  lemma BareAmount(sign: string, grouped: string, cents: string)
    requires Plain(sign) && Plain(cents)
    ensures Bare(sign + grouped + "," + cents) == sign + (Bare(grouped) + cents)
  {
    BareParted(sign + grouped, ",", cents);
    BareAppends(sign, grouped);
    BareKeeps(sign);
    BareKeeps(cents);
    Associates(sign, Bare(grouped), cents);
  }

  lemma SignedDigits(sign: string, digits: string, n: int)
    requires sign == "" || sign == "-"
    requires digits != "" && digits[0] != '-' && Number(digits) == Some(n)
    ensures Signed(sign + digits) == Some(if sign == "" then n else -n)
  {
    if sign == "" {
      assert sign + digits == digits;
    } else {
      assert (sign + digits)[1..] == digits;
    }
  }

  lemma AmountParts(minor: int, sign: string, whole: int, cents: int)
    requires Int64.Fits(minor) && sign == if minor < 0 then "-" else ""
    requires var size := if minor < 0 then Int64.Wrap(-minor) else minor;
             whole == Int64.Quo(size, 100) && cents == size - whole * 100
    ensures Amount(minor) == sign + Grouped(Itoa(whole)) + "," + TwoDigits(cents)
  {
  }

  lemma PartsReadBack(sign: string, whole: string, cents: string, n: int)
    requires sign == "" || sign == "-"
    requires Plain(whole) && Plain(cents) && whole != "" && whole[0] != '-'
    requires Number(whole + cents) == Some(n)
    ensures Signed(Bare(sign + Grouped(whole) + "," + cents)) == Some(if sign == "" then n else -n)
  {
    BareAmount(sign, Grouped(whole), cents);
    UngroupedAgain(whole);
    SignedDigits(sign, whole + cents, n);
  }

  lemma AmountReadsBack(minor: int)
    requires Int64.MIN < minor <= Int64.MAX
    ensures Signed(Bare(Amount(minor))) == Some(minor)
  {
    var size := Int64.Abs(minor);
    var whole: nat, cents: nat := size / 100, size % 100;
    var sign := if minor < 0 then "-" else "";
    AmountParts(minor, sign, whole, cents);
    NumberWithCents(whole, cents);
    CentsAreTwoDigits(cents);
    PartsReadBack(sign, Digits(whole), TwoDigits(cents), size);
  }

  /** A sign where digits should be. */
  lemma SignInside(whole: string, cents: string)
    requires whole != "" && whole[0] == '-' && Plain(whole) && Plain(cents)
    ensures Signed(Bare("-" + Grouped(whole) + "," + cents)) == None
  {
    BareAmount("-", Grouped(whole), cents);
    UngroupedAgain(whole);
    assert ("-" + (whole + cents))[1..] == whole + cents;
    NotANumber(whole + cents);
  }

  /** The smallest amount has no opposite, so its whole part and its cents each bring a
      sign of their own. */
  lemma MinimumIsUnreadable()
    ensures Signed(Bare(Amount(Int64.MIN))) == None
  {
    var size := Int64.Wrap(-Int64.MIN);
    var whole := Int64.Quo(size, 100);
    var cents := size - whole * 100;
    AmountParts(Int64.MIN, "-", whole, cents);
    NegativeIsUnreadable(whole, cents);
  }

  lemma NegativeIsUnreadable(whole: int, cents: int)
    requires whole < 0
    ensures Signed(Bare("-" + Grouped(Itoa(whole)) + "," + TwoDigits(cents))) == None
  {
    SignInside(Itoa(whole), TwoDigits(cents));
  }

  lemma CurrencyComesLast(amount: string, currency: string)
    ensures var text := amount + " " + currency;
            text[..|text| - |currency| - 1] == amount && text[|text| - |currency|..] == currency
  {
  }

  lemma TextReadsAs(amount: string, currency: string)
    ensures ReadMinor(amount + " " + currency, currency) == Signed(Bare(amount))
  {
    CurrencyComesLast(amount, currency);
  }

  /** Printing loses nothing: every amount but the very smallest is read back from
      its text, and that one is not. */
  lemma ReadsBack(minor: int, currency: string)
    requires Int64.Fits(minor)
    ensures ReadMinor(FormatMinor(minor, currency), currency) == Some(minor) <==> minor > Int64.MIN
  {
    TextReadsAs(Amount(minor), currency);
    if minor > Int64.MIN {
      AmountReadsBack(minor);
    } else {
      MinimumIsUnreadable();
    }
  }

  lemma SameTail(a: string, b: string, currency: string, other: string)
    requires |currency| == |other| && a + " " + currency == b + " " + other
    ensures currency == other
  {
    CurrencyComesLast(a, currency);
    CurrencyComesLast(b, other);
  }

  /** So distinct amounts, or amounts of distinct currencies, never print alike. */
  lemma PrintsApart(x: int, y: int, currency: string, other: string)
    requires Int64.MIN < x <= Int64.MAX && Int64.MIN < y <= Int64.MAX && |currency| == |other|
    requires FormatMinor(x, currency) == FormatMinor(y, other)
    ensures x == y && currency == other
  {
    SameTail(Amount(x), Amount(y), currency, other);
    ReadsBack(x, currency);
    ReadsBack(y, currency);
  }

  lemma LastFour(head: string, tail: string, k: nat)
    requires |tail| == 3 && Plain(tail) && k < |head| + 4
    ensures var g := head + " " + tail;
            && (k < 3 ==> g[|g| - 1 - k] != ' ') && (k == 3 ==> g[|g| - 1 - k] == ' ')
            && (k > 3 ==> g[|g| - 1 - k] == head[|head| - 1 - (k - 4)])
  {
    var g := head + " " + tail;
    if k < 3 {
      assert g[|g| - 1 - k] == tail[2 - k];
    }
  }

  /** Counting from the right, every fourth character is a space and no other is:
      groups of exactly three, and a first one of one to three. */
  lemma {:induction false} GroupsOfThree(s: string, k: nat)
    requires s != "" && Plain(s) && k < |Grouped(s)|
    ensures |Grouped(s)| % 4 != 0
    ensures Grouped(s)[|Grouped(s)| - 1 - k] == ' ' <==> k % 4 == 3
  {
    if |s| > 3 {
      var front, tail := s[..|s| - 3], s[|s| - 3..];
      var head := Grouped(front);
      assert Grouped(s) == head + " " + tail;
      LastFour(head, tail, k);
      if k >= 4 {
        GroupsOfThree(front, k - 4);
        FourBack(k);
      } else {
        GroupsOfThree(front, 0);
      }
      FourBack(|head| + 4);
    }
  }

  lemma FourBack(k: nat)
    requires k >= 4
    ensures k % 4 == (k - 4) % 4
  {
  }
}
