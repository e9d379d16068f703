/** The relative request paths of the remote API (Internal/Endpoints.cs): the
    login endpoint under API version 2207 and the per-account resources under
    version 2004, with the calendar year and month written by .NET's "D4" and
    "D2" integer formats. */
module Endpoints {

  const BaseUrl := "https://rest.cozi.com/"

  /** The authentication endpoint. */
  const Login := "api/ext/2207/auth/login"

  /** The root of every per-account path of API version 2004. */
  function AccountPrefix(accountId: string): string
  {
    "api/ext/2004/" + accountId + "/"
  }

  function Lists(accountId: string): string
  {
    "api/ext/2004/" + accountId + "/list/"
  }

  function ListById(accountId: string, listId: string): string
  {
    "api/ext/2004/" + accountId + "/list/" + listId
  }

  function CalendarMonth(accountId: string, year: int, month: int): string
  {
    "api/ext/2004/" + accountId + "/calendar/" + FormatD(year, 4) + "/" + FormatD(month, 2)
  }

  function People(accountId: string): string
  {
    "api/ext/2004/" + accountId + "/account/person/"
  }

  predicate IsPrefix(p: string, s: string)
  {
    |p| <= |s| && s[..|p|] == p
  }

  predicate IsSuffix(p: string, s: string)
  {
    |p| <= |s| && s[|s| - |p|..] == p
  }

  // ---------------------------------------------------------------------
  // Integer formatting ("D<width>") and its inverse.
  // ---------------------------------------------------------------------

  predicate IsDigit(c: char)
  {
    '0' <= c <= '9'
  }

  function DigitChar(d: int): char
    requires 0 <= d <= 9
  {
    ('0' as int + d) as char
  }

  function DigitValue(c: char): int
  {
    c as int - '0' as int
  }

  /** The decimal digits of `n`, without leading zeros ("0" for zero). */
  function Digits(n: nat): (s: string)
    ensures |s| >= 1
    ensures forall i :: 0 <= i < |s| ==> IsDigit(s[i])
  {
    if n < 10 then [DigitChar(n)] else Digits(n / 10) + [DigitChar(n % 10)]
  }

  function Zeros(k: nat): (s: string)
    ensures |s| == k
  {
    seq(k, _ => '0')
  }

  function PadLeft(s: string, width: nat): string
  {
    if |s| >= width then s else Zeros(width - |s|) + s
  }

  /** `n.ToString("D" + width)`: a minus sign for a negative number, then its
      digits padded with zeros on the left to at least `width` of them. */
  function FormatD(n: int, width: nat): string
  {
    if n < 0 then "-" + PadLeft(Digits(-n), width) else PadLeft(Digits(n), width)
  }

  /** The number a string of decimal digits denotes. */
  function DecimalValue(s: string): int
  {
    if s == [] then 0 else DecimalValue(s[..|s| - 1]) * 10 + DigitValue(s[|s| - 1])
  }

  /** Reads an optionally signed decimal numeral. */
  function ParseD(s: string): int
  {
    if |s| > 0 && s[0] == '-' then -DecimalValue(s[1..]) else DecimalValue(s)
  }

  function Pow10(k: nat): nat
  {
    if k == 0 then 1 else 10 * Pow10(k - 1)
  }

  lemma {:induction false} DigitsValue(n: nat)
    ensures DecimalValue(Digits(n)) == n
  {
    if n >= 10 {
      DigitsValue(n / 10);
      var s := Digits(n);
      assert s[..|s| - 1] == Digits(n / 10);
    }
  }

  lemma {:induction false} ZerosValue(k: nat, s: string)
    ensures DecimalValue(Zeros(k) + s) == DecimalValue(s)
    decreases |s|, k
  {
    if s == [] {
      assert Zeros(k) + s == Zeros(k);
      if k > 0 {
        assert Zeros(k)[..k - 1] == Zeros(k - 1) + [];
        ZerosValue(k - 1, []);
      }
    } else {
      var t := Zeros(k) + s;
      assert t[..|t| - 1] == Zeros(k) + s[..|s| - 1];
      ZerosValue(k, s[..|s| - 1]);
    }
  }

  lemma {:induction false} DigitsLength(n: nat, k: nat)
    requires 1 <= k && n < Pow10(k)
    ensures |Digits(n)| <= k
  {
    if n >= 10 {
      DigitsLength(n / 10, k - 1);
    }
  }

  /** Formatting then reading back gives the number, for every width, and the
      numeral is at least `width` digits long. */
  lemma FormatDRoundTrip(n: int, width: nat)
    ensures ParseD(FormatD(n, width)) == n
    ensures |FormatD(n, width)| >= width
  {
    var m: nat := if n < 0 then -n else n;
    var d := Digits(m);
    DigitsValue(m);
    var padded := PadLeft(d, width);
    if |d| < width {
      ZerosValue(width - |d|, d);
    }
    assert DecimalValue(padded) == m;
    if n < 0 {
      assert ("-" + padded)[1..] == padded;
    } else {
      assert padded[0] != '-' by {
        if |d| < width { assert padded[0] == '0'; } else { assert IsDigit(d[0]); }
      }
    }
  }

  /** A number below 10^width is written with exactly `width` digits. */
  lemma FormatDFixedWidth(n: int, width: nat)
    requires 1 <= width && 0 <= n < Pow10(width)
    ensures |FormatD(n, width)| == width
  {
    DigitsLength(n, width);
  }

  /** A calendar-month path is the account prefix, "calendar/", four year
      digits, a slash and two month digits, and the two numerals read back as
      the year and the month. */
  lemma CalendarMonthLayout(accountId: string, year: int, month: int)
    requires 0 <= year <= 9999 && 1 <= month <= 12
    ensures var p := CalendarMonth(accountId, year, month);
            var k := |AccountPrefix(accountId)| + 9;
            |p| == k + 7 && p[..k] == AccountPrefix(accountId) + "calendar/" &&
            ParseD(p[k..k + 4]) == year && p[k + 4] == '/' && ParseD(p[k + 5..]) == month
  {
    assert Pow10(4) == 10000 && Pow10(2) == 100;
    FormatDFixedWidth(year, 4);
    FormatDFixedWidth(month, 2);
    FormatDRoundTrip(year, 4);
    FormatDRoundTrip(month, 2);
    var p := CalendarMonth(accountId, year, month);
    var k := |AccountPrefix(accountId)| + 9;
    assert p == (AccountPrefix(accountId) + "calendar/") + FormatD(year, 4) + "/" + FormatD(month, 2);
    assert p[k..k + 4] == FormatD(year, 4);
    assert p[k + 5..] == FormatD(month, 2);
  }

  /** Different months (or years) of one account get different paths. */
  lemma CalendarMonthInjective(accountId: string, y1: int, m1: int, y2: int, m2: int)
    requires 0 <= y1 <= 9999 && 1 <= m1 <= 12
    requires 0 <= y2 <= 9999 && 1 <= m2 <= 12
    requires CalendarMonth(accountId, y1, m1) == CalendarMonth(accountId, y2, m2)
    ensures y1 == y2 && m1 == m2
  {
    CalendarMonthLayout(accountId, y1, m1);
    CalendarMonthLayout(accountId, y2, m2);
  }

  lemma PrefixOfConcat(a: string, b: string)
    ensures IsPrefix(a, a + b)
  {
    assert (a + b)[..|a|] == a;
  }

  /** Login lives under version 2207. */
  lemma LoginVersion()
    ensures IsPrefix("api/ext/2207/", Login)
  {
    PrefixOfConcat("api/ext/2207/", "auth/login");
    assert Login == "api/ext/2207/" + "auth/login";
  }

  lemma UnderPrefix(a: string, rest: string, path: string)
    requires path == a + rest
    ensures IsPrefix(a, path)
  {
    assert (a + rest)[..|a|] == a;
  }

  /** Every per-account path lies under version 2004 and the account's own
      prefix (one lemma per path keeps each proof small). */
  lemma AccountPrefixVersion(accountId: string)
    ensures IsPrefix("api/ext/2004/", AccountPrefix(accountId))
  {
    UnderPrefix("api/ext/2004/", accountId + "/", AccountPrefix(accountId));
  }

  lemma ListsUnderAccount(accountId: string)
    ensures IsPrefix(AccountPrefix(accountId), Lists(accountId))
  {
    UnderPrefix(AccountPrefix(accountId), "list/", Lists(accountId));
  }

  lemma ListByIdUnderAccount(accountId: string, listId: string)
    ensures IsPrefix(AccountPrefix(accountId), ListById(accountId, listId))
  {
    UnderPrefix(AccountPrefix(accountId), "list/" + listId, ListById(accountId, listId));
  }

  lemma CalendarMonthUnderAccount(accountId: string, year: int, month: int)
    ensures IsPrefix(AccountPrefix(accountId), CalendarMonth(accountId, year, month))
  {
    var y, m := FormatD(year, 4), FormatD(month, 2);
    var a := AccountPrefix(accountId);
    var p := CalendarMonth(accountId, year, month);
    assert p == a + "calendar/" + y + "/" + m;
    assert p == a + ("calendar/" + y + "/" + m);
    UnderPrefix(a, "calendar/" + y + "/" + m, p);
  }

  lemma PeopleUnderAccount(accountId: string)
    ensures IsPrefix(AccountPrefix(accountId), People(accountId))
  {
    UnderPrefix(AccountPrefix(accountId), "account/person/", People(accountId));
  }

  /** The list and people collections end with a slash, and a single list's
      path extends the lists path by its id. */
  lemma CollectionPaths(accountId: string, listId: string)
    ensures ListById(accountId, listId) == Lists(accountId) + listId
    ensures IsSuffix("/", Lists(accountId)) && IsSuffix("/", People(accountId))
  {
  }
}
