/** Numbers and addresses as text.

    Printing is `std::to_string`; reading is `std::stoi` and `atoi`, which
    skip spaces, take a sign and the longest run of digits, and differ in what
    they do without digits. An address is printed and read as `ip:port`. Two
    texts can name one number, but no two numbers print to one text. */
module AddressText {
  import opened Packets

  // ----- Printing -----

  function Digit(d: nat): (c: char)
    requires d < 10
    ensures IsDigit(c) && DigitValue(c) == d
  {
    "0123456789"[d]
  }

  predicate IsDigit(c: char) {
    '0' <= c <= '9'
  }

  function DigitValue(c: char): nat
    requires IsDigit(c)
  {
    c as int - '0' as int
  }

  function Decimal(n: nat): (s: string)
    ensures s != [] && forall i :: 0 <= i < |s| ==> IsDigit(s[i])
  {
    if n < 10 then [Digit(n)] else Decimal(n / 10) + [Digit(n % 10)]
  }

  /** `std::to_string` of an int. */
  function ToString(n: int): (s: string)
    ensures s != [] && forall i :: 0 <= i < |s| ==> IsDigit(s[i]) || s[i] == '-'
  {
    if n < 0 then "-" + Decimal(-n) else Decimal(n)
  }

  // ----- Parsing -----

  const INT_MIN := -0x8000_0000
  const INT_MAX := 0x7fff_ffff

  predicate IsSpace(c: char) {
    c == ' ' || '\t' <= c <= '\r'
  }

  function SkipSpaces(s: string): (r: string)
    ensures |r| <= |s| && r == s[|s| - |r|..]
    ensures forall i :: 0 <= i < |s| - |r| ==> IsSpace(s[i])
    ensures r != [] ==> !IsSpace(r[0])
  {
    if s != [] && IsSpace(s[0]) then SkipSpaces(s[1..]) else s
  }

  /** The number that the longest prefix of digits continues. */
  function DigitsFrom(s: string, acc: nat): nat {
    if s == [] || !IsDigit(s[0]) then acc else DigitsFrom(s[1..], 10 * acc + DigitValue(s[0]))
  }

  /** Spaces, a sign perhaps, then digits: what follows them does not matter. */
  function Leading(s: string): Option<int> {
    var t := SkipSpaces(s);
    var signed := t != [] && (t[0] == '-' || t[0] == '+');
    var u := if signed then t[1..] else t;
    if u == [] || !IsDigit(u[0]) then None
    else Some(if signed && t[0] == '-' then 0 - DigitsFrom(u, 0) else DigitsFrom(u, 0))
  }

  /** `std::stoi`: None where it throws, without digits or out of range. */
  function Stoi(s: string): Option<int> {
    match Leading(s)
    case None => None
    case Some(n) => if INT_MIN <= n <= INT_MAX then Some(n) else None
  }

  // ----- What digits mean -----

  function Power(base: nat, k: nat): nat {
    if k == 0 then 1 else base * Power(base, k - 1)
  }

  predicate AllDigits(s: string) {
    forall i :: 0 <= i < |s| ==> IsDigit(s[i])
  }

  /** The digits' values, each times ten to the power of the digits behind it. */
  function Positional(s: string): nat
    requires AllDigits(s)
  {
    if s == [] then 0 else DigitValue(s[0]) * Power(10, |s| - 1) + Positional(s[1..])
  }

  /** Digits are read as decimal: what has been read before counts as many
      times ten as digits follow. */
  lemma {:induction false} ReadsDecimal(s: string, rest: string, acc: nat)
    requires AllDigits(s) && (rest == [] || !IsDigit(rest[0]))
    ensures DigitsFrom(s + rest, acc) == acc * Power(10, |s|) + Positional(s)
    decreases |s|
  {
    if s == [] {
      assert s + rest == rest;
    } else {
      assert (s + rest)[0] == s[0] && (s + rest)[1..] == s[1..] + rest;
      var d := DigitValue(s[0]);
      ReadsDecimal(s[1..], rest, 10 * acc + d);
      Distribute(acc, d, Power(10, |s| - 1));
    }
  }

  lemma Distribute(acc: nat, d: nat, p: nat)
    ensures (10 * acc + d) * p == acc * (10 * p) + d * p
  {
  }

  /** A number is printed in as many digits as it needs: at most k exactly
      below the k-th power of ten. */
  lemma {:induction false} DecimalLength(n: nat, k: nat)
    requires k >= 1
    ensures |Decimal(n)| <= k <==> n < Power(10, k)
    decreases k
  {
    if k == 1 {
      assert Power(10, 1) == 10 * Power(10, 0) == 10;
      if n >= 10 {
        assert |Decimal(n)| == |Decimal(n / 10)| + 1;
      }
    } else if n < 10 {
      PowerGrows(k);
    } else {
      assert |Decimal(n)| == |Decimal(n / 10)| + 1;
      DecimalLength(n / 10, k - 1);
      DividedByTen(n, Power(10, k - 1));
    }
  }

  lemma DividedByTen(n: nat, p: nat)
    ensures n / 10 < p <==> n < 10 * p
  {
  }

  lemma {:induction false} PowerGrows(k: nat)
    requires k >= 1
    ensures Power(10, k) >= 10
    decreases k
  {
    if k == 1 {
      assert Power(10, 0) == 1;
    } else {
      PowerGrows(k - 1);
    }
  }

  /** Printing is decimal: the digits' positional value is the number. */
  lemma PrintsDecimal(n: nat)
    ensures AllDigits(Decimal(n)) && Positional(Decimal(n)) == n
  {
    hide Decimal;
    ReadsDecimal(Decimal(n), [], 0);
    DigitsOfDecimal(n, []);
    assert Decimal(n) + [] == Decimal(n);
  }

  lemma {:induction false} DigitsOfDecimal(n: nat, rest: string)
    ensures DigitsFrom(Decimal(n) + rest, 0) == DigitsFrom(rest, n)
  {
    if n < 10 {
      assert (Decimal(n) + rest)[1..] == rest;
    } else {
      var tail := [Digit(n % 10)] + rest;
      assert Decimal(n) + rest == Decimal(n / 10) + tail;
      DigitsOfDecimal(n / 10, tail);
      assert tail[1..] == rest;
    }
  }

  lemma NothingToSkip(s: string)
    requires s != [] && (IsDigit(s[0]) || s[0] == '-')
    ensures SkipSpaces(s) == s
  {
  }

  lemma LeadingDecimal(n: nat, rest: string)
    requires rest == [] || !IsDigit(rest[0])
    ensures Leading(Decimal(n) + rest) == Some(n)
  {
    hide Decimal, SkipSpaces;
    var s := Decimal(n) + rest;
    assert s[0] == Decimal(n)[0] && IsDigit(s[0]);
    NothingToSkip(s);
    DigitsOfDecimal(n, rest);
    assert DigitsFrom(rest, n) == n;
  }

  lemma LeadingNegative(n: nat, rest: string)
    requires rest == [] || !IsDigit(rest[0])
    ensures Leading("-" + Decimal(n) + rest) == Some(0 - n)
  {
    hide Decimal, SkipSpaces;
    var s := "-" + Decimal(n) + rest;
    var u := Decimal(n) + rest;
    assert s[0] == '-' && s[1..] == u && u[0] == Decimal(n)[0];
    NothingToSkip(s);
    DigitsOfDecimal(n, rest);
    assert DigitsFrom(rest, n) == n;
  }

  // ----- Exactly what is read -----

  predicate IsSign(sign: string) {
    sign == "" || sign == "+" || sign == "-"
  }

  /** The text begins with spaces, a sign perhaps, and a run of digits. */
  ghost predicate Shaped(s: string, spaces: string, sign: string, digits: string, rest: string) {
    s == spaces + (sign + (digits + rest))
    && (forall i :: 0 <= i < |spaces| ==> spaces[i] as int in {9, 10, 11, 12, 13, 32})
    && IsSign(sign)
    && digits != [] && AllDigits(digits) && (rest == [] || !IsDigit(rest[0]))
  }

  lemma {:induction false} SpacesSkipped(spaces: string, t: string)
    requires forall i :: 0 <= i < |spaces| ==> IsSpace(spaces[i])
    requires t != [] && !IsSpace(t[0])
    ensures SkipSpaces(spaces + t) == t
  {
    if spaces == [] {
      assert spaces + t == t;
    } else {
      assert (spaces + t)[1..] == spaces[1..] + t;
      SpacesSkipped(spaces[1..], t);
    }
  }

  lemma {:induction false} RunOfDigits(u: string) returns (digits: string, rest: string)
    ensures u == digits + rest && AllDigits(digits) && (rest == [] || !IsDigit(rest[0]))
    ensures u != [] && IsDigit(u[0]) ==> digits != []
  {
    if u == [] || !IsDigit(u[0]) {
      digits, rest := [], u;
    } else {
      digits, rest := RunOfDigits(u[1..]);
      digits := [u[0]] + digits;
    }
  }

  lemma SpaceCodes(c: char)
    ensures IsSpace(c) <==> c as int in {9, 10, 11, 12, 13, 32}
  {
  }

  lemma SpacesBefore(spaces: string, t: string)
    requires forall i :: 0 <= i < |spaces| ==> spaces[i] as int in {9, 10, 11, 12, 13, 32}
    requires t != [] && (IsDigit(t[0]) || t[0] in {'+', '-'})
    ensures SkipSpaces(spaces + t) == t
  {
    hide SkipSpaces;
    forall i | 0 <= i < |spaces|
      ensures IsSpace(spaces[i])
    {
      SpaceCodes(spaces[i]);
    }
    SpacesSkipped(spaces, t);
  }

  /** A sign, if there is one, and what it does to the number. */
  lemma LeadingSigned(s: string, sign: string, u: string)
    requires SkipSpaces(s) == sign + u && IsSign(sign) && u != [] && IsDigit(u[0])
    ensures Leading(s) == Some(if sign == "-" then 0 - DigitsFrom(u, 0) else DigitsFrom(u, 0))
  {
    hide SkipSpaces, DigitsFrom;
    var t := SkipSpaces(s);
    if sign == "" {
      assert t == u;
      assert t[0] != '-' && t[0] != '+';
    } else if sign == "+" {
      assert t[0] == '+' && t[1..] == u;
    } else {
      assert t[0] == '-' && t[1..] == u;
    }
  }

  lemma ShapedLeads(s: string, spaces: string, sign: string, digits: string, rest: string)
    requires Shaped(s, spaces, sign, digits, rest)
    ensures Leading(s) == Some(if sign == "-" then 0 - Positional(digits) else Positional(digits))
  {
    hide Positional, SkipSpaces, DigitsFrom, Leading, AllDigits;
    var u := digits + rest;
    FirstIsDigit(digits, rest);
    SignFirst(sign, u);
    SpacesBefore(spaces, sign + u);
    LeadingSigned(s, sign, u);
    ReadsDecimal(digits, rest, 0);
  }

  lemma FirstIsDigit(digits: string, rest: string)
    requires digits != [] && AllDigits(digits)
    ensures digits + rest != [] && IsDigit((digits + rest)[0])
  {
  }

  lemma SignFirst(sign: string, u: string)
    requires IsSign(sign) && u != [] && IsDigit(u[0])
    ensures sign + u != [] && (IsDigit((sign + u)[0]) || (sign + u)[0] in {'+', '-'})
  {
    if sign == "" {
      assert sign + u == u;
    }
  }

  lemma SignOf(t: string) returns (sign: string)
    ensures IsSign(sign) && |sign| <= |t| && t == sign + t[|sign|..]
    ensures |sign| == if t != [] && (t[0] == '-' || t[0] == '+') then 1 else 0
  {
    sign := if t != [] && (t[0] == '-' || t[0] == '+') then [t[0]] else "";
  }

  lemma LeadsShaped(s: string) returns (spaces: string, sign: string, digits: string, rest: string)
    requires Leading(s).Some?
    ensures Shaped(s, spaces, sign, digits, rest)
  {
    hide *;
    var t := SkipSpaces(s);
    spaces := s[..|s| - |t|];
    SpacesAre(s);
    sign := SignOf(t);
    LeadingHasDigit(s, sign);
    digits, rest := RunOfDigits(t[|sign|..]);
    InParts(s, spaces, t, sign, t[|sign|..], digits, rest);
  }

  lemma InParts(s: string, spaces: string, t: string, sign: string, u: string, digits: string, rest: string)
    requires s == spaces + t && t == sign + u && u == digits + rest
    requires forall i :: 0 <= i < |spaces| ==> spaces[i] as int in {9, 10, 11, 12, 13, 32}
    requires IsSign(sign) && digits != [] && AllDigits(digits) && (rest == [] || !IsDigit(rest[0]))
    ensures Shaped(s, spaces, sign, digits, rest)
  {
    hide IsSign, AllDigits;
  }

  lemma LeadingHasDigit(s: string, sign: string)
    requires Leading(s).Some? && |sign| == if SkipSpaces(s) != [] && SkipSpaces(s)[0] in {'-', '+'} then 1 else 0
    ensures |sign| < |SkipSpaces(s)| && IsDigit(SkipSpaces(s)[|sign|])
  {
    hide SkipSpaces, DigitsFrom;
  }

  lemma SpacesAre(s: string)
    ensures var n := |s| - |SkipSpaces(s)|;
      0 <= n <= |s| && forall i :: 0 <= i < n ==> s[..n][i] as int in {9, 10, 11, 12, 13, 32}
  {
    var n := |s| - |SkipSpaces(s)|;
    forall i | 0 <= i < n
      ensures s[i] as int in {9, 10, 11, 12, 13, 32}
    {
      SpaceCodes(s[i]);
    }
  }

  function Signed(sign: string, digits: string): int
    requires AllDigits(digits)
  {
    if sign == "-" then 0 - Positional(digits) else Positional(digits)
  }

  /** The text begins with the number n. */
  ghost predicate BeginsWith(s: string, n: int) {
    exists spaces, sign, digits, rest :: Shaped(s, spaces, sign, digits, rest) && n == Signed(sign, digits)
  }

  lemma ShapedBegins(s: string, spaces: string, sign: string, digits: string, rest: string)
    requires Shaped(s, spaces, sign, digits, rest)
    ensures AllDigits(digits) && BeginsWith(s, Signed(sign, digits))
  {
  }

  lemma BeginsShaped(s: string, n: int) returns (spaces: string, sign: string, digits: string, rest: string)
    requires BeginsWith(s, n)
    ensures Shaped(s, spaces, sign, digits, rest) && AllDigits(digits) && n == Signed(sign, digits)
  {
    hide Positional;
    spaces, sign, digits, rest :| Shaped(s, spaces, sign, digits, rest) && n == Signed(sign, digits);
  }

  /** What `std::stoi` reads: the decimal number after spaces and a sign, if it
      fits an int, and nothing otherwise. */
  lemma StoiExactly(s: string, n: int)
    ensures Stoi(s) == Some(n) <==> -2147483648 <= n <= 2147483647 && BeginsWith(s, n)
  {
    hide Leading, Positional;
    if Leading(s).Some? {
      var spaces, sign, digits, rest := LeadsShaped(s);
      ShapedLeads(s, spaces, sign, digits, rest);
    }
    if BeginsWith(s, n) {
      var spaces, sign, digits, rest :| Shaped(s, spaces, sign, digits, rest) && n == Signed(sign, digits);
      ShapedLeads(s, spaces, sign, digits, rest);
    }
  }

  /** Whatever an int prints as reads back as that int, followed by anything
      but another digit. */
  lemma StoiOfToString(n: int, rest: string)
    requires INT_MIN <= n <= INT_MAX
    requires rest == [] || !IsDigit(rest[0])
    ensures Stoi(ToString(n) + rest) == Some(n)
  {
    hide Decimal, Leading;
    if n < 0 {
      LeadingNegative(-n, rest);
    } else {
      LeadingDecimal(n, rest);
    }
  }

  /** So different ints print differently. */
  lemma ToStringInjective(m: int, n: int)
    requires INT_MIN <= m <= INT_MAX && INT_MIN <= n <= INT_MAX
    requires ToString(m) == ToString(n)
    ensures m == n
  {
    StoiOfToString(m, []);
    StoiOfToString(n, []);
    assert ToString(m) + [] == ToString(n) + [];
  }

  // ----- Addresses -----

  datatype Address = Address(ip: string, port: int)

  /** The result of a parse: it may throw, or yield a null pointer. */
  datatype Parsed = Threw | Null | Parsed(address: Address)

  function IndexOf(s: string, c: char): (i: nat)
    ensures i <= |s| && (i < |s| ==> s[i] == c) && forall j :: 0 <= j < i ==> s[j] != c
  {
    if s == [] || s[0] == c then 0 else
      var i := 1 + IndexOf(s[1..], c);
      assert forall j :: 0 < j < i ==> s[j] == s[1..][j - 1];
      i
  }

  /** Split at the first colon; null without one, or with one at either end. */
  function AddressFromString(str: string): Parsed {
    var colon := IndexOf(str, ':');
    if colon == |str| || colon == 0 || colon == |str| - 1 then Null
    else
      match Stoi(str[colon + 1..])
      case None => Threw
      case Some(port) => Parsed(Address(str[..colon], port))
  }

  function AddressToString(a: Address): string {
    a.ip + ":" + ToString(a.port)
  }

  /** The text is an ip without a colon, a colon, and more. */
  ghost predicate Splits(str: string, ip: string, text: string) {
    str == ip + (":" + text) && ip != [] && ':' !in ip && text != []
  }

  /** What is read as an address: an ip, a colon, and what `std::stoi` reads;
      where that throws, reading the address does, and without the three parts
      the result is null. */
  lemma AddressExactly(str: string)
    ensures AddressFromString(str) == Null <==> !exists ip, text :: Splits(str, ip, text)
    ensures forall ip, text :: Splits(str, ip, text) ==>
              AddressFromString(str) == match Stoi(text) case None => Threw case Some(port) => Parsed(Address(ip, port))
  {
    hide Stoi;
    var colon := IndexOf(str, ':');
    if 0 < colon < |str| - 1 {
      assert str == str[..colon] + (":" + str[colon + 1..]);
      assert Splits(str, str[..colon], str[colon + 1..]);
    }
    forall ip, text | Splits(str, ip, text)
      ensures 0 < colon < |str| - 1 && str[..colon] == ip && str[colon + 1..] == text
    {
      ColonAt(ip, text);
    }
  }

  lemma ColonAt(ip: string, text: string)
    requires ':' !in ip
    ensures var str := ip + (":" + text);
      IndexOf(str, ':') == |ip| && |ip| < |str| && str[..|ip|] == ip && str[|ip| + 1..] == text
  {
    var str := ip + (":" + text);
    assert str[|ip|] == ':';
    assert forall j :: 0 <= j < |ip| ==> str[j] == ip[j];
  }

  /** An address reads back as it was printed, whatever follows the port but a
      digit, exactly when its ip is not empty and has no colon. */
  lemma AddressRoundTrip(a: Address, rest: string)
    requires INT_MIN <= a.port <= INT_MAX && (rest == [] || !IsDigit(rest[0]))
    ensures AddressFromString(AddressToString(a) + rest) == Parsed(a) <==> a.ip != [] && ':' !in a.ip
  {
    hide ToString, Stoi;
    var str := AddressToString(a) + rest;
    var colon := IndexOf(str, ':');
    assert str[|a.ip|] == ':';
    if a.ip != [] && ':' !in a.ip {
      assert forall j :: 0 <= j < |a.ip| ==> str[j] == a.ip[j];
      assert colon == |a.ip|;
      assert str[colon + 1..] == ToString(a.port) + rest;
      assert str[..colon] == a.ip;
      StoiOfToString(a.port, rest);
    }
  }

  lemma Eight()
    ensures Decimal(8000) == "8000"
  {
    assert Decimal(8) == "8";
    assert Decimal(80) == "80";
    assert Decimal(800) == "800";
  }

  lemma Seven()
    ensures Decimal(7999) == "7999"
  {
    assert Decimal(7) == "7";
    assert Decimal(79) == "79";
    assert Decimal(799) == "799";
  }

  /** The first container's address and ports as the program writes them. */
  lemma AddressSamples()
    ensures ToString(8000) == "8000" && ToString(7999) == "7999" && Stoi("8000") == Some(8000)
    ensures AddressToString(Address("173.16.1.2", 8000)) == "173.16.1.2:8000"
    ensures AddressFromString("173.16.1.2:8000") == Parsed(Address("173.16.1.2", 8000))
  {
    hide Stoi, AddressFromString, Decimal;
    Eight();
    Seven();
    StoiOfToString(8000, []);
    assert ToString(8000) + [] == ToString(8000);
    var a := Address("173.16.1.2", 8000);
    assert a.ip + ":" + "8000" == "173.16.1.2:8000";
    AddressRoundTrip(a, []);
    assert AddressToString(a) + [] == AddressToString(a);
  }
}
