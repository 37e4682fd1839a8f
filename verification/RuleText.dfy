/** The text form that `iptables-restore` reads: numbers, words, lines and CIDR ranges,
    each with the reading that undoes the writing. */
module RuleText {
  import opened HostModel

  // ---------- separators ----------

  function Join(parts: seq<string>, sep: char): string {
    if parts == [] then "" else if |parts| == 1 then parts[0] else parts[0] + [sep] + Join(parts[1..], sep)
  }

  function Split(s: string, sep: char): (r: seq<string>)
    ensures |r| > 0
  {
    if s == "" then [""]
    else if s[0] == sep then [""] + Split(s[1..], sep)
    else var rest := Split(s[1..], sep); [[s[0]] + rest[0]] + rest[1..]
  }

  lemma {:induction false} SplitFirst(part: string, rest: string, sep: char)
    requires sep !in part
    ensures Split(part + [sep] + rest, sep) == [part] + Split(rest, sep)
    decreases |part|
  {
    var s := part + [sep] + rest;
    if part == "" {
      assert s[1..] == rest;
    } else {
      SplitFirst(part[1..], rest, sep);
      assert s[1..] == part[1..] + [sep] + rest && s[0] == part[0];
      assert part == [part[0]] + part[1..];
    }
  }

  lemma {:induction false} SplitWhole(part: string, sep: char)
    requires sep !in part
    ensures Split(part, sep) == [part]
    decreases |part|
  {
    if part != "" {
      SplitWhole(part[1..], sep);
      assert part == [part[0]] + part[1..];
    }
  }

  lemma {:induction false} SplitJoin(parts: seq<string>, sep: char)
    requires parts != [] && forall k :: 0 <= k < |parts| ==> sep !in parts[k]
    ensures Split(Join(parts, sep), sep) == parts
    decreases |parts|
  {
    if |parts| == 1 {
      SplitWhole(parts[0], sep);
    } else {
      SplitJoin(parts[1..], sep);
      SplitFirst(parts[0], Join(parts[1..], sep), sep);
    }
  }

  lemma {:induction false} JoinAvoids(parts: seq<string>, sep: char, c: char)
    requires c != sep && forall k :: 0 <= k < |parts| ==> c !in parts[k]
    ensures c !in Join(parts, sep)
    decreases |parts|
  {
    if |parts| > 1 {
      JoinAvoids(parts[1..], sep, c);
    }
  }

  // ---------- numbers ----------

  function DigitChar(d: nat): (c: char)
    requires d < 16
  {
    if d < 10 then ('0' as int + d) as char else ('a' as int + (d - 10)) as char
  }

  function DigitValue(c: char): (d: Option<nat>)
    ensures d.Some? ==> d.value < 16 && DigitChar(d.value) == c
  {
    if '0' <= c <= '9' then Some(c as int - '0' as int)
    else if 'a' <= c <= 'f' then Some(c as int - 'a' as int + 10)
    else None
  }

  /** The digits of `n`, most significant first, without leading zeros. */
  function Digits(base: nat, n: nat): (s: string)
    requires 2 <= base <= 16
    ensures s != ""
    decreases n
  {
    if n < base then [DigitChar(n)] else Digits(base, n / base) + [DigitChar(n % base)]
  }

  function Number(base: nat, s: string): Option<nat>
    requires 2 <= base <= 16
  {
    if s == "" then None else
      var d := DigitValue(s[|s| - 1]);
      if d.None? || d.value >= base then None
      else if |s| == 1 then d
      else var high := Number(base, s[..|s| - 1]); if high.None? then None else Some(high.value * base + d.value)
  }

  lemma NumberAppend(base: nat, s: string, d: nat)
    requires 2 <= base <= 16 && d < base && s != "" && Number(base, s).Some?
    ensures Number(base, s + [DigitChar(d)]) == Some(Number(base, s).value * base + d)
  {
    assert (s + [DigitChar(d)])[..|s|] == s;
    assert DigitValue(DigitChar(d)) == Some(d);
  }

  lemma QuotientAndRemainder(n: nat, base: nat)
    requires base > 0
    ensures n / base * base + n % base == n
  {
  }

  lemma {:induction false} NumberOfDigits(base: nat, n: nat)
    requires 2 <= base <= 16
    ensures Number(base, Digits(base, n)) == Some(n)
    decreases n
  {
    hide Number, DigitValue, DigitChar;
    if n < base {
      OneDigit(base, n);
    } else {
      NumberOfDigits(base, n / base);
      NumberAppend(base, Digits(base, n / base), n % base);
      QuotientAndRemainder(n, base);
    }
  }

  lemma OneDigit(base: nat, n: nat)
    requires 2 <= base <= 16 && n < base
    ensures Number(base, Digits(base, n)) == Some(n)
  {
    assert DigitValue(DigitChar(n)) == Some(n);
  }

  lemma DigitCharIsDigit(d: nat, c: char)
    requires d < 16 && DigitValue(c).None?
    ensures DigitChar(d) != c
  {
  }

  lemma Shrinks(n: nat, base: nat)
    requires 2 <= base <= 16 && n >= base
    ensures n / base < n && n % base < base
  {
  }

  lemma {:induction false} DigitsAvoid(base: nat, n: nat, c: char)
    requires 2 <= base <= 16 && DigitValue(c).None?
    ensures c !in Digits(base, n)
    decreases n
  {
    hide DigitChar, DigitValue;
    if n < base {
      DigitCharIsDigit(n, c);
    } else {
      Shrinks(n, base);
      DigitsAvoid(base, n / base, c);
      DigitCharIsDigit(n % base, c);
    }
  }

  // ---------- address ranges ----------

  /** `a.b.c.d/len`, or `high::low/len` with a zero group left out. */
  datatype Cidr = V4(a: nat, b: nat, c: nat, d: nat, len: nat) | V6(high: nat, low: nat, len: nat)

  predicate CidrFits(r: Cidr) {
    match r
    case V4(a, b, c, d, len) => a < 256 && b < 256 && c < 256 && d < 256 && len <= 32
    case V6(high, low, len) => high < 0x1_0000 && low < 0x1_0000 && len <= 128
  }

  function Group(n: nat): string { if n == 0 then "" else Digits(16, n) }

  function GroupValue(s: string): Option<nat> { if s == "" then Some(0) else Number(16, s) }

  function AddressParts(r: Cidr): seq<string> {
    match r
    case V4(a, b, c, d, _) => [Digits(10, a), Digits(10, b), Digits(10, c), Digits(10, d)]
    case V6(high, low, _) => [Group(high), "", Group(low)]
  }

  function AddressSeparator(r: Cidr): char { if r.V4? then '.' else ':' }

  function CidrText(r: Cidr): string {
    Join([Join(AddressParts(r), AddressSeparator(r)), Digits(10, r.len)], '/')
  }

  function ParseV4(parts: seq<string>, len: nat): Option<Cidr>
    requires |parts| == 4
  {
    match (Number(10, parts[0]), Number(10, parts[1]), Number(10, parts[2]), Number(10, parts[3]))
    case (Some(a), Some(b), Some(c), Some(d)) => if CidrFits(V4(a, b, c, d, len)) then Some(V4(a, b, c, d, len))
                                                 else None
    case _ => None
  }

  function ParseV6(parts: seq<string>, len: nat): Option<Cidr>
    requires |parts| == 3
  {
    match (GroupValue(parts[0]), GroupValue(parts[2]))
    case (Some(high), Some(low)) =>
      if parts[1] == "" && CidrFits(V6(high, low, len)) then Some(V6(high, low, len)) else None
    case _ => None
  }

  function ParseCidr(s: string): Option<Cidr> {
    var halves := Split(s, '/');
    if |halves| != 2 || Number(10, halves[1]).None? then None else
      var len := Number(10, halves[1]).value;
      if |Split(halves[0], '.')| == 4 then ParseV4(Split(halves[0], '.'), len)
      else if |Split(halves[0], ':')| == 3 then ParseV6(Split(halves[0], ':'), len)
      else None
  }

  lemma GroupRoundTrip(n: nat)
    ensures GroupValue(Group(n)) == Some(n)
  {
    if n != 0 { NumberOfDigits(16, n); }
  }

  lemma GroupAvoids(n: nat, c: char)
    requires DigitValue(c).None?
    ensures c !in Group(n)
  {
    if n != 0 { DigitsAvoid(16, n, c); }
  }

  lemma HalvesSplit(address: string, len: nat)
    requires '/' !in address
    ensures Split(Join([address, Digits(10, len)], '/'), '/') == [address, Digits(10, len)]
  {
    DigitsAvoid(10, len, '/');
    SplitJoin([address, Digits(10, len)], '/');
  }

  lemma PartsAvoid(r: Cidr, c: char)
    requires DigitValue(c).None?
    ensures forall k :: 0 <= k < |AddressParts(r)| ==> c !in AddressParts(r)[k]
  {
    hide Digits, Group;
    if r.V4? {
      DigitsAvoid(10, r.a, c);
      DigitsAvoid(10, r.b, c);
      DigitsAvoid(10, r.c, c);
      DigitsAvoid(10, r.d, c);
    } else {
      GroupAvoids(r.high, c);
      GroupAvoids(r.low, c);
    }
  }

  lemma HalvesOf(r: Cidr)
    ensures var halves := Split(CidrText(r), '/');
            |halves| == 2 && Split(halves[0], AddressSeparator(r)) == AddressParts(r)
              && Number(10, halves[1]) == Some(r.len)
    ensures r.V6? ==> |Split(Split(CidrText(r), '/')[0], '.')| == 1
  {
    hide Join, Split, Digits, Number, DigitValue;
    PunctuationIsNoDigit();
    var sep := AddressSeparator(r);
    PartsAvoid(r, '/');
    PartsAvoid(r, sep);
    JoinAvoids(AddressParts(r), sep, '/');
    SplitJoin(AddressParts(r), sep);
    HalvesSplit(Join(AddressParts(r), sep), r.len);
    NumberOfDigits(10, r.len);
    if r.V6? {
      PartsAvoid(r, '.');
      JoinAvoids(AddressParts(r), ':', '.');
      SplitWhole(Join(AddressParts(r), ':'), '.');
    }
  }

  /** A range that fits its family is read back as it was written. */
  lemma CidrRoundTrip(r: Cidr)
    requires CidrFits(r)
    ensures ParseCidr(CidrText(r)) == Some(r)
  {
    hide Split, Digits, Number, DigitValue, Group, GroupValue, CidrText;
    HalvesOf(r);
    if r.V4? {
      NumberOfDigits(10, r.a);
      NumberOfDigits(10, r.b);
      NumberOfDigits(10, r.c);
      NumberOfDigits(10, r.d);
    } else {
      GroupRoundTrip(r.high);
      GroupRoundTrip(r.low);
    }
  }

  lemma PunctuationIsNoDigit()
    ensures DigitValue('/').None? && DigitValue('.').None? && DigitValue(':').None? && DigitValue(' ').None?
    ensures DigitValue('\n').None? && DigitValue(',').None?
  {
  }

  lemma CidrTextAvoids(r: Cidr, c: char)
    requires c == ' ' || c == '\n'
    ensures c !in CidrText(r)
  {
    hide Digits, DigitValue, Join, AddressParts;
    PunctuationIsNoDigit();
    DigitsAvoid(10, r.len, c);
    PartsAvoid(r, c);
    JoinAvoids(AddressParts(r), AddressSeparator(r), c);
    JoinAvoids([Join(AddressParts(r), AddressSeparator(r)), Digits(10, r.len)], '/', c);
  }

  // ---------- what a range contains ----------

  function PowerOfTwo(n: nat): (p: nat)
    ensures p > 0
  {
    if n == 0 then 1 else 2 * PowerOfTwo(n - 1)
  }

  function Width(r: Cidr): nat { if r.V4? then 32 else 128 }

  function Base(r: Cidr): nat {
    match r
    case V4(a, b, c, d, _) => ((a * 256 + b) * 256 + c) * 256 + d
    case V6(high, low, _) => high * 0x1_0000_0000_0000_0000_0000_0000_0000 + low
  }

  /** The leading `len` bits of the address are those of the range. */
  predicate InRange(r: Cidr, address: nat)
    requires CidrFits(r)
  {
    var hosts := PowerOfTwo(Width(r) - r.len);
    address / hosts == Base(r) / hosts
  }
}
