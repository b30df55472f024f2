/** Decimal numerals, the dotted address text, and the subnets a draft accepts. */
module Decimal {
  import opened Basics

  const NUMERALS := "0123456789"

  predicate IsDigit(c: char) {
    '0' <= c <= '9'
  }

  predicate Digits(s: string) {
    forall i :: 0 <= i < |s| ==> IsDigit(s[i])
  }

  /** The canonical decimal text of a number. */
  function Text(n: nat): (s: string)
    ensures s != "" && Digits(s)
    decreases n
  {
    if n < 10 then [NUMERALS[n]] else Text(n / 10) + [NUMERALS[n % 10]]
  }

  function Value(s: string): nat
    requires Digits(s)
  {
    if s == "" then 0 else Value(s[..|s| - 1]) * 10 + (s[|s| - 1] as int - '0' as int)
  }

  /** Accepts exactly the canonical texts: no sign, no blank, no superfluous zero. */
  function Parse(s: string): Option<nat> {
    if Digits(s) && Text(Value(s)) == s then Some(Value(s)) else None
  }

  lemma {:induction false} ValueOfText(n: nat)
    ensures Value(Text(n)) == n
    decreases n
  {
    if n >= 10 {
      var s := Text(n);
      assert s[..|s| - 1] == Text(n / 10);
      ValueOfText(n / 10);
    } else {
      assert Text(n)[..0] == "";
    }
  }

  lemma ParseText(n: nat)
    ensures Parse(Text(n)) == Some(n)
  {
    ValueOfText(n);
  }

  lemma TextInjective(m: nat, n: nat)
    requires Text(m) == Text(n)
    ensures m == n
  {
    ValueOfText(m);
    ValueOfText(n);
  }
}

/** Splitting a text at every occurrence of a separator, keeping empty pieces. */
module Pieces {

  function Split(s: string, c: char): (r: seq<string>)
    ensures |r| >= 1
  {
    if s == "" then [""]
    else
      var rest := Split(s[1..], c);
      if s[0] == c then [""] + rest else [[s[0]] + rest[0]] + rest[1..]
  }

  function Join(parts: seq<string>, c: char): string
    requires |parts| >= 1
  {
    if |parts| == 1 then parts[0] else parts[0] + [c] + Join(parts[1..], c)
  }

  lemma {:induction false} JoinSplit(s: string, c: char)
    ensures Join(Split(s, c), c) == s
    decreases |s|
  {
    if s != "" {
      JoinSplit(s[1..], c);
      var rest, parts := Split(s[1..], c), Split(s, c);
      if s[0] == c {
        assert parts[1..] == rest;
      } else {
        assert parts[1..] == rest[1..];
      }
    }
  }

  lemma {:induction false} SplitPiece(s: string, c: char)
    requires c !in s
    ensures Split(s, c) == [s]
    decreases |s|
  {
    if s != "" {
      SplitPiece(s[1..], c);
      assert s == [s[0]] + s[1..];
    }
  }

  /** A piece without separators, a separator, and the rest. */
  lemma {:induction false} SplitHead(s: string, c: char, rest: string)
    requires c !in s
    ensures Split(s + [c] + rest, c) == [s] + Split(rest, c)
    decreases |s|
  {
    var whole := s + [c] + rest;
    if s == "" {
      assert whole[1..] == rest;
    } else {
      assert whole[1..] == s[1..] + [c] + rest;
      SplitHead(s[1..], c, rest);
      assert s == [s[0]] + s[1..];
    }
  }
}

module Addresses {
  import opened Basics
  import opened Decimal
  import opened Pieces

  const LIMIT := 0x1_0000_0000

  function Byte(value: nat, place: nat): nat
    requires place <= 3
  {
    (match place case 0 => value case 1 => value / 0x100 case 2 => value / 0x1_0000 case _ => value / 0x100_0000) % 0x100
  }

  function Dotted(a: string, b: string, c: string, d: string): string {
    a + "." + (b + "." + (c + "." + d))
  }

  /** The dotted text of the low 32 bits. */
  function Ip(value: nat): string {
    Dotted(Text(Byte(value, 3)), Text(Byte(value, 2)), Text(Byte(value, 1)), Text(Byte(value, 0)))
  }

  function FromBytes(a: nat, b: nat, c: nat, d: nat): nat {
    ((a * 256 + b) * 256 + c) * 256 + d
  }

  /** Four canonical numerals up to 255. */
  function ParseIp(text: string): Option<nat> {
    var parts := Split(text, '.');
    if |parts| != 4 then None
    else
      match (Parse(parts[0]), Parse(parts[1]), Parse(parts[2]), Parse(parts[3]))
      case (Some(a), Some(b), Some(c), Some(d)) =>
        if a <= 255 && b <= 255 && c <= 255 && d <= 255 then Some(FromBytes(a, b, c, d)) else None
      case _ => None
  }

  lemma NoDot(s: string)
    requires Digits(s)
    ensures '.' !in s && '/' !in s
  {
  }

  lemma SplitDot(a: string, rest: string)
    requires Digits(a)
    ensures Split(a + "." + rest, '.') == [a] + Split(rest, '.')
  {
    NoDot(a);
    SplitHead(a, '.', rest);
  }

  lemma SplitDotted(a: string, b: string, c: string, d: string)
    requires Digits(a) && Digits(b) && Digits(c) && Digits(d)
    ensures Split(Dotted(a, b, c, d), '.') == [a, b, c, d]
  {
    var cd := c + "." + d;
    var bcd := b + "." + cd;
    NoDot(d);
    SplitPiece(d, '.');
    SplitDot(c, d);
    SplitDot(b, cd);
    SplitDot(a, bcd);
  }

  lemma BytesOfValue(value: nat)
    requires value < LIMIT
    ensures FromBytes(Byte(value, 3), Byte(value, 2), Byte(value, 1), Byte(value, 0)) == value
  {
    assert value / 0x1_0000 == value / 0x100 / 0x100;
    assert value / 0x100_0000 == value / 0x1_0000 / 0x100;
  }

  /** The address text reads back as its 32-bit value. */
  lemma ParseOfIp(value: nat)
    requires value < LIMIT
    ensures ParseIp(Ip(value)) == Some(value)
  {
    var a, b, c, d := Byte(value, 3), Byte(value, 2), Byte(value, 1), Byte(value, 0);
    SplitDotted(Text(a), Text(b), Text(c), Text(d));
    ParseText(a); ParseText(b); ParseText(c); ParseText(d);
    BytesOfValue(value);
  }

  lemma IpInjective(x: nat, y: nat)
    requires x < LIMIT && y < LIMIT && Ip(x) == Ip(y)
    ensures x == y
  {
    ParseOfIp(x);
    ParseOfIp(y);
  }

  // ---------------------------------------------------------------- subnets

  datatype Subnet = Subnet(base: nat, size: nat)

  function Pow2(n: nat): (p: nat)
    ensures p >= 1
  {
    if n == 0 then 1 else 2 * Pow2(n - 1)
  }

  /** 10.0.0.0/8, 172.16.0.0/12 and 192.168.0.0/16: section 3 of RFC 1918. */
  predicate Private(value: nat) {
    || 0x0A00_0000 <= value <= 0x0AFF_FFFF
    || 0xAC10_0000 <= value <= 0xAC1F_FFFF
    || 0xC0A8_0000 <= value <= 0xC0A8_FFFF
  }

  predicate PrivateBytes(a: nat, b: nat) {
    a == 10 || (a == 172 && 16 <= b <= 31) || (a == 192 && b == 168)
  }

  function Block(base: nat, prefix: nat): Option<Subnet> {
    if 16 <= prefix <= 30 && PrivateBytes(Byte(base, 3), Byte(base, 2)) && base % Pow2(32 - prefix) == 0
    then Some(Subnet(base, Pow2(32 - prefix))) else None
  }

  /** The block a draft accepts: an aligned private block of prefix 16 to 30, written canonically. */
  function ParseSubnet(text: string): Option<Subnet> {
    var parts := Split(text, '/');
    if |parts| != 2 then None
    else
      match (ParseIp(parts[0]), Parse(parts[1]))
      case (Some(base), Some(prefix)) => Block(base, prefix)
      case _ => None
  }

  ghost predicate InBlock(a: nat, s: Subnet) {
    s.base <= a < s.base + s.size
  }

  lemma Sizes(prefix: nat)
    requires 16 <= prefix <= 30
    ensures 4 <= Pow2(32 - prefix) <= 65536 && (prefix == 16 ==> Pow2(32 - prefix) == 65536)
  {
    assert Pow2(2) == 4;
    assert Pow2(4) == 16;
    assert Pow2(6) == 64;
    assert Pow2(8) == 256;
    assert Pow2(10) == 1024;
    assert Pow2(12) == 4096;
    assert Pow2(14) == 16384;
    assert Pow2(16) == 65536;
  }

  /** A block is one half of a block twice its size. */
  lemma HalfOfWider(k: nat, size: nat)
    ensures (k / 2) * (2 * size) <= k * size && k * size + size <= (k / 2) * (2 * size) + 2 * size
  {
    var j := k / 2;
    assert j * (2 * size) == (2 * j) * size;
    if k == 2 * j {
    } else {
      assert (2 * j + 1) * size == (2 * j) * size + size;
    }
  }

  lemma PageOf(k: nat, a: nat)
    requires k * 65536 <= a < k * 65536 + 65536
    ensures a / 65536 == k
  {
  }

  /** The k-th block of a size never crosses a multiple of 65536. */
  lemma {:induction false} BlockStaysInPage(k: nat, prefix: nat, size: nat) returns (page: nat)
    requires 16 <= prefix <= 30 && size == Pow2(32 - prefix)
    ensures page * 65536 <= k * size && k * size + size <= page * 65536 + 65536
    decreases prefix
  {
    if prefix == 16 {
      Sizes(16);
      page := k;
    } else {
      HalfOfWider(k, size);
      page := BlockStaysInPage(k / 2, prefix - 1, 2 * size);
    }
  }

  lemma AlignedStaysInPage(base: nat, prefix: nat, a: nat)
    requires 16 <= prefix <= 30 && base % Pow2(32 - prefix) == 0 && base <= a < base + Pow2(32 - prefix)
    ensures a / 65536 == base / 65536
  {
    var k := base / Pow2(32 - prefix);
    assert base == k * Pow2(32 - prefix);
    var page := BlockStaysInPage(k, prefix, Pow2(32 - prefix));
    PageOf(page, a);
    PageOf(page, base);
  }

  lemma BytesOfBytes(a: nat, b: nat, c: nat, d: nat)
    requires a <= 255 && b <= 255 && c <= 255 && d <= 255
    ensures var v := FromBytes(a, b, c, d);
            v < LIMIT && Byte(v, 3) == a && Byte(v, 2) == b && Byte(v, 1) == c && Byte(v, 0) == d
  {
    var v := FromBytes(a, b, c, d);
    assert v / 0x100 == (a * 256 + b) * 256 + c;
    assert v / 0x1_0000 == a * 256 + b;
    assert v / 0x100_0000 == a;
  }

  lemma ParsedIp(text: string, value: nat)
    requires ParseIp(text) == Some(value)
    ensures value < LIMIT && Ip(value) == text
  {
    var parts := Split(text, '.');
    var a, b, c, d := Parse(parts[0]).value, Parse(parts[1]).value, Parse(parts[2]).value, Parse(parts[3]).value;
    BytesOfBytes(a, b, c, d);
    JoinSplit(text, '.');
    JoinFour(parts);
  }

  lemma JoinFour(parts: seq<string>)
    requires |parts| == 4
    ensures Join(parts, '.') == Dotted(parts[0], parts[1], parts[2], parts[3])
  {
    var p1, p2, p3 := parts[1..], parts[2..], parts[3..];
    assert p1[1..] == p2 && p2[1..] == p3;
    assert Join(p3, '.') == parts[3];
    assert Join(p2, '.') == parts[2] + "." + parts[3];
    assert Join(p1, '.') == parts[1] + "." + Join(p2, '.');
    assert Join(parts, '.') == parts[0] + "." + Join(p1, '.');
  }

  lemma PrivateBlock(base: nat, a: nat)
    requires base < LIMIT && a / 65536 == base / 65536
    ensures PrivateBytes(Byte(base, 3), Byte(base, 2)) <==> Private(a)
  {
    assert base / 0x100_0000 == base / 0x1_0000 / 0x100;
    assert a / 0x100_0000 == a / 0x1_0000 / 0x100;
  }

  /** An accepted block is aligned to its size, and every address of it is private. */
  lemma SubnetIsPrivate(text: string, s: Subnet)
    requires ParseSubnet(text) == Some(s)
    ensures 4 <= s.size <= 65536 && s.base % s.size == 0 && s.base + s.size <= LIMIT
    ensures forall a :: InBlock(a, s) ==> Private(a)
  {
    var parts := Split(text, '/');
    ParsedIp(parts[0], s.base);
    Sizes(Parse(parts[1]).value);
    forall a | InBlock(a, s) ensures Private(a) {
      AlignedStaysInPage(s.base, Parse(parts[1]).value, a);
      PrivateBlock(s.base, a);
    }
    assert InBlock(s.base + s.size - 1, s);
  }

  ghost predicate Acceptable(base: nat, prefix: nat) {
    16 <= prefix <= 30 && Private(base) && base % Pow2(32 - prefix) == 0
  }

  function SubnetText(base: nat, prefix: nat): string {
    Ip(base) + "/" + Text(prefix)
  }

  lemma IpHasNoSlash(value: nat)
    ensures '/' !in Ip(value)
  {
    NoDot(Text(Byte(value, 3)));
    NoDot(Text(Byte(value, 2)));
    NoDot(Text(Byte(value, 1)));
    NoDot(Text(Byte(value, 0)));
  }

  /** Every aligned private block of an allowed prefix is accepted in its canonical text, */
  lemma CanonicalIsAccepted(base: nat, prefix: nat)
    requires Acceptable(base, prefix)
    ensures ParseSubnet(SubnetText(base, prefix)) == Some(Subnet(base, Pow2(32 - prefix)))
  {
    IpHasNoSlash(base);
    SplitHead(Ip(base), '/', Text(prefix));
    NoDot(Text(prefix));
    SplitPiece(Text(prefix), '/');
    assert SubnetText(base, prefix) == Ip(base) + ['/'] + Text(prefix);
    ParseOfIp(base);
    ParseText(prefix);
    PrivateBlock(base, base);
  }

  /** and no other text is. */
  lemma AcceptedIsCanonical(text: string, s: Subnet) returns (prefix: nat)
    requires ParseSubnet(text) == Some(s)
    ensures Acceptable(s.base, prefix) && s.size == Pow2(32 - prefix) && text == SubnetText(s.base, prefix)
  {
    var parts := Split(text, '/');
    prefix := Parse(parts[1]).value;
    ParsedIp(parts[0], s.base);
    PrivateBlock(s.base, s.base);
    JoinSplit(text, '/');
    assert parts == [parts[0], parts[1]];
    assert Join(parts, '/') == parts[0] + "/" + parts[1];
  }

  /** The comparison the editor makes, on two blocks. */
  predicate Apart(s: Subnet, t: Subnet) {
    s.base + s.size <= t.base || t.base + t.size <= s.base
  }

  lemma ApartIsDisjoint(s: Subnet, t: Subnet)
    requires s.size > 0 && t.size > 0
    ensures Apart(s, t) <==> forall a :: !(InBlock(a, s) && InBlock(a, t))
  {
    if !Apart(s, t) {
      var a := if s.base <= t.base then t.base else s.base;
      assert InBlock(a, s) && InBlock(a, t);
    }
  }
}
