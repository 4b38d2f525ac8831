/** The address, prefix and netmask helpers of `sys_util`. Addresses are binary; the
    text of an address is the business of a codec (boost::asio in the original), which
    is a parameter here, with the dotted-quad form of IPv4 written out. */
module SysUtil {
  import opened Text

  type Byte = n: nat | n < 256

  type UShort = n: nat | n < 0x1_0000

  datatype Quad = Quad(b0: Byte, b1: Byte, b2: Byte, b3: Byte)

  datatype Addr = V4(quad: Quad) | V6(bits: nat)

  /** `address::from_string` (`None` when it throws) and `address::to_string`. */
  datatype Codec = Codec(parse: string -> Option<Addr>, show: Addr -> string)

  /** What every property below needs of the address library: a printed address reads
      back as itself, address text has no underscore, and no address is written "". */
  ghost predicate Sound(c: Codec) {
    && (forall a :: c.parse(c.show(a)) == Some(a))
    && (forall a :: '_' !in c.show(a))
    && c.parse("") == None
  }

  // ----- dotted quads

  function Split(s: string, ch: char): (r: seq<string>)
    ensures |r| > 0
    ensures ch !in s ==> r == [s]
  {
    if ch !in s then [s]
    else
      var i := LastIndexOf(s, ch).value;
      Split(s[..i], ch) + [s[i + 1..]]
  }

  function PrintQuad(q: Quad): string {
    Dec(q.b0) + "." + Dec(q.b1) + "." + Dec(q.b2) + "." + Dec(q.b3)
  }

  predicate IsOctetText(s: string) {
    CanonicalDec(s) && Undec(s) < 256
  }

  /** Four canonical decimal octets separated by dots, as `inet_pton` reads them. */
  function ParseQuad(s: string): (r: Option<Quad>)
    ensures r.Some? ==> PrintQuad(r.value) == s
  {
    var parts := Split(s, '.');
    if |parts| == 4 && forall i :: 0 <= i < 4 ==> IsOctetText(parts[i]) then
      QuadText(s);
      Some(Quad(Undec(parts[0]), Undec(parts[1]), Undec(parts[2]), Undec(parts[3])))
    else None
  }

  lemma {:induction false} DigitsHave(s: string, ch: char)
    requires AllDigits(s) && !IsDigit(ch)
    ensures ch !in s
  {
  }

  lemma {:induction false} SplitJoin(left: string, ch: char, right: string)
    requires ch !in right
    ensures Split(left + [ch] + right, ch) == Split(left, ch) + [right]
  {
    var s := left + [ch] + right;
    assert s[|left|] == ch;
    LastIndexOfJoin(left, ch, right);
    assert s[..|left|] == left && s[|left| + 1..] == right;
  }

  /** A split text is its parts joined again. */
  lemma {:induction false} SplitInverse(s: string, ch: char)
    ensures var parts := Split(s, ch);
      if |parts| == 1 then s == parts[0]
      else exists left ::
        Split(left, ch) == parts[..|parts| - 1] && s == left + [ch] + parts[|parts| - 1]
  {
    if ch in s {
      var i := LastIndexOf(s, ch).value;
      var parts := Split(s, ch);
      assert parts[..|parts| - 1] == Split(s[..i], ch);
      assert s == s[..i] + [ch] + s[i + 1..];
    }
  }

  lemma {:induction false} QuadText(s: string)
    requires var parts := Split(s, '.');
      |parts| == 4 && forall i :: 0 <= i < 4 ==> IsOctetText(parts[i])
    ensures var parts := Split(s, '.');
      PrintQuad(Quad(Undec(parts[0]), Undec(parts[1]), Undec(parts[2]), Undec(parts[3]))) == s
  {
    var parts := Split(s, '.');
    SplitInverse(s, '.');
    var s3 :| Split(s3, '.') == parts[..3] && s == s3 + ['.'] + parts[3];
    SplitInverse(s3, '.');
    var s2 :| Split(s2, '.') == parts[..3][..2] && s3 == s2 + ['.'] + parts[2];
    SplitInverse(s2, '.');
    var s1 :| Split(s1, '.') == parts[..3][..2][..1] && s2 == s1 + ['.'] + parts[1];
    SplitInverse(s1, '.');
    forall i | 0 <= i < 4 ensures Dec(Undec(parts[i])) == parts[i] {
      DecUndec(parts[i]);
    }
  }

  lemma {:induction false} OctetText(n: Byte)
    ensures '.' !in Dec(n) && IsOctetText(Dec(n)) && Undec(Dec(n)) == n
  {
    UndecDec(n);
    DigitsHave(Dec(n), '.');
  }

  lemma {:induction false} SplitOne(left: string, n: Byte)
    ensures Split(left + "." + Dec(n), '.') == Split(left, '.') + [Dec(n)]
  {
    OctetText(n);
    SplitJoin(left, '.', Dec(n));
  }

  lemma {:induction false} SplitQuad(q: Quad)
    ensures Split(PrintQuad(q), '.') == [Dec(q.b0), Dec(q.b1), Dec(q.b2), Dec(q.b3)]
  {
    DigitsHave(Dec(q.b0), '.');
    var s1 := Dec(q.b0);
    var s2 := s1 + "." + Dec(q.b1);
    var s3 := s2 + "." + Dec(q.b2);
    SplitOne(s1, q.b1);
    assert Split(s2, '.') == [Dec(q.b0), Dec(q.b1)];
    SplitOne(s2, q.b2);
    assert Split(s3, '.') == [Dec(q.b0), Dec(q.b1), Dec(q.b2)];
    SplitOne(s3, q.b3);
  }

  /** Printing then parsing an IPv4 address gives the address back. */
  lemma {:induction false} QuadRoundTrip(q: Quad)
    ensures ParseQuad(PrintQuad(q)) == Some(q)
  {
    SplitQuad(q);
    OctetText(q.b0);
    OctetText(q.b1);
    OctetText(q.b2);
    OctetText(q.b3);
  }

  /** A codec that writes and reads IPv4 addresses as dotted quads. */
  ghost predicate DottedQuads(c: Codec) {
    && (forall q :: c.show(V4(q)) == PrintQuad(q))
    && (forall s :: ParseQuad(s).Some? ==> c.parse(s) == Some(V4(ParseQuad(s).value)))
  }

  // ----- a codec that meets all of this

  function ReadAddr(s: string): Option<Addr> {
    match ParseQuad(s)
    case Some(q) => Some(V4(q))
    case None =>
      if s != "" && s[0] == ':' && CanonicalDec(s[1..]) then Some(V6(Undec(s[1..]))) else None
  }

  function ShowAddr(a: Addr): string {
    match a
    case V4(q) => PrintQuad(q)
    case V6(n) => ":" + Dec(n)
  }

  lemma {:induction false} StandInReads(a: Addr)
    ensures ReadAddr(ShowAddr(a)) == Some(a)
    ensures '_' !in ShowAddr(a)
  {
    match a {
      case V4(q) =>
        QuadRoundTrip(q);
        DigitsHave(Dec(q.b0), '_');
        DigitsHave(Dec(q.b1), '_');
        DigitsHave(Dec(q.b2), '_');
        DigitsHave(Dec(q.b3), '_');
      case V6(n) =>
        DigitsHave(Dec(n), '_');
        UndecDec(n);
        assert ShowAddr(a)[1..] == Dec(n);
        NoQuad(ShowAddr(a));
    }
  }

  lemma {:induction false} NoQuad(s: string)
    requires s != "" && !IsDigit(s[0])
    ensures ParseQuad(s) == None
  {
    if ParseQuad(s).Some? {
      QuadFirst(s);
    }
  }

  lemma {:induction false} QuadFirst(s: string)
    requires ParseQuad(s).Some?
    ensures s != "" && IsDigit(s[0])
  {
    assert IsDigit(Dec(ParseQuad(s).value.b0)[0]);
  }

  /** The assumptions about the address library are consistent: a codec with dotted quads
      and a stand-in spelling for IPv6 meets them. */
  lemma {:induction false} SoundCodecExists()
    ensures Sound(Codec(ReadAddr, ShowAddr)) && DottedQuads(Codec(ReadAddr, ShowAddr))
  {
    forall a ensures ReadAddr(ShowAddr(a)) == Some(a) && '_' !in ShowAddr(a) {
      StandInReads(a);
    }
  }

  // ----- class prefix

  datatype Prefix = Prefix(addr: Addr, len: UShort)

  /** The default-constructed prefix; the address of boost's default constructor is
      0.0.0.0, the length member is left to chance. */
  function DefaultPrefix(len: UShort): Prefix {
    Prefix(V4(Quad(0, 0, 0, 0)), len)
  }

  function PrintPrefix(c: Codec, p: Prefix): string {
    c.show(p.addr) + "/" + Dec(p.len)
  }

  function ParseParts(c: Codec, left: string, right: string): Option<Prefix> {
    match (c.parse(left), Stoi(right))
    case (Some(a), Some(n)) => Some(Prefix(a, n % 0x1_0000))
    case _ => None
  }

  /** The string constructor; `None` stands for any of its exceptions. The length is an
      `int` stored in an `unsigned short`, hence the reduction. */
  function ParsePrefix(c: Codec, s: string): Option<Prefix> {
    match LastIndexOf(s, '/')
    case None => None
    case Some(i) => ParseParts(c, s[..i], s[i + 1..])
  }

  predicate EmptyPrefix(c: Codec, p: Prefix) {
    PrintPrefix(c, p) == ""
  }

  /** No prefix value is ever `empty()`, default-constructed ones included. */
  lemma {:induction false} NeverEmpty(c: Codec, p: Prefix)
    ensures !EmptyPrefix(c, p)
  {
    assert '/' in PrintPrefix(c, p);
  }

  lemma {:induction false} PartsRoundTrip(c: Codec, p: Prefix)
    requires c.parse(c.show(p.addr)) == Some(p.addr)
    ensures ParseParts(c, c.show(p.addr), Dec(p.len)) == Some(p)
  {
    StoiDec(p.len);
  }

  lemma {:induction false} PrefixSplits(c: Codec, left: string, right: string)
    requires '/' !in right
    ensures ParsePrefix(c, left + ['/'] + right) == ParseParts(c, left, right)
  {
    LastIndexOfJoin(left, '/', right);
    JoinParts(left, '/', right);
  }

  /** Parse undoes print, for every length the field can hold and for every codec that
      round-trips on this address, even one whose address text contains '/'. */
  lemma {:induction false} PrefixRoundTrip(c: Codec, p: Prefix)
    requires c.parse(c.show(p.addr)) == Some(p.addr)
    ensures ParsePrefix(c, PrintPrefix(c, p)) == Some(p)
  {
    DigitsHave(Dec(p.len), '/');
    PrefixSplits(c, c.show(p.addr), Dec(p.len));
    PartsRoundTrip(c, p);
  }

  lemma {:induction false} PrefixRoundTripV4(c: Codec, q: Quad, len: UShort)
    requires DottedQuads(c)
    ensures ParsePrefix(c, PrintPrefix(c, Prefix(V4(q), len))) == Some(Prefix(V4(q), len))
  {
    QuadRoundTrip(q);
    PrefixRoundTrip(c, Prefix(V4(q), len));
  }

  lemma {:induction false} ParsedParts(c: Codec, s: string) returns (left: string, right: string)
    requires ParsePrefix(c, s).Some?
    ensures '/' !in right && s == left + ['/'] + right
    ensures c.parse(left) == Some(ParsePrefix(c, s).value.addr)
  {
    var i := LastIndexOf(s, '/').value;
    left, right := s[..i], s[i + 1..];
  }

  /** How any text behind the last slash is read: the number it begins with, which may be
      signed, reduced to the 16 bits of the field. */
  lemma {:induction false} PrefixReads(
    c: Codec, left: string, blanks: string, sign: string, digits: string, rest: string)
    requires forall ch :: ch in blanks ==> ch in [' ', '\t', '\n', '\r', '\U{0b}', '\U{0c}']
    requires sign in ["", "+", "-"]
    requires digits != "" && AllDigits(digits) && (rest == "" || !IsDigit(rest[0])) && '/' !in rest
    ensures ParsePrefix(c, left + "/" + (blanks + (sign + (digits + rest))))
      == var v: int := if sign == "-" then 0 - Undec(digits) else Undec(digits);
         if c.parse(left).Some? && -0x8000_0000 <= v <= 0x7fff_ffff
         then Some(Prefix(c.parse(left).value, v % 0x1_0000)) else None
  {
    DigitsHave(digits, '/');
    assert '/' !in blanks && '/' !in sign;
    PrefixSplits(c, left, blanks + (sign + (digits + rest)));
    StoiReads(blanks, sign, digits, rest);
  }

  /** Text that is an address in the codec's own spelling, a slash, and a plain decimal
      length that fits the field. */
  ghost predicate CanonicalPrefixText(c: Codec, s: string) {
    exists left, right ::
      && s == left + ['/'] + right
      && c.parse(left).Some? && c.show(c.parse(left).value) == left
      && CanonicalDec(right) && Undec(right) < 0x1_0000
  }

  /** Print undoes parse exactly on canonical text, all of which parses. */
  lemma {:induction false} PrefixTextRoundTrip(c: Codec, s: string)
    ensures ParsePrefix(c, s).Some? && PrintPrefix(c, ParsePrefix(c, s).value) == s
      <==> CanonicalPrefixText(c, s)
  {
    if ParsePrefix(c, s).Some? && PrintPrefix(c, ParsePrefix(c, s).value) == s {
      var p := ParsePrefix(c, s).value;
      var left, right := ParsedParts(c, s);
      DigitsHave(Dec(p.len), '/');
      UndecDec(p.len);
      SplitUnique(left, right, c.show(p.addr), Dec(p.len), '/');
    }
    if CanonicalPrefixText(c, s) {
      var left, right :|
        && s == left + ['/'] + right
        && c.parse(left).Some? && c.show(c.parse(left).value) == left
        && CanonicalDec(right) && Undec(right) < 0x1_0000;
      DecUndec(right);
      PrefixRoundTrip(c, Prefix(c.parse(left).value, Undec(right)));
    }
  }

  // ----- netmask_to_plen

  function BitLength(n: nat): nat {
    if n == 0 then 0 else 1 + BitLength(n / 2)
  }

  function Pow2(k: nat): (r: nat)
    ensures r > 0
  {
    if k == 0 then 1 else 2 * Pow2(k - 1)
  }

  /** The word `inet_pton` stores in network order, read as a little-endian integer. */
  function HostWord(q: Quad): nat {
    q.b0 + 0x100 * (q.b1 + 0x100 * (q.b2 + 0x100 * q.b3))
  }

  lemma {:induction false} BitLengthShift(low: nat, high: nat, k: nat)
    requires low < Pow2(k)
    requires high > 0
    ensures BitLength(low + Pow2(k) * high) == k + BitLength(high)
  {
    if k > 0 {
      var p := Pow2(k - 1);
      assert (low + 2 * p * high) / 2 == low / 2 + p * high by {
        assert 2 * p * high == 2 * (p * high);
      }
      assert low + Pow2(k) * high > 0 by {
        assert Pow2(k) * high > 0;
      }
      BitLengthShift(low / 2, high, k - 1);
    } else {
      assert low + Pow2(k) * high == high;
    }
  }

  lemma {:induction false} BitLengthOctet(low: Byte, high: nat)
    ensures BitLength(low + 0x100 * high) == if high == 0 then BitLength(low) else 8 + BitLength(high)
  {
    if high > 0 {
      assert Pow2(8) == 0x100;
      BitLengthShift(low, high, 8);
    }
  }

  /** An octet has at most eight bits, and eight when its high bit is set. */
  lemma {:induction false} OctetBits(b: Byte)
    ensures BitLength(b) <= 8
    ensures b >= 128 ==> BitLength(b) == 8
  {
    BitLengthBound(b, 8);
    BitLengthBound(b, 7);
    assert Pow2(7) == 128;
  }

  lemma {:induction false} BitLengthBound(n: nat, k: nat)
    ensures BitLength(n) <= k <==> n < Pow2(k)
  {
    if k > 0 && n > 0 {
      BitLengthBound(n / 2, k - 1);
    }
  }

  /** Eight times the index of the last non-zero octet, plus that octet's bit length. */
  function LastOctetBits(q: Quad): nat {
    if q.b3 != 0 then 24 + BitLength(q.b3)
    else if q.b2 != 0 then 16 + BitLength(q.b2)
    else if q.b1 != 0 then 8 + BitLength(q.b1)
    else BitLength(q.b0)
  }

  lemma {:induction false} HostWordBits(q: Quad)
    ensures BitLength(HostWord(q)) == LastOctetBits(q) <= 32
  {
    var h2 := q.b2 + 0x100 * q.b3;
    var h1 := q.b1 + 0x100 * h2;
    BitLengthOctet(q.b2, q.b3);
    BitLengthOctet(q.b1, h2);
    BitLengthOctet(q.b0, h1);
    if q.b3 != 0 {
      OctetBits(q.b3);
    } else if q.b2 != 0 {
      OctetBits(q.b2);
    } else if q.b1 != 0 {
      OctetBits(q.b1);
    } else {
      OctetBits(q.b0);
    }
  }

  /** The shift loop. The counter is a `uint8_t`; it never comes near wrapping. */
  method NetmaskToPlen(q: Quad) returns (i: Byte)
    ensures i == LastOctetBits(q) <= 32
  {
    var n := HostWord(q);
    i := 0;
    HostWordBits(q);
    while n > 0
      invariant i + BitLength(n) == LastOctetBits(q)
    {
      n := n / 2;
      i := i + 1;
    }
  }

  lemma {:induction false} Pow2Monotone(j: nat, k: nat)
    requires j <= k
    ensures Pow2(j) <= Pow2(k)
  {
    if j < k {
      Pow2Monotone(j, k - 1);
    }
  }

  /** The octet with its `r` high bits set. */
  function MaskOctet(r: int): (m: Byte)
    ensures m == 0 <==> r <= 0
    ensures r > 0 ==> m >= 128
  {
    if r <= 0 then 0
    else if r >= 8 then 255
    else
      Pow2Monotone(8 - r, 7);
      assert Pow2(7) == 128;
      256 - Pow2(8 - r)
  }

  /** The contiguous mask of length `p`, section 3.1 of RFC 4632. */
  function Mask(p: nat): Quad {
    Quad(MaskOctet(p), MaskOctet(p - 8), MaskOctet(p - 16), MaskOctet(p - 24))
  }

  lemma {:induction false} MaskOctetBits(r: int)
    ensures BitLength(MaskOctet(r)) == if r <= 0 then 0 else 8
  {
    OctetBits(MaskOctet(r));
  }

  lemma {:induction false} LastMaskOctet(p: nat, k: nat)
    requires k < 4 && 8 * k < p <= 8 * k + 8
    ensures LastOctetBits(Mask(p)) == 8 * k + 8
  {
    MaskOctetBits(p - 8 * k);
    var q := Mask(p);
    assert k < 3 ==> q.b3 == 0;
    assert k < 2 ==> q.b2 == 0;
    assert k < 1 ==> q.b1 == 0;
  }

  lemma {:induction false} NoMask()
    ensures LastOctetBits(Mask(0)) == 0
  {
  }

  lemma {:induction false} RoundUp(p: nat)
    ensures p > 0 ==> (p + 7) / 8 * 8 == 8 * ((p - 1) / 8) + 8
    ensures (p + 7) / 8 * 8 == p <==> p % 8 == 0
  {
  }

  /** On contiguous masks the result is the length rounded up to whole octets, so it is
      the length exactly when that is a multiple of eight. */
  lemma {:induction false} MaskLength(p: nat)
    requires p <= 32
    ensures LastOctetBits(Mask(p)) == (p + 7) / 8 * 8
    ensures LastOctetBits(Mask(p)) == p <==> p % 8 == 0
  {
    RoundUp(p);
    if p == 0 {
      NoMask();
    } else {
      LastMaskOctet(p, (p - 1) / 8);
    }
  }
}
