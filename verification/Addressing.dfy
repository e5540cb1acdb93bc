/** Addresses, masks and CIDR texts as the routing code uses them, and the Option type. */
module Addressing {

  datatype Option<+T> = None | Some(value: T)

  /** A device or port name. */
  datatype Id = Id(name: string)

  type RouterId = Id
  type PortId = Id

  /** An address string: a dotted quad with its 32-bit value, or any other text ("" is unset). */
  datatype IPAddress = V4(addr: nat) | Text(text: string)

  const UNSET: IPAddress := Text("")
  const IPV4_SPACE: nat := 0x1_0000_0000

  function Digit(d: nat): char
    requires d < 10
  {
    ('0' as nat + d) as char
  }

  function Decimal(n: nat): (s: string)
    ensures s != ""
  {
    if n < 10 then [Digit(n)] else Decimal(n / 10) + [Digit(n % 10)]
  }

  function AddressText(ip: IPAddress): (s: string)
    ensures s == "" <==> ip == UNSET
  {
    match ip
    case V4(a) =>
      Decimal(a / 0x100_0000) + "." + Decimal(a / 0x1_0000 % 256) + "." + Decimal(a / 0x100 % 256) + "." + Decimal(a % 256)
    case Text(t) => t
  }

  /** A dotted mask: a prefix length, the empty string, or a text that is not an address. */
  datatype Mask = Ones(ones: nat) | Missing | Unparsable(text: string)

  /** The text of a CIDR block, host bits included, or text that is not a block at all. */
  datatype Cidr = Block(addr: nat, ones: nat) | NotABlock(text: string)

  /** A parsed block, the value of net.IPNet: the base address is masked. */
  datatype IPNet = IPNet(base: nat, ones: nat)

  /** Clears the low `host` bits. */
  function ClearLow(addr: nat, host: nat): (r: nat)
    ensures r <= addr
  {
    if host == 0 then addr else 2 * ClearLow(addr / 2, host - 1)
  }

  /** Clears the host bits of an address under a prefix length of at most 32. */
  function MaskBase(addr: nat, ones: nat): (r: nat)
    ensures r <= addr
  {
    if ones <= 32 then ClearLow(addr, 32 - ones) else addr
  }

  /** net.ParseCIDR. */
  function ParseCidr(c: Cidr): Option<IPNet> {
    match c
    case Block(a, n) => if a < IPV4_SPACE && n <= 32 then Some(IPNet(MaskBase(a, n), n)) else None
    case NotABlock(_) => None
  }

  /** IPNet.String. */
  function Print(net: IPNet): Cidr {
    Block(net.base, net.ones)
  }

  /** A text that ParseCIDR accepts and String gives back unchanged. */
  predicate Canonical(c: Cidr) {
    ParseCidr(c).Some? && Print(ParseCidr(c).value) == c
  }

  /** IPNet.Contains. */
  predicate Contains(net: IPNet, addr: nat) {
    MaskBase(addr, net.ones) == net.base
  }

  /** ipToCIDR: the masked block, or the address with "/24" when either text does not parse. */
  function IpToCidr(ip: IPAddress, mask: Mask): Cidr {
    match (ip, mask)
    case (V4(a), Ones(n)) => Block(MaskBase(a, n), n)
    case (V4(a), _) => Block(a, 24)
    case (Text(s), _) => NotABlock(s + "/24")
  }

  /** What the advertisement builders use when no mask is recorded for a port. */
  function MaskOrDefault(mask: Mask): Mask {
    if mask == Missing then Ones(24) else mask
  }

  lemma {:induction false} ClearLowIdempotent(addr: nat, host: nat)
    ensures ClearLow(ClearLow(addr, host), host) == ClearLow(addr, host)
  {
    if host > 0 {
      ClearLowIdempotent(addr / 2, host - 1);
      assert ClearLow(addr, host) / 2 == ClearLow(addr / 2, host - 1);
    }
  }

  /** Printing what was parsed is canonical: parse and print round-trip after one pass. */
  lemma PrintedIsCanonical(c: Cidr)
    requires ParseCidr(c).Some?
    ensures Canonical(Print(ParseCidr(c).value))
    ensures ParseCidr(Print(ParseCidr(c).value)) == ParseCidr(c)
  {
    ClearLowIdempotent(c.addr, 32 - c.ones);
  }

  // ---------------------------------------------------------------- what masking and matching mean

  function Pow2(n: nat): (r: nat)
    ensures r >= 1
  {
    if n == 0 then 1 else 2 * Pow2(n - 1)
  }

  lemma PowersOfTwo()
    ensures Pow2(0) == 1 && Pow2(8) == 256 && Pow2(32) == IPV4_SPACE == 4_294_967_296
  {
    assert Pow2(8) == 256;
    assert Pow2(16) == 65_536;
    assert Pow2(24) == 16_777_216;
    assert Pow2(32) == 4_294_967_296;
  }

  /** Clearing the low bits gives the multiple of the power of two just below. */
  lemma {:induction false} ClearLowBounds(addr: nat, host: nat) returns (k: nat)
    ensures ClearLow(addr, host) == k * Pow2(host)
    ensures ClearLow(addr, host) <= addr < ClearLow(addr, host) + Pow2(host)
  {
    if host == 0 {
      k := addr;
    } else {
      k := ClearLowBounds(addr / 2, host - 1);
      assert 2 * (k * Pow2(host - 1)) == k * (2 * Pow2(host - 1));
    }
  }

  lemma NextMultiple(i: nat, more: nat, size: nat)
    ensures (i + 1 + more) * size >= i * size + size
  {
    assert (i + 1 + more) * size == i * size + size + more * size;
    assert more * size >= 0;
  }

  lemma MultiplesApart(i: nat, j: nat, size: nat, addr: nat)
    requires i * size <= addr < i * size + size && j * size <= addr < j * size + size
    ensures i == j
  {
    if i < j {
      NextMultiple(i, j - i - 1, size);
    } else if j < i {
      NextMultiple(j, i - j - 1, size);
    }
  }

  /** The number of addresses in a block. */
  function BlockSize(ones: nat): nat
    requires ones <= 32
  {
    Pow2(32 - ones)
  }

  predicate InBlock(net: IPNet, addr: nat) {
    net.ones <= 32 && net.base <= addr < net.base + BlockSize(net.ones)
  }

  /** What ParseCIDR yields: the prefix length as written, and the aligned block of that size that
      the written address is in. */
  lemma ParsedBlock(c: Cidr) returns (k: nat)
    requires ParseCidr(c).Some?
    ensures c.Block? && c.addr < IPV4_SPACE && c.ones <= 32
    ensures var net := ParseCidr(c).value; net.ones == c.ones && net.base == k * BlockSize(c.ones) && InBlock(net, c.addr)
  {
    k := ClearLowBounds(c.addr, 32 - c.ones);
  }

  lemma ParsedIff(c: Cidr)
    ensures ParseCidr(c).Some? <==> c.Block? && c.addr < 4_294_967_296 && c.ones <= 32
  {}

  /** A network contains exactly the addresses of its block. */
  lemma ContainsIff(c: Cidr, addr: nat)
    requires ParseCidr(c).Some?
    ensures Contains(ParseCidr(c).value, addr) <==> InBlock(ParseCidr(c).value, addr)
  {
    var net := ParseCidr(c).value;
    var i := ParsedBlock(c);
    var j := ClearLowBounds(addr, 32 - net.ones);
    if InBlock(net, addr) {
      MultiplesApart(i, j, BlockSize(net.ones), addr);
    }
  }

  /** The network of an interface contains its address, at the length of its mask; with a mask that
      does not parse it is the address itself with "/24". */
  lemma InterfaceNetwork(addr: nat, mask: Mask)
    requires addr < IPV4_SPACE
    ensures mask.Ones? && mask.ones <= 32 ==>
              var c := IpToCidr(V4(addr), mask);
              c.Block? && Canonical(c) && c.ones == mask.ones && c.addr <= addr < c.addr + BlockSize(mask.ones)
    ensures !mask.Ones? ==> IpToCidr(V4(addr), mask) == Block(addr, 24)
    ensures MaskOrDefault(mask) == (if mask.Missing? then Ones(24) else mask)
  {
    if mask.Ones? && mask.ones <= 32 {
      var k := ClearLowBounds(addr, 32 - mask.ones);
      ClearLowIdempotent(addr, 32 - mask.ones);
    }
  }

  // ---------------------------------------------------------------- what is printed

  function DigitValue(c: char): nat {
    if c <= '9' && '0' <= c then c as nat - '0' as nat else 0
  }

  /** The number that a text of digits denotes. */
  function ValueOf(s: string): nat
    decreases |s|
  {
    if s == "" then 0 else 10 * ValueOf(s[..|s| - 1]) + DigitValue(s[|s| - 1])
  }

  lemma LastDigit(s: string, c: char)
    ensures ValueOf(s + [c]) == 10 * ValueOf(s) + DigitValue(c)
  {
    assert (s + [c])[..|s|] == s;
  }

  lemma {:induction false} DecimalValue(n: nat)
    ensures ValueOf(Decimal(n)) == n && forall c :: c in Decimal(n) ==> '0' <= c <= '9'
  {
    if n < 10 {
      LastDigit("", Digit(n));
      assert "" + Decimal(n) == Decimal(n);
    } else {
      DecimalValue(n / 10);
      LastDigit(Decimal(n / 10), Digit(n % 10));
    }
  }

  /** The dotted quad of an address: four numbers, most significant first. */
  lemma DottedQuad(a: nat) returns (p: nat, q: nat, r: nat, s: nat)
    requires a < IPV4_SPACE
    ensures p < 256 && q < 256 && r < 256 && s < 256 && a == ((p * 256 + q) * 256 + r) * 256 + s
    ensures AddressText(V4(a)) == Decimal(p) + "." + Decimal(q) + "." + Decimal(r) + "." + Decimal(s)
  {
    p, q, r, s := a / 0x100_0000, a / 0x1_0000 % 256, a / 0x100 % 256, a % 256;
  }
}
