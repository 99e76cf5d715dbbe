/** Network slots: every tap name gets a place on a bridge, and the addresses follow from the place. */
module Taps {
  import opened Options
  import opened Texts

  const SUBNET := "/10"
  const TAPS_PER_BRIDGE: nat := 1000
  const NUM_BRIDGES: nat := 2

  datatype NetworkInterface = NetworkInterface(bridgeName: string, macAddress: string, hostDevName: string,
                                               primaryAddress: string, subnet: string, gatewayAddress: string)

  function GatewayAddr(bridgeID: nat): string { "19" + Decimal(bridgeID) + ".128.0.1" }

  function BridgeName(id: nat): string { "br" + Decimal(id) }

  function PrimaryAddress(curTaps: nat, bridgeID: nat): string {
    "19" + Decimal(bridgeID) + ".128." + Decimal((curTaps + 2) / 256) + "." + Decimal((curTaps + 2) % 256)
  }

  /** A place on a bridge. */
  datatype Slot = Slot(bridge: nat, index: nat)

  predicate Valid(slot: Slot) { slot.bridge < NUM_BRIDGES && slot.index < TAPS_PER_BRIDGE }

  function MacIndex(slot: Slot): nat { slot.bridge * TAPS_PER_BRIDGE + slot.index }

  function MacAddress(slot: Slot): string
    requires Valid(slot)
  {
    var macIndex := MacIndex(slot);
    "02:FC:00:00:" + Hex(macIndex / 256) + ":" + Hex(macIndex % 256)
  }

  function Interface(name: string, slot: Slot): NetworkInterface
    requires Valid(slot)
  {
    NetworkInterface(BridgeName(slot.bridge), MacAddress(slot), name,
                     PrimaryAddress(slot.index, slot.bridge), SUBNET, GatewayAddr(slot.bridge))
  }

  // ----- the addresses -----

  /** A dotted address of four numbers. */
  function Quad(a: nat, b: nat, c: nat, d: nat): string {
    Decimal(a) + "." + Decimal(b) + "." + Decimal(c) + "." + Decimal(d)
  }

  lemma NoDot(n: nat)
    ensures '.' !in Decimal(n)
  {
    DecimalDigits(n);
  }

  lemma QuadInjective(a: nat, b: nat, c: nat, d: nat, a': nat, b': nat, c': nat, d': nat)
    requires Quad(a, b, c, d) == Quad(a', b', c', d')
    ensures a == a' && b == b' && c == c' && d == d'
  {
    NoDot(d);
    NoDot(d');
    var abc, abc' := Decimal(a) + "." + Decimal(b) + "." + Decimal(c), Decimal(a') + "." + Decimal(b') + "." + Decimal(c');
    JoinInjective(abc, Decimal(d), abc', Decimal(d'), '.');
    NoDot(c);
    NoDot(c');
    JoinInjective(Decimal(a) + "." + Decimal(b), Decimal(c), Decimal(a') + "." + Decimal(b'), Decimal(c'), '.');
    NoDot(b);
    NoDot(b');
    JoinInjective(Decimal(a), Decimal(b), Decimal(a'), Decimal(b'), '.');
    DecimalInjective(a, a');
    DecimalInjective(b, b');
    DecimalInjective(c, c');
    DecimalInjective(d, d');
  }

  lemma SmallDecimals(b: nat)
    requires b < 10
    ensures Decimal(190 + b) == "19" + Decimal(b)
    ensures Decimal(128) == "128" && Decimal(0) == "0" && Decimal(1) == "1"
  {
    assert Decimal(190 + b) == Decimal(19) + [DIGITS[b]];
    assert Decimal(19) == Decimal(1) + [DIGITS[9]];
    assert Decimal(128) == Decimal(12) + [DIGITS[8]];
    assert Decimal(12) == Decimal(1) + [DIGITS[2]];
  }

  /** The addresses are well formed: four numbers, each below 256. */
  lemma PrimaryIsQuad(slot: Slot)
    requires Valid(slot)
    ensures var i := slot.index + 2;
      && PrimaryAddress(slot.index, slot.bridge) == Quad(190 + slot.bridge, 128, i / 256, i % 256)
      && 190 + slot.bridge < 256 && i / 256 < 256 && i % 256 < 256
  {
    hide Decimal;
    SmallDecimals(slot.bridge);
    var b, c, d := Decimal(slot.bridge), Decimal((slot.index + 2) / 256), Decimal((slot.index + 2) % 256);
    assert "19" + b + ".128." + c + "." + d == ("19" + b) + "." + "128" + "." + c + "." + d;
  }

  lemma GatewayIsQuad(b: nat)
    requires b < NUM_BRIDGES
    ensures GatewayAddr(b) == Quad(190 + b, 128, 0, 1)
  {
    hide Decimal;
    SmallDecimals(b);
    assert "19" + Decimal(b) + ".128.0.1" == ("19" + Decimal(b)) + "." + "128" + "." + "0" + "." + "1";
  }

  /** Different places have different addresses. */
  lemma PrimaryInjective(s: Slot, s': Slot)
    requires Valid(s) && Valid(s') && PrimaryAddress(s.index, s.bridge) == PrimaryAddress(s'.index, s'.bridge)
    ensures s == s'
  {
    hide Quad, PrimaryAddress;
    PrimaryIsQuad(s);
    PrimaryIsQuad(s');
    var i, i' := s.index + 2, s'.index + 2;
    QuadInjective(190 + s.bridge, 128, i / 256, i % 256, 190 + s'.bridge, 128, i' / 256, i' % 256);
  }

  /** No guest has the address of a gateway. */
  lemma PrimaryIsNoGateway(s: Slot, b: nat)
    requires Valid(s) && b < NUM_BRIDGES
    ensures PrimaryAddress(s.index, s.bridge) != GatewayAddr(b)
  {
    hide Quad, PrimaryAddress, GatewayAddr;
    PrimaryIsQuad(s);
    GatewayIsQuad(b);
    var i := s.index + 2;
    if PrimaryAddress(s.index, s.bridge) == GatewayAddr(b) {
      QuadInjective(190 + s.bridge, 128, i / 256, i % 256, 190 + b, 128, 0, 1);
      assert false;
    }
  }

  lemma MacInjective(s: Slot, s': Slot)
    requires Valid(s) && Valid(s') && MacAddress(s) == MacAddress(s')
    ensures s == s'
  {
    hide Hex;
    var m, m' := MacIndex(s), MacIndex(s');
    BytesInjective("02:FC:00:00:", m / 256, m % 256, m' / 256, m' % 256);
    MacIndexInjective(s, s');
  }

  /** Byte i of a text of six bytes, each of two hexadecimal digits, separated by colons. */
  function MacByte(mac: string, i: nat): int
    requires i < 6 && |mac| == 17
  {
    HexValue(mac[3 * i..3 * i + 2])
  }

  ghost predicate SixBytes(mac: string) {
    |mac| == 17 && forall i: nat :: i < 5 ==> mac[3 * i + 2] == ':'
  }

  /** The MAC address reads back as the six bytes 02:FC:00:00 and the two bytes of the slot's index. */
  lemma MacReadsBack(slot: Slot)
    requires Valid(slot)
    ensures var mac, m := MacAddress(slot), MacIndex(slot);
      && SixBytes(mac)
      && MacByte(mac, 0) == 2 && MacByte(mac, 1) == 0xFC && MacByte(mac, 2) == 0 && MacByte(mac, 3) == 0
      && MacByte(mac, 4) == m / 256 && MacByte(mac, 5) == m % 256
      && m / 256 < 256 && m % 256 < 256
  {
    hide HexValue, Hex, DIGITS;
    var m := MacIndex(slot);
    var mac := MacAddress(slot);
    HexRoundTrip(m / 256);
    HexRoundTrip(m % 256);
    var p := "02:FC:00:00:";
    assert mac[12..14] == Hex(m / 256);
    assert mac[15..17] == Hex(m % 256);
    assert mac[0..2] == "02" && mac[3..5] == "FC" && mac[6..8] == "00" && mac[9..11] == "00";
    FixedBytes();
  }

  /** The interface of tap `name` at place i of bridge b, in numbers. */
  ghost predicate Addressed(ni: NetworkInterface, name: string, b: nat, i: nat) {
    && b < 2 && i < 1000
    && ni.bridgeName == "br" + Decimal(b)
    && ni.hostDevName == name
    && ni.subnet == "/10"
    && ni.gatewayAddress == Quad(190 + b, 128, 0, 1)
    && ni.primaryAddress == Quad(190 + b, 128, (i + 2) / 256, (i + 2) % 256)
    && SixBytes(ni.macAddress)
    && MacByte(ni.macAddress, 0) == 2 && MacByte(ni.macAddress, 1) == 0xFC
    && MacByte(ni.macAddress, 2) == 0 && MacByte(ni.macAddress, 3) == 0
    && MacByte(ni.macAddress, 4) == (1000 * b + i) / 256 && MacByte(ni.macAddress, 5) == (1000 * b + i) % 256
  }

  lemma InterfaceAddressed(name: string, slot: Slot)
    requires Valid(slot)
    ensures Addressed(Interface(name, slot), name, slot.bridge, slot.index)
  {
    hide Decimal, Quad, MacAddress, MacByte, SixBytes, PrimaryAddress, GatewayAddr;
    PrimaryIsQuad(slot);
    GatewayIsQuad(slot.bridge);
    MacReadsBack(slot);
  }

  lemma FixedBytes()
    ensures HexValue("02") == 2 && HexValue("FC") == 0xFC && HexValue("00") == 0
  {
  }

  lemma MacIndexInjective(s: Slot, s': Slot)
    requires Valid(s) && Valid(s')
    requires MacIndex(s) / 256 == MacIndex(s') / 256 && MacIndex(s) % 256 == MacIndex(s') % 256
    ensures s == s'
  {
  }

  lemma HexLength(n: nat)
    requires n < 256
    ensures |Hex(n)| == 2
  {
  }

  lemma BytesInjective(p: string, a: nat, b: nat, a': nat, b': nat)
    requires a < 256 && b < 256 && a' < 256 && b' < 256
    requires p + Hex(a) + ":" + Hex(b) == p + Hex(a') + ":" + Hex(b')
    ensures a == a' && b == b'
  {
    hide Hex;
    HexLength(a);
    HexLength(a');
    CutAt(p + Hex(a) + ":", Hex(b), p + Hex(a') + ":", Hex(b'));
    CutAt(p + Hex(a), ":", p + Hex(a'), ":");
    CutAt(p, Hex(a), p, Hex(a'));
    HexInjective(a, a');
    HexInjective(b, b');
  }

  lemma CutAt(a: string, b: string, a': string, b': string)
    requires |a| == |a'| && a + b == a' + b'
    ensures a == a' && b == b'
  {
    assert a == (a + b)[..|a|] && a' == (a' + b')[..|a|];
    assert b == (a + b)[|a|..] && b' == (a' + b')[|a|..];
  }
}
