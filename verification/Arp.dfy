/** ARP request frames, written in place as arputil.c does. */
module Arp {
  import opened Bits
  import opened ByteOrder

  const ETH_P_ARP: nat := 0x0806
  const ETH_P_IP: nat := 0x0800
  const ARPHRD_ETHER: nat := 1
  const ARPOP_REQUEST: nat := 1
  const ETH_ALEN: nat := 6

  /** Ethernet header (14), ARP header (8), addresses (20). */
  const ARP_IP4_SIZE: nat := 42

  /** Offsets of the fields written below. */
  const TIP_OFFSET: nat := 38

  function Network16(x: nat): seq<Byte>
    requires x < 0x1_0000
  {
    [x / 256, x % 256]
  }

  function Repeat(b: Byte, n: nat): seq<Byte> {
    seq(n, _ => b)
  }

  /** `htons`, and a 16-bit word in memory. */
  function Htons(e: Endian, x: nat): (y: nat)
    requires x < 0x1_0000
    ensures y < 0x1_0000
  {
    match e
    case Little => x % 256 * 256 + x / 256
    case Big => x
  }

  function Store16(e: Endian, x: nat): seq<Byte>
    requires x < 0x1_0000
  {
    match e
    case Little => [x % 256, x / 256]
    case Big => [x / 256, x % 256]
  }

  /**
    The Ethernet frame of an ARP request as the section "Packet format" of RFC 826 lays
    it out: addresses are given in host order, every field is in network byte order.
   */
  function RequestFrame(hw: seq<Byte>, sender: nat, target: nat): seq<Byte>
    requires |hw| == ETH_ALEN && sender < WORD && target < WORD
  {
    Repeat(0xFF, ETH_ALEN) + hw + Network16(ETH_P_ARP)
    + Network16(ARPHRD_ETHER) + Network16(ETH_P_IP) + [ETH_ALEN] + [4] + Network16(ARPOP_REQUEST)
    + hw + Network32(sender) + Repeat(0, ETH_ALEN) + Network32(target)
  }

  /** The value of four bytes in network byte order. */
  function Number(b: seq<nat>): nat
    requires |b| == 4
  {
    ((b[0] * 256 + b[1]) * 256 + b[2]) * 256 + b[3]
  }

  lemma NetworkNumber(x: nat)
    requires x < WORD
    ensures |Network32(x)| == 4 && Number(Network32(x)) == x
  {
    hide ByteAt;
    JoinBytes(x);
  }

  /**
    The frame byte by byte, as RFC 826 numbers its fields: broadcast to everybody from `hw`,
    type 0x0806; hardware type 1, protocol type 0x0800, address lengths 6 and 4, operation 1;
    the sender's two addresses; no target hardware address, and the target's protocol address.
   */
  lemma FrameLayout(hw: seq<Byte>, sender: nat, target: nat)
    requires |hw| == 6 && sender < 0x1_0000_0000 && target < 0x1_0000_0000
    ensures var f := RequestFrame(hw, sender, target);
      && |f| == 42
      && f[..6] == [255, 255, 255, 255, 255, 255] && f[6..12] == hw && f[12..14] == [8, 6]
      && f[14..22] == [0, 1, 8, 0, 6, 4, 0, 1]
      && f[22..28] == hw && Number(f[28..32]) == sender
      && f[32..38] == [0, 0, 0, 0, 0, 0] && Number(f[38..42]) == target
  {
    hide ByteAt, Number, Network32;
    NetworkNumber(sender);
    NetworkNumber(target);
    var f := RequestFrame(hw, sender, target);
    assert f[28..32] == Network32(sender) && f[38..42] == Network32(target);
  }

  /** `memcpy` of a field. */
  method Put(buffer: array<Byte>, at: nat, field: seq<Byte>)
    requires at + |field| <= buffer.Length
    modifies buffer
    ensures buffer[..at + |field|] == old(buffer[..at]) + field
    ensures buffer[at + |field|..] == old(buffer[at + |field|..])
  {
    forall i | 0 <= i < |field| {
      buffer[at + i] := field[i];
    }
  }

  /** The frame as it is written: `myIp` and `toIp` are words in network order. */
  method RequestCreate(e: Endian, buffer: array<Byte>, myIp: nat, hw: seq<Byte>, toIp: nat)
    requires buffer.Length == ARP_IP4_SIZE && |hw| == ETH_ALEN && myIp < WORD && toIp < WORD
    modifies buffer
    ensures buffer[..] == RequestFrame(hw, Htonl(e, myIp), Htonl(e, toIp))
  {
    hide ByteAt, Htonl;
    StoreIsNetwork(e, myIp);
    StoreIsNetwork(e, toIp);
    Put(buffer, 0, Repeat(0xFF, ETH_ALEN));
    Put(buffer, 6, hw);
    Put(buffer, 12, Store16(e, Htons(e, ETH_P_ARP)));
    Put(buffer, 14, Store16(e, Htons(e, ARPHRD_ETHER)));
    Put(buffer, 16, Store16(e, Htons(e, ETH_P_IP)));
    Put(buffer, 18, [ETH_ALEN]);
    Put(buffer, 19, [4]);
    Put(buffer, 20, Store16(e, Htons(e, ARPOP_REQUEST)));
    assert buffer[..22] == Repeat(0xFF, ETH_ALEN) + hw + Network16(ETH_P_ARP)
      + Network16(ARPHRD_ETHER) + Network16(ETH_P_IP) + [ETH_ALEN] + [4] + Network16(ARPOP_REQUEST);
    Put(buffer, 22, hw);
    Put(buffer, 28, Store32(e, myIp));
    Put(buffer, 32, Repeat(0, ETH_ALEN));
    Put(buffer, 38, Store32(e, toIp));
    assert buffer[..] == buffer[..42];
  }

  /** Replacing the target address leaves every other byte as it is. */
  method SetToIp(e: Endian, buffer: array<Byte>, toIp: nat)
    requires buffer.Length == ARP_IP4_SIZE && toIp < WORD
    modifies buffer
    ensures buffer[..] == old(buffer[..TIP_OFFSET]) + Store32(e, toIp)
  {
    Put(buffer, TIP_OFFSET, Store32(e, toIp));
    assert buffer[..] == buffer[..42];
  }

  /** A patched request frame is the frame that would have been created for the new target. */
  lemma PatchedFrame(e: Endian, hw: seq<Byte>, sender: nat, target: nat, toIp: nat)
    requires |hw| == ETH_ALEN && sender < WORD && target < WORD && toIp < WORD
    ensures |RequestFrame(hw, sender, target)| == ARP_IP4_SIZE
    ensures RequestFrame(hw, sender, target)[..TIP_OFFSET] + Store32(e, toIp) ==
      RequestFrame(hw, sender, Htonl(e, toIp))
  {
    StoreIsNetwork(e, toIp);
  }
}
