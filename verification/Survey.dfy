/** `Poluter::perform_survey`: one ARP request to every other address of the subnet. */
module Survey {
  import opened Bits
  import opened ByteOrder
  import Bitcount
  import Arp

  /** The contiguous netmask of the given prefix length, in host order. */
  function Mask(prefix: nat): nat
    requires prefix <= 32
  {
    Shl(Shl(1, prefix) - 1, 32 - prefix)
  }

  /** The address with its host bits cleared. */
  function Network(address: nat, prefix: nat): nat
    requires prefix <= 32
  {
    Shl(Shr(address, 32 - prefix), 32 - prefix)
  }

  function Broadcast(address: nat, prefix: nat): nat
    requires prefix <= 32
  {
    Network(address, prefix) + Shl(1, 32 - prefix) - 1
  }

  lemma Word32()
    ensures Shl(1, 32) == WORD
  {
    Bitcount.Constants();
  }

  lemma MaskFacts(prefix: nat)
    requires prefix <= 32
    ensures Mask(prefix) == WORD - Shl(1, 32 - prefix)
    ensures PopCount(Mask(prefix)) == prefix
  {
    hide PopCount;
    var h := 32 - prefix;
    Word32();
    ShlAdd(1, prefix, h);
    ShlMonotone(1, Shl(1, prefix), h);
    PopSplit(Shl(1, prefix) - 1, 0, h);
    PopOnes(prefix);
    Bitcount.PopZero();
  }

  /** Masking an address gives the start of its subnet, whose end is still a 32-bit word. */
  lemma MaskGivesNetwork(address: nat, prefix: nat)
    requires address < WORD && prefix <= 32
    ensures And(address, Mask(prefix)) == Network(address, prefix) == address - Low(address, 32 - prefix)
    ensures Broadcast(address, prefix) < WORD
  {
    hide And, Shl, Shr, Low;
    var h := 32 - prefix;
    var q, r := Shr(address, h), Low(address, h);
    Word32();
    HighLow(address, h);
    ShrBound(address, prefix, h);
    AndSplit(q, r, Shl(1, prefix) - 1, 0, h);
    AndZero(r);
    AndOnes(q, prefix);
    LowOfSmall(q, prefix);
    ShlMonotone(q, q + 1, h);
    ShlMonotone(q + 1, Shl(1, prefix), h);
    ShlAdd(1, prefix, h);
  }

  lemma CountRange(netmask: nat)
    requires netmask < WORD
    ensures Bitcount.Count(netmask) <= 32
  {
    hide Bitcount.Count;
    Word32();
    Bitcount.CountIsPopCount(netmask);
    Bitcount.PopBound(netmask, 32);
  }

  /** The number of rounds of the loop, as the source computes it from the mask. */
  function NodeCount(netmask: nat): int
    requires netmask < WORD
  {
    CountRange(netmask);
    Shl(1, 32 - Bitcount.Count(netmask)) - 2
  }

  /** Counting the bits of the mask works in either byte order. */
  lemma NodeCountIsSize(e: Endian, prefix: nat)
    requires 2 <= prefix <= 31
    ensures Mask(prefix) < WORD && NodeCount(Htonl(e, Mask(prefix))) == Shl(1, 32 - prefix) - 2 >= 0
  {
    hide PopCount, Swap32, Bitcount.Count, Shl, Mask;
    MaskFacts(prefix);
    PopCountSwap(Mask(prefix));
    Bitcount.CountIsPopCount(Htonl(e, Mask(prefix)));
    TwoAtLeast(32 - prefix);
  }

  lemma TwoAtLeast(k: nat)
    requires k >= 1
    ensures Shl(1, k) >= 2
  {
  }

  ghost predicate Increasing(s: seq<nat>) {
    forall i, j | 0 <= i < j < |s| :: s[i] < s[j]
  }

  /** What the source computes before its loop, in terms of the subnet. */
  lemma Setup(e: Endian, ip4: nat, prefix: nat, netmask: nat)
    requires ip4 < WORD && 2 <= prefix <= 31 && Mask(prefix) < WORD && netmask == Htonl(e, Mask(prefix))
    ensures var local := Htonl(e, ip4);
      && And(ip4, netmask) < WORD
      && Htonl(e, And(ip4, netmask)) == Network(local, prefix)
      && NodeCount(netmask) >= 0
      && Broadcast(local, prefix) == Network(local, prefix) + NodeCount(netmask) + 1 < WORD
  {
    hide And, Shl, Swap32, NodeCount;
    var local := Htonl(e, ip4);
    MaskGivesNetwork(local, prefix);
    NodeCountIsSize(e, prefix);
    HtonlTwice(e, ip4);
    AndHtonl(e, local, Mask(prefix));
    HtonlTwice(e, And(local, Mask(prefix)));
  }

  /**
    For every prefix length from 2 to 31 and every local address, on machines of either
    byte order: the frames are requests from the sensor to `targets`, which are exactly
    the addresses strictly between the network and the broadcast address other than the
    sensor's own, each once.  `ip4` and `netmask` are in network order, `inject` may fail.
   */
  method PerformSurvey(e: Endian, ip4: nat, ghost prefix: nat, netmask: nat, hw: seq<Byte>)
    returns (frames: seq<seq<Byte>>, targets: seq<nat>)
    requires ip4 < WORD && |hw| == Arp.ETH_ALEN
    requires 2 <= prefix <= 31 && Mask(prefix) < WORD && netmask == Htonl(e, Mask(prefix))
    ensures var local := Htonl(e, ip4);
      && Broadcast(local, prefix) < WORD
      && Increasing(targets)
      && (forall a: nat :: a in targets <==> Network(local, prefix) < a < Broadcast(local, prefix) && a != local)
    ensures Framed(frames, targets, hw, Htonl(e, ip4))
  {
    hide And, Shl, Htonl, NodeCount, Mask, Network, Broadcast, Arp.RequestFrame, Store32, Framed;
    ghost var local: nat := Htonl(e, ip4);
    HtonlTwice(e, ip4);
    HtonlTwice(e, 0);
    Setup(e, ip4, prefix, netmask);

    var buffer := new Byte[Arp.ARP_IP4_SIZE];
    Arp.RequestCreate(e, buffer, ip4, hw, 0);
    var nodeCount := NodeCount(netmask);
    var network := Htonl(e, And(ip4, netmask));
    frames, targets := [], [];
    NothingFramed(hw, local);
    ghost var target: nat := Htonl(e, 0);
    var i := 0;
    while i < nodeCount
      invariant 0 <= i <= nodeCount
      invariant target < WORD && buffer[..] == Arp.RequestFrame(hw, local, target)
      invariant Increasing(targets) && forall j | 0 <= j < |targets| :: targets[j] <= network + i
      invariant forall a: nat :: a in targets <==> network < a <= network + i && a != local
      invariant Framed(frames, targets, hw, local)
    {
      var host := (network + i + 1) % WORD;
      assert host == network + i + 1;
      var ip4addr := Htonl(e, host);
      HtonlTwice(e, host);
      if ip4addr != ip4 {
        Arp.PatchedFrame(e, hw, local, target, ip4addr);
        Arp.SetToIp(e, buffer, ip4addr);
        target := host;
        OneFramed(frames, targets, hw, local, host);
        frames := frames + [buffer[..]];
        targets := targets + [host];
      }
      i := i + 1;
    }
  }

  ghost predicate Framed(frames: seq<seq<Byte>>, targets: seq<nat>, hw: seq<Byte>, local: nat)
    requires |hw| == Arp.ETH_ALEN && local < WORD
  {
    && |frames| == |targets|
    && forall j | 0 <= j < |frames| ::
         targets[j] < WORD && frames[j] == Arp.RequestFrame(hw, local, targets[j])
  }

  lemma NothingFramed(hw: seq<Byte>, local: nat)
    requires |hw| == Arp.ETH_ALEN && local < WORD
    ensures Framed([], [], hw, local)
  {
  }

  lemma OneFramed(frames: seq<seq<Byte>>, targets: seq<nat>, hw: seq<Byte>, local: nat, target: nat)
    requires |hw| == Arp.ETH_ALEN && local < WORD && target < WORD && Framed(frames, targets, hw, local)
    ensures Framed(frames + [Arp.RequestFrame(hw, local, target)], targets + [target], hw, local)
  {
  }
}
