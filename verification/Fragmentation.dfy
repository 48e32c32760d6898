/** How one object is cut into packets: 32-bit sizes as the generator computes them, and
    the loop that installs the next payload size after each send. */
module Fragmentation {

  const TWO_32 := 0x1_0000_0000
  const MAX_PAYLOAD := 1427          // demonstrator::MAX_PROTOCOL_MESSAGE_LENGTH
  const LARGEST_EXACT_SIZE := 4194302
  const DECLARED_HEADER := 49        // header_length as DataMessage declares it
  const CONSTRUCTED_HEADER := 41     // what its constructors count as header

  type uint32 = x: int | 0 <= x < TWO_32

  function Min(a: nat, b: nat): nat {
    if a < b then a else b
  }

  function Max(a: nat, b: nat): nat {
    if a < b then b else a
  }

  function Monus(a: nat, b: nat): nat {
    if a < b then 0 else a - b
  }

  /** Object size in bytes; the product is formed in 32 bits before it is widened. */
  function ObjectBytes(sizeKb: uint32): nat {
    (sizeKb * 1024) % TWO_32
  }

  /** Packets per object; rounding up happens in 32 bits as well. */
  function PacketCount(sizeKb: uint32): nat {
    ((sizeKb * 1024 + MAX_PAYLOAD - 1) % TWO_32) / MAX_PAYLOAD
  }

  /** `n` packets of at most 1427 bytes carry `bytes` bytes and `n - 1` packets do not. */
  predicate IsCeiling(bytes: nat, n: nat) {
    bytes <= n * MAX_PAYLOAD && (n == 0 || (n - 1) * MAX_PAYLOAD < bytes)
  }

  /** The packet count is the rounded-up quotient up to 4194302 KB and for no larger size. */
  lemma PacketCountExact(sizeKb: uint32)
    ensures IsCeiling(1024 * sizeKb, PacketCount(sizeKb)) <==> sizeKb <= LARGEST_EXACT_SIZE
    ensures sizeKb <= LARGEST_EXACT_SIZE ==> ObjectBytes(sizeKb) == 1024 * sizeKb
  {
    var sum := sizeKb * 1024 + MAX_PAYLOAD - 1;
    if sizeKb <= LARGEST_EXACT_SIZE {
      assert sum % TWO_32 == sum;
    } else {
      assert PacketCount(sizeKb) * MAX_PAYLOAD < TWO_32;
      assert 1024 * sizeKb >= 1024 * 4194303;
    }
  }

  /** Both sizes start over every 4194304 KB; below that the bytes are exact, and the count is the
      rounded-up quotient but for the last size, where it is zero. */
  lemma SizesWrap(sizeKb: uint32)
    ensures var low := sizeKb % 4194304;
      && ObjectBytes(sizeKb) == 1024 * low
      && PacketCount(sizeKb) == if low == 4194303 then 0 else (1024 * low + 1426) / 1427
  {
    var low, q := sizeKb % 4194304, sizeKb / 4194304;
    assert sizeKb * 1024 == q * TWO_32 + 1024 * low;
    assert (q * TWO_32 + 1024 * low) % TWO_32 == 1024 * low;
    if low == 4194303 {
      assert sizeKb * 1024 + 1426 == (q + 1) * TWO_32 + 402;
      assert ((q + 1) * TWO_32 + 402) % TWO_32 == 402;
    } else {
      assert (q * TWO_32 + (1024 * low + 1426)) % TWO_32 == 1024 * low + 1426;
    }
  }

  /** The payload sizes computed for the fragments one after the other. */
  function ComputedSize(bytes: nat, k: nat): nat {
    Min(Monus(bytes, MAX_PAYLOAD * k), MAX_PAYLOAD)
  }

  /** The payload size in force when fragment `k` is sent. The size computed for fragment
      `k` is installed after fragment `k` went out, so from the second fragment on it lags
      by one. */
  function SizeInForce(bytes: nat, k: nat): nat {
    if k == 0 then ComputedSize(bytes, 0) else ComputedSize(bytes, k - 1)
  }

  function SumComputed(bytes: nat, n: nat): nat {
    if n == 0 then 0 else SumComputed(bytes, n - 1) + ComputedSize(bytes, n - 1)
  }

  function SumInForce(bytes: nat, n: nat): nat {
    if n == 0 then 0 else SumInForce(bytes, n - 1) + SizeInForce(bytes, n - 1)
  }

  lemma {:induction false} SumComputedClosed(bytes: nat, n: nat)
    ensures SumComputed(bytes, n) == Min(bytes, MAX_PAYLOAD * n)
  {
    if n > 0 {
      SumComputedClosed(bytes, n - 1);
    }
  }

  lemma {:induction false} SumInForceClosed(bytes: nat, n: nat)
    requires n > 0
    ensures SumInForce(bytes, n) == ComputedSize(bytes, 0) + Min(bytes, MAX_PAYLOAD * (n - 1))
  {
    if n > 1 {
      SumInForceClosed(bytes, n - 1);
    } else {
      assert SumInForce(bytes, 0) == 0;
    }
  }

  /** Over a whole object the computed sizes add up to the object, and the payload lengths in
      force at the sends exceed it by less than one packet. */
  lemma WholeObject(bytes: nat, n: nat)
    requires IsCeiling(bytes, n)
    ensures SumComputed(bytes, n) == bytes
    ensures bytes <= SumInForce(bytes, n) < bytes + MAX_PAYLOAD
  {
    SumComputedClosed(bytes, n);
    if n > 0 {
      SumInForceClosed(bytes, n);
    }
  }

  /** The payload lengths in force add up to the object exactly if it fits one packet or
      fills all its packets. */
  lemma SumInForceExactly(bytes: nat, n: nat)
    requires IsCeiling(bytes, n)
    ensures SumInForce(bytes, n) == bytes <==> bytes <= MAX_PAYLOAD || bytes % MAX_PAYLOAD == 0
  {
    if n == 0 {
      assert bytes == 0;
    } else {
      SumInForceClosed(bytes, n);
      LastFragment(bytes, n);
    }
  }

  /** What is left for the last fragment is a whole packet exactly if the size is a multiple. */
  lemma LastFragment(bytes: nat, n: nat)
    requires n > 0 && IsCeiling(bytes, n)
    ensures bytes > 0 && (bytes % MAX_PAYLOAD == 0 <==> bytes == n * MAX_PAYLOAD)
  {
    var last := bytes - (n - 1) * MAX_PAYLOAD;
    assert bytes == (n - 1) * MAX_PAYLOAD + last && 0 < last <= MAX_PAYLOAD;
    if bytes % MAX_PAYLOAD == 0 {
      assert last % MAX_PAYLOAD == 0;
    }
  }

  /** An object of 2 KB: its two packets are both sent with 1427 bytes in force. */
  lemma InForceExceeds()
    ensures PacketCount(2) == 2 && ObjectBytes(2) == 2048 && SumInForce(2048, 2) == 2854
  {
    SumInForceClosed(2048, 2);
  }

  // ---------------------------------------------------------------- the datagram

  /** The number of bytes given to the socket for every packet of an object: the constructor
      fixes it from the first payload size, and installing another size leaves it alone. */
  function DatagramLength(bytes: nat): nat {
    CONSTRUCTED_HEADER + Min(bytes, MAX_PAYLOAD)
  }

  /** The payload a receiver with the declared header finds in a datagram. */
  function Delivered(length: nat): nat {
    Monus(length, DECLARED_HEADER)
  }

  /** The sizes whose packets bring at least the object's bytes to such a receiver: every
      packet is eight bytes short, and the unused rest of the last one must make up for it. */
  predicate ArrivesWhole(sizeKb: uint32) {
    var n := PacketCount(sizeKb);
    n != 1 && 1024 * sizeKb + 8 * n <= n * MAX_PAYLOAD
  }

  lemma DeliveredExactly(sizeKb: uint32)
    ensures var n := PacketCount(sizeKb);
      var delivered := n * Delivered(DatagramLength(ObjectBytes(sizeKb)));
      && delivered == n * Monus(Min(ObjectBytes(sizeKb), MAX_PAYLOAD), 8)
      && (delivered >= 1024 * sizeKb <==> ArrivesWhole(sizeKb))
  {
    var n, bytes := PacketCount(sizeKb), ObjectBytes(sizeKb);
    PacketCountExact(sizeKb);
    if n == 1 {
      OnePacket(sizeKb);
    } else if n > 1 {
      ManyPackets(sizeKb);
    }
  }

  lemma OnePacket(sizeKb: uint32)
    requires PacketCount(sizeKb) == 1
    ensures 0 < ObjectBytes(sizeKb) <= 1024 * sizeKb
  {
    assert sizeKb * 1024 + MAX_PAYLOAD - 1 >= TWO_32 || ObjectBytes(sizeKb) == sizeKb * 1024;
  }

  lemma ManyPackets(sizeKb: uint32)
    requires PacketCount(sizeKb) > 1
    ensures ObjectBytes(sizeKb) > MAX_PAYLOAD
  {
    var sum := sizeKb * 1024 + MAX_PAYLOAD - 1;
    assert sum % TWO_32 >= 2 * MAX_PAYLOAD;
    assert (sum % TWO_32 - (MAX_PAYLOAD - 1)) % TWO_32 == (sizeKb * 1024) % TWO_32;
  }

  /** Nothing above 246 KB arrives whole; an object of 1024 KB is 5611 bytes short. */
  lemma LargeObjectsArriveShort(sizeKb: uint32)
    ensures sizeKb > 246 ==> !ArrivesWhole(sizeKb)
    ensures PacketCount(1024) == 735 && 735 * Delivered(DatagramLength(ObjectBytes(1024))) == 1024 * 1024 - 5611
  {
    PacketCountExact(sizeKb);
    if sizeKb > LARGEST_EXACT_SIZE {
      assert PacketCount(sizeKb) * MAX_PAYLOAD < TWO_32;
    }
  }

  /** `remaining_bytes` reaches zero at the last fragment and not before. */
  lemma RemainingZeroAtLast(bytes: nat, n: nat, k: nat)
    requires IsCeiling(bytes, n) && k <= n
    ensures Monus(bytes, MAX_PAYLOAD * k) == 0 <==> k == n
  {
    if k < n {
      assert MAX_PAYLOAD * k <= (n - 1) * MAX_PAYLOAD;
    }
  }

  /** The packet loop of one object with permission granted throughout: the sizes in force
      at the sends, the sizes computed after them, and what is left. */
  method FragmentObject(sizeKb: uint32) returns (inForce: seq<nat>, computed: seq<nat>, remaining: nat)
    ensures |inForce| == |computed| == PacketCount(sizeKb)
    ensures forall k :: 0 <= k < |inForce| ==> inForce[k] == SizeInForce(ObjectBytes(sizeKb), k)
    ensures forall k :: 0 <= k < |computed| ==> computed[k] == ComputedSize(ObjectBytes(sizeKb), k)
    ensures sizeKb <= LARGEST_EXACT_SIZE ==> remaining == 0
  {
    var bytes := ObjectBytes(sizeKb);
    remaining := bytes;
    var payload := Min(remaining, MAX_PAYLOAD);
    var packet := 0;
    inForce, computed := [], [];
    while packet < PacketCount(sizeKb)
      invariant packet <= PacketCount(sizeKb)
      invariant |inForce| == |computed| == packet
      invariant remaining == Monus(bytes, MAX_PAYLOAD * packet)
      invariant payload == SizeInForce(bytes, packet)
      invariant forall k :: 0 <= k < packet ==> inForce[k] == SizeInForce(bytes, k)
      invariant forall k :: 0 <= k < packet ==> computed[k] == ComputedSize(bytes, k)
    {
      inForce := inForce + [payload];
      packet := packet + 1;
      payload := Min(remaining, MAX_PAYLOAD);
      computed := computed + [payload];
      remaining := if remaining > payload then remaining - payload else 0;
    }
    PacketCountExact(sizeKb);
    if sizeKb <= LARGEST_EXACT_SIZE {
      RemainingZeroAtLast(bytes, packet, packet);
    }
  }
}
