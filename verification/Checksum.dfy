/** The ones'-complement checksum of CDP packets. */
module Checksum {
  import opened Model

  /** Big-endian 16-bit words added up; an odd last byte is the high byte of a word. */
  function WordSum(b: seq<Byte>): nat {
    if |b| >= 2 then Half(b, 0) + WordSum(b[2..])
    else if |b| == 1 then b[0] as int * 256
    else 0
  }

  /** A sum with its carries added back in until it fits 16 bits. */
  function OnesComplement(sum: nat): (r: nat)
    ensures r <= 0xFFFF && (r == 0 <==> sum == 0) && (r == 0xFFFF <==> sum > 0 && sum % 0xFFFF == 0)
  {
    if sum == 0 then 0 else (sum - 1) % 0xFFFF + 1
  }

  lemma {:induction false} SumBounded(b: seq<Byte>)
    ensures WordSum(b) <= (|b| + 1) / 2 * 0xFFFF
  {
    if |b| >= 2 {
      SumBounded(b[2..]);
      assert (|b| + 1) / 2 == (|b[2..]| + 1) / 2 + 1;
    }
  }

  /** Folding the carry once keeps the ones'-complement value. */
  lemma FoldOnce(sum: nat)
    requires sum >= 0x1_0000
    ensures sum % 0x1_0000 + sum / 0x1_0000 < sum
    ensures OnesComplement(sum % 0x1_0000 + sum / 0x1_0000) == OnesComplement(sum)
  {
    var q, r := sum / 0x1_0000, sum % 0x1_0000;
    assert sum == q * 0xFFFF + (r + q);
    assert sum - 1 == q * 0xFFFF + (r + q - 1);
    MultiplesAside(r + q - 1, q);
  }

  lemma {:induction false} MultiplesAside(a: nat, q: nat)
    ensures (q * 0xFFFF + a) % 0xFFFF == a % 0xFFFF
  {
    if q > 0 {
      MultiplesAside(a, q - 1);
      assert q * 0xFFFF + a == ((q - 1) * 0xFFFF + a) + 0xFFFF;
    }
  }

  const WORD := 0x1_0000_0000

  /** checksum16, whose accumulator has 32 bits: for packets of up to 131074 bytes nothing is lost. */
  method Checksum16(packet: seq<Byte>) returns (r: nat)
    ensures |packet| <= 131074 ==> r == OnesComplement(WordSum(packet))
    ensures r <= 0xFFFF
  {
    hide OnesComplement;
    SumBounded(packet);
    var b, sum := packet, 0;
    while |b| >= 2
      invariant 0 <= sum < WORD && (|packet| <= 131074 ==> sum + WordSum(b) == WordSum(packet))
    {
      sum := (sum + Half(b, 0)) % WORD;
      b := b[2..];
    }
    if |b| == 1 { sum := (sum + b[0] as int * 256) % WORD; }
    while sum / 0x1_0000 != 0
      invariant 0 <= sum < WORD && (|packet| <= 131074 ==> OnesComplement(sum) == OnesComplement(WordSum(packet)))
      decreases sum
    {
      FoldOnce(sum);
      sum := sum % 0x1_0000 + sum / 0x1_0000;
    }
    Folded(sum);
    r := sum;
  }

  lemma Folded(sum: nat)
    requires sum <= 0xFFFF
    ensures OnesComplement(sum) == sum
  {
  }

  /** The packet with a value stored in its checksum field. */
  function Store(b: seq<Byte>, v: nat): (r: seq<Byte>)
    requires |b| >= 4 && v <= 0xFFFF
    ensures |r| == |b| && Half(r, 2) == v
  {
    b[2 := v / 256][3 := v % 256]
  }

  /** A packet whose checksum field, zero at first, is filled with the complement of its checksum adds
      up to 0xffff, which is what the decoder asks for; and no other value does, but that 0 and 0xffff
      stand for each other unless the rest of the packet is zero. */
  lemma ComplementChecks(b: seq<Byte>, v: nat)
    requires |b| >= 4 && Half(b, 2) == 0 && v <= 0xFFFF
    ensures OnesComplement(WordSum(Store(b, v))) == 0xFFFF <==>
      if WordSum(b) == 0 then v == 0xFFFF else v % 0xFFFF == (0xFFFF - OnesComplement(WordSum(b))) % 0xFFFF
  {
    FieldCounts(b, v);
    if WordSum(b) > 0 {
      AddsUp(WordSum(b), v);
      Fits(OnesComplement(WordSum(b)), v);
    }
  }

  lemma AddsUp(s: nat, v: nat)
    requires s > 0
    ensures OnesComplement(s + v) == 0xFFFF <==> (OnesComplement(s) + v) % 0xFFFF == 0
  {
    var q := (s - 1) / 0xFFFF;
    assert s == q * 0xFFFF + OnesComplement(s);
    MultiplesAside(OnesComplement(s) + v, q);
  }

  lemma Fits(c: nat, v: nat)
    requires 1 <= c <= 0xFFFF && v <= 0xFFFF
    ensures (c + v) % 0xFFFF == 0 <==> v % 0xFFFF == (0xFFFF - c) % 0xFFFF
  {
  }

  lemma FieldCounts(b: seq<Byte>, v: nat)
    requires |b| >= 4 && Half(b, 2) == 0 && v <= 0xFFFF
    ensures WordSum(Store(b, v)) == WordSum(b) + v
  {
    var r := Store(b, v);
    assert r[2..][2..] == b[2..][2..];
    assert Half(r[2..], 0) == Half(r, 2) && Half(b[2..], 0) == Half(b, 2);
  }

  /** In particular the complement itself does. */
  lemma Complemented(b: seq<Byte>)
    requires |b| >= 4 && Half(b, 2) == 0
    ensures OnesComplement(WordSum(Store(b, 0xFFFF - OnesComplement(WordSum(b))))) == 0xFFFF
  {
    ComplementChecks(b, 0xFFFF - OnesComplement(WordSum(b)));
  }
}
