/** What several modules share: bytes, protocols, the option type, lists and division. */
module Model {

  type Byte = x: nat | x < 256

  datatype Option<+T> = None | Some(value: T)

  /** The four discovery protocols, in the order of their numeric values. */
  datatype Protocol = LLDP | CDP | MNDP | MDNS

  type ProtocolSet = set<Protocol>

  /** A protocol's place among the four. */
  function Ordinal(p: Protocol): (n: nat)
    ensures n < 4
  {
    match p
    case LLDP => 0
    case CDP => 1
    case MNDP => 2
    case MDNS => 3
  }

  /** The DNS record types that carry an address. */
  const TYPE_A := 1
  const TYPE_AAAA := 28

  function Lower(x: Byte): Byte { if 65 <= x <= 90 then x + 32 else x }

  ghost predicate NoDup<T>(l: seq<T>) {
    forall i, j | 0 <= i < j < |l| :: l[i] != l[j]
  }

  lemma HeadIn<T>(l: seq<T>)
    ensures l != [] ==> l[0] in l
  {
  }

  lemma Headless<T>(l: seq<T>)
    requires NoDup(l) && l != []
    ensures NoDup(l[1..]) && forall x :: x in l[1..] <==> x in l && x != l[0]
  {
    forall x | x in l && x != l[0] ensures x in l[1..] {
      var i :| 0 <= i < |l| && l[i] == x;
      assert l[1..][i - 1] == x;
    }
  }

  function FirstIndex(l: seq<int>, x: int): (i: nat)
    requires x in l
    ensures i < |l| && l[i] == x && forall k | 0 <= k < i :: l[k] != x
  {
    if l[0] == x then 0 else 1 + FirstIndex(l[1..], x)
  }

  /** Quotient and remainder are determined by their defining equation. */
  lemma ModUnique(a: nat, n: nat, q: nat, r: nat)
    requires r < n && a == q * n + r
    ensures a % n == r && a / n == q
  {
    var d := q - a / n;
    assert d * n == a % n - r by { assert a == (a / n) * n + a % n; }
    assert d >= 1 ==> d * n >= n;
    assert d <= -1 ==> d * n <= -(n as int);
  }

  /** Big-endian 16-bit and 32-bit reads. */
  function Half(b: seq<Byte>, off: nat): (v: nat)
    requires off + 2 <= |b|
    ensures v < 0x1_0000
  {
    (b[off] as int) * 256 + b[off + 1] as int
  }

  function Word(b: seq<Byte>, off: nat): (v: nat)
    requires off + 4 <= |b|
    ensures v < 0x1_0000_0000
  {
    Half(b, off) * 0x1_0000 + Half(b, off + 2)
  }
}
