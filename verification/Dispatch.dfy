/** Which work queue an object's key goes to: 32-bit FNV-1a over the key, masked by the number of workers. */
module Dispatch {
  import opened Strings
  import opened Wrappers

  type Byte = b: int | 0 <= b < 256
  type Bytes = seq<Byte>

  // Section 2 of draft-eastlake-fnv: the 32-bit offset basis and prime.
  const OFFSET_BASIS: nat := 2166136261
  const PRIME: nat := 16777619

  // ---------- machine words, bit by bit ----------

  /** The low `k` bits of a number. */
  function Low(x: nat, k: nat): (r: nat)
  {
    if k == 0 then 0 else x % 2 + 2 * Low(x / 2, k - 1)
  }

  function Pow2(k: nat): (p: nat)
    ensures p >= 1
  {
    if k == 0 then 1 else 2 * Pow2(k - 1)
  }

  function Xor(a: nat, b: nat): nat
  {
    if a == 0 && b == 0 then 0 else (a % 2 + b % 2) % 2 + 2 * Xor(a / 2, b / 2)
  }

  function And(a: nat, b: nat): (r: nat)
    ensures r <= b
    decreases b
  {
    if b == 0 then 0 else (if a % 2 == 1 && b % 2 == 1 then 1 else 0) + 2 * And(a / 2, b / 2)
  }

  /** Bit `i` of a number. */
  predicate Has(mask: nat, i: nat) {
    if i == 0 then mask % 2 == 1 else Has(mask / 2, i - 1)
  }

  lemma {:induction false} MulAtLeast(k: int, d: nat)
    requires k >= 1
    ensures k * d >= d && (0 - k) * d <= 0 - d
  {
  }

  lemma {:induction false} ModUnique(x: nat, d: nat, q: nat, r: nat)
    requires r < d && x == q * d + r
    ensures x % d == r
  {
    var q' := x / d;
    assert (q - q') * d == x % d - r;
    if q > q' {
      MulAtLeast(q - q', d);
    } else if q < q' {
      MulAtLeast(q' - q, d);
    }
  }

  lemma {:induction false} ModDouble(x: nat, m: nat)
    requires m >= 1
    ensures x % (2 * m) == x % 2 + 2 * ((x / 2) % m)
  {
    var y := x / 2;
    var q, r := y / m, y % m;
    assert y == q * m + r;
    assert q * (2 * m) == 2 * (q * m);
    ModUnique(x, 2 * m, q, x % 2 + 2 * r);
  }

  /** The low `k` bits are the remainder modulo 2^k. */
  lemma {:induction false} LowIsMod(x: nat, k: nat)
    ensures Low(x, k) == x % Pow2(k)
  {
    if k > 0 {
      LowIsMod(x / 2, k - 1);
      ModDouble(x, Pow2(k - 1));
    }
  }

  lemma {:induction false} Pow2Step4(k: nat)
    ensures Pow2(k + 4) == 16 * Pow2(k)
  {
    assert Pow2(k + 4) == 2 * Pow2(k + 3) && Pow2(k + 2) == 2 * Pow2(k + 1);
  }

  lemma {:induction false} WordSize()
    ensures Pow2(32) == 0x1_0000_0000
  {
    Pow2Step4(0);
    Pow2Step4(4);
    Pow2Step4(8);
    Pow2Step4(12);
    Pow2Step4(16);
    Pow2Step4(20);
    Pow2Step4(24);
    Pow2Step4(28);
  }

  /** Masking by 2^k - 1 keeps the low `k` bits. */
  lemma {:induction false} AndLow(x: nat, k: nat)
    ensures And(x, Pow2(k) - 1) == Low(x, k)
  {
    if k > 0 {
      AndLow(x / 2, k - 1);
      assert (Pow2(k) - 1) % 2 == 1 && (Pow2(k) - 1) / 2 == Pow2(k - 1) - 1;
    }
  }

  lemma {:induction false} LowLow(x: nat, n: nat, k: nat)
    requires k <= n
    ensures Low(Low(x, n), k) == Low(x, k)
  {
    if k > 0 {
      LowLow(x / 2, n - 1, k - 1);
    }
  }

  lemma {:induction false} XorBits(a: nat, b: nat)
    ensures Xor(a, b) % 2 == (a % 2 + b % 2) % 2 && Xor(a, b) / 2 == Xor(a / 2, b / 2)
  {
    if a == 0 && b == 0 {
      assert Xor(0, 0) == 0;
    } else {
      var bit, rest := (a % 2 + b % 2) % 2, Xor(a / 2, b / 2);
      assert Xor(a, b) == bit + 2 * rest && bit < 2;
    }
  }

  lemma {:induction false} LowXor(a: nat, b: nat, k: nat)
    ensures Low(Xor(a, b), k) == Xor(Low(a, k), Low(b, k))
  {
    if k > 0 {
      LowXor(a / 2, b / 2, k - 1);
      XorBits(a, b);
      XorBits(Low(a, k), Low(b, k));
      LowBits(a, k);
      LowBits(b, k);
      LowBits(Xor(a, b), k);
    }
  }

  lemma {:induction false} LowBits(x: nat, k: nat)
    requires k > 0
    ensures Low(x, k) % 2 == x % 2 && Low(x, k) / 2 == Low(x / 2, k - 1)
  {
  }

  /** What the lowest bit of a factor carries over into the rest of the product. */
  function Carry(x: nat, c: nat): nat {
    ((x % 2) * PRIME + c) / 2
  }

  /** The low bits of a product by the prime depend on the low bits of the factor only. */
  lemma {:induction false} LowMul(x: nat, c: nat, k: nat)
    ensures Low(x * PRIME + c, k) == Low(Low(x, k) * PRIME + c, k)
    decreases k, 1
  {
    if k > 0 {
      LowBits(x, k);
      LowMulHalves(x, Low(x, k), c, k);
    }
  }

  /** Two factors with the same lowest bit, the rest of one being the low bits of the rest of the other. */
  lemma {:induction false} LowMulHalves(x: nat, y: nat, c: nat, k: nat)
    requires k > 0 && y % 2 == x % 2 && y / 2 == Low(x / 2, k - 1)
    ensures Low(x * PRIME + c, k) == Low(y * PRIME + c, k)
    decreases k, 0
  {
    MulStep(x, c);
    MulStep(y, c);
    LowMul(x / 2, Carry(x, c), k - 1);
    LowStep(x * PRIME + c, y * PRIME + c, k);
  }

  lemma {:induction false} LowStep(y: nat, z: nat, k: nat)
    requires k > 0 && y % 2 == z % 2 && Low(y / 2, k - 1) == Low(z / 2, k - 1)
    ensures Low(y, k) == Low(z, k)
  {
  }

  /** The lowest bit of a product, and the rest of it. */
  lemma {:induction false} MulStep(x: nat, c: nat)
    ensures (x * PRIME + c) % 2 == ((x % 2) * PRIME + c) % 2
    ensures (x * PRIME + c) / 2 == (x / 2) * PRIME + Carry(x, c)
  {
    var h, b := x / 2, x % 2;
    assert x * PRIME + c == 2 * (h * PRIME) + (b * PRIME + c);
    Halve(h * PRIME, b * PRIME + c);
  }

  lemma {:induction false} Halve(e: nat, d: nat)
    ensures (2 * e + d) % 2 == d % 2 && (2 * e + d) / 2 == e + d / 2
  {
  }

  // ---------- the hash ----------

  /** One round of FNV-1a on a `k`-bit word: xor the byte in, then multiply and keep `k` bits. */
  function Round(h: nat, b: nat, k: nat): nat {
    Low(Xor(h, b) * PRIME, k)
  }

  function Fold(h: nat, s: Bytes): nat {
    if s == [] then h else Round(Fold(h, s[..|s| - 1]), s[|s| - 1], 32)
  }

  function Fnv32a(s: Bytes): nat {
    Fold(OFFSET_BASIS, s)
  }

  /** The hash as the library computes it: one pass over a 32-bit word, whose product wraps around. */
  method Sum32(s: Bytes) returns (h: nat)
    ensures h == Fnv32a(s)
  {
    h := OFFSET_BASIS;
    WordSize();
    for i := 0 to |s|
      invariant h == Fold(OFFSET_BASIS, s[..i])
    {
      assert s[..i + 1][..i] == s[..i];
      h := Xor(h, s[i]);
      LowIsMod(h * PRIME, 32);
      h := (h * PRIME) % 0x1_0000_0000;
    }
    assert s[..|s|] == s;
  }

  function Bkt(key: Bytes, numWorkers: nat): (bkt: nat)
    requires 1 <= numWorkers
    ensures bkt < numWorkers
  {
    And(Fnv32a(key), numWorkers - 1)
  }

  // ---------- the low bits of the hash ----------

  /** The same fold on a `k`-bit word, fed only the low `k` bits of each byte. */
  function FoldLow(h: nat, s: Bytes, k: nat): nat {
    if s == [] then Low(h, k) else Round(FoldLow(h, s[..|s| - 1], k), Low(s[|s| - 1], k), k)
  }

  lemma {:induction false} RoundLow(h: nat, b: nat, k: nat)
    requires k <= 32
    ensures Low(Round(h, b, 32), k) == Round(Low(h, k), Low(b, k), k)
  {
    LowLow(Xor(h, b) * PRIME, 32, k);
    LowMul(Xor(h, b), 0, k);
    LowXor(h, b, k);
  }

  /** The low `k` bits of the hash are a fold over the low `k` bits of the bytes. */
  lemma {:induction false} LowBitsFold(h: nat, s: Bytes, k: nat)
    requires k <= 32
    ensures Low(Fold(h, s), k) == FoldLow(h, s, k)
  {
    if s != [] {
      LowBitsFold(h, s[..|s| - 1], k);
      RoundLow(Fold(h, s[..|s| - 1]), s[|s| - 1], k);
    }
  }

  lemma {:induction false} AndBits(a: nat, b: nat, i: nat)
    ensures Has(And(a, b), i) <==> Has(a, i) && Has(b, i)
    decreases i
  {
    if b == 0 {
      HasZero(i);
    } else if i > 0 {
      AndBits(a / 2, b / 2, i - 1);
    }
  }

  lemma {:induction false} HasZero(i: nat)
    ensures !Has(0, i)
  {
    if i > 0 {
      HasZero(i - 1);
    }
  }

  /** Whatever the number of workers, the queue has the bits that the hash shares with that number less one. */
  lemma {:induction false} BucketBits(key: Bytes, numWorkers: nat, i: nat)
    requires 1 <= numWorkers
    ensures Has(Bkt(key, numWorkers), i) <==> Has(Fnv32a(key), i) && Has(numWorkers - 1, i)
  {
    AndBits(Fnv32a(key), numWorkers - 1, i);
  }

  /** With 2^k workers the queue is decided by the low `k` bits of the key's bytes, in order. */
  lemma {:induction false} BucketLowBits(s: Bytes, k: nat)
    requires k <= 32
    ensures Bkt(s, Pow2(k)) == FoldLow(OFFSET_BASIS, s, k)
  {
    AndLow(Fnv32a(s), k);
    LowBitsFold(OFFSET_BASIS, s, k);
  }

  /** Two keys that agree bytewise modulo 2^k share a queue among 2^k workers. */
  lemma {:induction false} CongruentKeysShareQueue(s: Bytes, t: Bytes, k: nat)
    requires k <= 32 && |s| == |t| && forall i :: 0 <= i < |s| ==> Low(s[i], k) == Low(t[i], k)
    ensures Bkt(s, Pow2(k)) == Bkt(t, Pow2(k))
  {
    BucketLowBits(s, k);
    BucketLowBits(t, k);
    FoldLowCongruent(OFFSET_BASIS, s, t, k);
  }

  lemma {:induction false} FoldLowCongruent(h: nat, s: Bytes, t: Bytes, k: nat)
    requires |s| == |t| && forall i :: 0 <= i < |s| ==> Low(s[i], k) == Low(t[i], k)
    ensures FoldLow(h, s, k) == FoldLow(h, t, k)
  {
    if s != [] {
      FoldLowCongruent(h, s[..|s| - 1], t[..|t| - 1], k);
    }
  }

  // ---------- two workers ----------

  /** The parity of the sum of the bytes. */
  function Parity(s: Bytes): (p: nat)
    ensures p < 2
  {
    if s == [] then 0 else (Parity(s[..|s| - 1]) + s[|s| - 1]) % 2
  }

  lemma {:induction false} ParityConcat(s: Bytes, t: Bytes)
    ensures Parity(s + t) == (Parity(s) + Parity(t)) % 2
  {
    if t == [] {
      assert s + t == s;
    } else {
      var u := s + t;
      ParityConcat(s, t[..|t| - 1]);
      assert u[..|u| - 1] == s + t[..|t| - 1];
    }
  }

  lemma {:induction false} FoldOneBit(s: Bytes)
    ensures FoldLow(OFFSET_BASIS, s, 1) == (1 + Parity(s)) % 2
  {
    if s == [] {
      assert Low(OFFSET_BASIS, 1) == OFFSET_BASIS % 2;
    } else {
      FoldOneBit(s[..|s| - 1]);
      OneBitRound(FoldLow(OFFSET_BASIS, s[..|s| - 1], 1), s[|s| - 1]);
    }
  }

  lemma {:induction false} OneBitRound(h: nat, b: nat)
    requires h < 2
    ensures Round(h, Low(b, 1), 1) == (h + b) % 2
  {
    assert Low(b, 1) == b % 2 + 2 * Low(b / 2, 0) == b % 2;
    var x := Xor(h, b % 2);
    assert x == (h + b % 2) % 2 + 2 * Xor(0, 0);
    assert Low(x * PRIME, 1) == (x * PRIME) % 2;
  }

  /** With two workers the queue number is one plus the parity of the bytes of the key. */
  lemma {:induction false} BucketParity(s: Bytes)
    ensures Bkt(s, 2) == (1 + Parity(s)) % 2
  {
    assert Pow2(1) == 2 * Pow2(0) == 2;
    BucketLowBits(s, 1);
    FoldOneBit(s);
  }

  // ---------- keys ----------

  datatype ObjType = EndpointsObj | ServiceObj | IngressObj

  const NUM_WORKERS: nat := 2
  const SLASH: Byte := '/' as int
  const COLON: Byte := ':' as int

  function Ascii(s: string): Bytes
    requires forall i :: 0 <= i < |s| ==> s[i] < 128 as char
  {
    seq(|s|, i requires 0 <= i < |s| => s[i] as int)
  }

  function TypeName(t: ObjType): Bytes {
    match t
    case EndpointsObj => Ascii("Endpoints")
    case ServiceObj => Ascii("Service")
    case IngressObj => Ascii("Ingress")
  }

  function CrudHashKey(ns: Bytes, name: Bytes): Bytes {
    ns + [COLON] + name
  }

  /** cache.MetaNamespaceKeyFunc: a cluster-scoped object has no namespace part. */
  function ObjKey(ns: Bytes, name: Bytes): Bytes {
    if ns == [] then name else ns + [SLASH] + name
  }

  function Key(t: ObjType, ns: Bytes, name: Bytes): Bytes {
    TypeName(t) + [SLASH] + CrudHashKey(ns, name) + [SLASH] + ObjKey(ns, name)
  }

  /** The namespace and the name occur twice each, so they cancel out of the parity. */
  lemma {:induction false} KeyParity(t: ObjType, ns: Bytes, name: Bytes)
    ensures Parity(Key(t, ns, name)) == (Parity(TypeName(t)) + (if ns == [] then 0 else 1)) % 2
  {
    ParitySlashed(TypeName(t) + [SLASH] + CrudHashKey(ns, name), ObjKey(ns, name));
    ParitySlashed(TypeName(t), CrudHashKey(ns, name));
    CrudHashKeyParity(ns, name);
    if ns == [] {
      assert Parity(ns) == 0;
    } else {
      ParitySlashed(ns, name);
    }
  }

  lemma {:induction false} CrudHashKeyParity(ns: Bytes, name: Bytes)
    ensures Parity(CrudHashKey(ns, name)) == (Parity(ns) + Parity(name)) % 2
  {
    ParityConcat(ns + [COLON], name);
    ParityConcat(ns, [COLON]);
    ParityOne(COLON);
  }

  lemma {:induction false} ParitySlashed(a: Bytes, b: Bytes)
    ensures Parity(a + [SLASH] + b) == (Parity(a) + 1 + Parity(b)) % 2
  {
    ParityConcat(a + [SLASH], b);
    ParityConcat(a, [SLASH]);
    ParityOne(SLASH);
  }

  lemma {:induction false} ParityOne(b: Byte)
    ensures Parity([b]) == b % 2
  {
    assert [b][..0] == [];
  }

  lemma {:induction false} ParityFour(a: Byte, b: Byte, c: Byte, d: Byte)
    ensures Parity([a, b, c, d]) == (a + b + c + d) % 2
  {
    ParityConcat([a, b], [c, d]);
    ParityTwo(a, b);
    ParityTwo(c, d);
    assert [a, b] + [c, d] == [a, b, c, d];
  }

  lemma {:induction false} ParityTwo(a: Byte, b: Byte)
    ensures Parity([a, b]) == (a + b) % 2
  {
    ParityConcat([a], [b]);
    ParityOne(a);
    ParityOne(b);
    assert [a] + [b] == [a, b];
  }

  lemma {:induction false} TypeParity(t: ObjType)
    ensures Parity(TypeName(t)) == if t.EndpointsObj? then 0 else 1
  {
    var s := TypeName(t);
    assert s[..4] == [s[0], s[1], s[2], s[3]];
    assert s == s[..4] + s[4..];
    ParityConcat(s[..4], s[4..]);
    ParityFour(s[0], s[1], s[2], s[3]);
    match t
    case EndpointsObj =>
      assert s[4..] == [s[4], s[5], s[6], s[7]] + [s[8]];
      ParityConcat([s[4], s[5], s[6], s[7]], [s[8]]);
      ParityFour(s[4], s[5], s[6], s[7]);
      ParityOne(s[8]);
    case _ =>
      assert s[4..] == [s[4], s[5], s[6]] && [s[4], s[5], s[6]] + [0] == [s[4], s[5], s[6], 0];
      ParityConcat([s[4], s[5], s[6]], [0]);
      ParityFour(s[4], s[5], s[6], 0);
      ParityOne(0);
  }

  /**
   * With the two workers the controller starts, the queue of a namespaced object depends on its type
   * alone: Endpoints go to queue 0, Services and Ingresses to queue 1.
   */
  lemma {:induction false} DispatchByType(t: ObjType, ns: Bytes, name: Bytes)
    requires ns != []
    ensures Bkt(Key(t, ns, name), NUM_WORKERS) == if t.EndpointsObj? then 0 else 1
  {
    BucketOfKey(t, ns, name);
  }

  /** The queue of any key, cluster-scoped objects included. */
  lemma {:induction false} BucketOfKey(t: ObjType, ns: Bytes, name: Bytes)
    ensures Bkt(Key(t, ns, name), NUM_WORKERS) == if t.EndpointsObj? <==> ns != [] then 0 else 1
  {
    BucketParity(Key(t, ns, name));
    KeyParity(t, ns, name);
    TypeParity(t);
  }

  /** A Service and any Endpoints, its own included, never share a queue, when both have a namespace or neither has. */
  lemma {:induction false} ServiceAndEndpointsNeverShare(ns: Bytes, name: Bytes, ns': Bytes, name': Bytes)
    requires ns == [] <==> ns' == []
    ensures Bkt(Key(ServiceObj, ns, name), NUM_WORKERS) != Bkt(Key(EndpointsObj, ns', name'), NUM_WORKERS)
  {
    BucketOfKey(ServiceObj, ns, name);
    BucketOfKey(EndpointsObj, ns', name');
  }

  // ---------- reading a key back ----------

  /** strings.SplitN(key, "/", 3): at most two cuts. */
  function SplitN3(key: Bytes): (r: seq<Bytes>)
    ensures 1 <= |r| <= 3
  {
    var i := Index(key, [SLASH]);
    if i < 0 then [key] else
      var t := key[i + 1..];
      var j := Index(t, [SLASH]);
      if j < 0 then [key[..i], t] else [key[..i], t[..j], t[j + 1..]]
  }

  /** cache.SplitMetaNamespaceKey: one or two slash-separated parts. */
  function SplitMetaNamespaceKey(key: Bytes): Option<(Bytes, Bytes)> {
    var parts := Split(key, [SLASH]);
    if |parts| == 1 then Some(([], parts[0]))
    else if |parts| == 2 then Some((parts[0], parts[1]))
    else None
  }

  /** The object the sync handler looks up for a key; None when the key is dropped as malformed. */
  function Lookup(key: Bytes): Option<(Bytes, Bytes, Bytes)> {
    var parts := SplitN3(key);
    if |parts| != 3 then None
    else match SplitMetaNamespaceKey(parts[2])
      case None => None
      case Some(nn) => Some((parts[0], nn.0, nn.1))
  }

  lemma {:induction false} TypeNameNoSlash(t: ObjType)
    ensures Free(TypeName(t), SLASH)
  {
  }

  lemma {:induction false} SplitN3Parts(a: Bytes, b: Bytes, c: Bytes)
    requires Free(a, SLASH) && Free(b, SLASH)
    ensures SplitN3(a + [SLASH] + b + [SLASH] + c) == [a, b, c]
  {
    var rest := b + [SLASH] + c;
    var key := a + [SLASH] + rest;
    assert key == a + [SLASH] + b + [SLASH] + c;
    SplitAtChar(a, SLASH, rest);
    SplitAtChar(b, SLASH, c);
    assert key[..|a|] == a && key[|a| + 1..] == rest;
    assert rest[..|b|] == b && rest[|b| + 1..] == c;
  }

  lemma {:induction false} ObjKeyParts(ns: Bytes, name: Bytes)
    requires Free(ns, SLASH) && Free(name, SLASH)
    ensures SplitMetaNamespaceKey(ObjKey(ns, name)) == Some((ns, name))
  {
    SplitFree(name, SLASH);
    if ns != [] {
      SplitAtChar(ns, SLASH, name);
    }
  }

  /** The handler looks up the very object the key was made for, whatever its slash-free name and namespace. */
  lemma {:induction false} KeyRoundTrip(t: ObjType, ns: Bytes, name: Bytes)
    requires Free(ns, SLASH) && Free(name, SLASH)
    ensures Lookup(Key(t, ns, name)) == Some((TypeName(t), ns, name))
  {
    TypeNameNoSlash(t);
    SplitN3Parts(TypeName(t), CrudHashKey(ns, name), ObjKey(ns, name));
    ObjKeyParts(ns, name);
  }

  lemma {:induction false} TypeNamesDiffer(t: ObjType, u: ObjType)
    requires TypeName(t) == TypeName(u)
    ensures t == u
  {
    assert |"Endpoints"| == 9 && |"Service"| == 7 && |"Ingress"| == 7;
    assert TypeName(ServiceObj)[0] == 'S' as int && TypeName(IngressObj)[0] == 'I' as int;
  }

  /** Two objects have two keys. */
  lemma {:induction false} KeyInjective(t: ObjType, ns: Bytes, name: Bytes, t': ObjType, ns': Bytes, name': Bytes)
    requires Free(ns, SLASH) && Free(name, SLASH) && Free(ns', SLASH) && Free(name', SLASH)
    requires Key(t, ns, name) == Key(t', ns', name')
    ensures t == t' && ns == ns' && name == name'
  {
    KeyRoundTrip(t, ns, name);
    KeyRoundTrip(t', ns', name');
    TypeNamesDiffer(t, t');
  }

  // ---------- known hashes ----------

  lemma {:induction false} XorZero(a: nat)
    ensures Xor(a, 0) == a
  {
    if a > 0 {
      XorZero(a / 2);
    }
  }

  lemma {:induction false} XorStep(a: nat, b: nat)
    ensures Xor(a, b) == (a % 2 + b % 2) % 2 + 2 * Xor(a / 2, b / 2)
  {
  }

  /** The first letter of the alphabet, in the first round. */
  lemma {:induction false} FirstXor()
    ensures Xor(OFFSET_BASIS, 97) == 0x811c_9da4
  {
    XorZero(16922939);
    XorStep(33845879, 1);
    XorStep(67691758, 3);
    XorStep(135383516, 6);
    XorStep(270767032, 12);
    XorStep(541534065, 24);
    XorStep(1083068130, 48);
    XorStep(2166136261, 97);
  }

  /** The published 32-bit FNV-1a hashes of the empty text and of "a". */
  lemma {:induction false} KnownHashes()
    ensures Fnv32a([]) == 0x811c_9dc5 && Fnv32a(Ascii("a")) == 0xe40c_292c
  {
    assert Ascii("a") == [97] && [97][..0] == [];
    FirstXor();
    WordSize();
    LowIsMod(0x811c_9da4 * PRIME, 32);
  }
}
