/**
 pbkdf2SHA256 of internal/server/password.go: the loops that exclusive-or a byte buffer in place,
 proved against the definition of PBKDF2 in section 5.2 of RFC 8018 over any pseudorandom function
 with 32-byte results.
 */
module Pbkdf2 {

  type Octets = seq<bv8>

  const HASH_LENGTH: nat := 32
  const TWO_TO_THE_32: nat := 0x1_0000_0000

  /** A function that behaves like HMAC-SHA-256 as far as lengths go. */
  ghost predicate IsPrf(prf: (Octets, Octets) -> Octets) {
    forall key, message :: |prf(key, message)| == HASH_LENGTH
  }

  // ----- Section 5.2 of RFC 8018 -----

  function Xor(a: Octets, b: Octets): (c: Octets)
    requires |a| == |b|
    ensures |c| == |a|
  {
    seq(|a|, i requires 0 <= i < |a| => a[i] ^ b[i])
  }

  /** INT (i): four octets, most significant first. */
  function Int(i: nat): (octets: Octets)
    requires i < TWO_TO_THE_32
    ensures |octets| == 4
  {
    [(i / 0x100_0000) as bv8, (i / 0x1_0000 % 0x100) as bv8, (i / 0x100 % 0x100) as bv8, (i % 0x100) as bv8]
  }

  /** U_1 = PRF (P, S || INT (i)) and U_j = PRF (P, U_{j-1}). */
  function U(prf: (Octets, Octets) -> Octets, password: Octets, salt: Octets, i: nat, j: nat): Octets
    requires i < TWO_TO_THE_32 && 1 <= j
  {
    if j == 1 then prf(password, salt + Int(i)) else prf(password, U(prf, password, salt, i, j - 1))
  }

  /** F (P, S, c, i) = U_1 xor U_2 xor ... xor U_c. */
  function F(prf: (Octets, Octets) -> Octets, password: Octets, salt: Octets, c: nat, i: nat): (t: Octets)
    requires i < TWO_TO_THE_32 && 1 <= c && IsPrf(prf)
    ensures |t| == HASH_LENGTH
  {
    if c == 1 then U(prf, password, salt, i, 1)
    else Xor(F(prf, password, salt, c - 1, i), U(prf, password, salt, i, c))
  }

  /** T_1 || T_2 || ... || T_l. */
  function Blocks(prf: (Octets, Octets) -> Octets, password: Octets, salt: Octets, c: nat, l: nat): (t: Octets)
    requires l < TWO_TO_THE_32 && 1 <= c && IsPrf(prf)
    ensures |t| == l * HASH_LENGTH
  {
    if l == 0 then [] else Blocks(prf, password, salt, c, l - 1) + F(prf, password, salt, c, l)
  }

  /** CEIL (dkLen / hLen). */
  function BlockCount(keyLength: nat): (l: nat)
    ensures (l - 1) * HASH_LENGTH < keyLength <= l * HASH_LENGTH || (keyLength == 0 && l == 0)
  {
    (keyLength + HASH_LENGTH - 1) / HASH_LENGTH
  }

  /** DK: the first dkLen octets. */
  function Derived(prf: (Octets, Octets) -> Octets, password: Octets, salt: Octets, c: nat, keyLength: nat): (key: Octets)
    requires BlockCount(keyLength) < TWO_TO_THE_32 && 1 <= c && IsPrf(prf)
    ensures |key| == keyLength
  {
    Blocks(prf, password, salt, c, BlockCount(keyLength))[..keyLength]
  }

  /** INT (i) read as a number, most significant octet first, is i. */
  lemma IntIsBigEndian(i: nat)
    requires i < TWO_TO_THE_32
    ensures
      var octets := Int(i);
      ((Value(octets[0]) * 0x100 + Value(octets[1])) * 0x100 + Value(octets[2])) * 0x100 + Value(octets[3]) == i
  {
    hide Value;
    OctetHolds(i / 0x100_0000);
    OctetHolds(i / 0x1_0000 % 0x100);
    OctetHolds(i / 0x100 % 0x100);
    OctetHolds(i % 0x100);
    Digits(i);
  }

  function Value(octet: bv8): nat {
    octet as nat
  }

  lemma OctetHolds(x: nat)
    requires x < 0x100
    ensures Value(x as bv8) == x
  {
  }

  lemma Digits(i: nat)
    ensures ((i / 0x100_0000 * 0x100 + i / 0x1_0000 % 0x100) * 0x100 + i / 0x100 % 0x100) * 0x100 + i % 0x100 == i
  {
    assert i / 0x100 / 0x100 == i / 0x1_0000 && i / 0x1_0000 / 0x100 == i / 0x100_0000;
  }

  // ----- The program -----

  /** `uint32(block)` in big-endian order: the counter wraps around. */
  function Counter(block: nat): (octets: Octets)
    ensures |octets| == 4
    ensures block < TWO_TO_THE_32 ==> octets == Int(block)
  {
    Int(block % TWO_TO_THE_32)
  }

  /** `t ^= u`, in place. */
  method XorInto(t: array<bv8>, u: Octets)
    requires t.Length == |u|
    modifies t
    ensures t[..] == Xor(old(t[..]), u)
  {
    for index := 0 to t.Length
      invariant forall k | 0 <= k < index :: t[k] == old(t[k]) ^ u[k]
      invariant forall k | index <= k < t.Length :: t[k] == old(t[k])
    {
      t[index] := t[index] ^ u[index];
    }
  }

  /** One block: the inner loop exclusive-ors the iterated results into the buffer `t`. */
  method DeriveBlock(prf: (Octets, Octets) -> Octets, password: Octets, salt: Octets, iterations: nat, block: nat)
      returns (t: array<bv8>)
    requires IsPrf(prf) && 1 <= iterations
    ensures fresh(t) && t[..] == F(prf, password, salt, iterations, block % TWO_TO_THE_32)
  {
    var i := block % TWO_TO_THE_32;
    var u := prf(password, salt + Counter(block));
    t := new bv8[|u|](k requires 0 <= k < |u| => u[k]);
    assert t[..] == u;
    for iteration := 1 to iterations
      invariant fresh(t) && t.Length == HASH_LENGTH
      invariant u == U(prf, password, salt, i, iteration)
      invariant t[..] == F(prf, password, salt, iteration, i)
    {
      u := prf(password, u);
      XorInto(t, u);
    }
  }

  /** pbkdf2SHA256: the RFC's derived key, whole and of exactly the length asked for, whenever there are
      fewer than 2^32 blocks; nothing for counts that are not positive. */
  method DeriveKey(prf: (Octets, Octets) -> Octets, password: Octets, salt: Octets, iterations: int, keyLength: int)
      returns (key: Octets)
    requires IsPrf(prf)
    ensures iterations <= 0 || keyLength <= 0 ==> key == []
    ensures iterations > 0 && keyLength > 0 ==> |key| == keyLength
    ensures iterations > 0 && keyLength > 0 && BlockCount(keyLength) < TWO_TO_THE_32 ==>
      key == Derived(prf, password, salt, iterations, keyLength)
  {
    if iterations <= 0 || keyLength <= 0 {
      return [];
    }
    var blocks := (keyLength + HASH_LENGTH - 1) / HASH_LENGTH;
    var derived: Octets := [];
    for block := 1 to blocks + 1
      invariant |derived| == (block - 1) * HASH_LENGTH
      invariant block - 1 < TWO_TO_THE_32 ==> derived == Blocks(prf, password, salt, iterations, block - 1)
    {
      var t := DeriveBlock(prf, password, salt, iterations, block);
      derived := derived + t[..];
    }
    return derived[..keyLength];
  }

  /** Octet k of the derived key comes from block k / 32 + 1 and octet k % 32 of it. */
  lemma {:induction false} BlocksAt(
    prf: (Octets, Octets) -> Octets, password: Octets, salt: Octets, c: nat, l: nat, k: nat)
    requires IsPrf(prf) && l < TWO_TO_THE_32 && 1 <= c && k < l * HASH_LENGTH
    ensures k / HASH_LENGTH + 1 <= l
    ensures
      Blocks(prf, password, salt, c, l)[k] == F(prf, password, salt, c, k / HASH_LENGTH + 1)[k % HASH_LENGTH]
  {
    if k < (l - 1) * HASH_LENGTH {
      BlocksAt(prf, password, salt, c, l - 1, k);
    } else {
      assert k / HASH_LENGTH == l - 1 && k % HASH_LENGTH == k - (l - 1) * HASH_LENGTH;
    }
  }

  /** The first block after one iteration, and each octet of it after two. */
  lemma FirstBlock(prf: (Octets, Octets) -> Octets, password: Octets, salt: Octets, k: nat)
    requires IsPrf(prf) && k < HASH_LENGTH
    ensures
      var first := prf(password, salt + [0, 0, 0, 1]);
      && Derived(prf, password, salt, 1, 32) == first
      && Derived(prf, password, salt, 2, 32)[k] == first[k] ^ prf(password, first)[k]
  {
    assert Int(1) == [0, 0, 0, 1];
    assert BlockCount(32) == 1;
    OneBlock(prf, password, salt, 1);
    OneBlock(prf, password, salt, 2);
  }

  lemma OneBlock(prf: (Octets, Octets) -> Octets, password: Octets, salt: Octets, c: nat)
    requires IsPrf(prf) && 1 <= c
    ensures BlockCount(32) == 1 && Derived(prf, password, salt, c, 32) == F(prf, password, salt, c, 1)
  {
    assert Blocks(prf, password, salt, c, 0) == [];
    assert Blocks(prf, password, salt, c, 1) == [] + F(prf, password, salt, c, 1);
  }

  function XorOf(octets: seq<bv8>): bv8 {
    if octets == [] then 0 else XorOf(octets[..|octets| - 1]) ^ octets[|octets| - 1]
  }

  /** Octet k of a block is the exclusive or of the octets k of its iterates. */
  lemma {:induction false} BlockAt(
    prf: (Octets, Octets) -> Octets, password: Octets, salt: Octets, c: nat, i: nat, k: nat)
    requires IsPrf(prf) && i < TWO_TO_THE_32 && 1 <= c && k < HASH_LENGTH
    ensures forall j | 1 <= j <= c :: |U(prf, password, salt, i, j)| == HASH_LENGTH
    ensures
      F(prf, password, salt, c, i)[k] == XorOf(seq(c, j requires 0 <= j < c => U(prf, password, salt, i, j + 1)[k]))
  {
    forall j | 1 <= j <= c ensures |U(prf, password, salt, i, j)| == HASH_LENGTH {
    }
    var octets := seq(c, j requires 0 <= j < c => U(prf, password, salt, i, j + 1)[k]);
    if c == 1 {
      assert octets[..0] == [];
    } else {
      BlockAt(prf, password, salt, c - 1, i, k);
      assert octets[..c - 1] == seq(c - 1, j requires 0 <= j < c - 1 => U(prf, password, salt, i, j + 1)[k]);
    }
  }

  /** A key of another length is a prefix of the longer one. */
  lemma {:induction false} PrefixOfLonger(
    prf: (Octets, Octets) -> Octets, password: Octets, salt: Octets, c: nat, short: nat, long: nat)
    requires IsPrf(prf) && 1 <= c && short <= long && BlockCount(long) < TWO_TO_THE_32
    ensures BlockCount(short) <= BlockCount(long)
    ensures Derived(prf, password, salt, c, short) == Derived(prf, password, salt, c, long)[..short]
  {
    forall k | 0 <= k < short
      ensures Derived(prf, password, salt, c, short)[k] == Derived(prf, password, salt, c, long)[k]
    {
      BlocksAt(prf, password, salt, c, BlockCount(short), k);
      BlocksAt(prf, password, salt, c, BlockCount(long), k);
    }
  }
}
