/**
 * Id-based equality shared by the persisted entities (EqualsAndHashCodeId),
 * for the entities JpaHibernateAuditedIded and JpaInitIded, whose
 * equalsAndHashCodeId is their Long `uuid` column.
 */
module Models {
  import opened Wrappers

  /** The two failures the source raises as RuntimeException. */
  datatype IdError = EqualsWithoutId | HashCodeWithoutId

  /** Java's signed 32-bit int range. */
  newtype Int32 = x: int | -0x8000_0000 <= x < 0x8000_0000

  /** A persisted entity: its runtime class and its `uuid` (a nullable Long). */
  class Ided {
    const cls: string
    var uuid: Option<int>

    constructor (cls: string, uuid: Option<int>)
      ensures this.cls == cls && this.uuid == uuid
    {
      this.cls := cls;
      this.uuid := uuid;
    }
  }

  /** A Long that fits in 64 signed bits. */
  predicate IsLong(v: int) {
    -0x8000_0000_0000_0000 <= v < 0x8000_0000_0000_0000
  }

  function Pow2(k: nat): (p: nat)
    ensures p >= 1
  {
    if k == 0 then 1 else 2 * Pow2(k - 1)
  }

  lemma {:induction false} Pow2Add(m: nat, n: nat)
    ensures Pow2(m + n) == Pow2(m) * Pow2(n)
  {
    if m > 0 {
      Pow2Add(m - 1, n);
    }
  }

  lemma Pow2Of32()
    ensures Pow2(32) == 0x1_0000_0000
  {
    assert Pow2(2) == 4;
    Pow2Add(2, 2);
    Pow2Add(4, 4);
    Pow2Add(8, 8);
    Pow2Add(16, 16);
  }

  /** Bitwise exclusive or of two naturals, bit by bit from the lowest. */
  function Xor(a: nat, b: nat): nat
    decreases a + b
  {
    if a == 0 then b
    else if b == 0 then a
    else (a % 2 + b % 2) % 2 + 2 * Xor(a / 2, b / 2)
  }

  /** Exclusive or of two k-bit values is a k-bit value. */
  lemma {:induction false} XorBound(a: nat, b: nat, k: nat)
    requires a < Pow2(k) && b < Pow2(k)
    ensures Xor(a, b) < Pow2(k)
    decreases a + b
  {
    if a != 0 && b != 0 {
      assert k > 0;
      XorBound(a / 2, b / 2, k - 1);
    }
  }

  /** Exclusive or with k one-bits complements a k-bit value. */
  lemma {:induction false} XorOnes(a: nat, ones: nat, k: nat)
    requires a < Pow2(k) && ones == Pow2(k) - 1
    ensures Xor(a, ones) + a == ones
    decreases k
  {
    if k > 0 && a > 0 {
      XorOnes(a / 2, ones / 2, k - 1);
    }
  }

  /**
   * Long.hashCode: the low 32 bits of `v ^ (v >>> 32)`, read as a signed
   * int. Since `v >>> 32` has zero high bits, those low bits are the
   * exclusive or of the two 32-bit halves of v's two's-complement form.
   */
  function LongHashCode(v: int): (h: Int32)
    requires IsLong(v)
    ensures 0 <= v < 0x8000_0000 ==> h as int == v
    ensures -0x8000_0000 <= v < 0 ==> h as int == -v - 1
  {
    var u := if v < 0 then v + 0x1_0000_0000_0000_0000 else v;
    var high, low := u / 0x1_0000_0000, u % 0x1_0000_0000;
    Pow2Of32();
    XorBound(low, high, 32);
    XorOnes(low, 0xFFFF_FFFF, 32);
    var folded := Xor(low, high);
    if folded < 0x8000_0000 then folded as Int32 else (folded - 0x1_0000_0000) as Int32
  }

  /**
   * equalsId: identity first, then null and runtime-class checks, then the
   * two null-id failures, then id equality.
   */
  function EqualsId(self: Ided, o: Ided?): (r: Result<bool, IdError>)
    reads self, o
    ensures self == o ==> r == Ok(true)
    ensures self != o && (o == null || o.cls != self.cls) ==> r == Ok(false)
    ensures self != o && o != null && o.cls == self.cls && (self.uuid.None? || o.uuid.None?) ==>
              r == Err(EqualsWithoutId)
    ensures self != o && o != null && o.cls == self.cls && self.uuid.Some? && o.uuid.Some? ==>
              r == Ok(self.uuid.value == o.uuid.value)
  {
    if self == o then Ok(true)
    else if o == null || self.cls != o.cls then Ok(false)
    else if self.uuid.None? then Err(EqualsWithoutId)
    else if o.uuid.None? then Err(EqualsWithoutId)
    else Ok(self.uuid == o.uuid)
  }

  /** hashCodeId: fails on a null id, otherwise Objects.hashCode of the id. */
  function HashCodeId(self: Ided): (r: Result<Int32, IdError>)
    reads self
    requires self.uuid.Some? ==> IsLong(self.uuid.value)
    ensures r.Err? <==> self.uuid.None?
    ensures r.Ok? ==> r.value == LongHashCode(self.uuid.value)
  {
    match self.uuid
    case None => Err(HashCodeWithoutId)
    case Some(v) => Ok(LongHashCode(v))
  }

  /** Equality is symmetric, including which pairs fail. */
  lemma EqualsIdSymmetric(a: Ided, b: Ided)
    ensures EqualsId(a, b) == EqualsId(b, a)
  {
  }

  /** Equality is transitive on the pairs it accepts. */
  lemma EqualsIdTransitive(a: Ided, b: Ided, c: Ided)
    requires EqualsId(a, b) == Ok(true) && EqualsId(b, c) == Ok(true)
    ensures EqualsId(a, c) == Ok(true)
  {
  }

  /** Objects equal under equalsId have the same hashCodeId (both fail or both agree). */
  lemma EqualsIdConsistentWithHash(a: Ided, b: Ided)
    requires a.uuid.Some? ==> IsLong(a.uuid.value)
    requires b.uuid.Some? ==> IsLong(b.uuid.value)
    requires EqualsId(a, b) == Ok(true)
    ensures HashCodeId(a) == HashCodeId(b)
  {
  }

  /**
   * Reflexive equality does not imply a usable hash: an entity with no id
   * equals itself, yet its hashCodeId fails.
   */
  lemma NullIdEqualsItselfButHasNoHash(a: Ided)
    requires a.uuid.None?
    ensures EqualsId(a, a) == Ok(true)
    ensures HashCodeId(a).Err?
  {
  }
}
