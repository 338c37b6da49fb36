/** Scalar type descriptors, packed field by field into one number. */
module ScalarTypes {
  import opened Wrappers
  import opened Arith

  // ----- bits of naturals

  function Pow2(n: nat): (r: nat)
    ensures r > 0
  {
    if n == 0 then 1 else 2 * Pow2(n - 1)
  }

  function Or(a: nat, b: nat): nat
    decreases a + b
  {
    if a == 0 && b == 0 then 0
    else 2 * Or(a / 2, b / 2) + if a % 2 == 1 || b % 2 == 1 then 1 else 0
  }

  function And(a: nat, b: nat): nat
    decreases a + b
  {
    if a == 0 || b == 0 then 0
    else 2 * And(a / 2, b / 2) + if a % 2 == 1 && b % 2 == 1 then 1 else 0
  }

  function Shl(a: nat, n: nat): nat {
    a * Pow2(n)
  }

  /** The arithmetic shift to the right, which rounds down. */
  function Shr(a: int, n: nat): (r: int)
    ensures a >= 0 ==> r >= 0
  {
    DivNat(a, Pow2(n));
    a / Pow2(n)
  }

  lemma DivNat(a: int, p: nat)
    requires p > 0
    ensures a >= 0 ==> a / p >= 0
  {
  }

  /** The `w` lowest bits set. */
  function Mask(w: nat): nat {
    Shl(1, w) - 1
  }

  lemma {:induction false} Pow2Adds(m: nat, n: nat)
    ensures Pow2(m + n) == Pow2(m) * Pow2(n)
    decreases m
  {
    if m > 0 {
      Pow2Adds(m - 1, n);
      assert Pow2(m) * Pow2(n) == 2 * (Pow2(m - 1) * Pow2(n));
    }
  }

  lemma {:induction false} OrZero(b: nat)
    ensures Or(0, b) == b
  {
    if b > 0 {
      OrZero(b / 2);
    }
  }

  /** Or of bits that do not overlap is addition. */
  lemma {:induction false} OrDisjoint(a: nat, b: nat, n: nat)
    requires a < Pow2(n)
    ensures Or(a, Shl(b, n)) == a + Shl(b, n)
    decreases n
  {
    if n == 0 {
      OrZero(b);
    } else {
      var c := Shl(b, n - 1);
      assert Shl(b, n) == 2 * c;
      OrDisjoint(a / 2, b, n - 1);
      if a == 0 && c == 0 {
      } else {
        assert (2 * c) / 2 == c && (2 * c) % 2 == 0;
        assert Or(a, 2 * c) == 2 * Or(a / 2, c) + a % 2;
      }
    }
  }

  /** And with a mask is the remainder. */
  lemma {:induction false} AndMask(a: nat, w: nat)
    ensures And(a, Mask(w)) == a % Pow2(w)
    decreases w
  {
    hide Pow2, And, Mask;
    if w == 0 {
      MaskHalf(0);
      AndHalf(a, 0);
    } else {
      AndMask(a / 2, w - 1);
      MaskHalf(w);
      AndHalf(a, Mask(w));
      HalfMod(a, Pow2(w - 1));
    }
  }

  /** A mask is odd and its half is the next smaller mask. */
  lemma MaskHalf(w: nat)
    ensures if w == 0 then Mask(w) == 0 && Pow2(w) == 1
            else Pow2(w) == 2 * Pow2(w - 1) && Pow2(w - 1) > 0 && Mask(w) == 2 * Mask(w - 1) + 1
  {
  }

  /** The lowest bit of an and, and the bits above it. */
  lemma AndHalf(a: nat, b: nat)
    ensures And(a, b) == if b == 0 then 0 else 2 * And(a / 2, b / 2) + (if a % 2 == 1 && b % 2 == 1 then 1 else 0)
  {
  }

  lemma HalfMod(a: nat, m: nat)
    requires m > 0
    ensures a % (2 * m) == 2 * ((a / 2) % m) + a % 2
  {
    var h := a / 2;
    var q, r := h / m, h % m;
    assert h == q * m + r;
    assert a == q * (2 * m) + (2 * r + a % 2);
    ModUnique(a, 2 * m, q, 2 * r + a % 2);
  }

  lemma ModUnique(a: int, n: nat, q: int, r: nat)
    requires n > 0 && r < n && a == q * n + r
    ensures a % n == r && a / n == q
  {
    var d := a / n - q;
    assert a == (a / n) * n + a % n;
    assert d * n == r - a % n by {
      assert (a / n) * n - q * n == d * n;
    }
    SmallMultiple(d, n);
  }

  lemma SmallMultiple(d: int, n: nat)
    requires 0 - n < d * n < n
    ensures d == 0
  {
  }

  // ----- packing a list of members

  /** A member of `bits` bits, two's complement if signed. */
  datatype Kind = Kind(bits: nat, signed: bool)

  datatype Member = Member(kind: Kind, value: int)

  ghost predicate Fits(m: Member) {
    && m.kind.bits > 0
    && if m.kind.signed then 0 - Pow2(m.kind.bits - 1) <= m.value < Pow2(m.kind.bits - 1)
       else 0 <= m.value < Pow2(m.kind.bits)
  }

  predicate Wide(v: int) {
    v + Pow2(64) >= 0
  }

  /** The 64-bit pattern of a member widened to 64 bits. */
  function Widened(v: int): nat
    requires Wide(v)
  {
    if v >= 0 then v else v + Pow2(64)
  }

  function Width(ms: seq<Member>): nat {
    if ms == [] then 0 else ms[0].kind.bits + Width(ms[1..])
  }

  /** The low bits of a member, as they go into the id. */
  function Bits(m: Member): nat
    requires Wide(m.value)
  {
    And(Widened(m.value), Mask(m.kind.bits))
  }

  /** The fold that ors each member in at its offset. */
  function Packed(ms: seq<Member>, id: nat, offset: nat): nat
    requires forall i :: 0 <= i < |ms| ==> Wide(ms[i].value)
  {
    if ms == [] then id
    else Packed(ms[1..], Or(id, Shl(Bits(ms[0]), offset)), offset + ms[0].kind.bits)
  }

  /** The narrowing cast of extracted bits. */
  function Narrowed(bits: nat, k: Kind): int {
    if k.signed && k.bits > 0 && bits >= Pow2(k.bits - 1) then bits - Pow2(k.bits) else bits
  }

  function Extracted(id: nat, k: Kind, offset: nat): int {
    Narrowed(And(Shr(id, offset), Mask(k.bits)), k)
  }

  /** The fold that extracts the members again. */
  function Unpacked(id: nat, kinds: seq<Kind>, offset: nat): seq<int> {
    if kinds == [] then []
    else [Extracted(id, kinds[0], offset)] + Unpacked(id, kinds[1..], offset + kinds[0].bits)
  }

  function KindsOf(ms: seq<Member>): seq<Kind> {
    seq(|ms|, i requires 0 <= i < |ms| => ms[i].kind)
  }

  function ValuesOf(ms: seq<Member>): seq<int> {
    seq(|ms|, i requires 0 <= i < |ms| => ms[i].value)
  }

  lemma Pow2Mono(m: nat, n: nat)
    requires m <= n
    ensures Pow2(m) <= Pow2(n)
  {
  }

  lemma Representable(m: Member)
    requires Fits(m) && m.kind.bits <= 64
    ensures Wide(m.value)
  {
    Pow2Mono(m.kind.bits, 64);
    Pow2Mono(m.kind.bits - 1, 64);
  }

  /** The bits of a member are its value modulo the field, and the cast gives the value back. */
  lemma BitsRoundTrip(m: Member)
    requires Fits(m) && m.kind.bits <= 64
    ensures Wide(m.value)
    ensures Bits(m) < Pow2(m.kind.bits) && Narrowed(Bits(m), m.kind) == m.value
  {
    hide And, Mask;
    Representable(m);
    var w := m.kind.bits;
    AndMask(Widened(m.value), w);
    assert Pow2(w) == 2 * Pow2(w - 1);
    if m.value >= 0 {
      ModUnique(m.value, Pow2(w), 0, m.value);
    } else {
      Pow2Adds(w, 64 - w);
      NegativeBits(m.value, Pow2(w), Pow2(64 - w));
    }
  }

  lemma NegativeBits(v: int, n: nat, k: nat)
    requires n > 0 && k > 0 && 0 <= v + n && v < 0
    ensures (v + n * k) % n == v + n
  {
    assert v + n * k == (k - 1) * n + (v + n);
    ModUnique(v + n * k, n, k - 1, v + n);
  }

  /** What has been packed stays below the offset, and the rest is packed above it. */
  lemma {:induction false} PackedKeeps(ms: seq<Member>, id: nat, offset: nat)
    requires (forall i :: 0 <= i < |ms| ==> Fits(ms[i]) && ms[i].kind.bits <= 64) && id < Pow2(offset)
    ensures forall i :: 0 <= i < |ms| ==> Wide(ms[i].value)
    ensures Packed(ms, id, offset) < Pow2(offset + Width(ms))
    ensures Packed(ms, id, offset) % Pow2(offset) == id
    decreases |ms|
  {
    hide Or, Shl, Bits, Pow2, Fits;
    forall i | 0 <= i < |ms|
      ensures Wide(ms[i].value)
    {
      Representable(ms[i]);
    }
    if ms == [] {
      ModUnique(id, Pow2(offset), 0, id);
    } else {
      PackOne(ms[0], id, offset);
      var next := Or(id, Shl(Bits(ms[0]), offset));
      PackedKeeps(ms[1..], next, offset + ms[0].kind.bits);
      LowBits(Packed(ms, id, offset), id, Bits(ms[0]), offset, ms[0].kind.bits);
    }
  }

  lemma PackOne(m: Member, id: nat, offset: nat)
    requires Fits(m) && m.kind.bits <= 64 && id < Pow2(offset)
    ensures Wide(m.value)
    ensures Bits(m) < Pow2(m.kind.bits)
    ensures Or(id, Shl(Bits(m), offset)) == id + Bits(m) * Pow2(offset) < Pow2(offset + m.kind.bits)
  {
    hide Or, Bits, Fits;
    BitsRoundTrip(m);
    OrDisjoint(id, Bits(m), offset);
    Pow2Adds(m.kind.bits, offset);
    StepsApart(Bits(m), Pow2(m.kind.bits), Pow2(offset));
  }

  /** The layers of a packed number: what is below the offset, the field, and what is above. */
  lemma LowBits(r: nat, id: nat, x: nat, offset: nat, w: nat)
    requires id < Pow2(offset) && x < Pow2(w) && r % Pow2(offset + w) == id + x * Pow2(offset)
    ensures r % Pow2(offset) == id && (r / Pow2(offset)) % Pow2(w) == x
  {
    hide Pow2;
    var n, m := Pow2(offset), Pow2(w);
    Pow2Adds(w, offset);
    var k := r / Pow2(offset + w);
    assert r == k * (m * n) + (id + x * n) by {
      assert r == k * Pow2(offset + w) + r % Pow2(offset + w);
    }
    assert r == (k * m + x) * n + id by {
      assert k * (m * n) == (k * m) * n;
      assert (k * m + x) * n == (k * m) * n + x * n;
    }
    ModUnique(r, n, k * m + x, id);
    ModUnique(k * m + x, m, k, x);
  }

  /** Unpacking gives back the values that were packed. */
  lemma {:induction false} PackedRoundTrip(ms: seq<Member>, id: nat, offset: nat)
    requires (forall i :: 0 <= i < |ms| ==> Fits(ms[i]) && ms[i].kind.bits <= 64) && id < Pow2(offset)
    ensures forall i :: 0 <= i < |ms| ==> Wide(ms[i].value)
    ensures Unpacked(Packed(ms, id, offset), KindsOf(ms), offset) == ValuesOf(ms)
    decreases |ms|
  {
    hide Or, Shl, Bits, Pow2, Fits, Extracted;
    PackedKeeps(ms, id, offset);
    if ms != [] {
      PackOne(ms[0], id, offset);
      var next := Or(id, Shl(Bits(ms[0]), offset));
      PackedKeeps(ms[1..], next, offset + ms[0].kind.bits);
      PackedRoundTrip(ms[1..], next, offset + ms[0].kind.bits);
      ExtractOne(Packed(ms, id, offset), id, ms[0], offset);
      assert KindsOf(ms)[1..] == KindsOf(ms[1..]) && ValuesOf(ms) == [ms[0].value] + ValuesOf(ms[1..]);
    }
  }

  lemma ExtractOne(r: nat, id: nat, m: Member, offset: nat)
    requires Fits(m) && m.kind.bits <= 64 && id < Pow2(offset) && Wide(m.value)
    requires r % Pow2(offset + m.kind.bits) == id + Bits(m) * Pow2(offset)
    ensures Extracted(r, m.kind, offset) == m.value
  {
    hide And, Bits, Fits, Mask;
    BitsRoundTrip(m);
    LowBits(r, id, Bits(m), offset, m.kind.bits);
    AndMask(Shr(r, offset), m.kind.bits);
  }

  // ----- scalar types

  datatype ScalarType = ScalarType(exponent: int, mantissa: int, signed: bool, bias: int, finiteOnly: bool,
    nanRepr: int)

  /** The ranges of the fields: three bytes and a signed 32-bit bias. */
  ghost predicate Valid(t: ScalarType) {
    && 0 <= t.exponent < 256 && 0 <= t.mantissa < 256 && 0 <= t.nanRepr < 256
    && -0x8000_0000 <= t.bias < 0x8000_0000
  }

  function FromBool(b: bool): int {
    if b then 1 else 0
  }

  const BYTE := Kind(8, false)
  const FLAG := Kind(1, false)
  const INT32 := Kind(32, true)

  function Members(t: ScalarType): seq<Member> {
    [Member(BYTE, t.exponent), Member(BYTE, t.mantissa), Member(FLAG, FromBool(t.signed)), Member(INT32, t.bias),
     Member(FLAG, FromBool(t.finiteOnly)), Member(BYTE, t.nanRepr)]
  }

  lemma Powers()
    ensures Pow2(1) == 2 && Pow2(8) == 256 && Pow2(31) == 0x8000_0000 && Pow2(32) == 0x1_0000_0000
    ensures Pow2(58) == 0x400_0000_0000_0000 && Pow2(64) == 0x1_0000_0000_0000_0000
  {
    SmallPowers();
    hide Pow2;
    assert Pow2(8) == 256 by { Pow2Adds(4, 4); }
    assert Pow2(16) == 65536 by { Pow2Adds(8, 8); }
    assert Pow2(31) == 0x8000_0000 by { Pow2Adds(16, 15); Pow2Adds(8, 7); Pow2Adds(4, 3); }
    assert Pow2(32) == 0x1_0000_0000 by { Pow2Adds(16, 16); }
    assert Pow2(64) == 0x1_0000_0000_0000_0000 by { Pow2Adds(32, 32); }
    assert Pow2(26) == 0x400_0000 by { Pow2Adds(16, 10); Pow2Adds(8, 2); }
    Pow2Adds(32, 26);
  }

  lemma SmallPowers()
    ensures Pow2(1) == 2 && Pow2(2) == 4 && Pow2(3) == 8 && Pow2(4) == 16
  {
  }

  lemma MembersFit(t: ScalarType)
    requires Valid(t)
    ensures forall i :: 0 <= i < 6 ==> Fits(Members(t)[i]) && Members(t)[i].kind.bits <= 64 && Wide(Members(t)[i].value)
    ensures Width(Members(t)) == 58
  {
    hide Pow2;
    Powers();
    var ms := Members(t);
    WidthIs(ms);
  }

  lemma WidthIs(ms: seq<Member>)
    requires |ms| == 6
    ensures Width(ms)
            == ms[0].kind.bits + ms[1].kind.bits + ms[2].kind.bits + ms[3].kind.bits + ms[4].kind.bits + ms[5].kind.bits
  {
    assert ms[1..][1..] == ms[2..] && ms[2..][1..] == ms[3..] && ms[3..][1..] == ms[4..] && ms[4..][1..] == ms[5..];
    assert ms[5..][1..] == [];
    assert Width(ms[5..]) == ms[5].kind.bits;
    assert Width(ms[4..]) == ms[4].kind.bits + Width(ms[5..]);
    assert Width(ms[3..]) == ms[3].kind.bits + Width(ms[4..]);
    assert Width(ms[2..]) == ms[2].kind.bits + Width(ms[3..]);
    assert Width(ms[1..]) == ms[1].kind.bits + Width(ms[2..]);
  }

  function Id(t: ScalarType): nat
    requires forall i :: 0 <= i < 6 ==> Wide(Members(t)[i].value)
  {
    Packed(Members(t), 0, 0)
  }

  const KINDS: seq<Kind> := [BYTE, BYTE, FLAG, INT32, FLAG, BYTE]

  function FromId(id: nat): Option<ScalarType> {
    var v := Unpacked(id, KINDS, 0);
    if |v| == 6 then Some(ScalarType(v[0], v[1], v[2] != 0, v[3], v[4] != 0, v[5])) else None
  }

  /** Every scalar type comes back from its id, whatever its fields; the id fits 58 bits. */
  lemma IdRoundTrip(t: ScalarType)
    requires Valid(t)
    ensures forall i :: 0 <= i < 6 ==> Wide(Members(t)[i].value)
    ensures FromId(Id(t)) == Some(t) && Id(t) < Pow2(58)
  {
    hide Unpacked, Packed, Pow2, Width, Fits;
    MembersFit(t);
    OneIsPow2();
    PackedKeeps(Members(t), 0, 0);
    PackedRoundTrip(Members(t), 0, 0);
    assert KindsOf(Members(t)) == KINDS;
  }

  lemma OneIsPow2()
    ensures Pow2(0) == 1
  {
  }

  /** One more member goes above what is packed so far. */
  lemma PackNext(ms: seq<Member>, id: nat, offset: nat)
    requires (forall i :: 0 <= i < |ms| ==> Fits(ms[i]) && ms[i].kind.bits <= 64) && id < Pow2(offset) && ms != []
    ensures forall i :: 0 <= i < |ms| ==> Wide(ms[i].value)
    ensures var next := id + Bits(ms[0]) * Pow2(offset);
            && next < Pow2(offset + ms[0].kind.bits)
            && Packed(ms, id, offset) == Packed(ms[1..], next, offset + ms[0].kind.bits)
  {
    hide Or, Shl, Bits, Pow2, Fits;
    forall i | 0 <= i < |ms|
      ensures Wide(ms[i].value)
    {
      Representable(ms[i]);
    }
    PackOne(ms[0], id, offset);
  }

  lemma BitsAre(m: Member)
    requires Fits(m) && m.kind.bits <= 64
    ensures Wide(m.value) && Bits(m) == if m.value >= 0 then m.value else m.value + Pow2(m.kind.bits)
  {
    hide And, Mask, Bits, Fits;
    BitsRoundTrip(m);
    BitsSigned(m);
  }

  lemma BitsSigned(m: Member)
    requires Fits(m) && m.kind.bits <= 64 && Wide(m.value)
    requires Bits(m) < Pow2(m.kind.bits) && Narrowed(Bits(m), m.kind) == m.value
    ensures Bits(m) == if m.value >= 0 then m.value else m.value + Pow2(m.kind.bits)
  {
    hide And, Mask, Bits;
    assert m.kind.signed ==> Pow2(m.kind.bits) == 2 * Pow2(m.kind.bits - 1);
  }

  /** Each member's bits at its offset. */
  ghost function Placed(ms: seq<Member>, offset: nat): nat
    requires forall i :: 0 <= i < |ms| ==> Wide(ms[i].value)
  {
    if ms == [] then 0 else Bits(ms[0]) * Pow2(offset) + Placed(ms[1..], offset + ms[0].kind.bits)
  }

  /** Oring the members in at their offsets adds them up. */
  lemma {:induction false} PackedIsPlaced(ms: seq<Member>, id: nat, offset: nat)
    requires (forall i :: 0 <= i < |ms| ==> Fits(ms[i]) && ms[i].kind.bits <= 64) && id < Pow2(offset)
    ensures forall i :: 0 <= i < |ms| ==> Wide(ms[i].value)
    ensures Packed(ms, id, offset) == id + Placed(ms, offset)
    decreases |ms|
  {
    hide Or, Shl, Bits, Pow2, Fits;
    if ms != [] {
      PackNext(ms, id, offset);
      PackedIsPlaced(ms[1..], id + Bits(ms[0]) * Pow2(offset), offset + ms[0].kind.bits);
    }
  }

  lemma SixPlaced(ms: seq<Member>)
    requires |ms| == 6 && forall i :: 0 <= i < 6 ==> Wide(ms[i].value)
    requires ms[0].kind.bits == 8 && ms[1].kind.bits == 8 && ms[2].kind.bits == 1 && ms[3].kind.bits == 32
             && ms[4].kind.bits == 1
    ensures Placed(ms, 0) == Bits(ms[0]) * Pow2(0) + Bits(ms[1]) * Pow2(8) + Bits(ms[2]) * Pow2(16)
                             + Bits(ms[3]) * Pow2(17) + Bits(ms[4]) * Pow2(49) + Bits(ms[5]) * Pow2(50)
  {
    hide Bits, Pow2, Wide;
    assert ms[1..][1..] == ms[2..] && ms[2..][1..] == ms[3..] && ms[3..][1..] == ms[4..] && ms[4..][1..] == ms[5..];
    assert ms[5..][1..] == [];
    var end := 50 + ms[5].kind.bits;
    assert Placed([], end) == 0;
    assert Placed(ms[5..], 50) == Bits(ms[5]) * Pow2(50) + Placed(ms[5..][1..], end);
    assert Placed(ms[4..], 49) == Bits(ms[4]) * Pow2(49) + Placed(ms[5..], 50);
    assert Placed(ms[3..], 17) == Bits(ms[3]) * Pow2(17) + Placed(ms[4..], 49);
    assert Placed(ms[2..], 16) == Bits(ms[2]) * Pow2(16) + Placed(ms[3..], 17);
    assert Placed(ms[1..], 8) == Bits(ms[1]) * Pow2(8) + Placed(ms[2..], 16);
  }

  /**
   * The layout of an id: the exponent in bits 0 to 7, the mantissa in 8 to 15, the sign flag in 16,
   * the bias as a 32-bit two's complement number in 17 to 48, the finite-only flag in 49, and the
   * representation of NaN in 50 to 57.
   */
  lemma IdLayout(t: ScalarType)
    requires Valid(t)
    ensures forall i :: 0 <= i < 6 ==> Wide(Members(t)[i].value)
    ensures Id(t) == t.exponent
                     + t.mantissa * 0x100
                     + (if t.signed then 0x1_0000 else 0)
                     + (if t.bias >= 0 then t.bias else t.bias + 0x1_0000_0000) * 0x2_0000
                     + (if t.finiteOnly then 0x2_0000_0000_0000 else 0)
                     + t.nanRepr * 0x4_0000_0000_0000
  {
    MembersFit(t);
    LayoutPowers();
    var ms := Members(t);
    hide Bits, Pow2, Packed, Placed, Fits, Wide;
    PackedIsPlaced(ms, 0, 0);
    SixPlaced(ms);
    BitsAre(ms[0]);
    BitsAre(ms[1]);
    BitsAre(ms[2]);
    BitsAre(ms[3]);
    BitsAre(ms[4]);
    BitsAre(ms[5]);
  }

  lemma LayoutPowers()
    ensures Pow2(0) == 1 && Pow2(8) == 0x100 && Pow2(16) == 0x1_0000 && Pow2(17) == 0x2_0000 && Pow2(1) == 2
    ensures Pow2(32) == 0x1_0000_0000 && Pow2(49) == 0x2_0000_0000_0000 && Pow2(50) == 0x4_0000_0000_0000
  {
    OneIsPow2();
    Powers();
    hide Pow2;
    Pow2Adds(8, 8);
    Pow2Adds(16, 1);
    Pow2Adds(32, 17);
    Pow2Adds(49, 1);
  }

  lemma IdInjective(t: ScalarType, u: ScalarType)
    requires Valid(t) && Valid(u)
    ensures forall i :: 0 <= i < 6 ==> Wide(Members(t)[i].value) && Wide(Members(u)[i].value)
    ensures Id(t) == Id(u) ==> t == u
  {
    hide Members, Packed, Pow2, Unpacked;
    IdRoundTrip(t);
    IdRoundTrip(u);
  }

  // ----- the range of integer types

  function SizeBits(t: ScalarType): int {
    t.mantissa + t.exponent + FromBool(t.signed)
  }

  /** The largest and the smallest stored value of an integer type that 64 bits can hold. */
  function RawMax(t: ScalarType): Result<int>
    requires t.exponent == 0 && 0 <= t.mantissa
  {
    if SizeBits(t) < 64 || (SizeBits(t) == 64 && t.signed) then Ok(Shl(1, t.mantissa) - 1) else Err(RuntimeError)
  }

  function RawMin(t: ScalarType): Result<int>
    requires t.exponent == 0 && 0 <= t.mantissa
  {
    if t.signed && SizeBits(t) > 64 then Err(RuntimeError)
    else Ok(if t.signed then Shr(-0x8000_0000_0000_0000, 64 - SizeBits(t)) else 0)
  }

  function Max(t: ScalarType): Result<int>
    requires t.exponent == 0 && 0 <= t.mantissa
  {
    var x :- RawMax(t);
    Ok(x - t.bias)
  }

  function Min(t: ScalarType): Result<int>
    requires t.exponent == 0 && 0 <= t.mantissa
  {
    var x :- RawMin(t);
    Ok(x - t.bias)
  }

  /** An integer type has two to the number of its bits values, and the bias moves both ends alike. */
  lemma IntegerRange(t: ScalarType)
    requires Valid(t) && t.exponent == 0 && t.mantissa < 63
    ensures Max(t).Ok? && Min(t).Ok?
    ensures Max(t).value - Min(t).value + 1 == Pow2(SizeBits(t))
    ensures -0x8000_0000_0000_0000 <= Min(t).value <= Max(t).value < 0x8000_0000_0000_0000
    ensures Max(t.(bias := 0)).Ok? && Max(t).value == Max(t.(bias := 0)).value - t.bias
    ensures Min(t.(bias := 0)).Ok? && Min(t).value == Min(t.(bias := 0)).value - t.bias
    ensures 0 <= Max(t.(bias := 0)).value && Min(t.(bias := 0)).value == if t.signed then 0 - Pow2(t.mantissa) else 0
  {
    hide Pow2;
    Powers();
    var n := t.mantissa;
    Pow2Mono(n, 62);
    assert Pow2(62) == 0x4000_0000_0000_0000 by { Pow2Adds(58, 4); SmallPowers(); }
    if t.signed {
      LowestBits(n);
      NextPow2(n);
    }
  }

  lemma NextPow2(n: nat)
    ensures Pow2(n + 1) == 2 * Pow2(n)
  {
  }

  /** The sign bit shifted down to bit `n`, and copied. */
  lemma LowestBits(n: nat)
    requires n < 63
    ensures Shr(-0x8000_0000_0000_0000, 63 - n) == 0 - Pow2(n)
  {
    hide Pow2;
    Powers();
    Pow2Adds(n, 63 - n);
    Pow2Adds(32, 31);
    var d := Pow2(63 - n);
    assert -0x8000_0000_0000_0000 == (0 - Pow2(n)) * d + 0 by {
      assert Pow2(63) == 0x8000_0000_0000_0000;
      assert (0 - Pow2(n)) * d == 0 - Pow2(n) * d;
    }
    ModUnique(-0x8000_0000_0000_0000, d, 0 - Pow2(n), 0);
  }
}
