/** Rijndael with 256-bit blocks and keys (Nb = Nk = 8, Nr = 14): the forward cipher as the
    specification, the inverse cipher as the decryptor runs it, and the proof that each undoes
    the other, from the byte substitution up to padded CBC messages. */
module Rijndael {
  import opened GaloisField

  // ---- Byte substitution ----

  function Rotate1(x: byte): byte { (x << 1) | (x >> 7) }
  function Rotate2(x: byte): byte { (x << 2) | (x >> 6) }
  function Rotate3(x: byte): byte { (x << 3) | (x >> 5) }
  function Rotate4(x: byte): byte { (x << 4) | (x >> 4) }
  function Rotate6(x: byte): byte { (x << 6) | (x >> 2) }

  function Affine(x: byte): byte {
    x ^ Rotate1(x) ^ Rotate2(x) ^ Rotate3(x) ^ Rotate4(x) ^ 0x63
  }

  function InverseAffine(x: byte): byte {
    Rotate1(x) ^ Rotate3(x) ^ Rotate6(x) ^ 0x05
  }

  lemma AffineInverse(x: byte)
    ensures InverseAffine(Affine(x)) == x
    ensures Affine(InverseAffine(x)) == x
  {}

  predicate Has(x: byte, mask: byte) {
    x & mask != 0
  }

  /** The affine step is the one of section 5.1.1 of FIPS 197: bit i of the result is the sum of the
      bits i, i+4, i+5, i+6 and i+7 (modulo 8) of `x` and of bit i of 0x63. */
  lemma AffineBits(x: byte)
    ensures Has(Affine(x), 1) == (Has(x, 1) != (Has(x, 16) != (Has(x, 32) != (Has(x, 64) != (Has(x, 128) != true)))))
    ensures Has(Affine(x), 2) == (Has(x, 2) != (Has(x, 32) != (Has(x, 64) != (Has(x, 128) != (Has(x, 1) != true)))))
    ensures Has(Affine(x), 4) == (Has(x, 4) != (Has(x, 64) != (Has(x, 128) != (Has(x, 1) != Has(x, 2)))))
    ensures Has(Affine(x), 8) == (Has(x, 8) != (Has(x, 128) != (Has(x, 1) != (Has(x, 2) != Has(x, 4)))))
    ensures Has(Affine(x), 16) == (Has(x, 16) != (Has(x, 1) != (Has(x, 2) != (Has(x, 4) != Has(x, 8)))))
    ensures Has(Affine(x), 32) == (Has(x, 32) != (Has(x, 2) != (Has(x, 4) != (Has(x, 8) != (Has(x, 16) != true)))))
    ensures Has(Affine(x), 64) == (Has(x, 64) != (Has(x, 4) != (Has(x, 8) != (Has(x, 16) != (Has(x, 32) != true)))))
    ensures Has(Affine(x), 128) == (Has(x, 128) != (Has(x, 8) != (Has(x, 16) != (Has(x, 32) != Has(x, 64)))))
  {}

  function SubByte(x: byte): byte {
    Affine(Inverse(x))
  }

  function InvSubByte(x: byte): byte {
    Inverse(InverseAffine(x))
  }

  lemma SubByteInverse(x: byte)
    ensures InvSubByte(SubByte(x)) == x
    ensures SubByte(InvSubByte(x)) == x
  {
    hide Affine, InverseAffine, Inverse;
    AffineInverse(Inverse(x));
    AffineInverse(x);
    InverseInvolutive(x);
    InverseInvolutive(InverseAffine(x));
  }

  // ---- State transformations; byte i of the state is row i % 4 of column i / 4 ----

  type State = s: seq<byte> | |s| == 32 witness seq(32, _ => 0)
  type Word = w: seq<byte> | |w| == 4 witness [0, 0, 0, 0]

  const ZERO_WORD: Word := [0, 0, 0, 0]

  const SHIFTS: seq<nat> := [0, 1, 3, 4]

  function SubBytes(s: State): State {
    seq(32, i requires 0 <= i < 32 => SubByte(s[i]))
  }

  function InvSubBytes(s: State): State {
    seq(32, i requires 0 <= i < 32 => InvSubByte(s[i]))
  }

  function Ahead(column: nat, shift: nat): nat {
    (column + shift) % 8
  }

  function Behind(column: nat, shift: nat): nat
    requires shift <= 8
  {
    (column + 8 - shift) % 8
  }

  /** Source byte of position `i` when each row turns left by its shift. */
  function LeftOf(i: nat): (j: nat)
    requires i < 32
    ensures j < 32
  {
    Ahead(i / 4, SHIFTS[i % 4]) * 4 + i % 4
  }

  function RightOf(i: nat): (j: nat)
    requires i < 32
    ensures j < 32
  {
    Behind(i / 4, SHIFTS[i % 4]) * 4 + i % 4
  }

  function ShiftRows(s: State): State {
    seq(32, i requires 0 <= i < 32 => s[LeftOf(i)])
  }

  function InvShiftRows(s: State): State {
    seq(32, i requires 0 <= i < 32 => s[RightOf(i)])
  }

  function Sum4(a: byte, b: byte, c: byte, d: byte): byte {
    Add(Add(a, b), Add(c, d))
  }

  function Mix4(k0: byte, k1: byte, k2: byte, k3: byte, a: byte, b: byte, c: byte, d: byte): byte {
    Sum4(Mul(a, k0), Mul(b, k1), Mul(c, k2), Mul(d, k3))
  }

  function MixByte(a: byte, b: byte, c: byte, d: byte): byte {
    Mix4(2, 3, 1, 1, a, b, c, d)
  }

  function InvMixByte(a: byte, b: byte, c: byte, d: byte): byte {
    Mix4(14, 11, 13, 9, a, b, c, d)
  }

  /** Position of the byte `k` rows below position `i`, in the same column. */
  function Below(i: nat, k: nat): (j: nat)
    requires i < 32
    ensures j < 32
  {
    i / 4 * 4 + (i + k) % 4
  }

  function MixColumns(s: State): State {
    seq(32, i requires 0 <= i < 32 => MixByte(s[i], s[Below(i, 1)], s[Below(i, 2)], s[Below(i, 3)]))
  }

  function InvMixColumns(s: State): State {
    seq(32, i requires 0 <= i < 32 => InvMixByte(s[i], s[Below(i, 1)], s[Below(i, 2)], s[Below(i, 3)]))
  }

  type Schedule = w: seq<Word> | |w| == 120 witness seq(120, _ => ZERO_WORD)

  function AddRoundKey(s: State, w: Schedule, round: nat): State
    requires round <= 14
  {
    seq(32, i requires 0 <= i < 32 => Add(s[i], w[round * 8 + i / 4][i % 4]))
  }

  function Xor(a: State, b: State): State {
    seq(32, i requires 0 <= i < 32 => Add(a[i], b[i]))
  }

  // ---- Each transformation undone ----

  lemma Coordinates(column: nat, row: nat)
    requires column < 8 && row < 4
    ensures (column * 4 + row) / 4 == column && (column * 4 + row) % 4 == row
  {}

  lemma TurnBack(column: nat, shift: nat)
    requires column < 8 && shift < 8
    ensures Ahead(Behind(column, shift), shift) == column == Behind(Ahead(column, shift), shift)
    ensures Ahead(column, shift) < 8 && Behind(column, shift) < 8
  {
    assert column + shift >= 8 ==> (column + shift) % 8 == column + shift - 8;
    assert column >= shift ==> (column + 8 - shift) % 8 == column - shift;
  }

  lemma TurnAt(column: nat, row: nat)
    requires column < 8 && row < 4
    ensures LeftOf(column * 4 + row) == Ahead(column, SHIFTS[row]) * 4 + row
    ensures RightOf(column * 4 + row) == Behind(column, SHIFTS[row]) * 4 + row
  {
    Coordinates(column, row);
  }

  lemma ShiftsCancelAt(column: nat, row: nat)
    requires column < 8 && row < 4
    ensures LeftOf(RightOf(column * 4 + row)) == column * 4 + row == RightOf(LeftOf(column * 4 + row))
  {
    hide LeftOf, RightOf, Ahead, Behind;
    var shift := SHIFTS[row];
    TurnBack(column, shift);
    TurnAt(column, row);
    TurnAt(Behind(column, shift), row);
    TurnAt(Ahead(column, shift), row);
  }

  lemma ShiftsCancel(i: nat)
    requires i < 32
    ensures LeftOf(RightOf(i)) == i == RightOf(LeftOf(i))
  {
    hide LeftOf, RightOf;
    ShiftsCancelAt(i / 4, i % 4);
  }

  lemma ShiftRowsInverse(s: State)
    ensures InvShiftRows(ShiftRows(s)) == s
    ensures ShiftRows(InvShiftRows(s)) == s
  {
    hide LeftOf, RightOf;
    forall i: nat | i < 32 ensures InvShiftRows(ShiftRows(s))[i] == s[i] == ShiftRows(InvShiftRows(s))[i] {
      ShiftsCancel(i);
    }
  }

  lemma SubBytesInverse(s: State)
    ensures InvSubBytes(SubBytes(s)) == s
    ensures SubBytes(InvSubBytes(s)) == s
  {
    hide SubByte, InvSubByte;
    forall i: nat | i < 32 ensures InvSubBytes(SubBytes(s))[i] == s[i] == SubBytes(InvSubBytes(s))[i] {
      SubByteInverse(s[i]);
    }
  }

  lemma AddTwice(a: byte, b: byte)
    ensures Add(Add(a, b), b) == a
  {
    hide Add;
    AddLaws(a, b, b);
    AddLaws(b, 0, 0);
    AddLaws(a, 0, 0);
  }

  lemma AddRoundKeyTwice(s: State, w: Schedule, round: nat)
    requires round <= 14
    ensures AddRoundKey(AddRoundKey(s, w, round), w, round) == s
  {
    hide Add;
    forall i: nat | i < 32 ensures AddRoundKey(AddRoundKey(s, w, round), w, round)[i] == s[i] {
      AddTwice(s[i], w[round * 8 + i / 4][i % 4]);
    }
  }

  lemma XorTwice(a: State, b: State)
    ensures Xor(Xor(a, b), b) == a
  {
    hide Add;
    forall i: nat | i < 32 ensures Xor(Xor(a, b), b)[i] == a[i] {
      AddTwice(a[i], b[i]);
    }
  }

  // ---- Column mixing: the two circulant matrices are inverse over the field ----

  lemma Sum4Adds(a1: byte, a2: byte, a3: byte, a4: byte, b1: byte, b2: byte, b3: byte, b4: byte)
    ensures Add(Sum4(a1, a2, a3, a4), Sum4(b1, b2, b3, b4))
         == Sum4(Add(a1, b1), Add(a2, b2), Add(a3, b3), Add(a4, b4))
  {
    hide Add;
    Regroup(Add(a1, a2), Add(a3, a4), Add(b1, b2), Add(b3, b4));
    Regroup(a1, a2, b1, b2);
    Regroup(a3, a4, b3, b4);
  }

  lemma Sum4Turns(a: byte, b: byte, c: byte, d: byte)
    ensures Sum4(b, c, d, a) == Sum4(a, b, c, d)
  {
    hide Add;
    AddLaws(d, a, 0);
    Regroup(b, c, a, d);
    AddLaws(a, b, 0);
  }

  lemma Sum4Multiplies(k: byte, a: byte, b: byte, c: byte, d: byte)
    ensures Mul(Sum4(a, b, c, d), k) == Sum4(Mul(a, k), Mul(b, k), Mul(c, k), Mul(d, k))
    ensures Mul(k, Sum4(a, b, c, d)) == Sum4(Mul(k, a), Mul(k, b), Mul(k, c), Mul(k, d))
  {
    hide Add, Mul;
    MulDistributes(k, Add(a, b), Add(c, d));
    MulDistributes(k, a, b);
    MulDistributes(k, c, d);
  }

  lemma MixTimes(j: byte, k0: byte, k1: byte, k2: byte, k3: byte, a: byte, b: byte, c: byte, d: byte)
    ensures Mul(Mix4(k0, k1, k2, k3, a, b, c, d), j)
         == Mix4(Mul(k0, j), Mul(k1, j), Mul(k2, j), Mul(k3, j), a, b, c, d)
  {
    hide Sum4, Mul;
    Sum4Multiplies(j, Mul(a, k0), Mul(b, k1), Mul(c, k2), Mul(d, k3));
    MulAssociates(a, k0, j);
    MulAssociates(b, k1, j);
    MulAssociates(c, k2, j);
    MulAssociates(d, k3, j);
  }

  lemma MixTurns(k0: byte, k1: byte, k2: byte, k3: byte, a: byte, b: byte, c: byte, d: byte)
    ensures Mix4(k0, k1, k2, k3, b, c, d, a) == Mix4(k3, k0, k1, k2, a, b, c, d)
  {
    hide Sum4, Mul;
    Sum4Turns(Mul(a, k3), Mul(b, k0), Mul(c, k1), Mul(d, k2));
  }

  lemma MixAdds(j0: byte, j1: byte, j2: byte, j3: byte, k0: byte, k1: byte, k2: byte, k3: byte,
                a: byte, b: byte, c: byte, d: byte)
    ensures Add(Mix4(j0, j1, j2, j3, a, b, c, d), Mix4(k0, k1, k2, k3, a, b, c, d))
         == Mix4(Add(j0, k0), Add(j1, k1), Add(j2, k2), Add(j3, k3), a, b, c, d)
  {
    hide Sum4, Mul, Add;
    Sum4Adds(Mul(a, j0), Mul(b, j1), Mul(c, j2), Mul(d, j3), Mul(a, k0), Mul(b, k1), Mul(c, k2), Mul(d, k3));
    MulDistributes(a, j0, k0);
    MulDistributes(b, j1, k1);
    MulDistributes(c, j2, k2);
    MulDistributes(d, j3, k3);
  }

  /** Mixing a mixed column: the coefficients multiply as circulant matrices do. */
  lemma MixMix(j0: byte, j1: byte, j2: byte, j3: byte, k0: byte, k1: byte, k2: byte, k3: byte,
               a: byte, b: byte, c: byte, d: byte)
    ensures Mix4(j0, j1, j2, j3,
                 Mix4(k0, k1, k2, k3, a, b, c, d), Mix4(k0, k1, k2, k3, b, c, d, a),
                 Mix4(k0, k1, k2, k3, c, d, a, b), Mix4(k0, k1, k2, k3, d, a, b, c))
         == Mix4(Sum4(Mul(k0, j0), Mul(k3, j1), Mul(k2, j2), Mul(k1, j3)),
                 Sum4(Mul(k1, j0), Mul(k0, j1), Mul(k3, j2), Mul(k2, j3)),
                 Sum4(Mul(k2, j0), Mul(k1, j1), Mul(k0, j2), Mul(k3, j3)),
                 Sum4(Mul(k3, j0), Mul(k2, j1), Mul(k1, j2), Mul(k0, j3)), a, b, c, d)
  {
    assert Mix4(j0, j1, j2, j3,
                Mix4(k0, k1, k2, k3, a, b, c, d), Mix4(k0, k1, k2, k3, b, c, d, a),
                Mix4(k0, k1, k2, k3, c, d, a, b), Mix4(k0, k1, k2, k3, d, a, b, c))
        == Sum4(Mul(Mix4(k0, k1, k2, k3, a, b, c, d), j0), Mul(Mix4(k0, k1, k2, k3, b, c, d, a), j1),
                Mul(Mix4(k0, k1, k2, k3, c, d, a, b), j2), Mul(Mix4(k0, k1, k2, k3, d, a, b, c), j3)) by {
      hide Sum4, Mul, Add;
    }
    hide Mix4, Mul, Add;
    MixTurns(k0, k1, k2, k3, a, b, c, d);
    MixTurns(k0, k1, k2, k3, b, c, d, a);
    MixTurns(k3, k0, k1, k2, a, b, c, d);
    MixTurns(k0, k1, k2, k3, c, d, a, b);
    MixTurns(k3, k0, k1, k2, b, c, d, a);
    MixTurns(k2, k3, k0, k1, a, b, c, d);
    MixTimes(j0, k0, k1, k2, k3, a, b, c, d);
    MixTimes(j1, k3, k0, k1, k2, a, b, c, d);
    MixTimes(j2, k2, k3, k0, k1, a, b, c, d);
    MixTimes(j3, k1, k2, k3, k0, a, b, c, d);
    MixAdds(Mul(k0, j0), Mul(k1, j0), Mul(k2, j0), Mul(k3, j0),
            Mul(k3, j1), Mul(k0, j1), Mul(k1, j1), Mul(k2, j1), a, b, c, d);
    MixAdds(Mul(k2, j2), Mul(k3, j2), Mul(k0, j2), Mul(k1, j2),
            Mul(k1, j3), Mul(k2, j3), Mul(k3, j3), Mul(k0, j3), a, b, c, d);
    MixAdds(Add(Mul(k0, j0), Mul(k3, j1)), Add(Mul(k1, j0), Mul(k0, j1)),
            Add(Mul(k2, j0), Mul(k1, j1)), Add(Mul(k3, j0), Mul(k2, j1)),
            Add(Mul(k2, j2), Mul(k1, j3)), Add(Mul(k3, j2), Mul(k2, j3)),
            Add(Mul(k0, j2), Mul(k3, j3)), Add(Mul(k1, j2), Mul(k0, j3)), a, b, c, d);
  }

  lemma Coefficients()
    ensures Mul(2, 14) == 28 == Mul(14, 2) && Mul(3, 9) == 27 == Mul(9, 3)
    ensures Mul(3, 14) == 18 == Mul(14, 3) && Mul(2, 11) == 22 == Mul(11, 2)
    ensures Mul(3, 11) == 29 == Mul(11, 3) && Mul(2, 13) == 26 == Mul(13, 2)
    ensures Mul(3, 13) == 23 == Mul(13, 3) && Mul(2, 9) == 18 == Mul(9, 2)
  {
    hide Mul;
    MulUnfold(2, 14); MulUnfold(3, 9); MulUnfold(3, 14); MulUnfold(2, 11);
    MulUnfold(3, 11); MulUnfold(2, 13); MulUnfold(3, 13); MulUnfold(2, 9);
    MulCommutes(2, 14); MulCommutes(3, 9); MulCommutes(3, 14); MulCommutes(2, 11);
    MulCommutes(3, 11); MulCommutes(2, 13); MulCommutes(3, 13); MulCommutes(2, 9);
  }

  lemma MixNone(a: byte, b: byte, c: byte, d: byte)
    ensures Mix4(1, 0, 0, 0, a, b, c, d) == a
  {
    hide Mul;
    MulUnits(a); MulUnits(b); MulUnits(c); MulUnits(d);
    AddLaws(a, 0, 0);
  }

  lemma MixByteInverse(a: byte, b: byte, c: byte, d: byte)
    ensures InvMixByte(MixByte(a, b, c, d), MixByte(b, c, d, a), MixByte(c, d, a, b), MixByte(d, a, b, c)) == a
    ensures MixByte(InvMixByte(a, b, c, d), InvMixByte(b, c, d, a), InvMixByte(c, d, a, b), InvMixByte(d, a, b, c)) == a
  {
    hide Mul, Mix4;
    Coefficients();
    MulUnits(14); MulUnits(11); MulUnits(13); MulUnits(9);
    MixMix(14, 11, 13, 9, 2, 3, 1, 1, a, b, c, d);
    MixMix(2, 3, 1, 1, 14, 11, 13, 9, a, b, c, d);
    MixNone(a, b, c, d);
  }

  lemma BelowBelow(i: nat, j: nat, k: nat)
    requires i < 32
    ensures Below(Below(i, j), k) == Below(i, j + k)
    ensures Below(i, 0) == i && Below(i, k + 4) == Below(i, k)
  {
    var column, row := i / 4, (i + j) % 4;
    assert column < 8;
    Coordinates(column, row);
    assert (column * 4 + row) % 4 == row;
    assert (i + 0) % 4 == i % 4;
  }

  /** The column of position `i`, read downwards from each of its four positions. */
  lemma ColumnOf(i: nat)
    requires i < 32
    ensures
      var p, q, r := Below(i, 1), Below(i, 2), Below(i, 3);
      && Below(p, 1) == q && Below(p, 2) == r && Below(p, 3) == i
      && Below(q, 1) == r && Below(q, 2) == i && Below(q, 3) == p
      && Below(r, 1) == i && Below(r, 2) == p && Below(r, 3) == q
  {
    hide Below;
    BelowBelow(i, 1, 1); BelowBelow(i, 1, 2); BelowBelow(i, 1, 3);
    BelowBelow(i, 2, 1); BelowBelow(i, 2, 2); BelowBelow(i, 2, 3);
    BelowBelow(i, 3, 1); BelowBelow(i, 3, 2); BelowBelow(i, 3, 3);
    BelowBelow(i, 0, 0); BelowBelow(i, 0, 1); BelowBelow(i, 0, 2);
  }

  lemma BelowAt(column: nat, row: nat, k: nat)
    requires column < 8 && row < 4
    ensures Below(column * 4 + row, k) == column * 4 + (row + k) % 4
  {
    Coordinates(column, row);
  }

  lemma MixAt(s: State, i: nat)
    requires i < 32
    ensures MixColumns(s)[i] == MixByte(s[i], s[Below(i, 1)], s[Below(i, 2)], s[Below(i, 3)])
    ensures InvMixColumns(s)[i] == InvMixByte(s[i], s[Below(i, 1)], s[Below(i, 2)], s[Below(i, 3)])
  {
    hide MixByte, InvMixByte, Below;
  }

  lemma MixedAt(s: State, i: nat)
    requires i < 32
    ensures InvMixColumns(MixColumns(s))[i] == s[i] == MixColumns(InvMixColumns(s))[i]
  {
    hide *;
    var p, q, r := Below(i, 1), Below(i, 2), Below(i, 3);
    ColumnOf(i);
    MixAt(s, i); MixAt(s, p); MixAt(s, q); MixAt(s, r);
    MixAt(MixColumns(s), i);
    MixAt(InvMixColumns(s), i);
    MixByteInverse(s[i], s[p], s[q], s[r]);
  }

  lemma MixColumnsInverse(s: State)
    ensures InvMixColumns(MixColumns(s)) == s
    ensures MixColumns(InvMixColumns(s)) == s
  {
    hide *;
    forall i: nat | i < 32 ensures InvMixColumns(MixColumns(s))[i] == s[i] == MixColumns(InvMixColumns(s))[i] {
      MixedAt(s, i);
    }
  }

  // ---- Key expansion (section 5.2 of FIPS 197 with Nk = 8, run to 8 * 15 words) ----

  type Key = k: seq<byte> | |k| == 32 witness seq(32, _ => 0)

  /** x^k, the round constant of the (k+1)-th expansion step. */
  function RoundConstant(k: nat): byte {
    if k == 0 then 1 else Mul(RoundConstant(k - 1), 2)
  }

  function SubWord(w: Word): Word {
    [SubByte(w[0]), SubByte(w[1]), SubByte(w[2]), SubByte(w[3])]
  }

  function RotWord(w: Word): Word {
    [w[1], w[2], w[3], w[0]]
  }

  function AddWord(v: Word, w: Word): Word {
    [Add(v[0], w[0]), Add(v[1], w[1]), Add(v[2], w[2]), Add(v[3], w[3])]
  }

  function ExpansionCore(previous: Word, i: nat): Word {
    if i % 8 == 0 && i > 0 then AddWord(SubWord(RotWord(previous)), [RoundConstant(i / 8 - 1), 0, 0, 0])
    else if i % 8 == 4 then SubWord(previous)
    else previous
  }

  function KeyWord(key: Key, i: nat): Word {
    if i < 8 then key[4 * i..4 * i + 4]
    else AddWord(KeyWord(key, i - 8), ExpansionCore(KeyWord(key, i - 1), i))
  }

  function KeySchedule(key: Key): Schedule {
    seq(120, i requires 0 <= i < 120 => KeyWord(key, i))
  }

  // ---- The block cipher and its inverse ----

  /** The forward cipher after round `r` (section 5.1 of FIPS 197). */
  function EncryptRounds(s: State, w: Schedule, r: nat): State
    requires r <= 14
  {
    if r == 0 then AddRoundKey(s, w, 0)
    else
      var t := ShiftRows(SubBytes(EncryptRounds(s, w, r - 1)));
      AddRoundKey(if r == 14 then t else MixColumns(t), w, r)
  }

  function EncryptBlock(s: State, w: Schedule): State {
    EncryptRounds(s, w, 14)
  }

  /** The inverse cipher once the rounds 13 down to `r` are done. */
  function DecryptRounds(c: State, w: Schedule, r: nat): State
    requires r <= 14
    decreases 14 - r
  {
    if r == 14 then AddRoundKey(c, w, 14)
    else
      var t := AddRoundKey(InvSubBytes(InvShiftRows(DecryptRounds(c, w, r + 1))), w, r);
      if r == 0 then t else InvMixColumns(t)
  }

  function DecryptBlock(c: State, w: Schedule): State {
    DecryptRounds(c, w, 0)
  }

  /** Going down, the inverse cipher passes through the forward cipher's own intermediate states. */
  lemma {:induction false} DecryptMeetsEncrypt(s: State, w: Schedule, r: nat)
    requires 1 <= r <= 14
    ensures DecryptRounds(EncryptBlock(s, w), w, r) == ShiftRows(SubBytes(EncryptRounds(s, w, r - 1)))
    decreases 14 - r
  {
    hide AddRoundKey, SubBytes, ShiftRows, MixColumns, InvSubBytes, InvShiftRows, InvMixColumns;
    var e := EncryptRounds(s, w, r - 1);
    if r == 14 {
      AddRoundKeyTwice(ShiftRows(SubBytes(e)), w, 14);
    } else {
      DecryptMeetsEncrypt(s, w, r + 1);
      var f := EncryptRounds(s, w, r);
      ShiftRowsInverse(SubBytes(f));
      SubBytesInverse(f);
      AddRoundKeyTwice(MixColumns(ShiftRows(SubBytes(e))), w, r);
      MixColumnsInverse(ShiftRows(SubBytes(e)));
    }
  }

  lemma {:induction false} EncryptMeetsDecrypt(c: State, w: Schedule, r: nat)
    requires r <= 13
    ensures EncryptRounds(DecryptBlock(c, w), w, r) == InvSubBytes(InvShiftRows(DecryptRounds(c, w, r + 1)))
    decreases r
  {
    hide AddRoundKey, SubBytes, ShiftRows, MixColumns, InvSubBytes, InvShiftRows, InvMixColumns;
    var d := InvSubBytes(InvShiftRows(DecryptRounds(c, w, r + 1)));
    if r == 0 {
      AddRoundKeyTwice(d, w, 0);
    } else {
      EncryptMeetsDecrypt(c, w, r - 1);
      var e := InvShiftRows(DecryptRounds(c, w, r));
      SubBytesInverse(e);
      ShiftRowsInverse(DecryptRounds(c, w, r));
      MixColumnsInverse(AddRoundKey(d, w, r));
      AddRoundKeyTwice(d, w, r);
    }
  }

  /** The block cipher is a permutation and `DecryptBlock` is its inverse, on both sides. */
  lemma BlockInverse(s: State, w: Schedule)
    ensures DecryptBlock(EncryptBlock(s, w), w) == s
    ensures EncryptBlock(DecryptBlock(s, w), w) == s
  {
    hide AddRoundKey, SubBytes, ShiftRows, MixColumns, InvSubBytes, InvShiftRows, InvMixColumns;
    DecryptMeetsEncrypt(s, w, 1);
    var e := EncryptRounds(s, w, 0);
    ShiftRowsInverse(SubBytes(e));
    SubBytesInverse(e);
    AddRoundKeyTwice(s, w, 0);
    EncryptMeetsDecrypt(s, w, 13);
    var d := InvShiftRows(DecryptRounds(s, w, 14));
    SubBytesInverse(d);
    ShiftRowsInverse(DecryptRounds(s, w, 14));
    AddRoundKeyTwice(s, w, 14);
  }

  // ---- Cipher block chaining over whole blocks ----

  predicate WholeBlocks(m: seq<byte>) {
    |m| % 32 == 0
  }

  function CbcEncrypt(w: Schedule, iv: State, m: seq<byte>): (c: seq<byte>)
    requires WholeBlocks(m)
    ensures |c| == |m|
    decreases |m|
  {
    if m == [] then []
    else
      var block := EncryptBlock(Xor(m[..32], iv), w);
      block + CbcEncrypt(w, block, m[32..])
  }

  function CbcDecrypt(w: Schedule, iv: State, c: seq<byte>): (m: seq<byte>)
    requires WholeBlocks(c)
    ensures |m| == |c|
    decreases |c|
  {
    if c == [] then []
    else Xor(DecryptBlock(c[..32], w), iv) + CbcDecrypt(w, c[..32], c[32..])
  }

  lemma {:induction false} CbcDecryptsEncrypted(w: Schedule, iv: State, m: seq<byte>)
    requires WholeBlocks(m)
    ensures CbcDecrypt(w, iv, CbcEncrypt(w, iv, m)) == m
    decreases |m|
  {
    if m != [] {
      assert |m| >= 32;
      var first: State, rest := m[..32], m[32..];
      var c: State := EncryptBlock(Xor(first, iv), w);
      hide EncryptBlock, DecryptBlock, Xor;
      CbcDecryptsEncrypted(w, c, rest);
      BlockInverse(Xor(first, iv), w);
      XorTwice(first, iv);
      var cs := CbcEncrypt(w, c, rest);
      assert (c + cs)[..32] == c && (c + cs)[32..] == cs;
    }
  }

  lemma {:induction false} CbcEncryptsDecrypted(w: Schedule, iv: State, c: seq<byte>)
    requires WholeBlocks(c)
    ensures CbcEncrypt(w, iv, CbcDecrypt(w, iv, c)) == c
    decreases |c|
  {
    if c != [] {
      assert |c| >= 32;
      var first: State, rest := c[..32], c[32..];
      var p: State := Xor(DecryptBlock(first, w), iv);
      hide EncryptBlock, DecryptBlock, Xor;
      CbcEncryptsDecrypted(w, first, rest);
      BlockInverse(first, w);
      XorTwice(DecryptBlock(first, w), iv);
      var ps := CbcDecrypt(w, first, rest);
      assert (p + ps)[..32] == p && (p + ps)[32..] == ps;
    }
  }

  // ---- Padding (section 6.3 of RFC 5652 with blocks of 32 bytes) ----

  datatype Result = Plain(message: seq<byte>) | CipherError

  function ToByte(n: nat): byte
    requires n < 256
  {
    n as byte
  }

  function ToNat(b: byte): (n: nat)
    ensures n < 256
  {
    b as nat
  }

  lemma ByteOfNat(b: byte)
    ensures ToByte(ToNat(b)) == b
  {}

  lemma PadLength(n: nat)
    requires n <= 32
    ensures ToNat(ToByte(n)) == n
  {
    if n < 16 { if n < 8 {} else {} } else { if n < 24 {} else {} }
  }

  function Pad(p: seq<byte>): (m: seq<byte>)
    ensures WholeBlocks(m) && m != []
  {
    var n := 32 - |p| % 32;
    p + seq(n, _ => ToByte(n))
  }

  predicate EndsWith(m: seq<byte>, n: nat, b: byte)
    requires n <= |m|
  {
    forall i :: |m| - n <= i < |m| ==> m[i] == b
  }

  function Unpad(m: seq<byte>): Result {
    if m == [] then CipherError
    else
      var last := m[|m| - 1];
      var n := ToNat(last);
      if 1 <= n <= 32 && n <= |m| && EndsWith(m, n, last) then Plain(m[..|m| - n]) else CipherError
  }

  lemma UnpadsPadded(p: seq<byte>)
    ensures Unpad(Pad(p)) == Plain(p)
  {
    hide ToByte, ToNat;
    var k := 32 - |p| % 32;
    var m := Pad(p);
    PadLength(k);
    assert m[|m| - 1] == ToByte(k);
    assert m[..|m| - k] == p;
  }

  lemma PadsUnpadded(m: seq<byte>, p: seq<byte>)
    requires WholeBlocks(m)
    requires Unpad(m) == Plain(p)
    ensures m == Pad(p)
  {
    hide ToByte, ToNat;
    var last := m[|m| - 1];
    var n := ToNat(last);
    ByteOfNat(last);
    assert |m| == |p| + n && n == 32 - |p| % 32;
    assert m == p + seq(n, _ => last);
  }

  function DecryptMessage(key: Key, iv: State, c: seq<byte>): Result {
    if c == [] || |c| % 32 != 0 then CipherError
    else Unpad(CbcDecrypt(KeySchedule(key), iv, c))
  }

  /** Decryption answers `p` exactly for the encryption of the padded `p`. */
  lemma DecryptExact(key: Key, iv: State, c: seq<byte>, p: seq<byte>)
    ensures DecryptMessage(key, iv, c) == Plain(p) <==> c == CbcEncrypt(KeySchedule(key), iv, Pad(p))
  {
    hide CbcEncrypt, CbcDecrypt, KeySchedule, Unpad, Pad;
    var w := KeySchedule(key);
    CbcDecryptsEncrypted(w, iv, Pad(p));
    UnpadsPadded(p);
    if DecryptMessage(key, iv, c) == Plain(p) {
      CbcEncryptsDecrypted(w, iv, c);
      PadsUnpadded(CbcDecrypt(w, iv, c), p);
    }
  }
}
