/** What the forward cipher computes, byte by byte and with its constants written out: the reading of
    sections 5.1 and 5.2 of FIPS 197 for 256-bit blocks and keys. */
module RijndaelLaws {
  import opened GaloisField
  import opened Rijndael

  // ---- Key expansion ----

  lemma WordAt(key: Key, i: nat, j: nat)
    requires i < 8 && j < 4
    ensures KeyWord(key, i)[j] == key[4 * i + j]
  {}

  lemma {:induction false} ConstantIsPower(k: nat)
    ensures RoundConstant(k) == Power(2, k)
  {
    hide Mul;
    if k > 0 {
      ConstantIsPower(k - 1);
    }
  }

  /** The first eight words are the key. Each later word adds to the one eight back: the previous word,
      turned, substituted and with a power of x on its first byte at every eighth; substituted four
      after that; and as it is everywhere else. */
  lemma ScheduleLaw(key: Key, i: nat, j: nat)
    requires i < 120 && j < 4
    ensures i < 8 ==> KeySchedule(key)[i][j] == key[4 * i + j]
    ensures i >= 8 && i % 8 == 0 ==>
      KeySchedule(key)[i][j] ==
        Add(KeySchedule(key)[i - 8][j],
            if j == 0 then Add(SubByte(KeySchedule(key)[i - 1][1]), Power(2, i / 8 - 1))
            else SubByte(KeySchedule(key)[i - 1][(j + 1) % 4]))
    ensures i >= 8 && i % 8 == 4 ==>
      KeySchedule(key)[i][j] == Add(KeySchedule(key)[i - 8][j], SubByte(KeySchedule(key)[i - 1][j]))
    ensures i >= 8 && i % 8 != 0 && i % 8 != 4 ==>
      KeySchedule(key)[i][j] == Add(KeySchedule(key)[i - 8][j], KeySchedule(key)[i - 1][j])
  {
    hide Add, Mul, SubByte, KeyWord, RoundConstant, Power;
    if i < 8 {
      WordAt(key, i, j);
    } else {
      KeyWordUnfolds(key, i);
      ConstantIsPower(i / 8 - 1);
      var t := SubByte(KeyWord(key, i - 1)[(j + 1) % 4]);
      AddLaws(t, 0, 0);
    }
  }

  lemma KeyWordUnfolds(key: Key, i: nat)
    requires i >= 8
    ensures KeyWord(key, i) == AddWord(KeyWord(key, i - 8), ExpansionCore(KeyWord(key, i - 1), i))
  {}

  // ---- One round ----

  /** The S-box: zero goes to 0x63, any other byte to the affine image of its multiplicative inverse. */
  lemma SubByteLaw(x: byte, y: byte)
    ensures SubByte(0) == 0x63
    ensures Mul(x, y) == 1 ==> SubByte(x) == y ^ Rotate1(y) ^ Rotate2(y) ^ Rotate3(y) ^ Rotate4(y) ^ 0x63
  {
    hide Mul, Inverse;
    InverseMultiplies(0);
    if Mul(x, y) == 1 {
      MulCommutes(x, y);
      InverseUnique(x, y);
    }
    assert Affine(0) == 0x63;
  }

  /** Rows 0 to 3 turn left by 0, 1, 3 and 4 columns. */
  lemma ShiftRowsLaw(s: State, c: nat)
    requires c < 8
    ensures ShiftRows(s)[4 * c] == s[4 * c]
    ensures ShiftRows(s)[4 * c + 1] == s[4 * ((c + 1) % 8) + 1]
    ensures ShiftRows(s)[4 * c + 2] == s[4 * ((c + 3) % 8) + 2]
    ensures ShiftRows(s)[4 * c + 3] == s[4 * ((c + 4) % 8) + 3]
  {}

  /** Each column is multiplied by the circulant matrix of 2, 3, 1, 1. */
  lemma MixColumnsLaw(s: State, c: nat)
    requires c < 8
    ensures
      var a, b, d, e := s[4 * c], s[4 * c + 1], s[4 * c + 2], s[4 * c + 3];
      && MixColumns(s)[4 * c] == Add(Add(Mul(a, 2), Mul(b, 3)), Add(d, e))
      && MixColumns(s)[4 * c + 1] == Add(Add(Mul(b, 2), Mul(d, 3)), Add(e, a))
      && MixColumns(s)[4 * c + 2] == Add(Add(Mul(d, 2), Mul(e, 3)), Add(a, b))
      && MixColumns(s)[4 * c + 3] == Add(Add(Mul(e, 2), Mul(a, 3)), Add(b, d))
  {
    hide *;
    MixedRow(s, c, 0);
    MixedRow(s, c, 1);
    MixedRow(s, c, 2);
    MixedRow(s, c, 3);
  }

  lemma MixedRow(s: State, c: nat, row: nat)
    requires c < 8 && row < 4
    ensures
      MixColumns(s)[4 * c + row] ==
        Add(Add(Mul(s[4 * c + row], 2), Mul(s[4 * c + (row + 1) % 4], 3)), Add(s[4 * c + (row + 2) % 4], s[4 * c + (row + 3) % 4]))
  {
    hide Mul, Add, Below;
    var i := 4 * c + row;
    BelowAt(c, row, 1);
    BelowAt(c, row, 2);
    BelowAt(c, row, 3);
    MulUnits(s[4 * c + (row + 2) % 4]);
    MulUnits(s[4 * c + (row + 3) % 4]);
    assert MixColumns(s)[i] == MixByte(s[i], s[Below(i, 1)], s[Below(i, 2)], s[Below(i, 3)]);
  }

  /** Round `r` takes the words 8r to 8r + 7, a word to a column. */
  lemma AddRoundKeyLaw(s: State, w: Schedule, r: nat, c: nat, row: nat)
    requires r <= 14 && c < 8 && row < 4
    ensures AddRoundKey(s, w, r)[4 * c + row] == Add(s[4 * c + row], w[8 * r + c][row])
  {
    assert (4 * c + row) / 4 == c && (4 * c + row) % 4 == row;
  }

  // ---- The block cipher, chaining and padding ----

  /** An initial key, thirteen full rounds, and a last one that does not mix. */
  lemma RoundsLaw(s: State, w: Schedule, states: seq<State>)
    requires |states| == 15 && states[0] == AddRoundKey(s, w, 0)
    requires forall r :: 1 <= r <= 13 ==> states[r] == AddRoundKey(MixColumns(ShiftRows(SubBytes(states[r - 1]))), w, r)
    requires states[14] == AddRoundKey(ShiftRows(SubBytes(states[13])), w, 14)
    ensures EncryptBlock(s, w) == states[14]
  {
    hide AddRoundKey, MixColumns, ShiftRows, SubBytes;
    RoundsAt(s, w, states, 14);
  }

  lemma {:induction false} RoundsAt(s: State, w: Schedule, states: seq<State>, r: nat)
    requires |states| == 15 && states[0] == AddRoundKey(s, w, 0)
    requires forall r :: 1 <= r <= 13 ==> states[r] == AddRoundKey(MixColumns(ShiftRows(SubBytes(states[r - 1]))), w, r)
    requires states[14] == AddRoundKey(ShiftRows(SubBytes(states[13])), w, 14)
    requires r <= 14
    ensures EncryptRounds(s, w, r) == states[r]
  {
    hide AddRoundKey, MixColumns, ShiftRows, SubBytes;
    if r > 0 {
      RoundsAt(s, w, states, r - 1);
    }
  }

  function Block(m: seq<byte>, i: nat): State
    requires 32 * i + 32 <= |m|
  {
    m[32 * i..32 * i + 32]
  }

  lemma NextBlock(first: State, rest: seq<byte>, i: nat)
    requires i > 0 && 32 * i <= |rest|
    ensures Block(first + rest, i) == Block(rest, i - 1)
  {
    var m := first + rest;
    assert forall k :: 32 * i <= k < 32 * i + 32 ==> m[k] == rest[k - 32];
  }

  /** Each block is encrypted after adding the cipher block before it, the first after the vector. */
  lemma {:induction false} ChainingLaw(w: Schedule, iv: State, m: seq<byte>, i: nat)
    requires WholeBlocks(m) && 32 * i + 32 <= |m|
    ensures
      var c := CbcEncrypt(w, iv, m);
      && |c| == |m|
      && Block(c, i) == EncryptBlock(Xor(Block(m, i), if i == 0 then iv else Block(c, i - 1)), w)
    decreases i
  {
    hide EncryptBlock, Xor;
    var first := EncryptBlock(Xor(m[..32], iv), w);
    var rest := CbcEncrypt(w, first, m[32..]);
    var c := CbcEncrypt(w, iv, m);
    assert c == first + rest;
    assert Block(m, 0) == m[..32] && Block(c, 0) == first;
    if i > 0 {
      ChainingLaw(w, first, m[32..], i - 1);
      assert m == m[..32] + m[32..];
      NextBlock(m[..32], m[32..], i);
      NextBlock(first, rest, i);
      if i > 1 {
        NextBlock(first, rest, i - 1);
      }
    }
  }

  lemma XorLaw(a: State, b: State, i: nat)
    requires i < 32
    ensures Xor(a, b)[i] == a[i] ^ b[i]
  {}

  /** Between 1 and 32 bytes are appended to fill the last block, each of them that number. */
  lemma PaddingLaw(p: seq<byte>)
    ensures
      var m := Pad(p);
      && |m| % 32 == 0 && |p| < |m| <= |p| + 32 && m[..|p|] == p
      && forall i :: |p| <= i < |m| ==> ToNat(m[i]) == |m| - |p|
  {
    hide ToNat, ToByte;
    PadLength(32 - |p| % 32);
  }
}
