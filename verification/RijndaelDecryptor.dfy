/** The decryptor itself: tables and key words filled in by loops, the state overwritten in place. */
module RijndaelDecryptor {
  import opened GaloisField
  import opened Rijndael

  ghost predicate IsSubstitution(sbox: seq<byte>) {
    |sbox| == 256 && forall b: byte :: sbox[ToNat(b)] == SubByte(b)
  }

  ghost predicate IsInverse(inverse: seq<byte>) {
    |inverse| == 256 && forall b: byte :: inverse[ToNat(b)] == InvSubByte(b)
  }

  lemma SameByte(a: byte, b: byte)
    requires ToNat(a) == ToNat(b)
    ensures a == b
  {
    hide ToNat, ToByte;
    ByteOfNat(a);
    ByteOfNat(b);
  }

  lemma SameSubByte(a: byte, b: byte)
    requires ToNat(SubByte(a)) == ToNat(SubByte(b))
    ensures a == b
  {
    hide *;
    SameByte(SubByte(a), SubByte(b));
    SubByteInverse(a);
    SubByteInverse(b);
  }

  /** The entries of the bytes below `i` are in place, in both tables. */
  ghost predicate Filled(sbox: seq<byte>, inverse: seq<byte>, i: nat) {
    && |sbox| == 256 && |inverse| == 256
    && (forall b: byte :: ToNat(b) < i ==> sbox[ToNat(b)] == SubByte(b))
    && (forall b: byte :: ToNat(b) < i ==> inverse[ToNat(SubByte(b))] == b)
  }

  lemma FillStep(sbox: seq<byte>, inverse: seq<byte>, i: nat)
    requires i < 256 && Filled(sbox, inverse, i)
    ensures
      var value := SubByte(ToByte(i));
      Filled(sbox[i := value], inverse[ToNat(value) := ToByte(i)], i + 1)
  {
    hide SubByte, ToByte, ToNat;
    var value := SubByte(ToByte(i));
    var sbox', inverse' := sbox[i := value], inverse[ToNat(value) := ToByte(i)];
    forall b: byte | ToNat(b) < i + 1
      ensures sbox'[ToNat(b)] == SubByte(b)
      ensures inverse'[ToNat(SubByte(b))] == b
    {
      ByteOfNat(b);
      if ToNat(SubByte(b)) == ToNat(value) {
        SameSubByte(b, ToByte(i));
      }
    }
  }

  lemma FilledIsInverse(sbox: seq<byte>, inverse: seq<byte>)
    requires Filled(sbox, inverse, 256)
    ensures IsSubstitution(sbox) && IsInverse(inverse)
  {
    hide SubByte, InvSubByte;
    forall b: byte ensures inverse[ToNat(b)] == InvSubByte(b) {
      SubByteInverse(b);
      assert ToNat(InvSubByte(b)) < 256;
    }
  }

  method BuildBoxes() returns (sbox: array<byte>, inverse: array<byte>)
    ensures fresh(sbox) && fresh(inverse)
    ensures IsSubstitution(sbox[..])
    ensures IsInverse(inverse[..])
  {
    sbox, inverse := new byte[256], new byte[256];
    hide SubByte, ToByte, Filled;
    FillStart(sbox[..], inverse[..]);
    for i := 0 to 256
      invariant Filled(sbox[..], inverse[..], i)
    {
      var value := SubstituteEntry(i);
      FillStep(sbox[..], inverse[..], i);
      sbox[i] := value;
      inverse[ToNat(value)] := ToByte(i);
    }
    FilledIsInverse(sbox[..], inverse[..]);
  }

  lemma FillStart(sbox: seq<byte>, inverse: seq<byte>)
    requires |sbox| == 256 && |inverse| == 256
    ensures Filled(sbox, inverse, 0)
  {}

  /** One table entry: 254 multiplications, then the affine step. */
  method SubstituteEntry(i: nat) returns (value: byte)
    requires i < 256
    ensures value == SubByte(ToByte(i))
  {
    hide Mul;
    var x: byte := 1;
    var byteI := ToByte(i);
    for k := 0 to 254
      invariant x == Power(byteI, k)
    {
      x := Multiply(x, byteI);
    }
    value := Affine(x);
  }

  method SubstituteWord(sbox: array<byte>, t: Word) returns (u: Word)
    requires IsSubstitution(sbox[..])
    ensures u == SubWord(t)
  {
    hide SubByte, ToNat;
    assert forall b: byte :: sbox[..][ToNat(b)] == sbox[ToNat(b)];
    u := [sbox[ToNat(t[0])], sbox[ToNat(t[1])], sbox[ToNat(t[2])], sbox[ToNat(t[3])]];
  }

  /** One turn of the expansion loop: the word for `i` and the next round constant. */
  method NextWord(sbox: array<byte>, previous: Word, older: Word, i: nat, rcon: byte) returns (word: Word, next: byte)
    requires IsSubstitution(sbox[..]) && i >= 8
    requires rcon == RoundConstant((i + 7) / 8 - 1)
    ensures word == AddWord(older, ExpansionCore(previous, i))
    ensures next == RoundConstant((i + 8) / 8 - 1)
  {
    hide Mul, Add, SubByte, IsSubstitution;
    var t := previous;
    next := rcon;
    if i % 8 == 0 {
      t := SubstituteWord(sbox, RotWord(t));
      AddLaws(t[1], 0, 0); AddLaws(t[2], 0, 0); AddLaws(t[3], 0, 0);
      t := [Add(t[0], rcon), t[1], t[2], t[3]];
      next := Multiply(rcon, 2);
    } else if i % 8 == 4 {
      t := SubstituteWord(sbox, t);
    }
    word := AddWord(older, t);
  }

  method ExpandKey(key: Key, sbox: array<byte>) returns (words: Schedule)
    requires IsSubstitution(sbox[..])
    ensures words == KeySchedule(key)
  {
    hide KeyWord, AddWord, ExpansionCore, RoundConstant, IsSubstitution;
    var w := new Word[120](_ => ZERO_WORD);
    for i := 0 to 8
      invariant forall j: nat :: j < i ==> w[j] == KeyWord(key, j)
    {
      KeyWordStep(key, i);
      w[i] := key[4 * i..4 * i + 4];
    }
    var rcon: byte := 1;
    FirstConstant();
    for i := 8 to 120
      invariant forall j: nat :: j < i ==> w[j] == KeyWord(key, j)
      invariant rcon == RoundConstant((i + 7) / 8 - 1)
    {
      var word, next := NextWord(sbox, w[i - 1], w[i - 8], i, rcon);
      KeyWordStep(key, i);
      w[i], rcon := word, next;
    }
    words := w[..];
  }

  method New(key: Key) returns (r: Rijndael256)
    ensures r.Serves(key)
  {
    var sbox, inverse := BuildBoxes();
    var words := ExpandKey(key, sbox);
    r := Rijndael256(words, inverse[..]);
  }

  lemma KeyWordStep(key: Key, i: nat)
    ensures i < 8 ==> KeyWord(key, i) == key[4 * i..4 * i + 4]
    ensures i >= 8 ==> KeyWord(key, i) == AddWord(KeyWord(key, i - 8), ExpansionCore(KeyWord(key, i - 1), i))
  {}

  lemma FirstConstant()
    ensures RoundConstant(0) == 1
  {}

  datatype Rijndael256 = Rijndael256(words: Schedule, inverse: seq<byte>) {
    ghost predicate Serves(key: Key) {
      words == KeySchedule(key) && IsInverse(inverse)
    }

    method AddKey(state: array<byte>, round: nat)
      requires state.Length == 32 && round <= 14
      modifies state
      ensures state[..] == AddRoundKey(old(state[..]), words, round)
    {
      hide Add;
      ghost var before: State := state[..];
      for i := 0 to 32
        invariant forall j :: 0 <= j < i ==> state[j] == Add(before[j], words[round * 8 + j / 4][j % 4])
        invariant forall j :: i <= j < 32 ==> state[j] == before[j]
      {
        state[i] := Add(state[i], words[round * 8 + i / 4][i % 4]);
      }
    }

    method ShiftAndSubstitute(state: array<byte>)
      requires state.Length == 32 && IsInverse(inverse)
      modifies state
      ensures state[..] == InvSubBytes(InvShiftRows(old(state[..])))
    {
      hide InvSubByte, ToNat, RightOf;
      var previous: State := state[..];
      for column := 0 to 8
        invariant forall j: nat :: j < column * 4 ==> state[j] == InvSubByte(previous[RightOf(j)])
      {
        for row := 0 to 4
          invariant forall j: nat :: j < column * 4 + row ==> state[j] == InvSubByte(previous[RightOf(j)])
        {
          TurnAt(column, row);
          state[column * 4 + row] := inverse[ToNat(previous[(column + 8 - SHIFTS[row]) % 8 * 4 + row])];
        }
      }
    }

    method MixColumnBack(state: array<byte>, column: nat)
      requires state.Length == 32 && column < 8
      modifies state
      ensures forall j :: 0 <= j < 32 && j / 4 != column ==> state[j] == old(state[j])
      ensures forall j :: 0 <= j < 32 && j / 4 == column ==> state[j] == InvMixColumns(old(state[..]))[j]
    {
      hide Mul, Add, InvMixColumns;
      ghost var before: State := state[..];
      var base := column * 4;
      var a: Word := state[base..base + 4];
      for row := 0 to 4
        invariant forall j :: 0 <= j < 32 && !(base <= j < base + row) ==> state[j] == before[j]
        invariant forall j :: base <= j < base + row ==> state[j] == InvMixColumns(before)[j]
      {
        var a0 := Multiply(a[row], 14);
        var a1 := Multiply(a[(row + 1) % 4], 11);
        var a2 := Multiply(a[(row + 2) % 4], 13);
        var a3 := Multiply(a[(row + 3) % 4], 9);
        MixRow(before, column, row);
        state[base + row] := Sum4(a0, a1, a2, a3);
      }
    }

    method MixBack(state: array<byte>)
      requires state.Length == 32
      modifies state
      ensures state[..] == InvMixColumns(old(state[..]))
    {
      ghost var before: State := state[..];
      ghost var after: State := InvMixColumns(before);
      hide InvMixColumns;
      for column := 0 to 8
        invariant forall j :: 0 <= j < column * 4 ==> state[j] == after[j]
        invariant forall j :: column * 4 <= j < 32 ==> state[j] == before[j]
      {
        ghost var s: State := state[..];
        assert forall j :: column * 4 <= j < column * 4 + 4 ==> InvMixColumns(s)[j] == after[j] by {
          SameColumn(s, before, column);
        }
        MixColumnBack(state, column);
      }
    }

    /** The inverse cipher, in place on a copy of the block. */
    method Block(input: State) returns (block: State)
      requires IsInverse(inverse)
      ensures block == DecryptBlock(input, words)
    {
      hide AddRoundKey, InvSubBytes, InvShiftRows, InvMixColumns, IsInverse;
      var state := new byte[32](i requires 0 <= i < 32 => input[i]);
      assert state[..] == input;
      AddKey(state, 14);
      for round := 14 downto 0
        invariant state[..] == DecryptRounds(input, words, round)
      {
        ShiftAndSubstitute(state);
        AddKey(state, round);
        if round != 0 {
          MixBack(state);
        }
      }
      block := state[..];
    }

    method Decrypt(encrypted: seq<byte>, iv: State, ghost key: Key) returns (r: Result)
      requires Serves(key)
      ensures r == DecryptMessage(key, iv, encrypted)
    {
      hide DecryptBlock, Xor, IsInverse, KeySchedule, Unpad;
      if |encrypted| == 0 || |encrypted| % 32 != 0 {
        return CipherError;
      }
      var previous: State := iv;
      var output: seq<byte> := [];
      for k := 0 to |encrypted| / 32
        invariant |output| == 32 * k
        invariant output + CbcDecrypt(words, previous, encrypted[32 * k..]) == CbcDecrypt(words, iv, encrypted)
      {
        var rest := encrypted[32 * k..];
        var block: State := rest[..32];
        var plain := Block(block);
        assert rest[32..] == encrypted[32 * (k + 1)..];
        output := output + Xor(plain, previous);
        previous := block;
      }
      assert output == CbcDecrypt(words, iv, encrypted);
      r := RemovePadding(output);
    }
  }

  method RemovePadding(output: seq<byte>) returns (r: Result)
    requires WholeBlocks(output) && output != []
    ensures r == Unpad(output)
  {
    hide ToNat;
    var padding := ToNat(output[|output| - 1]);
    if !(1 <= padding <= 32) {
      return CipherError;
    }
    for i := |output| - padding to |output|
      invariant forall j :: |output| - padding <= j < i ==> output[j] == output[|output| - 1]
    {
      if ToNat(output[i]) != padding {
        return CipherError;
      }
      SameByte(output[i], output[|output| - 1]);
    }
    return Plain(output[..|output| - padding]);
  }

  /** Mixing a column reads that column only. */
  lemma SameColumn(s: State, t: State, column: nat)
    requires column < 8
    requires forall j :: column * 4 <= j < column * 4 + 4 ==> s[j] == t[j]
    ensures forall j :: column * 4 <= j < column * 4 + 4 ==> InvMixColumns(s)[j] == InvMixColumns(t)[j]
  {
    hide InvMixByte, InvMixColumns;
    forall j | column * 4 <= j < column * 4 + 4 ensures InvMixColumns(s)[j] == InvMixColumns(t)[j] {
      var row := j - column * 4;
      MixRow(s, column, row);
      MixRow(t, column, row);
    }
  }

  lemma MixRow(s: State, column: nat, row: nat)
    requires column < 8 && row < 4
    ensures InvMixColumns(s)[column * 4 + row] == InvMixByte(s[column * 4 + row],
      s[column * 4 + (row + 1) % 4], s[column * 4 + (row + 2) % 4], s[column * 4 + (row + 3) % 4])
  {
    hide InvMixByte, InvMixColumns, Below;
    MixAt(s, column * 4 + row);
    BelowAt(column, row, 1);
    BelowAt(column, row, 2);
    BelowAt(column, row, 3);
  }
}
