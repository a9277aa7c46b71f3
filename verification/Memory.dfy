/** The byte memory of MemoryStore.cpp: one array, read and written big-endian in units of one, two or
    four bytes. A value `Mem` is the specification; class `MemoryStore` is the in-place implementation. */
module Memory {
  import opened Words

  datatype Mem = Mem(start: Word, bytes: seq<Byte>)

  datatype Status = Success | Einval

  /** `relativeAddr`: wraps when the address lies below the start of the store. */
  function Offset(m: Mem, address: Word): Word {
    Sub(address, m.start)
  }

  /** A byte beyond the end contributes nothing to a read. */
  function ByteAt(bytes: seq<Byte>, j: nat): Byte {
    if j < |bytes| then bytes[j] else 0
  }

  /** The number whose n big-endian digits in base 256 start at `rel`. */
  function Assemble(bytes: seq<Byte>, rel: nat, n: nat): (v: nat)
    ensures n <= 4 ==> v < 0x1_0000_0000
    ensures n <= 3 ==> v < 0x100_0000
    ensures n <= 2 ==> v < 0x1_0000
    ensures n <= 1 ==> v < 0x100
  {
    if n == 0 then 0 else Assemble(bytes, rel, n - 1) * 0x100 + ByteAt(bytes, rel + n - 1)
  }

  /** Byte k of a word, k = 0 being the least significant. */
  function ByteOf(value: Word, k: nat): Byte {
    if k == 0 then value % 0x100
    else if k == 1 then value / 0x100 % 0x100
    else if k == 2 then value / 0x1_0000 % 0x100
    else value / 0x100_0000
  }

  /** Byte k as the writing loop computes it, by shifting and masking. */
  lemma ByteByShift(value: Word, k: nat)
    requires k < 4
    ensures Shr(value, k * 8) % 0x100 == ByteOf(value, k)
  {
    ShiftsByBytes(value);
  }

  predicate IsSize(size: nat) {
    size == 1 || size == 2 || size == 4
  }

  predicate InRange(m: Mem, address: Word, size: nat) {
    Offset(m, address) + size <= |m.bytes|
  }

  /** What `getMemValue` leaves in its reference parameter, also when it reports an access violation. */
  function Load(m: Mem, address: Word, size: nat): Word
    requires IsSize(size)
  {
    Assemble(m.bytes, Offset(m, address), size)
  }

  predicate Covers(m: Mem, address: Word, size: nat, j: nat) {
    Offset(m, address) <= j < Offset(m, address) + size
  }

  /** What `setMemValue` leaves in memory, also when it reports an access violation. */
  function Store(m: Mem, address: Word, value: Word, size: nat): (r: Mem)
    requires IsSize(size)
    ensures r.start == m.start && |r.bytes| == |m.bytes|
    ensures forall j :: 0 <= j < |m.bytes| ==>
      r.bytes[j] == if Covers(m, address, size, j) then ByteOf(value, size - 1 - (j - Offset(m, address)))
                    else m.bytes[j]
  {
    m.(bytes := seq(|m.bytes|, j requires 0 <= j < |m.bytes| =>
      if Covers(m, address, size, j) then ByteOf(value, size - 1 - (j - Offset(m, address)))
      else m.bytes[j]))
  }

  lemma StoreUnique(m: Mem, address: Word, value: Word, size: nat, bytes: seq<Byte>)
    requires IsSize(size) && |bytes| == |m.bytes|
    requires forall j :: 0 <= j < |bytes| ==>
      bytes[j] == if Offset(m, address) <= j < Offset(m, address) + size
                  then ByteOf(value, size - 1 - (j - Offset(m, address))) else m.bytes[j]
    ensures Mem(m.start, bytes) == Store(m, address, value, size)
  {
    assert bytes == Store(m, address, value, size).bytes;
  }

  // ---------- Reading back what was written ----------

  lemma BytesOfWord(v: Word)
    ensures v == ByteOf(v, 3) * 0x100_0000 + ByteOf(v, 2) * 0x1_0000 + ByteOf(v, 1) * 0x100 + ByteOf(v, 0)
  {
    var a := v / 0x100;
    var b := a / 0x100;
    assert v == a * 0x100 + ByteOf(v, 0);
    assert a == b * 0x100 + ByteOf(v, 1);
    assert b == ByteOf(v, 3) * 0x100 + ByteOf(v, 2);
  }

  /** A number below 2^16 has two digits. */
  lemma BytesOfHalf(v: Half)
    ensures ByteOf(v, 3) == 0 && ByteOf(v, 2) == 0
  {
    BytesOfWord(v);
  }

  function Modulus(size: nat): nat
    requires IsSize(size)
  {
    if size == 1 then 0x100 else if size == 2 then 0x1_0000 else 0x1_0000_0000
  }

  /** Reading back an in-range write gives the value modulo 2^(8 * size). */
  lemma LoadAfterStore(m: Mem, address: Word, v: Word, size: nat)
    requires IsSize(size) && InRange(m, address, size)
    ensures Load(Store(m, address, v, size), address, size) == v % Modulus(size)
  {
    hide Store, ByteOf, Assemble, Offset;
    var r := Store(m, address, v, size).bytes;
    var rel: nat := Offset(m, address);
    AssembleUnfolds(r, rel);
    StoredBytes(m, address, v, size);
    BytesOfWord(v);
    LowDigits(v);
  }

  lemma StoredBytes(m: Mem, address: Word, v: Word, size: nat)
    requires IsSize(size) && InRange(m, address, size)
    ensures var r, rel := Store(m, address, v, size).bytes, Offset(m, address);
      && ByteAt(r, rel) == ByteOf(v, size - 1)
      && (size >= 2 ==> ByteAt(r, rel + 1) == ByteOf(v, size - 2))
      && (size == 4 ==> ByteAt(r, rel + 2) == ByteOf(v, 1) && ByteAt(r, rel + 3) == ByteOf(v, 0))
    ensures Offset(Store(m, address, v, size), address) == Offset(m, address)
  {
    hide ByteOf;
  }

  lemma LowDigits(v: Word)
    ensures v % 0x100 == ByteOf(v, 0)
    ensures v % 0x1_0000 == ByteOf(v, 1) * 0x100 + ByteOf(v, 0)
  {
    BytesOfWord(v);
  }

  lemma AssembleUnfolds(bytes: seq<Byte>, rel: nat)
    ensures Assemble(bytes, rel, 1) == ByteAt(bytes, rel)
    ensures Assemble(bytes, rel, 2) == Assemble(bytes, rel, 1) * 0x100 + ByteAt(bytes, rel + 1)
    ensures Assemble(bytes, rel, 4)
         == Assemble(bytes, rel, 2) * 0x1_0000 + ByteAt(bytes, rel + 2) * 0x100 + ByteAt(bytes, rel + 3)
  {
    assert Assemble(bytes, rel, 3) == Assemble(bytes, rel, 2) * 0x100 + ByteAt(bytes, rel + 2);
  }

  /** The second half of a word access lands this far into the store: at its beginning again when the
      offset of the access is 0xfffffffe or 0xffffffff. */
  function SecondHalf(m: Mem, address: Word): nat {
    Offset(m, Add(address, 2))
  }

  /** The bytes where the second half lands already have the low digits of v. */
  predicate LowHalfPresent(m: Mem, address: Word, v: Word) {
    var o := SecondHalf(m, address);
    forall j :: o <= j < o + 2 && j < |m.bytes| ==> m.bytes[j] == ByteOf(v, 1 - (j - o))
  }

  /** Exactly when a word write is its two half writes, high half first, and a word read joins two half reads:
      always, also when the access runs off the end, unless the second half wraps around to the beginning
      of the store and finds something there that the word access does not touch. */
  lemma WordIsTwoHalves(m: Mem, address: Word, v: Word)
    requires |m.bytes| < 0x1_0000_0000
    ensures Store(m, address, v, 4) == Store(Store(m, address, v / 0x1_0000, 2), Add(address, 2), v % 0x1_0000, 2)
      <==> Offset(m, address) < 0xffff_fffe || LowHalfPresent(m, address, v)
    ensures Load(m, address, 4) == Load(m, address, 2) * 0x1_0000 + Load(m, Add(address, 2), 2)
      <==> Offset(m, address) < 0xffff_fffe || Load(m, Add(address, 2), 2) == 0
  {
    hide Store, ByteOf, LowHalfPresent, Assemble;
    var rel: nat := Offset(m, address);
    var high, low := v / 0x1_0000, v % 0x1_0000;
    HalfDigits(v);
    OffsetOfSecondHalf(m, address);
    AssembleUnfolds(m.bytes, rel);
    AssembleUnfolds(m.bytes, rel + 2);
    if rel < 0xffff_fffe {
      HalvesAgree(m, address, v, high, low);
    } else {
      HalvesWrap(m, address, v, high, low);
    }
  }

  lemma HalfDigits(v: Word)
    ensures ByteOf(v / 0x1_0000, 1) == ByteOf(v, 3) && ByteOf(v / 0x1_0000, 0) == ByteOf(v, 2)
    ensures ByteOf(v % 0x1_0000, 1) == ByteOf(v, 1) && ByteOf(v % 0x1_0000, 0) == ByteOf(v, 0)
  {
    var high, low := v / 0x1_0000, v % 0x1_0000;
    BytesOfWord(v);
    BytesOfHalf(high);
    BytesOfHalf(low);
    BytesOfWord(high);
    BytesOfWord(low);
  }

  lemma HalvesWrap(m: Mem, address: Word, v: Word, high: Half, low: Half)
    requires |m.bytes| <= 0xffff_ffff && Offset(m, address) >= 0xffff_fffe
    requires SecondHalf(m, address) <= 1
    requires ByteOf(high, 1) == ByteOf(v, 3)
    requires ByteOf(low, 1) == ByteOf(v, 1) && ByteOf(low, 0) == ByteOf(v, 0)
    ensures Store(m, address, v, 4) == Store(Store(m, address, high, 2), Add(address, 2), low, 2)
      <==> LowHalfPresent(m, address, v)
  {
    hide ByteOf, Store;
    FirstHalfIsAll(m, address, v, high);
    NoChangeIffPresent(m, Store(m, address, high, 2), address, v, low);
  }

  /** At the last two offsets a word write reaches no further than its first half. */
  lemma FirstHalfIsAll(m: Mem, address: Word, v: Word, high: Half)
    requires |m.bytes| <= 0xffff_ffff && Offset(m, address) >= 0xffff_fffe
    requires ByteOf(high, 1) == ByteOf(v, 3)
    ensures Store(m, address, v, 4) == Store(m, address, high, 2)
    ensures forall j :: 0 <= j < |m.bytes| && j <= 2 ==> Store(m, address, high, 2).bytes[j] == m.bytes[j]
  {
    hide ByteOf;
    assert Store(m, address, v, 4).bytes == Store(m, address, high, 2).bytes;
  }

  lemma NoChangeIffPresent(m: Mem, first: Mem, address: Word, v: Word, low: Half)
    requires first.start == m.start && |first.bytes| == |m.bytes| && SecondHalf(m, address) <= 1
    requires forall j :: 0 <= j < |m.bytes| && j <= 2 ==> first.bytes[j] == m.bytes[j]
    requires ByteOf(low, 1) == ByteOf(v, 1) && ByteOf(low, 0) == ByteOf(v, 0)
    ensures first == Store(first, Add(address, 2), low, 2) <==> LowHalfPresent(m, address, v)
  {
    hide ByteOf;
    var o, after := SecondHalf(m, address), Store(first, Add(address, 2), low, 2);
    if LowHalfPresent(m, address, v) {
      assert after.bytes == first.bytes;
    } else {
      var j :| o <= j < o + 2 && j < |m.bytes| && m.bytes[j] != ByteOf(v, 1 - (j - o));
      assert after.bytes[j] != first.bytes[j];
    }
  }

  lemma OffsetOfSecondHalf(m: Mem, address: Word)
    ensures Offset(m, address) < 0xffff_fffe ==> SecondHalf(m, address) == Offset(m, address) + 2
    ensures Offset(m, address) >= 0xffff_fffe ==> SecondHalf(m, address) <= 1
  {
  }

  lemma HalvesAgree(m: Mem, address: Word, v: Word, high: Half, low: Half)
    requires Offset(m, Add(address, 2)) == Offset(m, address) + 2
    requires ByteOf(high, 1) == ByteOf(v, 3) && ByteOf(high, 0) == ByteOf(v, 2)
    requires ByteOf(low, 1) == ByteOf(v, 1) && ByteOf(low, 0) == ByteOf(v, 0)
    ensures Store(m, address, v, 4) == Store(Store(m, address, high, 2), Add(address, 2), low, 2)
  {
    var rel := Offset(m, address);
    var word := Store(m, address, v, 4).bytes;
    var halves := Store(Store(m, address, high, 2), Add(address, 2), low, 2).bytes;
    forall j | 0 <= j < |m.bytes|
      ensures word[j] == halves[j]
    {
      if rel <= j < rel + 4 {
        assert j == rel || j == rel + 1 || j == rel + 2 || j == rel + 3;
      }
    }
    assert word == halves;
  }

  // ---------- Sequences of writes ----------

  datatype Write = Write(address: Word, value: Word, size: nat)

  predicate AreWrites(ws: seq<Write>) {
    forall i :: 0 <= i < |ws| ==> IsSize(ws[i].size)
  }

  function RunWrites(m: Mem, ws: seq<Write>): (r: Mem)
    requires AreWrites(ws)
    ensures r.start == m.start && |r.bytes| == |m.bytes|
  {
    if ws == [] then m
    else
      var w := ws[|ws| - 1];
      Store(RunWrites(m, ws[..|ws| - 1]), w.address, w.value, w.size)
  }

  predicate Touches(m: Mem, w: Write, j: nat) {
    Covers(m, w.address, w.size, j)
  }

  /** Write i is the last one to cover offset j. */
  predicate IsLastWriter(m: Mem, ws: seq<Write>, i: nat, j: nat) {
    && i < |ws|
    && Touches(m, ws[i], j)
    && forall k :: i < k < |ws| ==> !Touches(m, ws[k], j)
  }

  /** The byte at offset j according to the history alone: the digit of the last write that covers j,
      or the initial byte when none does. */
  ghost predicate IsLastByte(m: Mem, ws: seq<Write>, j: nat, b: Byte)
    requires j < |m.bytes|
  {
    && (forall i: nat :: IsLastWriter(m, ws, i, j) ==>
          var place := ws[i].size - 1 - (j - Offset(m, ws[i].address));
          place >= 0 && b == ByteOf(ws[i].value, place))
    && ((forall k :: 0 <= k < |ws| ==> !Touches(m, ws[k], j)) ==> b == m.bytes[j])
  }

  /** After any sequence of writes, failing ones included, every byte is the last one written to it. */
  lemma {:induction false} LastWriteWins(m: Mem, ws: seq<Write>, j: nat)
    requires AreWrites(ws)
    requires j < |m.bytes|
    ensures IsLastByte(m, ws, j, RunWrites(m, ws).bytes[j])
  {
    if ws != [] {
      var n := |ws| - 1;
      LastWriteWins(m, ws[..n], j);
      OneMoreWrite(m, ws, j, RunWrites(m, ws[..n]).bytes[j], RunWrites(m, ws).bytes[j]);
    }
  }

  /** A last writer of the whole sequence is the new write, or was the last writer before it. */
  lemma LastWriterBefore(m: Mem, ws: seq<Write>, i: nat, j: nat)
    requires ws != [] && IsLastWriter(m, ws, i, j) && i != |ws| - 1
    ensures !Touches(m, ws[|ws| - 1], j) && IsLastWriter(m, ws[..|ws| - 1], i, j)
  {
    var init := ws[..|ws| - 1];
    forall k | i < k < |init|
      ensures !Touches(m, init[k], j)
    {
      assert init[k] == ws[k];
    }
  }

  lemma OneMoreWrite(m: Mem, ws: seq<Write>, j: nat, before: Byte, after: Byte)
    requires ws != [] && j < |m.bytes|
    requires IsLastByte(m, ws[..|ws| - 1], j, before)
    requires var w := ws[|ws| - 1];
      after == if Touches(m, w, j) then ByteOf(w.value, w.size - 1 - (j - Offset(m, w.address))) else before
    ensures IsLastByte(m, ws, j, after)
  {
    var n := |ws| - 1;
    var init := ws[..n];
    forall i: nat | IsLastWriter(m, ws, i, j)
      ensures var place := ws[i].size - 1 - (j - Offset(m, ws[i].address));
        place >= 0 && after == ByteOf(ws[i].value, place)
    {
      if i != n {
        LastWriterBefore(m, ws, i, j);
        assert init[i] == ws[i];
      }
    }
    if forall k :: 0 <= k < |ws| ==> !Touches(m, ws[k], j) {
      assert !Touches(m, ws[n], j);
      assert forall k :: 0 <= k < n ==> init[k] == ws[k];
    }
  }

  /** A read after any sequence of writes is the big-endian assembly of the last bytes written. */
  lemma {:induction false} ReadAssemblesLastWrites(m: Mem, ws: seq<Write>, address: Word, size: nat, last: seq<Byte>)
    requires AreWrites(ws) && IsSize(size)
    requires |last| == |m.bytes|
    requires forall j :: 0 <= j < |last| ==> IsLastByte(m, ws, j, last[j])
    ensures Load(RunWrites(m, ws), address, size) == Assemble(last, Offset(m, address), size)
  {
    forall j | 0 <= j < |last|
      ensures last[j] == RunWrites(m, ws).bytes[j]
    {
      LastWriteWins(m, ws, j);
      LastByteUnique(m, ws, j, last[j], RunWrites(m, ws).bytes[j]);
    }
    assert last == RunWrites(m, ws).bytes;
  }

  lemma LastByteUnique(m: Mem, ws: seq<Write>, j: nat, b: Byte, c: Byte)
    requires j < |m.bytes|
    requires IsLastByte(m, ws, j, b) && IsLastByte(m, ws, j, c)
    ensures b == c
  {
    if i: nat :| IsLastWriter(m, ws, i, j) {
    } else {
      NoWriter(m, ws, j, |ws|);
    }
  }

  lemma {:induction false} NoWriter(m: Mem, ws: seq<Write>, j: nat, n: nat)
    requires n <= |ws|
    requires forall k :: n <= k < |ws| ==> !Touches(m, ws[k], j)
    requires forall i: nat :: !IsLastWriter(m, ws, i, j)
    ensures forall k :: 0 <= k < |ws| ==> !Touches(m, ws[k], j)
  {
    if n > 0 {
      assert !IsLastWriter(m, ws, n - 1, j);
      NoWriter(m, ws, j, n - 1);
    }
  }

  // ---------- The in-place implementation ----------

  lemma {:induction false} ShlSum(x: nat, y: nat, k: nat)
    ensures Shl(x + y, k) == Shl(x, k) + Shl(y, k)
  {
    if k != 0 {
      ShlSum(x, y, k - 1);
    }
  }

  lemma {:induction false} ShlBound(x: nat, n: nat, k: nat)
    requires x < Pow2(n)
    ensures Shl(x, k) < Pow2(n + k)
  {
    if k != 0 {
      ShlBound(x, n, k - 1);
    }
  }

  /** One turn of the reading loop: the byte is OR-ed in below the bytes read so far. */
  lemma OrInByte(high: nat, b: Byte, k: nat)
    requires k <= 24
    requires Shl(high, k + 8) < 0x1_0000_0000
    ensures Shl(b, k) < 0x1_0000_0000
    ensures Bitwise(Or, Shl(high, k + 8), Shl(b, k)) == Shl(high * 0x100 + b, k)
  {
    assert b < Pow2(8) by {
      Pow2Plus4(4);
      assert Pow2(4) == 16;
    }
    ShlBound(b, 8, k);
    JoinDisjoint(Or, high, Shl(b, k), k + 8);
    ShlOfJoined(high, b, k);
  }

  lemma ShlOfJoined(high: nat, b: Byte, k: nat)
    requires k <= 24 && Shl(b, k) < Pow2(8 + k)
    ensures Shl(b, k) < 0x1_0000_0000
    ensures Shl(high * 0x100 + b, k) == Shl(high, k + 8) + Shl(b, k)
  {
    Pow2Monotone(8 + k, 32);
    Pow2Of32();
    ShlShl(high, 8, k);
    ShiftsByByte(high);
    ShlSum(high * 0x100, b, k);
  }

  lemma ReadTurn(bytes: seq<Byte>, rel: nat, i: nat, size: nat, value: Word)
    requires IsSize(size) && i < size && rel + i < |bytes|
    requires value == Shl(Assemble(bytes, rel, i), 8 * (size - i))
    ensures WordOp(Or, value, ShiftLeft(bytes[rel + i], (size - 1 - i) * 8))
         == Shl(Assemble(bytes, rel, i + 1), 8 * (size - (i + 1)))
  {
    hide Shl;
    var k := (size - 1 - i) * 8;
    assert 8 * (size - i) == k + 8;
    OrInByte(Assemble(bytes, rel, i), bytes[rel + i], k);
    assert Assemble(bytes, rel, i + 1) == Assemble(bytes, rel, i) * 0x100 + bytes[rel + i];
    assert ShiftLeft(bytes[rel + i], k) == Shl(bytes[rel + i], k);
  }

  /** Where the reading loop stops early, the missing low digits are zero. */
  lemma {:induction false} MissingDigits(bytes: seq<Byte>, rel: nat, i: nat, n: nat)
    requires i <= n
    requires |bytes| <= rel + i
    ensures Assemble(bytes, rel, n) == Shl(Assemble(bytes, rel, i), 8 * (n - i))
    decreases n
  {
    if i < n {
      MissingDigits(bytes, rel, i, n - 1);
      ShlShl(Assemble(bytes, rel, i), 8 * (n - 1 - i), 8);
      ShiftsByByte(Shl(Assemble(bytes, rel, i), 8 * (n - 1 - i)));
    }
  }

  class MemoryStore {
    const startAddr: Word
    const memArr: array<Byte>

    ghost predicate Valid() {
      memArr.Length < 0x1_0000_0000
    }

    ghost function Model(): (m: Mem)
      reads memArr
    {
      Mem(startAddr, memArr[..])
    }

    constructor (start: Word, numEntries: Word)
      ensures Valid() && fresh(memArr)
      ensures Model() == Mem(start, seq(numEntries, _ => 0))
    {
      startAddr := start;
      memArr := new Byte[numEntries](_ => 0);
      new;
      assert memArr[..] == seq(numEntries as int, _ => 0);
    }

    /** Reads into or writes from the reference parameter `value`; `value'` is its final content. */
    method GetOrSetValue(get: bool, address: Word, value: Word, size: nat) returns (status: Status, value': Word)
      requires Valid()
      modifies memArr
      ensures !IsSize(size) ==> status == Einval && value' == value && Model() == old(Model())
      ensures IsSize(size) ==> status == if InRange(old(Model()), address, size) then Success else Einval
      ensures IsSize(size) && get ==> value' == Load(old(Model()), address, size) && Model() == old(Model())
      ensures IsSize(size) && !get ==> value' == value && Model() == Store(old(Model()), address, value, size)
    {
      value' := value;
      if size != 1 && size != 2 && size != 4 {
        return Einval, value';
      }
      if get {
        status, value' := GetBytes(Sub(address, startAddr), size);
      } else {
        status := SetBytes(Sub(address, startAddr), value, size);
        StoreUnique(old(Model()), address, value, size, memArr[..]);
      }
    }

    /** The reading loop; `memArr.at` throws at the first byte beyond the end. */
    method GetBytes(relativeAddr: Word, size: nat) returns (status: Status, value: Word)
      requires Valid() && IsSize(size)
      ensures status == if relativeAddr + size <= memArr.Length then Success else Einval
      ensures value == Assemble(memArr[..], relativeAddr, size)
    {
      value := 0;
      ghost var bytes := memArr[..];
      ShlZero(8 * size);
      for i := 0 to size
        invariant i > 0 ==> relativeAddr + i <= memArr.Length
        invariant value == Shl(Assemble(bytes, relativeAddr, i), 8 * (size - i))
      {
        var index := Add(relativeAddr, i);
        assert index == relativeAddr + i;
        if index >= memArr.Length {
          MissingDigits(bytes, relativeAddr, i, size);
          return Einval, value;
        }
        ReadTurn(bytes, relativeAddr, i, size, value);
        value := WordOp(Or, value, ShiftLeft(memArr[index], (size - 1 - i) * 8));
      }
      return Success, value;
    }

    /** The writing loop: the bytes before the first one beyond the end stay written. */
    method SetBytes(relativeAddr: Word, value: Word, size: nat) returns (status: Status)
      requires Valid() && IsSize(size)
      modifies memArr
      ensures status == if relativeAddr + size <= memArr.Length then Success else Einval
      ensures forall j :: 0 <= j < memArr.Length ==>
        memArr[j] == if relativeAddr <= j < relativeAddr + size then ByteOf(value, size - 1 - (j - relativeAddr))
                     else old(memArr[j])
    {
      for i := 0 to size
        invariant i > 0 ==> relativeAddr + i <= memArr.Length
        invariant forall j :: 0 <= j < memArr.Length ==>
          memArr[j] == if relativeAddr <= j < relativeAddr + i then ByteOf(value, size - 1 - (j - relativeAddr))
                       else old(memArr[j])
      {
        var index := Add(relativeAddr, i);
        assert index == relativeAddr + i;
        if index >= memArr.Length {
          return Einval;
        }
        ByteByShift(value, size - 1 - i);
        memArr[index] := Shr(value, (size - 1 - i) * 8) % 0x100;
      }
      return Success;
    }

    method GetMemValue(address: Word, value: Word, size: nat) returns (status: Status, value': Word)
      requires Valid()
      modifies memArr
      ensures Model() == old(Model())
      ensures IsSize(size) ==> value' == Load(Model(), address, size)
      ensures IsSize(size) ==> status == if InRange(Model(), address, size) then Success else Einval
      ensures !IsSize(size) ==> status == Einval && value' == value
    {
      status, value' := GetOrSetValue(true, address, value, size);
    }

    method SetMemValue(address: Word, value: Word, size: nat) returns (status: Status)
      requires Valid()
      modifies memArr
      ensures IsSize(size) ==> Model() == Store(old(Model()), address, value, size)
      ensures IsSize(size) ==> status == if InRange(old(Model()), address, size) then Success else Einval
      ensures !IsSize(size) ==> status == Einval && Model() == old(Model())
    {
      var same: Word;
      status, same := GetOrSetValue(false, address, value, size);
    }

    /** The copy loop of `loadFromFile`: byte i of the file goes to address i, truncated to eight bits.
        A byte whose address lies outside the store is reported and skipped. */
    method LoadFromFile(buf: seq<SignedChar>)
      requires Valid() && |buf| < 0x8000_0000
      modifies memArr
      ensures Model() == Loaded(old(Model()), buf)
      ensures forall i: Word :: i < |buf| && InRange(old(Model()), i, 1) ==>
        Load(Model(), i, 1) == (buf[i] as int) % 0x100
      ensures forall a: Word :: a >= |buf| ==> Load(Model(), a, 1) == Load(old(Model()), a, 1)
    {
      ghost var m := Model();
      for i := 0 to |buf|
        invariant forall j :: 0 <= j < memArr.Length ==>
          memArr[j] == if Add(startAddr, j) < i then (buf[Add(startAddr, j)] as int) % 0x100 else m.bytes[j]
      {
        AddressOfOffset(m, i);
        LowestByteOfChar(buf[i]);
        var _ := SetMemValue(i, Wrap(buf[i]), 1);
      }
      assert memArr[..] == Loaded(m, buf).bytes;
      forall a: Word
        ensures a < |buf| && InRange(m, a, 1) ==> Load(Model(), a, 1) == (buf[a] as int) % 0x100
        ensures a >= |buf| ==> Load(Model(), a, 1) == Load(m, a, 1)
      {
        LoadedByte(m, buf, a);
      }
    }
  }

  lemma LowestByteOfChar(c: SignedChar)
    ensures ByteOf(Wrap(c), 0) == (c as int) % 0x100
  {
  }

  /** Offsets and addresses correspond one to one. */
  lemma AddressOfOffset(m: Mem, address: Word)
    ensures forall j: Word :: Add(m.start, j) == address <==> j == Offset(m, address)
  {
    forall j: Word
      ensures Add(m.start, j) == address <==> j == Offset(m, address)
    {
      assert m.start + j == Add(m.start, j) || m.start + j == Add(m.start, j) + 0x1_0000_0000;
    }
  }

  lemma {:induction false} ShlZero(k: nat)
    ensures Shl(0, k) == 0
  {
    if k != 0 {
      ShlZero(k - 1);
    }
  }

  /** The `char` of a file buffer. */
  type SignedChar = c: int | -0x80 <= c < 0x80

  /** The store after a file image has been copied to address 0. */
  function Loaded(m: Mem, buf: seq<SignedChar>): (r: Mem)
    requires |m.bytes| < 0x1_0000_0000
    ensures r.start == m.start && |r.bytes| == |m.bytes|
  {
    m.(bytes := seq(|m.bytes|, j requires 0 <= j < |m.bytes| =>
      if Add(m.start, j) < |buf| then (buf[Add(m.start, j)] as int) % 0x100 else m.bytes[j]))
  }

  /** The byte at an address after loading: the file's, where the file and the store have one, and else the old one. */
  lemma LoadedByte(m: Mem, buf: seq<SignedChar>, a: Word)
    requires |m.bytes| < 0x1_0000_0000
    ensures Load(Loaded(m, buf), a, 1)
         == if a < |buf| && InRange(m, a, 1) then (buf[a] as int) % 0x100 else Load(m, a, 1)
  {
    AddressOfOffset(m, a);
    AssembleUnfolds(m.bytes, Offset(m, a));
    AssembleUnfolds(Loaded(m, buf).bytes, Offset(m, a));
  }

  /** A word read is four byte reads, the first byte on top. */
  lemma WordIsFourBytes(m: Mem, a: Word)
    requires |m.bytes| < 0x1_0000_0000 && a + 4 <= 0x1_0000_0000 && InRange(m, a, 4)
    ensures Load(m, a, 4)
         == Load(m, a, 1) * 0x100_0000 + Load(m, a + 1, 1) * 0x1_0000 + Load(m, a + 2, 1) * 0x100 + Load(m, a + 3, 1)
  {
    hide Assemble, Offset, ByteAt;
    var rel := Offset(m, a);
    NextOffsets(m, a);
    AssembleUnfolds(m.bytes, rel);
    AssembleUnfolds(m.bytes, rel + 1);
    AssembleUnfolds(m.bytes, rel + 2);
    AssembleUnfolds(m.bytes, rel + 3);
  }

  lemma NextOffsets(m: Mem, a: Word)
    requires a + 4 <= 0x1_0000_0000 && InRange(m, a, 4) && |m.bytes| < 0x1_0000_0000
    ensures Offset(m, a + 1) == Offset(m, a) + 1 && Offset(m, a + 2) == Offset(m, a) + 2
    ensures Offset(m, a + 3) == Offset(m, a) + 3
  {
  }

  /** A word of the file reads back with its first byte on top. */
  lemma LoadedWord(m: Mem, buf: seq<SignedChar>, a: Word)
    requires |m.bytes| < 0x1_0000_0000 && a + 4 <= |buf| && a + 4 <= 0x1_0000_0000 && InRange(m, a, 4)
    ensures Load(Loaded(m, buf), a, 4)
         == (buf[a] as int) % 0x100 * 0x100_0000 + (buf[a + 1] as int) % 0x100 * 0x1_0000
            + (buf[a + 2] as int) % 0x100 * 0x100 + (buf[a + 3] as int) % 0x100
  {
    hide Load, Loaded, Offset;
    NextOffsets(m, a);
    SameRange(m, buf, a);
    WordIsFourBytes(Loaded(m, buf), a);
    LoadedByte(m, buf, a);
    LoadedByte(m, buf, a + 1);
    LoadedByte(m, buf, a + 2);
    LoadedByte(m, buf, a + 3);
  }

  lemma SameRange(m: Mem, buf: seq<SignedChar>, a: Word)
    requires |m.bytes| < 0x1_0000_0000
    ensures InRange(Loaded(m, buf), a, 4) == InRange(m, a, 4)
  {
  }
}
