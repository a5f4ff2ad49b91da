/** The memory of the machine: what is written is read back, and nothing else changes. */
module GuestMemory {
  import opened RiscV

  lemma ByteAt(mem: map<Address, bv8>, a: bv64, v: bv64, b: bv64)
    ensures Byte(PutByte(mem, a, v), b) == if a == b then Low8(v) else Byte(mem, b)
  {
  }

  /** Neither of the two bytes at a is one of the n at b. */
  predicate Away(a: bv64, b: bv64) { a != b && Plus(a, 1) != b }

  lemma HalfBytes(mem: map<Address, bv8>, a: bv64, v: bv64, b: bv64)
    ensures Byte(PutHalf(mem, a, v), b) == if Plus(a, 1) == b then Low8(Upper8(v)) else if a == b then Low8(v)
      else Byte(mem, b)
  {
    hide Byte, PutByte, Plus, Upper8, Low8;
    ByteAt(mem, a, v, b);
    ByteAt(PutByte(mem, a, v), Plus(a, 1), Upper8(v), b);
  }

  lemma JoinBytes(v: bv64)
    ensures Join8(Low8(v), Low8(Upper8(v))) == Low16(v)
  {
  }

  lemma NextAway(a: bv64)
    ensures a != Plus(a, 1)
  {
  }

  lemma HalfBack(mem: map<Address, bv8>, a: bv64, v: bv64)
    ensures Half(PutHalf(mem, a, v), a) == Low16(v)
  {
    hide Byte, PutHalf, Plus, Upper8, Low8, Low16, Join8;
    HalfBytes(mem, a, v, a);
    HalfBytes(mem, a, v, Plus(a, 1));
    JoinBytes(v);
    NextAway(a);
  }

  lemma HalfKept(mem: map<Address, bv8>, a: bv64, v: bv64, b: bv64)
    requires Away(a, b) && Away(a, Plus(b, 1))
    ensures Half(PutHalf(mem, a, v), b) == Half(mem, b)
  {
    hide Byte, PutHalf, Plus, Upper8, Low8, Low16, Join8;
    HalfBytes(mem, a, v, b);
    HalfBytes(mem, a, v, Plus(b, 1));
  }

  lemma JoinHalves(v: bv64)
    ensures Join16(Low16(v), Low16(Upper16(v))) == Low32(v)
  {
  }

  lemma WordBack(mem: map<Address, bv8>, a: bv64, v: bv64)
    ensures Word(PutWord(mem, a, v), a) == Low32(v)
  {
    hide Half, PutHalf, Low16, Low32, Plus, Upper16, Join16, Away;
    HalfBack(mem, a, v);
    HalfBack(PutHalf(mem, a, v), Plus(a, 2), Upper16(v));
    HalvesAway(a);
    HalfKept(PutHalf(mem, a, v), Plus(a, 2), Upper16(v), a);
    JoinHalves(v);
  }

  lemma HalvesAway(a: bv64)
    ensures Away(Plus(a, 2), a) && Away(Plus(a, 2), Plus(a, 1))
  {
  }

  lemma WordKept(mem: map<Address, bv8>, a: bv64, v: bv64, b: bv64)
    requires Away(a, b) && Away(a, Plus(b, 1)) && Away(a, Plus(b, 2)) && Away(a, Plus(Plus(b, 2), 1))
    requires Away(Plus(a, 2), b) && Away(Plus(a, 2), Plus(b, 1)) && Away(Plus(a, 2), Plus(b, 2))
    requires Away(Plus(a, 2), Plus(Plus(b, 2), 1))
    ensures Word(PutWord(mem, a, v), b) == Word(mem, b)
  {
    hide Half, PutHalf, Away, Plus, Upper16, Join16;
    var m1 := PutHalf(mem, a, v);
    HalfKept(mem, a, v, b);
    HalfKept(mem, a, v, Plus(b, 2));
    HalfKept(m1, Plus(a, 2), Upper16(v), b);
    HalfKept(m1, Plus(a, 2), Upper16(v), Plus(b, 2));
  }

  lemma WordsAway(a: bv64)
    ensures Away(Plus(a, 4), a) && Away(Plus(a, 4), Plus(a, 1)) && Away(Plus(a, 4), Plus(a, 2))
    ensures Away(Plus(a, 4), Plus(Plus(a, 2), 1))
    ensures Away(Plus(Plus(a, 4), 2), a) && Away(Plus(Plus(a, 4), 2), Plus(a, 1))
    ensures Away(Plus(Plus(a, 4), 2), Plus(a, 2)) && Away(Plus(Plus(a, 4), 2), Plus(Plus(a, 2), 1))
  {
  }

  lemma JoinWords(v: bv64)
    ensures Join32(Low32(v), Low32(Upper32(v))) == v
  {
  }

  lemma DoubleBack(mem: map<Address, bv8>, a: bv64, v: bv64)
    ensures Double(PutDouble(mem, a, v), a) == v
  {
    hide Word, PutWord, Low32, Away, Plus, Upper32, Join32;
    WordBack(mem, a, v);
    WordBack(PutWord(mem, a, v), Plus(a, 4), Upper32(v));
    WordsAway(a);
    WordKept(PutWord(mem, a, v), Plus(a, 4), Upper32(v), a);
    JoinWords(v);
  }

  function Cut(n: nat, v: bv64): bv64 {
    if n == 8 then v else if n == 4 then Low32(v) else if n == 2 then Low16(v) else Low8(v)
  }

  lemma RingWord(v: bv64)
    ensures ((v & 0xffff_ffff) as bv32) as bv64 == Low32(v)
  {
  }

  /** What is stored is loaded again, whatever the region. */
  lemma ReadBack(m: Memory, a: bv64, n: nat, v: bv64)
    ensures ReadMem(WriteMem(m, a, n, v), a, n) == Cut(n, v)
  {
    hide Byte, Half, Word, Double, PutByte, PutHalf, PutWord, PutDouble, Low8, Low16, Low32;
    DoubleBack(m.bytes, a, v);
    WordBack(m.bytes, a, v);
    HalfBack(m.bytes, a, v);
    ByteAt(m.bytes, a, v, a);
    RingWord(v);
  }
}
