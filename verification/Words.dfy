/** Machine words as the C code uses them, with each operation named so that proofs can treat it as a symbol. */
module Words64 {

  type Word = bv64

  /** A 128-bit cipher block as two words, in the order the C arrays hold them. */
  datatype Block = Block(x: Word, y: Word)

  function Xor(a: Word, b: Word): Word {
    a ^ b
  }

  function And(a: Word, b: Word): Word {
    a & b
  }

  function Not(a: Word): Word {
    !a
  }

  /** Unsigned 64-bit addition, which wraps around. */
  function Add(a: Word, b: Word): Word {
    a + b
  }

  function Sub(a: Word, b: Word): Word {
    a - b
  }

  // A shift count is itself a bit-vector: the solver folds constants of that kind, and not integer ones.

  function Rol(v: Word, n: bv8): Word
    requires n <= 64
  {
    (v << n) | (v >> (64 - n))
  }

  function Ror(v: Word, n: bv8): Word
    requires n <= 64
  {
    (v >> n) | (v << (64 - n))
  }

  lemma XorCancel(a: Word, b: Word)
    ensures Xor(Xor(a, b), b) == a
  {
    assert (a ^ b) ^ b == a;
  }

  lemma XorComm(a: Word, b: Word)
    ensures Xor(a, b) == Xor(b, a)
  {
  }

  lemma AddComm(a: Word, b: Word)
    ensures Add(a, b) == Add(b, a)
  {
  }

  lemma XorAssoc(a: Word, b: Word, c: Word)
    ensures Xor(Xor(a, b), c) == Xor(a, Xor(b, c))
  {
    assert (a ^ b) ^ c == a ^ (b ^ c);
  }

  lemma SubOfSum(a: Word, b: Word)
    ensures Sub(a + b, a) == b
  {
  }

  lemma AddSub(a: Word, b: Word)
    ensures Sub(Add(a, b), a) == b
  {
    hide Sub;
    SubOfSum(a, b);
  }

  lemma SumOfDifference(a: Word, b: Word)
    ensures Add(a, b - a) == b
  {
  }

  lemma SubAdd(a: Word, b: Word)
    ensures Add(a, Sub(b, a)) == b
  {
    hide Add;
    SumOfDifference(a, b);
  }

  lemma Ror8Rol8(v: Word)
    ensures Rol(Ror(v, 8), 8) == v
    ensures Ror(Rol(v, 8), 8) == v
  {
  }

  lemma Ror61IsRol3(v: Word)
    ensures Ror(v, 61) == Rol(v, 3)
  {
  }

  lemma Rol3Ror3(v: Word)
    ensures Ror(Rol(v, 3), 3) == v
    ensures Rol(Ror(v, 3), 3) == v
  {
  }
}

/** The same for 32-bit words. */
module Words32 {

  type Word = bv32

  function Xor(a: Word, b: Word): Word {
    a ^ b
  }

  function And(a: Word, b: Word): Word {
    a & b
  }

  function Or(a: Word, b: Word): Word {
    a | b
  }

  function Not(a: Word): Word {
    !a
  }

  /** Unsigned 32-bit addition, which wraps around. */
  function Add(a: Word, b: Word): Word {
    a + b
  }

  function Sub(a: Word, b: Word): Word {
    a - b
  }

  function Rotl(a: Word, n: bv8): Word {
    var k := n % 32;
    if k == 0 then a else (a << k) | (a >> (32 - k))
  }

  lemma XorCancel(a: Word, b: Word)
    ensures Xor(Xor(a, b), b) == a
  {
  }

  lemma AddComm(a: Word, b: Word)
    ensures Add(a, b) == Add(b, a)
  {
  }

  lemma SubOfSum(a: Word, b: Word)
    ensures Sub(a + b, b) == a
  {
  }

  lemma AddSub(a: Word, b: Word)
    ensures Sub(Add(a, b), b) == a
  {
    hide Sub;
    SubOfSum(a, b);
  }

  lemma SumOfDifference(a: Word, b: Word)
    ensures Add(b - a, a) == b
  {
  }

  lemma SubAdd(a: Word, b: Word)
    ensures Add(Sub(b, a), a) == b
  {
    hide Add;
    SumOfDifference(a, b);
  }

  lemma XorChain(a: Word, b: Word, c: Word)
    ensures Xor(Xor(a, b), Xor(b, c)) == Xor(a, c)
  {
  }

  lemma XorComm(a: Word, b: Word)
    ensures Xor(a, b) == Xor(b, a)
  {
  }

  lemma XorAssoc(a: Word, b: Word, c: Word)
    ensures Xor(Xor(a, b), c) == Xor(a, Xor(b, c))
  {
  }

  lemma XorSwap(x: Word, a: Word, b: Word)
    ensures Xor(Xor(x, a), b) == Xor(Xor(x, b), a)
  {
    hide Xor;
    XorAssoc(x, a, b);
    XorComm(a, b);
    XorAssoc(x, b, a);
  }

  lemma XorExchange(a: Word, b: Word, c: Word, d: Word)
    ensures Xor(Xor(a, b), Xor(c, d)) == Xor(Xor(a, c), Xor(b, d))
  {
    hide Xor;
    XorAssoc(Xor(a, b), c, d);
    XorSwap(a, b, c);
    XorAssoc(Xor(a, c), b, d);
  }

  lemma XorRegroup(x: Word, a: Word, b: Word, c: Word, e: Word)
    ensures Xor(Xor(Xor(x, a), b), Xor(Xor(a, c), e)) == Xor(Xor(x, c), Xor(b, e))
  {
    hide Xor;
    XorSwap(x, a, b);
    XorAssoc(a, c, e);
    XorChain(Xor(x, b), a, Xor(c, e));
    XorExchange(x, b, c, e);
  }

  lemma Rotl9Rotl23(a: Word)
    ensures Rotl(Rotl(a, 9), 23) == a
    ensures Rotl(Rotl(a, 23), 9) == a
  {
  }

  lemma Rotl19Rotl13(a: Word)
    ensures Rotl(Rotl(a, 19), 13) == a
    ensures Rotl(Rotl(a, 13), 19) == a
  {
  }
}
