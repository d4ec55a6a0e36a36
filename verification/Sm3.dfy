/** SM3 (src/sm3.c; GB/T 32905-2016). */
module Sm3 {
  import opened Bytes
  import opened Words32

  // ---------------------------------------------------------------- the permutations P0 and P1

  function P0(x: Word): Word {
    Xor(Xor(x, Rotl(x, 9)), Rotl(x, 17))
  }

  function P1(x: Word): Word {
    Xor(Xor(x, Rotl(x, 15)), Rotl(x, 23))
  }

  /** x plus two rotations of x. Over the field of two elements this is multiplication by 1 + X^i + X^j, and
      squaring it doubles the exponents modulo 32. */
  function Tri(x: Word, i: bv8, j: bv8): Word {
    Xor(Xor(x, Rotl(x, i)), Rotl(x, j))
  }

  lemma SquareStep(x: Word, i: bv8, j: bv8, ii: bv8, ij: bv8, jj: bv8)
    requires var y := Tri(x, i, j);
             && Rotl(y, i) == Xor(Xor(Rotl(x, i), Rotl(x, ii)), Rotl(x, ij))
             && Rotl(y, j) == Xor(Xor(Rotl(x, j), Rotl(x, ij)), Rotl(x, jj))
    ensures Tri(Tri(x, i, j), i, j) == Tri(x, ii, jj)
  {
    hide Rotl, Xor;
    var a, b, c, d, e := Rotl(x, i), Rotl(x, j), Rotl(x, ii), Rotl(x, jj), Rotl(x, ij);
    XorRegroup(x, a, b, c, e);
    XorChain(Xor(x, c), Xor(b, e), d);
  }

  // Rotation by a constant respects exclusive or, and rotations by constants add up.

  lemma Spread9(a: Word, b: Word)
    ensures Rotl(Xor(a, b), 9) == Xor(Rotl(a, 9), Rotl(b, 9))
  {
  }

  lemma Spread17(a: Word, b: Word)
    ensures Rotl(Xor(a, b), 17) == Xor(Rotl(a, 17), Rotl(b, 17))
  {
  }

  lemma Spread18(a: Word, b: Word)
    ensures Rotl(Xor(a, b), 18) == Xor(Rotl(a, 18), Rotl(b, 18))
  {
  }

  lemma Spread2(a: Word, b: Word)
    ensures Rotl(Xor(a, b), 2) == Xor(Rotl(a, 2), Rotl(b, 2))
  {
  }

  lemma Spread15(a: Word, b: Word)
    ensures Rotl(Xor(a, b), 15) == Xor(Rotl(a, 15), Rotl(b, 15))
  {
  }

  lemma Spread23(a: Word, b: Word)
    ensures Rotl(Xor(a, b), 23) == Xor(Rotl(a, 23), Rotl(b, 23))
  {
  }

  lemma Spread30(a: Word, b: Word)
    ensures Rotl(Xor(a, b), 30) == Xor(Rotl(a, 30), Rotl(b, 30))
  {
  }

  lemma Spread14(a: Word, b: Word)
    ensures Rotl(Xor(a, b), 14) == Xor(Rotl(a, 14), Rotl(b, 14))
  {
  }

  lemma Turns9And17(x: Word)
    ensures Rotl(Rotl(x, 9), 9) == Rotl(x, 18) && Rotl(Rotl(x, 17), 17) == Rotl(x, 2)
  {
  }

  lemma Turn9By17(x: Word)
    ensures Rotl(Rotl(x, 9), 17) == Rotl(x, 26)
  {
  }

  lemma Turn17By9(x: Word)
    ensures Rotl(Rotl(x, 17), 9) == Rotl(x, 26)
  {
  }

  lemma Turns18And2(x: Word)
    ensures Rotl(Rotl(x, 18), 18) == Rotl(x, 4) && Rotl(Rotl(x, 2), 2) == Rotl(x, 4)
  {
  }

  lemma Turn18By2(x: Word)
    ensures Rotl(Rotl(x, 18), 2) == Rotl(x, 20)
  {
  }

  lemma Turn2By18(x: Word)
    ensures Rotl(Rotl(x, 2), 18) == Rotl(x, 20)
  {
  }

  lemma Turns15And23(x: Word)
    ensures Rotl(Rotl(x, 15), 15) == Rotl(x, 30) && Rotl(Rotl(x, 23), 23) == Rotl(x, 14)
  {
  }

  lemma Turn15By23(x: Word)
    ensures Rotl(Rotl(x, 15), 23) == Rotl(x, 6)
  {
  }

  lemma Turn23By15(x: Word)
    ensures Rotl(Rotl(x, 23), 15) == Rotl(x, 6)
  {
  }

  lemma Turns30And14(x: Word)
    ensures Rotl(Rotl(x, 30), 30) == Rotl(x, 28) && Rotl(Rotl(x, 14), 14) == Rotl(x, 28)
  {
  }

  lemma Turn30By14(x: Word)
    ensures Rotl(Rotl(x, 30), 14) == Rotl(x, 12)
  {
  }

  lemma Turn14By30(x: Word)
    ensures Rotl(Rotl(x, 14), 30) == Rotl(x, 12)
  {
  }

  lemma P0Square(x: Word)
    ensures Tri(Tri(x, 9, 17), 9, 17) == Tri(x, 18, 2)
  {
    hide Rotl, Xor;
    var a, b := Rotl(x, 9), Rotl(x, 17);
    Turns9And17(x);
    Turn9By17(x);
    Turn17By9(x);
    Spread9(Xor(x, a), b);
    Spread9(x, a);
    Spread17(Xor(x, a), b);
    Spread17(x, a);
    SquareStep(x, 9, 17, 18, 26, 2);
  }

  lemma P0Fourth(x: Word)
    ensures Tri(Tri(x, 18, 2), 18, 2) == x
  {
    hide Rotl, Xor;
    var a, b := Rotl(x, 18), Rotl(x, 2);
    Turns18And2(x);
    Turn18By2(x);
    Turn2By18(x);
    Spread18(Xor(x, a), b);
    Spread18(x, a);
    Spread2(Xor(x, a), b);
    Spread2(x, a);
    SquareStep(x, 18, 2, 4, 20, 4);
    XorCancel(x, Rotl(x, 4));
  }

  lemma P1Square(x: Word)
    ensures Tri(Tri(x, 15, 23), 15, 23) == Tri(x, 30, 14)
  {
    hide Rotl, Xor;
    var a, b := Rotl(x, 15), Rotl(x, 23);
    Turns15And23(x);
    Turn15By23(x);
    Turn23By15(x);
    Spread15(Xor(x, a), b);
    Spread15(x, a);
    Spread23(Xor(x, a), b);
    Spread23(x, a);
    SquareStep(x, 15, 23, 30, 6, 14);
  }

  lemma P1Fourth(x: Word)
    ensures Tri(Tri(x, 30, 14), 30, 14) == x
  {
    hide Rotl, Xor;
    var a, b := Rotl(x, 30), Rotl(x, 14);
    Turns30And14(x);
    Turn30By14(x);
    Turn14By30(x);
    Spread30(Xor(x, a), b);
    Spread30(x, a);
    Spread14(Xor(x, a), b);
    Spread14(x, a);
    SquareStep(x, 30, 14, 28, 12, 28);
    XorCancel(x, Rotl(x, 28));
  }

  /** Applied four times, P0 is the identity. */
  lemma P0FourTimes(x: Word)
    ensures P0(P0(P0(P0(x)))) == x
  {
    hide Rotl, Xor;
    P0Square(x);
    P0Square(P0(P0(x)));
    P0Fourth(x);
  }

  /** Applied four times, P1 is the identity. */
  lemma P1FourTimes(x: Word)
    ensures P1(P1(P1(P1(x)))) == x
  {
    hide Rotl, Xor;
    P1Square(x);
    P1Square(P1(P1(x)));
    P1Fourth(x);
  }

  function P0Back(x: Word): Word {
    P0(P0(P0(x)))
  }

  function P1Back(x: Word): Word {
    P1(P1(P1(x)))
  }

  // ---------------------------------------------------------------- message expansion

  type Block = b: seq<Word> | |b| == 16 witness seq(16, _ => 0)

  /** Expanded word `j` from the sixteen before it. */
  function Expanded(w16: Word, w13: Word, w9: Word, w6: Word, w3: Word): Word {
    Xor(Xor(P1(Xor(Xor(w16, w9), Rotl(w3, 15))), Rotl(w13, 7)), w6)
  }

  /** The word sixteen back, from word `j` and the fifteen between. */
  function ExpandedBack(w: Word, w13: Word, w9: Word, w6: Word, w3: Word): Word {
    Xor(Xor(P1Back(Xor(Xor(w, w6), Rotl(w13, 7))), Rotl(w3, 15)), w9)
  }

  lemma ExpandedInverse(w16: Word, w13: Word, w9: Word, w6: Word, w3: Word)
    ensures ExpandedBack(Expanded(w16, w13, w9, w6, w3), w13, w9, w6, w3) == w16
  {
    hide Xor, Rotl, P1;
    var x := Xor(Xor(w16, w9), Rotl(w3, 15));
    XorCancel(Xor(P1(x), Rotl(w13, 7)), w6);
    XorCancel(P1(x), Rotl(w13, 7));
    P1FourTimes(x);
    XorCancel(Xor(w16, w9), Rotl(w3, 15));
    XorCancel(w16, w9);
  }

  function Expand(b: Block, n: nat): (w: seq<Word>)
    requires 16 <= n
    ensures |w| == n
  {
    if n == 16 then b
    else
      var w := Expand(b, n - 1);
      w + [Expanded(w[n - 17], w[n - 14], w[n - 10], w[n - 7], w[n - 4])]
  }

  lemma {:induction false} ExpandFollows(b: Block, n: nat, j: nat)
    requires 16 <= j < n
    ensures var w := Expand(b, n); w[j] == Expanded(w[j - 16], w[j - 13], w[j - 9], w[j - 6], w[j - 3])
  {
    hide Expanded;
    if j < n - 1 {
      ExpandFollows(b, n - 1, j);
    }
  }

  lemma {:induction false} ExpandStart(b: Block, n: nat)
    requires 16 <= n
    ensures Expand(b, n)[..16] == b
  {
    hide Expanded;
    if n > 16 {
      ExpandStart(b, n - 1);
    }
  }

  /** Steps sixteen consecutive expanded words, the first of them number `j`, back to the message block. */
  function RecoverBlock(w: Block, j: nat): Block
    decreases j
  {
    if j == 0 then w
    else RecoverBlock([ExpandedBack(w[15], w[2], w[6], w[9], w[12])] + w[..15], j - 1)
  }

  /** Any sixteen consecutive expanded words give back the message block, hence all sixty-eight. */
  lemma {:induction false} WindowRecoversBlock(b: Block, n: nat, j: nat)
    requires j + 16 <= n
    ensures RecoverBlock(Expand(b, n)[j..j + 16], j) == b
    decreases j
  {
    hide Expanded, ExpandedBack, Expand;
    var w := Expand(b, n);
    if j == 0 {
      ExpandStart(b, n);
    } else {
      ExpandFollows(b, n, j + 15);
      ExpandedInverse(w[j - 1], w[j + 2], w[j + 6], w[j + 9], w[j + 12]);
      MoveWindow(w, j);
      WindowRecoversBlock(b, n, j - 1);
    }
  }

  lemma MoveWindow(w: seq<Word>, j: nat)
    requires 0 < j && j + 16 <= |w|
    requires ExpandedBack(w[j + 15], w[j + 2], w[j + 6], w[j + 9], w[j + 12]) == w[j - 1]
    ensures var v: Block := w[j..j + 16];
            [ExpandedBack(v[15], v[2], v[6], v[9], v[12])] + v[..15] == w[j - 1..j + 15]
  {
    hide ExpandedBack;
    var v := w[j..j + 16];
    assert v[15] == w[j + 15] && v[2] == w[j + 2] && v[6] == w[j + 6] && v[9] == w[j + 9] && v[12] == w[j + 12];
    assert [w[j - 1]] + v[..15] == w[j - 1..j + 15];
  }

  lemma WindowDeterminesWords(b: Block, b': Block, j: nat)
    requires j + 16 <= 68
    requires Expand(b, 68)[j..j + 16] == Expand(b', 68)[j..j + 16]
    ensures b == b' && Expand(b, 68) == Expand(b', 68)
  {
    WindowRecoversBlock(b, 68, j);
    WindowRecoversBlock(b', 68, j);
  }

  // ---------------------------------------------------------------- the compression rounds

  datatype State = State(a: Word, b: Word, c: Word, d: Word, e: Word, f: Word, g: Word, h: Word)

  function FF(x: Word, y: Word, z: Word, j: nat): Word {
    if j < 16 then Xor(Xor(x, y), z) else Or(Or(And(x, y), And(x, z)), And(y, z))
  }

  function GG(x: Word, y: Word, z: Word, j: nat): Word {
    if j < 16 then Xor(Xor(x, y), z) else Or(And(x, y), And(Not(x), z))
  }

  lemma MajorityAgreed(x: Word, y: Word, z: Word)
    ensures And(Or(Or(And(x, y), And(x, z)), And(y, z)), Not(Xor(x, y))) == And(x, Not(Xor(x, y)))
  {
  }

  lemma MajorityDecided(x: Word, y: Word, z: Word)
    ensures And(Or(Or(And(x, y), And(x, z)), And(y, z)), Xor(x, y)) == And(z, Xor(x, y))
  {
  }

  lemma ChoiceSet(x: Word, y: Word, z: Word)
    ensures And(Or(And(x, y), And(Not(x), z)), x) == And(y, x)
  {
  }

  lemma ChoiceClear(x: Word, y: Word, z: Word)
    ensures And(Or(And(x, y), And(Not(x), z)), Not(x)) == And(z, Not(x))
  {
  }

  /** From round 16 on FF is the bitwise majority: where x and y agree it is theirs, elsewhere z decides. */
  lemma Majority(x: Word, y: Word, z: Word, j: nat)
    requires 16 <= j
    ensures And(FF(x, y, z, j), Not(Xor(x, y))) == And(x, Not(Xor(x, y)))
    ensures And(FF(x, y, z, j), Xor(x, y)) == And(z, Xor(x, y))
  {
    hide And, Or, Xor, Not;
    MajorityAgreed(x, y, z);
    MajorityDecided(x, y, z);
  }

  /** From round 16 on GG is the bitwise choice: y where x is set, z elsewhere. */
  lemma Choice(x: Word, y: Word, z: Word, j: nat)
    requires 16 <= j
    ensures And(GG(x, y, z, j), x) == And(y, x)
    ensures And(GG(x, y, z, j), Not(x)) == And(z, Not(x))
  {
    hide And, Or, Xor, Not;
    ChoiceSet(x, y, z);
    ChoiceClear(x, y, z);
  }

  /** The round constant, already rotated by the round number. */
  function TJ(j: nat): Word
    requires j < 64
  {
    Rotl(if j < 16 then 0x79CC4519 else 0x7A879D8A, j as bv8)
  }

  function SS1(a: Word, e: Word, j: nat): Word
    requires j < 64
  {
    Rotl(Add(Add(Rotl(a, 12), e), TJ(j)), 7)
  }

  function Round(s: State, j: nat, w: Word, w1: Word): State
    requires j < 64
  {
    var ss1 := SS1(s.a, s.e, j);
    var ss2 := Xor(ss1, Rotl(s.a, 12));
    var tt1 := Add(Add(Add(FF(s.a, s.b, s.c, j), s.d), ss2), w1);
    var tt2 := Add(Add(Add(GG(s.e, s.f, s.g, j), s.h), ss1), w);
    State(tt1, s.a, Rotl(s.b, 9), s.c, P0(tt2), s.e, Rotl(s.f, 19), s.g)
  }

  function RoundBack(s: State, j: nat, w: Word, w1: Word): State
    requires j < 64
  {
    var a, b, c := s.b, Rotl(s.c, 23), s.d;
    var e, f, g := s.f, Rotl(s.g, 13), s.h;
    var ss1 := SS1(a, e, j);
    var ss2 := Xor(ss1, Rotl(a, 12));
    var d := Sub(Sub(Sub(s.a, w1), ss2), FF(a, b, c, j));
    var h := Sub(Sub(Sub(P0Back(s.e), w), ss1), GG(e, f, g, j));
    State(a, b, c, d, e, f, g, h)
  }

  lemma AddSubFirst(p: Word, q: Word)
    ensures Sub(Add(p, q), p) == q
    ensures Add(p, Sub(q, p)) == q
  {
    hide Sub, Add;
    AddComm(p, q);
    AddSub(q, p);
    AddComm(p, Sub(q, p));
    SubAdd(p, q);
  }

  lemma SumsUndone(p: Word, q: Word, r: Word, t: Word)
    ensures Sub(Sub(Sub(Add(Add(Add(p, q), r), t), t), r), p) == q
    ensures Add(Add(Add(p, Sub(Sub(Sub(q, t), r), p)), r), t) == q
  {
    hide Sub, Add;
    AddSub(Add(Add(p, q), r), t);
    AddSub(Add(p, q), r);
    AddSubFirst(p, q);
    AddSubFirst(p, Sub(Sub(q, t), r));
    SubAdd(r, Sub(q, t));
    SubAdd(t, q);
  }

  lemma RoundThenBack(s: State, j: nat, w: Word, w1: Word)
    requires j < 64
    ensures RoundBack(Round(s, j, w, w1), j, w, w1) == s
  {
    hide Xor, Rotl, Add, Sub, FF, GG, SS1, P0;
    var ss1 := SS1(s.a, s.e, j);
    Rotl9Rotl23(s.b);
    Rotl19Rotl13(s.f);
    SumsUndone(FF(s.a, s.b, s.c, j), s.d, Xor(ss1, Rotl(s.a, 12)), w1);
    SumsUndone(GG(s.e, s.f, s.g, j), s.h, ss1, w);
    P0FourTimes(Add(Add(Add(GG(s.e, s.f, s.g, j), s.h), ss1), w));
  }

  lemma BackThenRound(s: State, j: nat, w: Word, w1: Word)
    requires j < 64
    ensures Round(RoundBack(s, j, w, w1), j, w, w1) == s
  {
    hide Xor, Rotl, Add, Sub, FF, GG, SS1, P0;
    var r := RoundBack(s, j, w, w1);
    var ss1 := SS1(r.a, r.e, j);
    Rotl9Rotl23(s.c);
    Rotl19Rotl13(s.g);
    SumsUndone(FF(r.a, r.b, r.c, j), s.a, Xor(ss1, Rotl(r.a, 12)), w1);
    SumsUndone(GG(r.e, r.f, r.g, j), P0Back(s.e), ss1, w);
    P0FourTimes(s.e);
  }

  /** Rounds 0 to n - 1 with the expanded words `w`; the second word of a round is w[j] xor w[j + 4]. */
  function Rounds(s: State, w: seq<Word>, n: nat): State
    requires n <= 64 && |w| == 68
  {
    if n == 0 then s else Round(Rounds(s, w, n - 1), n - 1, w[n - 1], Xor(w[n - 1], w[n + 3]))
  }

  function RoundsBack(s: State, w: seq<Word>, n: nat): State
    requires n <= 64 && |w| == 68
    decreases n
  {
    if n == 0 then s else RoundsBack(RoundBack(s, n - 1, w[n - 1], Xor(w[n - 1], w[n + 3])), w, n - 1)
  }

  /** For every message block the round loop is a permutation of the state, with `RoundsBack` its inverse. */
  lemma {:induction false} RoundsInverse(s: State, w: seq<Word>, n: nat)
    requires n <= 64 && |w| == 68
    ensures RoundsBack(Rounds(s, w, n), w, n) == s
    ensures Rounds(RoundsBack(s, w, n), w, n) == s
    decreases n
  {
    hide Round, RoundBack, Xor;
    if n > 0 {
      var j := n - 1;
      RoundThenBack(Rounds(s, w, j), j, w[j], Xor(w[j], w[j + 4]));
      BackThenRound(s, j, w[j], Xor(w[j], w[j + 4]));
      RoundsInverse(s, w, j);
      RoundsInverse(RoundBack(s, j, w[j], Xor(w[j], w[j + 4])), w, j);
    }
  }

  // ---------------------------------------------------------------- compression

  function ReadBe32(s: seq<byte>, off: nat): Word
    requires off + 4 <= |s|
  {
    (s[off] as bv32 << 24) | (s[off + 1] as bv32 << 16) | (s[off + 2] as bv32 << 8) | s[off + 3] as bv32
  }

  function Be32Bytes(v: Word): (r: seq<byte>)
    ensures |r| == 4
  {
    [((v >> 24) & 0xFF) as byte, ((v >> 16) & 0xFF) as byte, ((v >> 8) & 0xFF) as byte, (v & 0xFF) as byte]
  }

  function BlockAt(s: seq<byte>, off: nat): Block
    requires off + 64 <= |s|
  {
    hide ReadBe32;
    seq(16, i requires 0 <= i < 16 => ReadBe32(s, off + i * 4))
  }

  function StateOf(v: seq<Word>): State
    requires |v| == 8
  {
    State(v[0], v[1], v[2], v[3], v[4], v[5], v[6], v[7])
  }

  function Feed(v: State, s: State): State {
    State(Xor(v.a, s.a), Xor(v.b, s.b), Xor(v.c, s.c), Xor(v.d, s.d),
          Xor(v.e, s.e), Xor(v.f, s.f), Xor(v.g, s.g), Xor(v.h, s.h))
  }

  /** The compression function of section 5.3. */
  function CF(v: State, b: Block): State {
    Feed(v, Rounds(v, Expand(b, 68), 64))
  }

  /** Blocks that bring the same chaining value to the same result do so through the same final state. */
  lemma FeedCancels(v: State, s: State, t: State)
    requires Feed(v, s) == Feed(v, t)
    ensures s == t
  {
    hide Xor;
    FeedBack(v, s);
    FeedBack(v, t);
  }

  lemma FeedBack(v: State, s: State)
    ensures Feed(v, Feed(v, s)) == s
  {
    hide Xor;
    XorTwice(v.a, s.a);
    XorTwice(v.b, s.b);
    XorTwice(v.c, s.c);
    XorTwice(v.d, s.d);
    XorTwice(v.e, s.e);
    XorTwice(v.f, s.f);
    XorTwice(v.g, s.g);
    XorTwice(v.h, s.h);
  }

  lemma XorTwice(a: Word, b: Word)
    ensures Xor(a, Xor(a, b)) == b
  {
    hide Xor;
    XorComm(a, b);
    XorCancel(b, a);
    XorComm(a, Xor(b, a));
  }

  method LoadBlock(block: seq<byte>, off: nat) returns (w: array<Word>)
    requires off + 64 <= |block|
    ensures fresh(w) && w.Length == 68 && w[..16] == BlockAt(block, off)
  {
    hide ReadBe32;
    w := new Word[68];
    for i := 0 to 16
      invariant w[..i] == BlockAt(block, off)[..i]
    {
      w[i] := ReadBe32(block, off + i * 4);
    }
    assert BlockAt(block, off)[..16] == BlockAt(block, off);
  }

  lemma ExpandStep(b: Block, j: nat)
    requires 16 <= j
    ensures var w := Expand(b, j);
            Expand(b, j + 1) == w + [Expanded(w[j - 16], w[j - 13], w[j - 9], w[j - 6], w[j - 3])]
  {
    hide Expanded;
  }

  method ExpandBlock(block: seq<byte>, off: nat) returns (w: array<Word>)
    requires off + 64 <= |block|
    ensures fresh(w) && w[..] == Expand(BlockAt(block, off), 68)
  {
    hide Expanded, BlockAt;
    w := LoadBlock(block, off);
    ghost var b := BlockAt(block, off);
    assert Expand(b, 16) == b;
    hide Expand;
    for j := 16 to 68
      invariant w[..j] == Expand(b, j)
    {
      ghost var before := w[..j];
      ExpandStep(b, j);
      assert before[j - 16] == w[j - 16] && before[j - 13] == w[j - 13] && before[j - 9] == w[j - 9];
      assert before[j - 6] == w[j - 6] && before[j - 3] == w[j - 3];
      var next := Expanded(w[j - 16], w[j - 13], w[j - 9], w[j - 6], w[j - 3]);
      w[j] := next;
      assert w[..j + 1] == before + [next];
    }
    assert w[..] == w[..68];
  }

  method RunRounds(v: State, w: seq<Word>, w1: seq<Word>) returns (s: State)
    requires |w| == 68 && |w1| == 64 && forall j :: 0 <= j < 64 ==> w1[j] == Xor(w[j], w[j + 4])
    ensures s == Rounds(v, w, 64)
  {
    hide Xor, Rotl, Add, FF, GG, SS1, P0;
    var a, b, c, d := v.a, v.b, v.c, v.d;
    var e, f, g, h := v.e, v.f, v.g, v.h;
    for j := 0 to 64
      invariant State(a, b, c, d, e, f, g, h) == Rounds(v, w, j)
    {
      var ss1 := SS1(a, e, j);
      var ss2 := Xor(ss1, Rotl(a, 12));
      var tt1 := Add(Add(Add(FF(a, b, c, j), d), ss2), w1[j]);
      var tt2 := Add(Add(Add(GG(e, f, g, j), h), ss1), w[j]);
      d := c;
      c := Rotl(b, 9);
      b := a;
      a := tt1;
      h := g;
      g := Rotl(f, 19);
      f := e;
      e := P0(tt2);
    }
    s := State(a, b, c, d, e, f, g, h);
  }

  method SecondWords(w: seq<Word>) returns (w1: array<Word>)
    requires |w| == 68
    ensures fresh(w1) && w1.Length == 64
    ensures forall j :: 0 <= j < 64 ==> w1[j] == Xor(w[j], w[j + 4])
  {
    hide Xor;
    w1 := new Word[64];
    for j := 0 to 64
      invariant forall k :: 0 <= k < j ==> w1[k] == Xor(w[k], w[k + 4])
    {
      w1[j] := Xor(w[j], w[j + 4]);
    }
  }

  method Cf(v: array<Word>, block: seq<byte>, off: nat)
    requires v.Length == 8 && off + 64 <= |block|
    modifies v
    ensures StateOf(v[..]) == CF(old(StateOf(v[..])), BlockAt(block, off))
  {
    hide Xor, Expand, BlockAt, Feed, Rounds;
    var w := ExpandBlock(block, off);
    var w1 := SecondWords(w[..]);
    var s := RunRounds(StateOf(v[..]), w[..], w1[..]);
    FeedInto(v, s);
  }

  method FeedInto(v: array<Word>, s: State)
    requires v.Length == 8
    modifies v
    ensures StateOf(v[..]) == Feed(old(StateOf(v[..])), s)
  {
    hide Xor;
    v[0], v[1], v[2], v[3] := Xor(v[0], s.a), Xor(v[1], s.b), Xor(v[2], s.c), Xor(v[3], s.d);
    v[4], v[5], v[6], v[7] := Xor(v[4], s.e), Xor(v[5], s.f), Xor(v[6], s.g), Xor(v[7], s.h);
  }

  // ---------------------------------------------------------------- padding

  /** The number of zero bytes of section 5.2: the least that leaves 56 modulo 64. */
  function ZeroCount(len: nat): (k: nat)
    ensures k < 64 && (len + 1 + k) % 64 == 56
  {
    (119 - len % 64) % 64
  }

  lemma ZeroCountLeast(len: nat, k: nat)
    requires (len + 1 + k) % 64 == 56
    ensures ZeroCount(len) <= k
  {
  }

  function Pad(msg: seq<byte>): (r: seq<byte>)
    ensures |r| == |msg| + 9 + ZeroCount(|msg|)
  {
    msg + [0x80] + Zeros(ZeroCount(|msg|)) + BeBytes(8 * |msg|, 8)
  }

  lemma WholeBlocks(len: nat, n: nat)
    ensures (len + 9 + ZeroCount(len)) % 64 == 0
    ensures n % 64 == 0 && len + 9 <= n ==> len + 9 + ZeroCount(len) <= n
  {
    var q := (len + 1 + ZeroCount(len)) / 64;
    assert len + 9 + ZeroCount(len) == 64 * (q + 1);
    hide ZeroCount;
    if n % 64 == 0 && len + 9 <= n {
      assert n - 8 == 64 * (n / 64 - 1) + 56;
      ZeroCountLeast(len, n - len - 9);
    }
  }

  /** The padded message is the shortest run of whole blocks with room for the message, the mark and the length. */
  lemma PadIsShortest(msg: seq<byte>, n: nat)
    ensures |Pad(msg)| % 64 == 0 && |msg| + 9 <= |Pad(msg)|
    ensures n % 64 == 0 && |msg| + 9 <= n ==> |Pad(msg)| <= n
  {
    WholeBlocks(|msg|, n);
    hide *;
  }

  const BITS: nat := 0x2000_0000_0000_0000

  lemma LengthField(msg: seq<byte>)
    requires |msg| < BITS
    ensures BeValue(Pad(msg)[|Pad(msg)| - 8..]) == 8 * |msg|
  {
    assert Pow(256, 8) == 256 * 256 * 256 * 256 * Pow(256, 4);
    assert Pow(256, 4) == 256 * 256 * 256 * 256;
    BeValueBytes(8 * |msg|, 8);
    hide BeValue, BeBytes, ZeroCount, Pow;
    assert Pad(msg)[|Pad(msg)| - 8..] == BeBytes(8 * |msg|, 8);
  }

  /** Different messages are padded differently. */
  lemma PadInjective(a: seq<byte>, b: seq<byte>)
    requires |a| < BITS && |b| < BITS
    ensures Pad(a) == Pad(b) ==> a == b
  {
    LengthField(a);
    LengthField(b);
    hide BeValue, BeBytes, ZeroCount;
    assert Pad(a)[..|a|] == a && Pad(b)[..|b|] == b;
  }

  // ---------------------------------------------------------------- the hash

  const IV: State := State(0x7380166F, 0x4914B2B9, 0x172442D7, 0xDA8A0600,
                           0xA96F30BC, 0x163138AA, 0xE38DEE4D, 0xB0FB0E4E)

  /** The chaining value after the first `n` blocks (section 5.3). */
  function Chain(m: seq<byte>, n: nat): State
    requires 64 * n <= |m|
  {
    if n == 0 then IV else CF(Chain(m, n - 1), BlockAt(m, 64 * (n - 1)))
  }

  function StateBytes(v: State): (r: seq<byte>)
    ensures |r| == 32
  {
    Be32Bytes(v.a) + Be32Bytes(v.b) + Be32Bytes(v.c) + Be32Bytes(v.d)
    + Be32Bytes(v.e) + Be32Bytes(v.f) + Be32Bytes(v.g) + Be32Bytes(v.h)
  }

  function Digest(msg: seq<byte>): (r: seq<byte>)
    ensures |r| == 32
  {
    StateBytes(Chain(Pad(msg), |Pad(msg)| / 64))
  }

  /** The code's arithmetic for the start of the length field. */
  function LengthStart(len: nat): nat {
    var reserve := len % 64 + 1;
    var rangeEnd := if reserve > 56 then 56 + 64 else 56;
    len + 1 + (rangeEnd - reserve)
  }

  lemma LengthStartIs(len: nat)
    ensures LengthStart(len) == len + 1 + ZeroCount(len)
  {
  }

  /** Appends the 64-bit length, the high byte first. */
  method AppendLength(m: array<byte>, start: nat, bitLen: nat) returns (total: nat)
    requires start + 8 <= m.Length
    modifies m
    ensures total == start + 8
    ensures m[..total] == old(m[..start]) + BeBytes(bitLen, 8)
  {
    ghost var head, field := m[..start], BeBytes(bitLen, 8);
    total := start;
    for k := 0 to 8
      invariant total == start + k
      invariant m[..total] == head + field[..k]
    {
      ShiftByteIs(bitLen, 8, 7 - k);
      hide *;
      var b := ShiftByte(bitLen, 7 - k);
      m[total] := b;
      total := total + 1;
      assert field[..k + 1] == field[..k] + [b];
    }
    assert field[..8] == field;
  }

  /** The message and the bit after it, in a zeroed buffer. */
  method CopyMessage(msg: seq<byte>, total: nat) returns (m: array<byte>)
    requires |msg| < total
    ensures fresh(m) && m.Length == total + 64
    ensures m[..total] == msg + [0x80] + Zeros(total - |msg| - 1)
  {
    m := new byte[total + 64](_ => 0);
    CopyInto(m, 0, msg);
    m[|msg|] := 0x80;
  }

  /** Builds the padded message in a zeroed buffer of 64 spare bytes; no write leaves the buffer. */
  method BuildPadded(msg: seq<byte>) returns (m: array<byte>, total: nat)
    ensures fresh(m) && total <= m.Length && m[..total] == Pad(msg)
  {
    LengthStartIs(|msg|);
    total := LengthStart(|msg|);
    hide LengthStart, ZeroCount, BeBytes;
    m := CopyMessage(msg, total);
    total := AppendLength(m, total, |msg| * 8);
  }

  method ChainBlocks(m: seq<byte>, blocks: nat) returns (v: State)
    requires 64 * blocks <= |m|
    ensures v == Chain(m, blocks)
  {
    var va := new Word[] [IV.a, IV.b, IV.c, IV.d, IV.e, IV.f, IV.g, IV.h];
    assert StateOf(va[..]) == IV;
    hide StateOf;
    for i := 0 to blocks
      invariant StateOf(va[..]) == Chain(m, i)
    {
      hide CF, BlockAt;
      Cf(va, m, 64 * i);
    }
    v := StateOf(va[..]);
  }

  method DigestBytes(msg: seq<byte>) returns (bytes: seq<byte>)
    ensures |bytes| == 32 && bytes == Digest(msg)
  {
    hide Pad, Chain, StateBytes;
    var m, total := BuildPadded(msg);
    assert m[..total] == Pad(msg) && total == |Pad(msg)|;
    var v := ChainBlocks(m[..total], total / 64);
    bytes := StateBytes(v);
  }

  /** The int arithmetic of the padding holds a message of this length. */
  predicate Hashable(len: nat) {
    len + 1 + ZeroCount(len) <= 0x7FFF_FFFF
  }

  /** For every length the C int arithmetic can hold, the digest is the fold of the compression function over
      the padded blocks. */
  method Sm3Hash(msg: seq<byte>, out: array<byte>)
    requires Hashable(|msg|)
    requires out.Length == 32
    modifies out
    ensures out[..] == Digest(msg)
  {
    hide *;
    var bytes := DigestBytes(msg);
    CopyInto(out, 0, bytes);
    assert out[..] == bytes;
  }
}
