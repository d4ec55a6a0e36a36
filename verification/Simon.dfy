/** SIMON128/256 (src/simon.c; section 3 of IACR ePrint 2013/404). */
module Simon {
  import opened Bytes
  import opened Words64
  import R = Rounds

  const ROUNDS := 72

  // A block's `x` is pt[0], the paper's right word; its `y` is pt[1], the paper's left word.

  // ---------------------------------------------------------------- rounds

  function F(y: Word): Word {
    Xor(And(Rol(y, 1), Rol(y, 8)), Rol(y, 2))
  }

  function Round(b: Block, k: Word): Block {
    Block(b.y, Xor(b.x, Xor(F(b.y), k)))
  }

  function RoundBack(b: Block, k: Word): Block {
    Block(Xor(b.y, Xor(F(b.x), k)), b.x)
  }

  lemma RoundInverse(b: Block, k: Word)
    ensures RoundBack(Round(b, k), k) == b
    ensures Round(RoundBack(b, k), k) == b
  {
    hide F, Xor;
    XorCancel(b.x, Xor(F(b.y), k));
    XorCancel(b.y, Xor(F(b.x), k));
  }

  lemma RoundsInverse()
    ensures R.Inverse(Round, RoundBack)
  {
    hide Round, RoundBack;
    forall b, k
      ensures RoundBack(Round(b, k), k) == b && Round(RoundBack(b, k), k) == b
    {
      RoundInverse(b, k);
    }
  }

  // ---------------------------------------------------------------- key schedule

  type MasterKey = k: seq<Word> | |k| == 4 witness [0, 0, 0, 0]

  const Z: Word := 0x3DC94C3A046D678B

  function GetBit(v: Word, pos: byte): Word
    requires pos < 64
  {
    (v >> pos) & 1
  }

  lemma PlaceFits(n: nat)
    requires n < 64
    ensures ToByte(n) < 64
  {
  }

  /** The bit of the constant sequence that enters round key `i`. */
  function ZBit(i: nat): Word
    requires 4 <= i
  {
    PlaceFits((i - 4) % 62);
    GetBit(Z, ToByte((i - 4) % 62))
  }

  /** The paper's round constant c = 2^64 - 4. */
  const C: Word := 0xFFFF_FFFF_FFFF_FFFC

  /** What a round key adds to the key four back, in the paper's terms: the constants, and (I + S^-1)
      applied to S^-3 of the previous key plus the key three back. */
  function Mix(threeBack: Word, oneBack: Word, z: Word): Word {
    var t := Xor(Ror(oneBack, 3), threeBack);
    Xor(Xor(C, z), Xor(t, Ror(t, 1)))
  }

  /** Round key `i` of `ks` follows from the four before it. */
  ghost predicate Follows(ks: seq<Word>, i: nat) {
    4 <= i < |ks| && ks[i] == Xor(ks[i - 4], Mix(ks[i - 3], ks[i - 1], ZBit(i)))
  }

  function Schedule(k: MasterKey, n: nat): (ks: seq<Word>)
    requires 4 <= n
    ensures |ks| == n
  {
    if n == 4 then k
    else
      var ks := Schedule(k, n - 1);
      ks + [Xor(ks[n - 5], Mix(ks[n - 4], ks[n - 2], ZBit(n - 1)))]
  }

  lemma {:induction false} ScheduleFollows(k: MasterKey, n: nat, i: nat)
    requires 4 <= i < n
    ensures Follows(Schedule(k, n), i)
  {
    hide Mix, Xor, ZBit;
    if i < n - 1 {
      ScheduleFollows(k, n - 1, i);
    }
  }

  lemma {:induction false} ScheduleStart(k: MasterKey, n: nat)
    requires 4 <= n
    ensures Schedule(k, n)[..4] == k
  {
    hide Mix, Xor, ZBit;
    if n > 4 {
      ScheduleStart(k, n - 1);
    }
  }

  function RoundKeys(k: MasterKey): (ks: seq<Word>)
    ensures |ks| == ROUNDS
  {
    Schedule(k, ROUNDS)
  }

  /** Steps four consecutive round keys, the first of them number `j`, back to the master key. */
  function RecoverMaster(w: MasterKey, j: nat): MasterKey
    decreases j
  {
    if j == 0 then w
    else RecoverMaster([Xor(w[3], Mix(w[0], w[2], ZBit(j + 3))), w[0], w[1], w[2]], j - 1)
  }

  lemma StepBack(k: MasterKey, n: nat, i: nat)
    requires 4 <= i < n
    ensures var ks := Schedule(k, n); ks[i - 4] == Xor(ks[i], Mix(ks[i - 3], ks[i - 1], ZBit(i)))
  {
    ScheduleFollows(k, n, i);
    hide Schedule, Mix, Xor, ZBit;
    var ks := Schedule(k, n);
    XorCancel(ks[i - 4], Mix(ks[i - 3], ks[i - 1], ZBit(i)));
  }

  /** Any four consecutive round keys give back the master key, hence all seventy-two. */
  lemma {:induction false} WindowRecoversMaster(k: MasterKey, n: nat, j: nat)
    requires j + 4 <= n
    ensures RecoverMaster(Schedule(k, n)[j..j + 4], j) == k
    decreases j
  {
    hide Mix, Xor, ZBit, Schedule;
    var ks := Schedule(k, n);
    if j > 0 {
      StepBack(k, n, j + 3);
      WindowRecoversMaster(k, n, j - 1);
      assert ks[j - 1..j + 3] == [ks[j - 1], ks[j], ks[j + 1], ks[j + 2]];
    } else {
      ScheduleStart(k, n);
    }
  }

  lemma WindowDeterminesSchedule(k: MasterKey, k': MasterKey, j: nat)
    requires j + 4 <= ROUNDS
    requires RoundKeys(k)[j..j + 4] == RoundKeys(k')[j..j + 4]
    ensures k == k' && RoundKeys(k) == RoundKeys(k')
  {
    WindowRecoversMaster(k, ROUNDS, j);
    WindowRecoversMaster(k', ROUNDS, j);
  }

  /** One step of the code, which folds the complement and the constant 3 where the paper adds its constant c. */
  function NextKey(fourBack: Word, threeBack: Word, oneBack: Word, z: Word): Word {
    var tmp := Ror(oneBack, 3);
    var tmp := Xor(tmp, threeBack);
    var tmp := Xor(tmp, Ror(tmp, 1));
    Xor(Xor(Xor(Not(fourBack), tmp), z), 3)
  }

  lemma ComplementIsConstant(a: Word, z: Word, t: Word)
    ensures Xor(Xor(Xor(Not(a), t), z), 3) == Xor(a, Xor(Xor(C, z), t))
  {
  }

  lemma NextKeyIsPaper(fourBack: Word, threeBack: Word, oneBack: Word, z: Word)
    ensures NextKey(fourBack, threeBack, oneBack, z) == Xor(fourBack, Mix(threeBack, oneBack, z))
  {
    var t := Xor(Ror(oneBack, 3), threeBack);
    ComplementIsConstant(fourBack, z, Xor(t, Ror(t, 1)));
    hide Ror, Xor, Not;
  }

  lemma NextKeyExtends(k: MasterKey, i: nat)
    requires 4 <= i
    ensures var ks := Schedule(k, i);
            Schedule(k, i + 1) == ks + [NextKey(ks[i - 4], ks[i - 3], ks[i - 1], ZBit(i))]
  {
    var ks := Schedule(k, i);
    hide NextKey, Mix, Xor, ZBit;
    NextKeyIsPaper(ks[i - 4], ks[i - 3], ks[i - 1], ZBit(i));
  }

  method KeyExpansion(key: array<Word>)
    requires key.Length == ROUNDS
    modifies key
    ensures key[..] == RoundKeys(old(key[..4]))
  {
    ghost var master := key[..4];
    for i := 4 to ROUNDS
      invariant key[..i] == Schedule(master, i)
    {
      ghost var before := key[..i];
      NextKeyExtends(master, i);
      hide NextKey, ZBit, Schedule;
      assert before[i - 4] == key[i - 4] && before[i - 3] == key[i - 3] && before[i - 1] == key[i - 1];
      var next := NextKey(key[i - 4], key[i - 3], key[i - 1], ZBit(i));
      key[i] := next;
      assert key[..i + 1] == before + [next];
    }
    assert key[..] == key[..ROUNDS];
  }

  // ---------------------------------------------------------------- the cipher

  function Encrypt(b: Block, k: MasterKey): Block {
    R.Run(Round, b, RoundKeys(k))
  }

  function Decrypt(b: Block, k: MasterKey): Block {
    R.RunBack(RoundBack, b, RoundKeys(k))
  }

  /** For every key the cipher is a permutation of the 128-bit blocks, with `Decrypt` its two-sided inverse. */
  lemma EncryptInverse(b: Block, k: MasterKey)
    ensures Decrypt(Encrypt(b, k), k) == b
    ensures Encrypt(Decrypt(b, k), k) == b
  {
    hide R.Inverse, R.Run, R.RunBack, RoundKeys;
    RoundsInverse();
    R.RunInverse(Round, RoundBack, b, RoundKeys(k));
  }

  /** The new `y` of one round, in the code's grouping. */
  function NextY(x: Word, y: Word, k: Word): Word {
    var f := And(Rol(y, 1), Rol(y, 8));
    Xor(Xor(Xor(x, f), Rol(y, 2)), k)
  }

  lemma NextYIsRound(x: Word, y: Word, k: Word)
    ensures Round(Block(x, y), k) == Block(y, NextY(x, y, k))
  {
    hide Rol, Xor, And;
    var f := And(Rol(y, 1), Rol(y, 8));
    XorAssoc(x, f, Rol(y, 2));
    XorAssoc(x, Xor(f, Rol(y, 2)), k);
  }

  method RunRounds(pt: Block, key: array<Word>) returns (ct: Block)
    requires key.Length == ROUNDS
    ensures ct == R.Run(Round, pt, key[..])
  {
    var x, y := pt.x, pt.y;
    for i := 0 to ROUNDS
      invariant Block(x, y) == R.Run(Round, pt, key[..][..i])
    {
      R.RunStep(Round, pt, key[..], i);
      NextYIsRound(x, y, key[i]);
      hide *;
      x, y := y, NextY(x, y, key[i]);
    }
    assert key[..][..ROUNDS] == key[..];
    ct := Block(x, y);
  }

  method SimonEncrypt(pt: Block, k: MasterKey) returns (ct: Block)
    ensures ct == Encrypt(pt, k)
  {
    var key := new Word[ROUNDS](i => if 0 <= i < 4 then k[i] else 0);
    assert key[..4] == k;
    KeyExpansion(key);
    ct := RunRounds(pt, key);
  }
}
