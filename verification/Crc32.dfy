/** sd-read.ts: the table-driven IEEE CRC-32, against the shift register it stands for. */
module Crc32 {
  import opened Bytes

  const POLYNOMIAL: bv32 := 0xedb8_8320

  // ---------------------------------------------------------------- the shift register

  function Xor(a: bv32, b: bv32): bv32 { a ^ b }

  function Half(w: bv32): bv32 { w >> 1 }

  predicate Odd(w: bv32) { w & 1 == 1 }

  /** One clock of the reflected register with input bit `b`. */
  function Clock(c: bv32, b: bool): bv32 {
    if Odd(c) != b then Xor(POLYNOMIAL, Half(c)) else Half(c)
  }

  /** Bits go in lowest first. */
  function ClockBits(c: bv32, bits: seq<bool>): bv32
    decreases |bits|
  {
    if bits == [] then c else ClockBits(Clock(c, bits[0]), bits[1..])
  }

  function ByteWord(b: byte): bv32 {
    (b as bv8) as bv32
  }

  /** The bits of `w`, lowest first, as many as `n`. */
  function LowBits(w: bv32, n: nat): seq<bool>
    decreases n
  {
    if n == 0 then [] else [Odd(w)] + LowBits(Half(w), n - 1)
  }

  function DataBits(data: seq<byte>): seq<bool> {
    if data == [] then [] else DataBits(data[..|data| - 1]) + LowBits(ByteWord(data[|data| - 1]), 8)
  }

  /** CRC-32 of section 3.2.9 of IEEE 802.3: register preset to ones, fed one bit at a time, inverted. */
  function Crc(data: seq<byte>): nat {
    Inverted(ClockBits(0xffff_ffff, DataBits(data)))
  }

  /** `(crc ^ 0xffffffff) >>> 0` */
  function Inverted(c: bv32): (r: nat)
    ensures r < 0x1_0000_0000
  {
    (c ^ 0xffff_ffff) as nat
  }

  // ---------------------------------------------------------------- a byte at a time

  /** `c & 1 ? 0xedb88320 ^ (c >>> 1) : c >>> 1` */
  function Step(c: bv32): bv32 {
    if Odd(c) then Xor(POLYNOMIAL, Half(c)) else Half(c)
  }

  function Steps(c: bv32, n: nat): bv32
    decreases n
  {
    if n == 0 then c else Steps(Step(c), n - 1)
  }

  function Feed(c: bv32, data: seq<byte>): bv32 {
    if data == [] then c else Steps(Xor(Feed(c, data[..|data| - 1]), ByteWord(data[|data| - 1])), 8)
  }

  /** Xoring a bit into the register before a plain step is clocking that bit in. */
  lemma StepIsClock(c: bv32, w: bv32)
    ensures Step(Xor(c, w)) == Xor(Clock(c, Odd(w)), Half(w))
  {
    XorLaws(c, w);
    XorAssociates(POLYNOMIAL, Half(c), Half(w));
    hide Xor, Half, Odd;
  }

  lemma XorLaws(c: bv32, w: bv32)
    ensures Odd(Xor(c, w)) == (Odd(c) != Odd(w))
    ensures Half(Xor(c, w)) == Xor(Half(c), Half(w))
  {
  }

  lemma XorAssociates(a: bv32, b: bv32, c: bv32)
    ensures Xor(a, Xor(b, c)) == Xor(Xor(a, b), c)
  {
  }

  lemma XorCommutes(a: bv32, b: bv32)
    ensures Xor(a, b) == Xor(b, a)
  {
  }

  lemma XorCancels(a: bv32, b: bv32)
    ensures Xor(a, Xor(a, b)) == b
  {
  }

  lemma {:induction false} StepsAreClocks(c: bv32, w: bv32, n: nat)
    ensures Steps(Xor(c, w), n) == Xor(ClockBits(c, LowBits(w, n)), Shifted(w, n))
    decreases n
  {
    hide Step, Clock, Xor, Half, Odd;
    if n > 0 {
      StepIsClock(c, w);
      var bits := LowBits(w, n);
      assert bits[0] == Odd(w) && bits[1..] == LowBits(Half(w), n - 1);
      StepsAreClocks(Clock(c, Odd(w)), Half(w), n - 1);
    }
  }

  function Shifted(w: bv32, n: nat): bv32
    decreases n
  {
    if n == 0 then w else Shifted(Half(w), n - 1)
  }

  lemma ShiftedByEight(w: bv32)
    ensures Shifted(w, 8) == w >> 8
  {
    HalfTwice(w);
    hide Half;
    assert Shifted(w, 8) == Shifted(w >> 1, 7) == Shifted(w >> 2, 6) == Shifted(w >> 3, 5) == Shifted(w >> 4, 4);
    assert Shifted(w >> 4, 4) == Shifted(w >> 5, 3) == Shifted(w >> 6, 2) == Shifted(w >> 7, 1) == Shifted(w >> 8, 0);
  }

  lemma HalfTwice(w: bv32)
    ensures Half(w) == w >> 1 && Half(w >> 1) == w >> 2 && Half(w >> 2) == w >> 3 && Half(w >> 3) == w >> 4
    ensures Half(w >> 4) == w >> 5 && Half(w >> 5) == w >> 6 && Half(w >> 6) == w >> 7 && Half(w >> 7) == w >> 8
  {
  }

  lemma ByteShiftsOut(b: byte, c: bv32)
    ensures Xor(c, Shifted(ByteWord(b), 8)) == c
  {
    ShiftedByEight(ByteWord(b));
    ByteIsSmall(b as bv8);
  }

  lemma ByteIsSmall(b: bv8)
    ensures (b as bv32) >> 8 == 0
  {
  }

  lemma {:induction false} ClockBitsConcat(c: bv32, a: seq<bool>, b: seq<bool>)
    ensures ClockBits(c, a + b) == ClockBits(ClockBits(c, a), b)
    decreases |a|
  {
    if a == [] {
      assert a + b == b;
    } else {
      assert (a + b)[1..] == a[1..] + b;
      ClockBitsConcat(Clock(c, a[0]), a[1..], b);
    }
  }

  lemma NoClocks(c: bv32)
    ensures ClockBits(c, []) == c
  {
  }

  /** The byte-wise register is the bit-wise one. */
  lemma {:induction false} FeedIsClocking(c: bv32, data: seq<byte>)
    ensures Feed(c, data) == ClockBits(c, DataBits(data))
  {
    if data == [] {
      NoClocks(c);
    } else {
      hide Step, Clock, ByteWord, Shifted, LowBits, Steps, ClockBits, Xor;
      var front, last := data[..|data| - 1], data[|data| - 1];
      FeedIsClocking(c, front);
      ClockBitsConcat(c, DataBits(front), LowBits(ByteWord(last), 8));
      StepsAreClocks(Feed(c, front), ByteWord(last), 8);
      ByteShiftsOut(last, ClockBits(Feed(c, front), LowBits(ByteWord(last), 8)));
    }
  }

  // ---------------------------------------------------------------- the table

  ghost predicate IsCrcTable(t: seq<bv32>) {
    |t| == 256 && forall n: nat :: n < 256 ==> t[n] == Entry(n)
  }

  function Entry(n: nat): bv32
    requires n < 256
  {
    Steps(n as bv32, 8)
  }

  /** `CRC_TABLE` */
  method MakeTable() returns (t: array<bv32>)
    ensures fresh(t) && IsCrcTable(t[..])
  {
    hide Entry;
    t := new bv32[256];
    for n := 0 to 256
      invariant forall m: nat :: m < n ==> t[m] == Entry(m)
    {
      t[n] := TableEntry(n);
    }
  }

  /** The inner loop of the table fill. */
  method TableEntry(n: nat) returns (c: bv32)
    requires n < 256
    ensures c == Entry(n)
  {
    c := n as bv32;
    for k := 0 to 8
      invariant Steps(c, 8 - k) == Entry(n)
    {
      c := if c & 1 == 1 then 0xedb8_8320 ^ (c >> 1) else c >> 1;
    }
  }

  lemma {:induction false} StepsLinear(a: bv32, b: bv32, n: nat)
    ensures Steps(Xor(a, b), n) == Xor(Steps(a, n), Steps(b, n))
    decreases n
  {
    hide Step, Xor;
    if n > 0 {
      StepLinear(a, b);
      StepsLinear(Step(a), Step(b), n - 1);
    }
  }

  lemma StepLinear(a: bv32, b: bv32)
    ensures Step(Xor(a, b)) == Xor(Step(a), Step(b))
  {
    var p, x, y := POLYNOMIAL, Half(a), Half(b);
    XorLaws(a, b);
    XorAssociates(p, x, y);
    XorAssociates(x, p, y);
    XorCommutes(x, p);
    XorAssociates(p, x, Xor(p, y));
    XorCancels(p, y);
    XorCommutes(Xor(p, x), Xor(p, y));
    XorAssociates(x, p, Xor(p, y));
    XorAssociates(Xor(p, x), p, y);
    hide Xor, Half, Odd;
  }

  /** A plain step of an even word is a shift. */
  lemma {:induction false} StepsOfEven(v: bv32, n: nat)
    requires forall k: nat :: k < n ==> !Odd(Shifted(v, k))
    ensures Steps(v, n) == Shifted(v, n)
    decreases n
  {
    if n > 0 {
      EvenStep(v);
      hide Step, Half, Odd;
      assert !Odd(Shifted(v, 0));
      forall k: nat | k < n - 1 ensures !Odd(Shifted(Half(v), k)) { assert !Odd(Shifted(v, k + 1)); }
      StepsOfEven(Half(v), n - 1);
    }
  }

  lemma EvenStep(v: bv32)
    ensures !Odd(v) ==> Step(v) == Half(v)
  {
  }

  /** Eight steps move a word whose low byte is clear down by a byte. */
  lemma StepsOfHigh(v: bv32)
    requires v & 0xff == 0
    ensures Steps(v, 8) == v >> 8
  {
    LowClear(v);
    HalfTwice(v);
    ShiftedByEight(v);
    hide Half, Odd, Step;
    assert Shifted(v, 0) == v && Shifted(v, 1) == v >> 1 && Shifted(v, 2) == v >> 2 && Shifted(v, 3) == v >> 3;
    assert Shifted(v, 4) == Shifted(v >> 4, 0) && Shifted(v, 5) == Shifted(v >> 4, 1)
        && Shifted(v, 6) == Shifted(v >> 4, 2);
    assert Shifted(v, 7) == Shifted(v >> 4, 3) == Shifted(v >> 7, 0);
    StepsOfEven(v, 8);
  }

  lemma LowClear(v: bv32)
    requires v & 0xff == 0
    ensures !Odd(v) && !Odd(v >> 1) && !Odd(v >> 2) && !Odd(v >> 3)
    ensures !Odd(v >> 4) && !Odd(v >> 5) && !Odd(v >> 6) && !Odd(v >> 7)
  {
  }

  function Low(c: bv32): (r: nat)
    ensures r < 256
  {
    (c & 0xff) as int
  }

  function Above(c: bv32): bv32 { c >> 8 }

  /** One table look-up is eight steps of the register. */
  lemma TableLookup(t: seq<bv32>, c: bv32)
    requires IsCrcTable(t)
    ensures Xor(t[Low(c)], Above(c)) == Steps(c, 8)
  {
    var low, high := c & 0xff, c & 0xffff_ff00;
    LowIsLow(c);
    SplitWord(c);
    StepsOfHigh(high);
    hide Steps, Step, Xor, Low, Above;
    StepsLinear(low, high, 8);
    assert t[Low(c)] == Entry(Low(c));
  }

  lemma LowIsLow(c: bv32)
    ensures Low(c) as bv32 == c & 0xff
  {
    WordRoundTrip(c & 0xff);
  }

  lemma WordRoundTrip(x: bv32)
    ensures (x as int) as bv32 == x
  {
  }

  lemma SplitWord(c: bv32)
    ensures Xor(c & 0xff, c & 0xffff_ff00) == c && (c & 0xffff_ff00) & 0xff == 0 && (c & 0xffff_ff00) >> 8 == Above(c)
  {
  }

  /** `crc32Ieee`: the table-driven loop computes the shift-register CRC. */
  method Crc32Ieee(table: array<bv32>, data: seq<byte>) returns (r: nat)
    requires IsCrcTable(table[..])
    ensures r == Crc(data)
  {
    hide Steps, Step, Xor, ByteWord, DataBits, ClockBits, IsCrcTable, Inverted;
    var crc: bv32 := 0xffff_ffff;
    for i := 0 to |data|
      invariant crc == Feed(0xffff_ffff, data[..i])
    {
      crc := NextCrc(table, crc, data[i]);
      assert data[..i + 1][..i] == data[..i];
    }
    assert data[..|data|] == data;
    FeedIsClocking(0xffff_ffff, data);
    r := Inverted(crc);
  }

  /** `CRC_TABLE[(crc ^ data[i]) & 0xff] ^ (crc >>> 8)` */
  method NextCrc(table: array<bv32>, crc: bv32, b: byte) returns (next: bv32)
    requires IsCrcTable(table[..])
    ensures next == Steps(Xor(crc, ByteWord(b)), 8)
  {
    hide Steps, Step, Xor, Low, Above, ByteWord;
    var x := Xor(crc, ByteWord(b));
    TableLookup(table[..], x);
    HighByteUntouched(crc, b);
    next := Xor(table[Low(x)], Above(crc));
  }

  lemma HighByteUntouched(crc: bv32, b: byte)
    ensures Above(Xor(crc, ByteWord(b))) == Above(crc)
  {
    AboveByte(crc, b as bv8);
  }

  lemma AboveByte(crc: bv32, b: bv8)
    ensures (crc ^ (b as bv32)) >> 8 == crc >> 8
  {
  }

  // ---------------------------------------------------------------- bursts are detected

  lemma StepInjective(a: bv32, b: bv32)
    ensures Step(a) == Step(b) ==> a == b
  {
  }

  /** The register forgets nothing: equal later states come from equal states. */
  lemma {:induction false} StepsInjective(a: bv32, b: bv32, n: nat)
    requires Steps(a, n) == Steps(b, n)
    ensures a == b
    decreases n
  {
    if n > 0 {
      StepInjective(a, b);
      hide Step;
      StepsInjective(Step(a), Step(b), n - 1);
    }
  }

  lemma {:induction false} FeedInjective(a: bv32, b: bv32, data: seq<byte>)
    requires Feed(a, data) == Feed(b, data)
    ensures a == b
    decreases |data|
  {
    hide Steps, Xor, ByteWord;
    if data != [] {
      var front, w := data[..|data| - 1], ByteWord(data[|data| - 1]);
      StepsInjective(Xor(Feed(a, front), w), Xor(Feed(b, front), w), 8);
      XorRight(Feed(a, front), Feed(b, front), w);
      FeedInjective(a, b, front);
    }
  }

  lemma XorRight(a: bv32, b: bv32, w: bv32)
    ensures Xor(a, w) == Xor(b, w) ==> a == b
  {
  }

  lemma {:induction false} FeedConcat(c: bv32, a: seq<byte>, b: seq<byte>)
    ensures Feed(c, a + b) == Feed(Feed(c, a), b)
    decreases |b|
  {
    hide Steps, Xor, ByteWord;
    if b == [] {
      assert a + b == a;
    } else {
      assert (a + b)[..|a + b| - 1] == a + b[..|b| - 1];
      FeedConcat(c, a, b[..|b| - 1]);
    }
  }

  /** Up to four bytes as one register word. */
  function Word(bytes: seq<byte>): bv32
    decreases |bytes|
  {
    if bytes == [] then 0 else Xor(ByteWord(bytes[0]), Up(Word(bytes[1..])))
  }

  function Up(w: bv32): bv32 { w << 8 }

  /** `w` has no bit outside its lowest `k` bytes. */
  predicate Fits(w: bv32, k: nat) {
    if k == 0 then w == 0
    else if k == 1 then w >> 8 == 0
    else if k == 2 then w >> 16 == 0
    else k == 3 ==> w >> 24 == 0
  }

  lemma {:induction false} WordFits(bytes: seq<byte>)
    ensures Fits(Word(bytes), |bytes|)
    decreases |bytes|
  {
    if bytes != [] {
      WordFits(bytes[1..]);
      UpFits(bytes[0] as bv8, Word(bytes[1..]), |bytes| - 1);
    }
  }

  lemma UpFits(b: bv8, w: bv32, k: nat)
    requires Fits(w, k)
    ensures Fits(Xor(b as bv32, Up(w)), k + 1)
  {
  }

  lemma UpDown(w: bv32)
    requires w >> 24 == 0
    ensures Up(w) & 0xff == 0 && Up(w) >> 8 == w
  {
  }

  lemma FitsThree(w: bv32, k: nat)
    requires Fits(w, k) && k <= 3
    ensures w >> 24 == 0
  {
  }

  lemma UpStepsDown(w: bv32, k: nat)
    requires Fits(w, k) && k <= 3
    ensures Steps(Up(w), 8) == w
  {
    FitsThree(w, k);
    UpDown(w);
    StepsOfHigh(Up(w));
  }

  lemma {:induction false} StepsAdd(c: bv32, m: nat, n: nat)
    ensures Steps(c, m + n) == Steps(Steps(c, m), n)
    decreases m
  {
    hide Step;
    if m > 0 { StepsAdd(Step(c), m - 1, n); }
  }

  /** Feeding up to four bytes is xoring them in at once and stepping. */
  lemma {:induction false} WindowFeed(c: bv32, bytes: seq<byte>)
    requires |bytes| <= 4
    ensures Feed(c, bytes) == Steps(Xor(c, Word(bytes)), 8 * |bytes|)
    decreases |bytes|
  {
    hide Step, Xor, ByteWord, Up, Fits;
    if bytes == [] {
      XorZero(c);
    } else {
      hide Steps, Feed;
      var b, rest := bytes[0], bytes[1..];
      var w := Word(rest);
      WordFits(rest);
      UpStepsDown(w, |rest|);
      assert bytes == [b] + rest;
      FeedConcat(c, [b], rest);
      FeedOne(c, b);
      var after := Steps(Xor(c, ByteWord(b)), 8);
      WindowFeed(after, rest);
      XorAssociates(c, ByteWord(b), Up(w));
      StepsLinear(Xor(c, ByteWord(b)), Up(w), 8);
      StepsAdd(Xor(c, Word(bytes)), 8, 8 * |rest|);
    }
  }

  lemma FeedOne(c: bv32, b: byte)
    ensures Feed(c, [b]) == Steps(Xor(c, ByteWord(b)), 8)
  {
    hide Steps, Xor, ByteWord;
    assert [b][..0] == [];
    assert Feed(c, []) == c;
  }

  lemma XorZero(c: bv32)
    ensures Xor(c, 0) == c
  {
  }

  lemma {:induction false} WordInjective(a: seq<byte>, b: seq<byte>)
    requires |a| == |b| <= 4 && Word(a) == Word(b)
    ensures a == b
    decreases |a|
  {
    if a != [] {
      hide Xor, Up, ByteWord, Fits;
      WordFits(a[1..]);
      WordFits(b[1..]);
      SplitUp(a[0], Word(a[1..]), b[0], Word(b[1..]), |a| - 1);
      WordInjective(a[1..], b[1..]);
      assert a == [a[0]] + a[1..] && b == [b[0]] + b[1..];
    }
  }

  lemma SplitUp(a: byte, v: bv32, b: byte, w: bv32, k: nat)
    requires k <= 3 && Fits(v, k) && Fits(w, k)
    requires Xor(ByteWord(a), Up(v)) == Xor(ByteWord(b), Up(w))
    ensures a == b && v == w
  {
    hide Xor, Up, Fits;
    FitsThree(v, k);
    FitsThree(w, k);
    SplitWords(a as bv8, v, b as bv8, w);
    ByteRoundTrip(a);
    ByteRoundTrip(b);
  }

  lemma SplitWords(a: bv8, v: bv32, b: bv8, w: bv32)
    requires v >> 24 == 0 && w >> 24 == 0
    requires Xor(a as bv32, Up(v)) == Xor(b as bv32, Up(w))
    ensures a == b && v == w
  {
  }

  /** Changing any nonempty set of bits inside four consecutive bytes changes the CRC. */
  lemma BurstDetected(data: seq<byte>, data': seq<byte>, i: nat, k: nat)
    requires k <= 4 && i + k <= |data| == |data'|
    requires data[..i] == data'[..i] && data[i + k..] == data'[i + k..] && data != data'
    ensures Crc(data) != Crc(data')
  {
    hide Steps, Xor, Word, Feed, ClockBits, DataBits, Inverted;
    var ones: bv32 := 0xffff_ffff;
    var pre, mid, mid', post := data[..i], data[i..i + k], data'[i..i + k], data[i + k..];
    assert data == pre + mid + post && data' == pre + mid' + post;
    var s := Feed(ones, pre);
    FeedConcat(ones, pre + mid, post);
    FeedConcat(ones, pre + mid', post);
    FeedConcat(ones, pre, mid);
    FeedConcat(ones, pre, mid');
    if Crc(data) == Crc(data') {
      FeedIsClocking(ones, data);
      FeedIsClocking(ones, data');
      InvertedInjective(Feed(ones, data), Feed(ones, data'));
      FeedInjective(Feed(s, mid), Feed(s, mid'), post);
      WindowFeed(s, mid);
      WindowFeed(s, mid');
      StepsInjective(Xor(s, Word(mid)), Xor(s, Word(mid')), 8 * k);
      XorCancels(s, Word(mid));
      XorCancels(s, Word(mid'));
      WordInjective(mid, mid');
    }
  }

  lemma InvertedInjective(a: bv32, b: bv32)
    ensures Inverted(a) == Inverted(b) ==> a == b
  {
    WordRoundTrip(a ^ 0xffff_ffff);
    WordRoundTrip(b ^ 0xffff_ffff);
    OnesCancel(a, b);
  }

  lemma OnesCancel(a: bv32, b: bv32)
    ensures a ^ 0xffff_ffff == b ^ 0xffff_ffff ==> a == b
  {
  }

  // ---------------------------------------------------------------- known answers

  /** The residue: a message followed by its own CRC, low byte first, has the same CRC whatever the
    * message is. */
  lemma Residue(data: seq<byte>, tail: seq<byte>)
    requires |tail| == 4 && Word(tail) as nat == Crc(data)
    ensures Crc(data + tail) == 0x2144_df1c
  {
    hide Word, Steps, Feed, ClockBits, DataBits, Inverted;
    var r := Feed(0xffff_ffff, data);
    FeedIsClocking(0xffff_ffff, data);
    FeedIsClocking(0xffff_ffff, data + tail);
    FeedConcat(0xffff_ffff, data, tail);
    WindowFeed(r, tail);
    WordIsInverse(Word(tail), r);
    AllOnesStepped();
    ResidueInverts();
  }

  lemma WordIsInverse(w: bv32, r: bv32)
    requires w as nat == Inverted(r)
    ensures Xor(r, w) == 0xffff_ffff
  {
    WordRoundTrip(w);
    WordRoundTrip(r ^ 0xffff_ffff);
    SelfInverse(r);
  }

  lemma SelfInverse(r: bv32)
    ensures r ^ (r ^ 0xffff_ffff) == 0xffff_ffff
  {
  }

  lemma ResidueInverts()
    ensures Inverted(0xdebb_20e3) == 0x2144_df1c
  {
  }

  lemma EightSteps(c: bv32)
    ensures Steps(c, 8) == Step(Step(Step(Step(Step(Step(Step(Step(c))))))))
  {
    hide Step;
  }

  /** A register of ones, clocked 32 times with zeros. */
  lemma AllOnesStepped()
    ensures Steps(0xffff_ffff, 32) == 0xdebb_20e3
  {
    OnesSteppedHalf();
    StepsAdd(0xffff_ffff, 16, 16);
    StepsAdd(0xbe26_ed00, 8, 8);
    EightSteps(0xbe26_ed00);
    EightSteps(0x00be_26ed);
  }

  lemma OnesSteppedHalf()
    ensures Steps(0xffff_ffff, 16) == 0xbe26_ed00
  {
    StepsAdd(0xffff_ffff, 8, 8);
    EightSteps(0xffff_ffff);
    EightSteps(0x2dfd_1072);
  }

  /** The check value of CRC-32: the CRC of the nine ASCII digits "123456789". */
  lemma CheckValue()
    ensures Crc([0x31, 0x32, 0x33, 0x34, 0x35, 0x36, 0x37, 0x38, 0x39]) == 0xcbf4_3926
  {
    hide Feed, ClockBits, DataBits;
    var digits: seq<byte> := [0x31, 0x32, 0x33, 0x34, 0x35, 0x36, 0x37, 0x38, 0x39];
    FeedIsClocking(0xffff_ffff, digits);
    assert digits == [0x31, 0x32, 0x33] + [0x34, 0x35, 0x36] + [0x37, 0x38, 0x39];
    FeedConcat(0xffff_ffff, [0x31, 0x32, 0x33] + [0x34, 0x35, 0x36], [0x37, 0x38, 0x39]);
    FeedConcat(0xffff_ffff, [0x31, 0x32, 0x33], [0x34, 0x35, 0x36]);
    OneTwoThree();
    FourFiveSix();
    SevenEightNine();
  }

  lemma FeedThree(c: bv32, a: byte, b: byte, d: byte)
    ensures var x := Steps(Xor(c, ByteWord(a)), 8);
      Feed(c, [a, b, d]) == Steps(Xor(Steps(Xor(x, ByteWord(b)), 8), ByteWord(d)), 8)
  {
    hide Feed, Steps, Xor, ByteWord;
    assert [a, b, d] == [a] + [b] + [d];
    FeedConcat(c, [a] + [b], [d]);
    FeedConcat(c, [a], [b]);
    FeedOne(c, a);
    FeedOne(Feed(c, [a]), b);
    FeedOne(Feed(c, [a] + [b]), d);
  }

  /** One digit: the register, the digit in its low byte, and the register eight clocks later. */
  predicate Fed(c: bv32, digit: byte, r: bv32) { Steps(Xor(c, ByteWord(digit)), 8) == r }

  lemma FedThree(c: bv32, a: byte, b: byte, d: byte, x: bv32, y: bv32, r: bv32)
    requires Fed(c, a, x) && Fed(x, b, y) && Fed(y, d, r)
    ensures Feed(c, [a, b, d]) == r
  {
    FeedThree(c, a, b, d);
    hide Feed, Steps, Xor, ByteWord;
  }

  lemma OneTwoThree()
    ensures Feed(0xffff_ffff, [0x31, 0x32, 0x33]) == 0x77b7_9c2d
  {
    FedDigitOne();
    FedDigitTwo();
    FedDigitThree();
    hide Fed;
    FedThree(0xffff_ffff, 0x31, 0x32, 0x33, 0x7c23_1048, 0xb0ac_bb32, 0x77b7_9c2d);
  }

  lemma FourFiveSix()
    ensures Feed(0x77b7_9c2d, [0x34, 0x35, 0x36]) == 0xf68d_2c9e
  {
    FedDigitFour();
    FedDigitFive();
    FedDigitSix();
    hide Fed;
    FedThree(0x77b7_9c2d, 0x34, 0x35, 0x36, 0x641c_1f5c, 0x340a_c5e3, 0xf68d_2c9e);
  }

  lemma SevenEightNine()
    ensures Feed(0xf68d_2c9e, [0x37, 0x38, 0x39]) == 0x340b_c6d9
  {
    FedDigitSeven();
    FedDigitEight();
    FedDigitNine();
    hide Fed;
    FedThree(0xf68d_2c9e, 0x37, 0x38, 0x39, 0xaffc_9660, 0x651f_2550, 0x340b_c6d9);
  }

  lemma FedDigitOne()
    ensures Fed(0xffff_ffff, 0x31, 0x7c23_1048)
  {
    EightSteps(0xffff_ffce);
    hide Steps;
  }

  lemma FedDigitTwo()
    ensures Fed(0x7c23_1048, 0x32, 0xb0ac_bb32)
  {
    EightSteps(0x7c23_107a);
    hide Steps;
  }

  lemma FedDigitThree()
    ensures Fed(0xb0ac_bb32, 0x33, 0x77b7_9c2d)
  {
    EightSteps(0xb0ac_bb01);
    hide Steps;
  }

  lemma FedDigitFour()
    ensures Fed(0x77b7_9c2d, 0x34, 0x641c_1f5c)
  {
    EightSteps(0x77b7_9c19);
    hide Steps;
  }

  lemma FedDigitFive()
    ensures Fed(0x641c_1f5c, 0x35, 0x340a_c5e3)
  {
    EightSteps(0x641c_1f69);
    hide Steps;
  }

  lemma FedDigitSix()
    ensures Fed(0x340a_c5e3, 0x36, 0xf68d_2c9e)
  {
    EightSteps(0x340a_c5d5);
    hide Steps;
  }

  lemma FedDigitSeven()
    ensures Fed(0xf68d_2c9e, 0x37, 0xaffc_9660)
  {
    EightSteps(0xf68d_2ca9);
    hide Steps;
  }

  lemma FedDigitEight()
    ensures Fed(0xaffc_9660, 0x38, 0x651f_2550)
  {
    EightSteps(0xaffc_9658);
    hide Steps;
  }

  lemma FedDigitNine()
    ensures Fed(0x651f_2550, 0x39, 0x340b_c6d9)
  {
    EightSteps(0x651f_2569);
    hide Steps;
  }
}
