/** The rolling hash that cuts a file into pieces (fuzzy.rs).

    Words are 32 bits wide: `h1` and `h2` are numbers with explicit wrap-around, `h3` is a bit
    vector because it is shifted and xor-ed. */
module RollingHash {
  import opened Bytes

  const ROLL_WINDOW: nat := 7
  const WORD: nat := 0x1_0000_0000

  function Wrap(x: int): (w: nat)
    ensures w < WORD
    ensures 0 <= x < WORD ==> w == x
  {
    x % WORD
  }

  // ---------------------------------------------------------------- what it means

  /** The last seven bytes, older ones first, zeros where there are none. */
  function Window(s: seq<Byte>): (w: seq<Byte>)
    ensures |w| == 7
  {
    ([0, 0, 0, 0, 0, 0, 0] + s)[|s|..]
  }

  function Sum(w: seq<Byte>): (n: nat)
    requires |w| == 7
    ensures n <= 7 * 255
  {
    w[0] as nat + w[1] as nat + w[2] as nat + w[3] as nat + w[4] as nat + w[5] as nat + w[6] as nat
  }

  /** The newest byte weighs seven, the oldest one. */
  function WeightedSum(w: seq<Byte>): (n: nat)
    requires |w| == 7
    ensures Sum(w) <= n <= 28 * 255
  {
    w[0] as nat + 2 * w[1] as nat + 3 * w[2] as nat + 4 * w[3] as nat + 5 * w[4] as nat + 6 * w[5] as nat + 7 * w[6] as nat
  }

  function ShiftXor(x: bv32, s: seq<Byte>): bv32 {
    if s == [] then x else Step(ShiftXor(x, s[..|s| - 1]), s[|s| - 1])
  }

  function Step(x: bv32, b: Byte): bv32 {
    (x << 5) ^ (b as bv32)
  }

  /** The rolling value after the bytes `s`: a function of the window alone. */
  function RollValue(s: seq<Byte>): (n: nat)
    ensures n < WORD
  {
    Total(Sum(Window(s)), WeightedSum(Window(s)), ShiftXor(0, Window(s)))
  }

  function Total(h1: nat, h2: nat, h3: bv32): (n: nat)
    ensures n < WORD
  {
    Wrap(Wrap(h1 + h2) + h3 as nat)
  }

  // ---------------------------------------------------------------- lemmas

  lemma WindowSlides(s: seq<Byte>, b: Byte)
    ensures Window(s + [b]) == Window(s)[1..] + [b]
  {
    var zeros: seq<Byte> := [0, 0, 0, 0, 0, 0, 0];
    assert zeros + (s + [b]) == (zeros + s) + [b];
  }

  lemma WindowOfSuffix(p: seq<Byte>, w: seq<Byte>)
    requires |w| >= 7
    ensures Window(p + w) == w[|w| - 7..]
  {
  }

  lemma {:induction false} ShiftXorSplits(x: bv32, p: seq<Byte>, q: seq<Byte>)
    ensures ShiftXor(x, p + q) == ShiftXor(ShiftXor(x, p), q)
  {
    hide Step;
    if q == [] {
      assert p + q == p;
    } else {
      ShiftXorSplits(x, p, q[..|q| - 1]);
      assert (p + q)[..|p + q| - 1] == p + q[..|q| - 1];
    }
  }

  function Seven(x: bv32, w: seq<Byte>): bv32
    requires |w| == 7
  {
    Step(Step(Step(Step(Step(Step(Step(x, w[0]), w[1]), w[2]), w[3]), w[4]), w[5]), w[6])
  }

  lemma {:induction false} ShiftXorOfSeven(x: bv32, w: seq<Byte>)
    requires |w| == 7
    ensures ShiftXor(x, w) == Seven(x, w)
  {
    hide Step;
    assert w[..0] == [];
    assert w[..1][..0] == w[..0] && w[..2][..1] == w[..1] && w[..3][..2] == w[..2] && w[..4][..3] == w[..3];
    assert w[..5][..4] == w[..4] && w[..6][..5] == w[..5] && w[..7] == w;
    assert ShiftXor(x, w[..1]) == Step(x, w[0]);
    assert ShiftXor(x, w[..2]) == Step(ShiftXor(x, w[..1]), w[1]);
    assert ShiftXor(x, w[..3]) == Step(ShiftXor(x, w[..2]), w[2]);
    assert ShiftXor(x, w[..4]) == Step(ShiftXor(x, w[..3]), w[3]);
    assert ShiftXor(x, w[..5]) == Step(ShiftXor(x, w[..4]), w[4]);
    assert ShiftXor(x, w[..6]) == Step(ShiftXor(x, w[..5]), w[5]);
  }

  lemma SevenShiftsForget(x: bv32, a: bv32, b: bv32, c: bv32, d: bv32, e: bv32, f: bv32, g: bv32)
    ensures (((((((((((((x << 5) ^ a) << 5) ^ b) << 5) ^ c) << 5) ^ d) << 5) ^ e) << 5) ^ f) << 5) ^ g
         == (((((((((((((0 << 5) ^ a) << 5) ^ b) << 5) ^ c) << 5) ^ d) << 5) ^ e) << 5) ^ f) << 5) ^ g
  {
  }

  /** Seven bytes shift out everything older: thirty-five bits in a word of thirty-two. */
  lemma OlderBytesAreShiftedOut(x: bv32, w: seq<Byte>)
    requires |w| == 7
    ensures ShiftXor(x, w) == ShiftXor(0, w)
  {
    ShiftXorOfSeven(x, w);
    ShiftXorOfSeven(0, w);
    SevenShiftsForget(x, w[0] as bv32, w[1] as bv32, w[2] as bv32, w[3] as bv32, w[4] as bv32, w[5] as bv32, w[6] as bv32);
  }

  /** The register that has seen every byte holds what the window alone would give. */
  lemma ShiftXorIsOfWindow(s: seq<Byte>)
    ensures ShiftXor(0, s) == ShiftXor(0, Window(s))
  {
    var zeros: seq<Byte> := [0, 0, 0, 0, 0, 0, 0];
    var all := zeros + s;
    ShiftXorSplits(0, zeros, s);
    ShiftXorOfSeven(0, zeros);
    assert ShiftXor(0, zeros) == 0;
    assert all == all[..|s|] + Window(s);
    ShiftXorSplits(0, all[..|s|], Window(s));
    OlderBytesAreShiftedOut(ShiftXor(0, all[..|s|]), Window(s));
  }

  /** Whatever came before, the last seven bytes decide. */
  lemma OnlyLastSevenCount(p: seq<Byte>, q: seq<Byte>, w: seq<Byte>)
    requires |w| >= 7
    ensures RollValue(p + w) == RollValue(q + w)
    ensures ShiftXor(0, p + w) == ShiftXor(0, q + w)
  {
    WindowOfSuffix(p, w);
    WindowOfSuffix(q, w);
    ShiftXorIsOfWindow(p + w);
    ShiftXorIsOfWindow(q + w);
  }

  /** The value in full, of seven bytes behind any others; fewer than seven count as if zeros
      stood before them. */
  lemma RollInDetail(p: seq<Byte>, w: seq<Byte>)
    requires |w| == 7
    ensures var sum := w[0] as nat + w[1] as nat + w[2] as nat + w[3] as nat + w[4] as nat + w[5] as nat + w[6] as nat;
            var weighted := w[0] as nat + 2 * w[1] as nat + 3 * w[2] as nat + 4 * w[3] as nat + 5 * w[4] as nat + 6 * w[5] as nat + 7 * w[6] as nat;
            var shifted := Step(Step(Step(Step(Step(Step(w[0] as bv32, w[1]), w[2]), w[3]), w[4]), w[5]), w[6]);
            RollValue(p + w) == (sum + weighted + shifted as nat) % 0x1_0000_0000
    ensures RollValue([0, 0, 0, 0, 0, 0, 0] + p) == RollValue(p)
  {
    hide *;
    WindowValue(p, w);
    ZerosInFront(p);
    ShiftsOfSeven(w);
  }

  lemma WindowValue(p: seq<Byte>, w: seq<Byte>)
    requires |w| == 7
    ensures var sum := w[0] as nat + w[1] as nat + w[2] as nat + w[3] as nat + w[4] as nat + w[5] as nat + w[6] as nat;
            var weighted := w[0] as nat + 2 * w[1] as nat + 3 * w[2] as nat + 4 * w[3] as nat + 5 * w[4] as nat + 6 * w[5] as nat + 7 * w[6] as nat;
            RollValue(p + w) == (sum + weighted + ShiftXor(0, w) as nat) % 0x1_0000_0000
  {
    hide ShiftXor, Step, RollValue, Total, Wrap;
    RollOfWindow(p, w);
    TotalIs(Sum(w), WeightedSum(w), ShiftXor(0, w));
  }

  lemma RollOfWindow(p: seq<Byte>, w: seq<Byte>)
    requires |w| == 7
    ensures RollValue(p + w) == Total(Sum(w), WeightedSum(w), ShiftXor(0, w))
  {
    hide ShiftXor, Step, Total, Sum, WeightedSum;
    WindowOfSuffix(p, w);
    assert w[|w| - 7..] == w;
  }

  lemma TotalIs(h1: nat, h2: nat, h3: bv32)
    requires h1 + h2 < WORD
    ensures Total(h1, h2, h3) == (h1 + h2 + h3 as nat) % 0x1_0000_0000
  {
  }

  lemma ShiftsOfSeven(w: seq<Byte>)
    requires |w| == 7
    ensures ShiftXor(0, w) == Step(Step(Step(Step(Step(Step(w[0] as bv32, w[1]), w[2]), w[3]), w[4]), w[5]), w[6])
  {
    hide ShiftXor, Step;
    ShiftXorOfSeven(0, w);
    FirstShift(w[0]);
  }

  /** The shift of one step: five bits to the left. */
  lemma StepShiftsByFive(x: bv32, b: Byte)
    ensures Step(x, b) == (x * 32) ^ (b as bv32)
  {
    FiveBits(x);
  }

  lemma FiveBits(x: bv32)
    ensures x << 5 == x * 32
  {
  }

  lemma FirstShift(b: Byte)
    ensures Step(0, b) == b as bv32
  {
    NothingShifted(b as bv32);
  }

  lemma NothingShifted(a: bv32)
    ensures (0 << 5) ^ a == a
  {
  }

  lemma ZerosInFront(p: seq<Byte>)
    ensures RollValue([0, 0, 0, 0, 0, 0, 0] + p) == RollValue(p)
  {
    var zeros: seq<Byte> := [0, 0, 0, 0, 0, 0, 0];
    assert zeros + (zeros + p) == (zeros + zeros) + p;
    assert Window(zeros + p) == Window(p);
    hide ShiftXor, Window;
  }

  lemma SumsSlide(w: seq<Byte>, b: Byte)
    requires |w| == 7
    ensures Sum(w[1..] + [b]) == Sum(w) + b - w[0]
    ensures WeightedSum(w[1..] + [b]) == WeightedSum(w) - Sum(w) + 7 * b
    ensures w[0] <= Sum(w)
  {
  }

  /** What one more byte does to each register and to the value. */
  lemma Slide(s: seq<Byte>, b: Byte)
    ensures Window(s + [b]) == Window(s)[1..] + [b]
    ensures Sum(Window(s + [b])) == Sum(Window(s)) + b - Window(s)[0]
    ensures WeightedSum(Window(s + [b])) == WeightedSum(Window(s)) - Sum(Window(s)) + 7 * b
    ensures Window(s)[0] <= Sum(Window(s))
    ensures ShiftXor(0, s + [b]) == Step(ShiftXor(0, s), b)
    ensures RollValue(s + [b]) == Total(Sum(Window(s + [b])), WeightedSum(Window(s + [b])), ShiftXor(0, s + [b]))
  {
    WindowSlides(s, b);
    ShiftXorIsOfWindow(s + [b]);
    assert (s + [b])[..|s|] == s;
    assert ShiftXor(0, s + [b]) == Step(ShiftXor(0, s), b);
    hide ShiftXor, Step, Window, Total;
    SumsSlide(Window(s), b);
  }

  // ---------------------------------------------------------------- the register

  /** Where the ring buffer keeps the `i`th oldest byte. */
  function Slot(n: nat, i: nat): (k: nat)
    ensures k < 7
  {
    (n + i) % 7
  }

  class Roll {
    const window: array<Byte>
    var h1: nat
    var h2: nat
    var h3: bv32
    var n: nat
    ghost var history: seq<Byte>

    ghost predicate Valid()
      reads this, window
    {
      && window.Length == 7 && n == |history| % 7
      && (forall i :: 0 <= i < 7 ==> window[Slot(n, i)] == Window(history)[i])
      && h1 == Sum(Window(history))
      && h2 == WeightedSum(Window(history))
      && h3 == ShiftXor(0, history)
    }

    constructor ()
      ensures Valid() && fresh(window) && history == []
    {
      window := new Byte[7](_ => 0);
      h1, h2, h3, n, history := 0, 0, 0, 0, [];
    }

    /** Slides one byte in. Neither subtraction goes below zero: the weighted sum is never less
        than the sum, nor the sum less than its oldest byte. */
    method Update(b: Byte) returns (value: nat)
      requires Valid()
      modifies this`h1, this`h2, this`h3, this`n, this`history, window
      ensures Valid() && history == old(history) + [b]
      ensures value == RollValue(history)
      ensures old(h1) <= old(h2) && old(window[n]) as nat <= old(h1) + b
      ensures h2 == old(h2) - old(h1) + 7 * b && h1 == old(h1) + b - old(window[n]) as nat
    {
      hide ShiftXor, Step, Sum, WeightedSum, Slot, Window, RollValue, Total;
      Slide(history, b);
      SlotsFollow(n);
      h2 := Wrap(Wrap(h2 - h1) + 7 * b);
      h1 := Wrap(Wrap(h1 + b) - window[n]);
      window[n] := b;
      n := (n + 1) % 7;
      h3 := Step(h3, b);
      history := history + [b];
      return Total(h1, h2, h3);
    }
  }

  /** Position `i` of the slid window is the slot of position `i + 1` before. */
  lemma SlotsFollow(n: nat)
    requires n < 7
    ensures forall i: nat {:trigger Slot((n + 1) % 7, i)} :: i < 6 ==> Slot((n + 1) % 7, i) == Slot(n, i + 1) && Slot((n + 1) % 7, i) != n
    ensures Slot((n + 1) % 7, 6) == n && Slot(n, 0) == n
  {
  }
}
