/** The gshare scheme as a state machine over values: a table of 2^ghistoryBits saturating
    counters indexed by the branch address XOR the global history register `ghr`. */
module GShareScheme {
  import opened Bits
  import opened Branch
  import opened ShiftRegister

  /** `gshareTable` and `ghr`. */
  datatype State = State(table: seq<int>, ghr: Word)

  /** The table has 2^ghistoryBits counters, each in [SN, ST], and ghr holds ghistoryBits bits. */
  predicate Valid(s: State, ghistoryBits: nat)
  {
    ghistoryBits <= 30 &&
    |s.table| == Pow2(ghistoryBits) &&
    s.ghr < Pow2(ghistoryBits) &&
    AllCounters(s.table)
  }

  /** The state init_predictor leaves: every counter weakly not taken, empty history. */
  function Init(ghistoryBits: nat): (s: State)
    requires ghistoryBits <= 30
    ensures Valid(s, ghistoryBits)
    ensures forall i | 0 <= i < |s.table| :: s.table[i] == WN && ToDirection(s.table[i]) == NotTaken
    ensures s.ghr == 0
  {
    State(Table(Pow2(ghistoryBits), WN), 0)
  }

  /** `(pc ^ ghr) & ((1 << ghistoryBits) - 1)`: always a valid table index. */
  function Index(pc: Word, ghr: Word, ghistoryBits: nat): (r: nat)
    ensures r < Pow2(ghistoryBits)
  {
    Xor(pc, ghr) % Pow2(ghistoryBits)
  }

  /** make_prediction: the direction of the counter the address and history select. */
  function Predict(s: State, pc: Word, ghistoryBits: nat): (d: Direction)
    requires Valid(s, ghistoryBits)
    ensures var c := s.table[Index(pc, s.ghr, ghistoryBits)]; d == Taken <==> c == WT || c == ST
  {
    ToDirection(s.table[Index(pc, s.ghr, ghistoryBits)])
  }

  /** train_predictor: train the counter at the index Predict read (computed from the history
      before this outcome), then shift the outcome into ghr. */
  function Train(s: State, pc: Word, outcome: Direction, ghistoryBits: nat): (r: State)
    requires Valid(s, ghistoryBits)
    ensures Valid(r, ghistoryBits)
    ensures var i := Index(pc, s.ghr, ghistoryBits);
      r.table[i] == Update(s.table[i], outcome) &&
      forall j | 0 <= j < |s.table| && j != i :: r.table[j] == s.table[j]
    ensures r.ghr == ShiftIn(s.ghr, outcome, ghistoryBits)
    ensures ghistoryBits > 0 ==> Bit(r.ghr, 0) == outcome.Bit()
  {
    var i := Index(pc, s.ghr, ghistoryBits);
    ShiftInBits(s.ghr, outcome, ghistoryBits, 0);
    State(s.table[i := Update(s.table[i], outcome)], ShiftIn(s.ghr, outcome, ghistoryBits))
  }

  /** n predict/train rounds for one address that always resolves the same way. */
  function Repeat(s: State, pc: Word, outcome: Direction, n: nat, ghistoryBits: nat): (r: State)
    requires Valid(s, ghistoryBits)
    ensures Valid(r, ghistoryBits)
  {
    if n == 0 then s else Train(Repeat(s, pc, outcome, n - 1, ghistoryBits), pc, outcome, ghistoryBits)
  }

  lemma {:induction false} RepeatHistory(s: State, pc: Word, outcome: Direction, n: nat, ghistoryBits: nat)
    requires Valid(s, ghistoryBits)
    ensures Repeat(s, pc, outcome, n, ghistoryBits).ghr == Run(s.ghr, seq(n, _ => outcome), ghistoryBits)
  {
    if n > 0 {
      RepeatHistory(s, pc, outcome, n - 1, ghistoryBits);
      assert seq(n, _ => outcome)[..n - 1] == seq(n - 1, _ => outcome);
    }
  }

  /** A register full of one outcome stays full when that outcome is shifted in again. */
  lemma FilledIsFixed(outcome: Direction, k: nat)
    requires k <= 30
    ensures ShiftIn(Filled(outcome, k), outcome, k) == Filled(outcome, k)
  {
    var ones := seq(k + 1, _ => outcome);
    RunFills(0, outcome, k, k);
    RunFills(0, outcome, k + 1, k);
    assert ones[..k] == seq(k, _ => outcome);
  }

  /** With ghr full of the outcome, a round trains the counter that ghr selects and leaves
      ghr as it was. */
  lemma TrainFromFilled(s: State, pc: Word, outcome: Direction, ghistoryBits: nat)
    requires Valid(s, ghistoryBits) && s.ghr == Filled(outcome, ghistoryBits)
    ensures var r := Train(s, pc, outcome, ghistoryBits);
      var i := Index(pc, s.ghr, ghistoryBits);
      r.ghr == s.ghr && r.table[i] == Update(s.table[i], outcome)
  {
    FilledIsFixed(outcome, ghistoryBits);
  }

  /** Once ghistoryBits rounds have filled ghr with the outcome, every further round trains
      one and the same counter. */
  lemma {:induction false} RepeatAfterFill(s: State, pc: Word, outcome: Direction, n: nat, ghistoryBits: nat)
    requires Valid(s, ghistoryBits) && n >= ghistoryBits
    ensures var r := Repeat(s, pc, outcome, n, ghistoryBits);
      var i := Index(pc, Filled(outcome, ghistoryBits), ghistoryBits);
      r.ghr == Filled(outcome, ghistoryBits) &&
      r.table[i] == UpdateN(Repeat(s, pc, outcome, ghistoryBits, ghistoryBits).table[i], outcome, n - ghistoryBits)
  {
    if n == ghistoryBits {
      RepeatHistory(s, pc, outcome, n, ghistoryBits);
      RunFills(s.ghr, outcome, n, ghistoryBits);
    } else {
      RepeatAfterFill(s, pc, outcome, n - 1, ghistoryBits);
      var prev := Repeat(s, pc, outcome, n - 1, ghistoryBits);
      TrainFromFilled(prev, pc, outcome, ghistoryBits);
      var mid := Repeat(s, pc, outcome, ghistoryBits, ghistoryBits);
      var i := Index(pc, Filled(outcome, ghistoryBits), ghistoryBits);
      assert Repeat(s, pc, outcome, n, ghistoryBits).table[i] == Update(prev.table[i], outcome);
      assert UpdateN(mid.table[i], outcome, n - ghistoryBits)
          == Update(UpdateN(mid.table[i], outcome, n - 1 - ghistoryBits), outcome);
    }
  }

  /** Convergence: an address that always resolves the same way is predicted that way after
      ghistoryBits + 2 rounds, and from ghistoryBits + 3 rounds on the counter it selects is
      saturated. */
  lemma Converges(s: State, pc: Word, outcome: Direction, n: nat, ghistoryBits: nat)
    requires Valid(s, ghistoryBits) && n >= ghistoryBits + 2
    ensures var r := Repeat(s, pc, outcome, n, ghistoryBits);
      Predict(r, pc, ghistoryBits) == outcome &&
      (n >= ghistoryBits + 3 ==> r.table[Index(pc, r.ghr, ghistoryBits)] == Saturated(outcome))
  {
    var mid := Repeat(s, pc, outcome, ghistoryBits, ghistoryBits);
    RepeatAfterFill(s, pc, outcome, n, ghistoryBits);
    var i := Index(pc, Filled(outcome, ghistoryBits), ghistoryBits);
    UpdateNDecides(mid.table[i], outcome, n - ghistoryBits);
    if n >= ghistoryBits + 3 {
      UpdateNSaturates(mid.table[i], outcome, n - ghistoryBits);
    }
  }

  /** Training with one outcome never moves any counter away from that outcome. */
  lemma {:induction false} RepeatApproaches(s: State, pc: Word, outcome: Direction, n: nat, ghistoryBits: nat)
    requires Valid(s, ghistoryBits)
    ensures var r := Repeat(s, pc, outcome, n, ghistoryBits);
      forall j | 0 <= j < |s.table| :: Distance(r.table[j], outcome) <= Distance(s.table[j], outcome)
  {
    if n > 0 {
      RepeatApproaches(s, pc, outcome, n - 1, ghistoryBits);
    }
  }

  /** From init, an address that always resolves the same way has its counter saturated, and
      is predicted that way, after 2^ghistoryBits + 1 rounds. */
  lemma ConvergesFromInit(pc: Word, outcome: Direction, n: nat, ghistoryBits: nat)
    requires ghistoryBits <= 30 && n >= Pow2(ghistoryBits) + 1
    ensures var r := Repeat(Init(ghistoryBits), pc, outcome, n, ghistoryBits);
      Predict(r, pc, ghistoryBits) == outcome &&
      r.table[Index(pc, r.ghr, ghistoryBits)] == Saturated(outcome)
  {
    var s := Init(ghistoryBits);
    Pow2Exceeds(ghistoryBits);
    var mid := Repeat(s, pc, outcome, ghistoryBits, ghistoryBits);
    RepeatAfterFill(s, pc, outcome, n, ghistoryBits);
    RepeatApproaches(s, pc, outcome, ghistoryBits, ghistoryBits);
    var i := Index(pc, Filled(outcome, ghistoryBits), ghistoryBits);
    assert Distance(mid.table[i], outcome) <= Distance(s.table[i], outcome) <= 2;
    UpdateNDistance(mid.table[i], outcome, n - ghistoryBits);
  }
}
