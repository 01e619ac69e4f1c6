/** The custom scheme as a state machine over values: NUM_PERCEPTRONS rows of HISTORY_LEN + 1
    signed 8-bit weights (a bias, then one weight per history bit) and a HISTORY_LEN-bit
    global history. A row's output is the sign of its bias plus the history weights, each
    counted positive when its history bit is 1 and negative when it is 0. */
module PerceptronScheme {
  import opened Bits
  import opened Branch
  import opened ShiftRegister

  const NUM_PERCEPTRONS := 256
  const HISTORY_LEN := 28
  const THRESHOLD := 50
  const WEIGHT_MIN := -128  // int8_t
  const WEIGHT_MAX := 127

  predicate IsWeight(w: int)
  {
    WEIGHT_MIN <= w <= WEIGHT_MAX
  }

  /** One row of `perceptronTable`: the bias at 0, the weight of history bit i at i + 1. */
  predicate IsRow(row: seq<int>)
  {
    |row| == HISTORY_LEN + 1 && forall j | 0 <= j < |row| :: IsWeight(row[j])
  }

  /** `perceptronTable` and `perceptronHistory`. */
  datatype State = State(weights: seq<seq<int>>, history: Word)

  predicate Valid(s: State)
  {
    |s.weights| == NUM_PERCEPTRONS &&
    (forall i | 0 <= i < |s.weights| :: IsRow(s.weights[i])) &&
    s.history < Pow2(HISTORY_LEN)
  }

  function ZeroRow(): (row: seq<int>)
    ensures IsRow(row)
  {
    seq(HISTORY_LEN + 1, _ => 0)
  }

  /** The state init_predictor leaves: all weights 0, empty history. */
  function Init(): (s: State)
    ensures Valid(s)
    ensures forall i | 0 <= i < |s.weights| :: s.weights[i] == ZeroRow()
    ensures s.history == 0
  {
    State(seq(NUM_PERCEPTRONS, _ => ZeroRow()), 0)
  }

  /** `pc % NUM_PERCEPTRONS`: the row an address uses. */
  function Index(pc: Word): (r: nat)
    ensures r < NUM_PERCEPTRONS
  {
    pc % NUM_PERCEPTRONS
  }

  /** `bit ? 1 : -1`: the signed encoding of a history bit. */
  function Polarity(bit: nat): (p: int)
    ensures p == 1 || p == -1
    ensures p == 1 <==> bit != 0
  {
    if bit != 0 then 1 else -1
  }

  /** The history weights' contribution over history bits 0 .. n - 1. */
  function Dot(row: seq<int>, h: nat, n: nat): (r: int)
    requires |row| == HISTORY_LEN + 1 && n <= HISTORY_LEN
    ensures IsRow(row) ==> -128 * n <= r <= 128 * n
  {
    if n == 0 then 0 else Dot(row, h, n - 1) + row[n] * Polarity(Bit(h, n - 1))
  }

  /** The perceptron's output before thresholding. Its magnitude is at most 29 * 128, so the
      source's `int32_t` accumulator never overflows. */
  function Sum(row: seq<int>, h: nat): (sum: int)
    requires IsRow(row)
    ensures -128 * (HISTORY_LEN + 1) <= sum <= 128 * (HISTORY_LEN + 1)
  {
    row[0] + Dot(row, h, HISTORY_LEN)
  }

  /** Taken when the sum is non-negative. */
  function Output(sum: int): (d: Direction)
    ensures sum == 0 ==> d == Taken
    ensures d == Taken <==> sum >= 0
  {
    if sum >= 0 then Taken else NotTaken
  }

  /** `outcome == TAKEN ? 1 : -1`. */
  function Target(outcome: Direction): (t: int)
    ensures t == 1 || t == -1
    ensures t > 0 <==> outcome == Taken
  {
    if outcome == Taken then 1 else -1
  }

  function Abs(x: int): nat
  {
    if x < 0 then -x else x
  }

  /** Weights are trained when the prediction was wrong or its magnitude was below THRESHOLD. */
  function Learns(sum: int, outcome: Direction): (r: bool)
    ensures Output(sum) != outcome ==> r
    ensures -THRESHOLD < sum < THRESHOLD ==> r
    ensures Output(sum) == outcome && (sum >= THRESHOLD || sum <= -THRESHOLD) ==> !r
  {
    Output(sum) != outcome || Abs(sum) < THRESHOLD
  }

  /** A guarded weight step: applied only when the result stays a signed 8-bit value,
      otherwise skipped (never clamped to the bound). */
  function Step(w: int, delta: int): (r: int)
    requires IsWeight(w) && (delta == 1 || delta == -1)
    ensures IsWeight(r)
    ensures r == w + delta <==> IsWeight(w + delta)
    ensures r == w <==> !IsWeight(w + delta)
  {
    if w + delta <= WEIGHT_MAX && w + delta >= WEIGHT_MIN then w + delta else w
  }

  /** One learning step towards target: the bias steps by target, and the weight of history
      bit i steps by target when the bit agrees with the target's sign and by -target when
      it does not. */
  function Adjust(row: seq<int>, h: nat, target: int): (r: seq<int>)
    requires IsRow(row) && (target == 1 || target == -1)
    ensures IsRow(r)
    ensures IsWeight(row[0] + target) ==> r[0] == row[0] + target
    ensures !IsWeight(row[0] + target) ==> r[0] == row[0]
    ensures forall j | 1 <= j <= HISTORY_LEN ::
              var d := target * Polarity(Bit(h, j - 1));
              r[j] == if IsWeight(row[j] + d) then row[j] + d else row[j]
  {
    seq(HISTORY_LEN + 1, j requires 0 <= j <= HISTORY_LEN =>
      if j == 0 then Step(row[0], target) else Step(row[j], target * Polarity(Bit(h, j - 1))))
  }

  /** No history weight among the first n sits at the bound its step would cross. */
  predicate RoomToStep(row: seq<int>, h: nat, target: int, n: nat)
    requires |row| == HISTORY_LEN + 1 && n <= HISTORY_LEN
  {
    forall j | 1 <= j <= n :: IsWeight(row[j] + target * Polarity(Bit(h, j - 1)))
  }

  /** Every history weight's step moves the dot product by 0 or by target: learning never
      moves the output away from the target, and moves it by exactly n when no step is
      skipped. */
  lemma {:induction false} AdjustMovesDot(row: seq<int>, h: nat, target: int, n: nat)
    requires IsRow(row) && (target == 1 || target == -1) && n <= HISTORY_LEN
    ensures var d := Dot(Adjust(row, h, target), h, n) - Dot(row, h, n);
      (target == 1 ==> 0 <= d <= n) && (target == -1 ==> 0 <= -d <= n) &&
      (RoomToStep(row, h, target, n) ==> (target == 1 ==> d == n) && (target == -1 ==> -d == n))
  {
    if n > 0 {
      AdjustMovesDot(row, h, target, n - 1);
      var r := Adjust(row, h, target);
      var p := Polarity(Bit(h, n - 1));
      assert r[n] == Step(row[n], target * p);
      StepMovesTerm(row[n], target, p);
      assert RoomToStep(row, h, target, n) ==> RoomToStep(row, h, target, n - 1);
    }
  }

  /** A weight stepped by target * p moves its term w * p by target, or by 0 when the step is
      skipped. */
  lemma StepMovesTerm(w: int, target: int, p: int)
    requires IsWeight(w) && (target == 1 || target == -1) && (p == 1 || p == -1)
    ensures Step(w, target * p) * p - w * p == if IsWeight(w + target * p) then target else 0
  {
    var s := Step(w, target * p);
    if p == 1 {
      assert s * p - w * p == s - w;
    } else {
      assert s * p - w * p == w - s;
    }
  }

  /** Learning moves the sum towards the target by between 0 and HISTORY_LEN + 1, and by
      exactly HISTORY_LEN + 1 when no weight sits at the bound it would cross. */
  lemma AdjustMovesSum(row: seq<int>, h: nat, target: int)
    requires IsRow(row) && (target == 1 || target == -1)
    ensures var d := target * (Sum(Adjust(row, h, target), h) - Sum(row, h));
      0 <= d <= HISTORY_LEN + 1 &&
      (IsWeight(row[0] + target) && RoomToStep(row, h, target, HISTORY_LEN) ==> d == HISTORY_LEN + 1)
  {
    AdjustMovesDot(row, h, target, HISTORY_LEN);
  }

  /** One row trained with one outcome: the learning rule gated by Learns. */
  function TrainRow(row: seq<int>, h: nat, outcome: Direction): (r: seq<int>)
    requires IsRow(row)
    ensures IsRow(r)
    ensures !Learns(Sum(row, h), outcome) ==> r == row
    ensures Learns(Sum(row, h), outcome) && IsWeight(row[0] + Target(outcome)) ==>
              r[0] == row[0] + Target(outcome)
    ensures Learns(Sum(row, h), outcome) ==> r == Adjust(row, h, Target(outcome))
  {
    if Learns(Sum(row, h), outcome) then Adjust(row, h, Target(outcome)) else row
  }

  /** make_prediction for the custom scheme. */
  function Predict(s: State, pc: Word): (d: Direction)
    requires Valid(s)
    ensures d == Taken <==> Sum(s.weights[Index(pc)], s.history) >= 0
  {
    Output(Sum(s.weights[Index(pc)], s.history))
  }

  /** train_predictor for the custom scheme: only the address's row is trained, against the
      history Predict used; then the outcome is shifted into the HISTORY_LEN-bit history. */
  function Train(s: State, pc: Word, outcome: Direction): (r: State)
    requires Valid(s)
    ensures Valid(r)
    ensures r.weights[Index(pc)] == TrainRow(s.weights[Index(pc)], s.history, outcome)
    ensures forall i | 0 <= i < NUM_PERCEPTRONS && i != Index(pc) :: r.weights[i] == s.weights[i]
    ensures r.history == ShiftIn(s.history, outcome, HISTORY_LEN)
    ensures Bit(r.history, 0) == outcome.Bit()
  {
    var i := Index(pc);
    ShiftInBits(s.history, outcome, HISTORY_LEN, 0);
    State(s.weights[i := TrainRow(s.weights[i], s.history, outcome)],
          ShiftIn(s.history, outcome, HISTORY_LEN))
  }

  /** A row of zero weights sums to 0 whatever the history. */
  lemma {:induction false} ZeroRowDot(h: nat, n: nat)
    requires n <= HISTORY_LEN
    ensures Dot(ZeroRow(), h, n) == 0
  {
    if n > 0 {
      ZeroRowDot(h, n - 1);
    }
  }

  /** Right after init every address is predicted taken (a zero sum counts as taken). */
  lemma InitPredictsTaken(pc: Word)
    ensures Predict(Init(), pc) == Taken
  {
    ZeroRowDot(0, HISTORY_LEN);
  }

  /** A confident correct prediction leaves the whole table as it was. */
  lemma ConfidentCorrectKeepsWeights(s: State, pc: Word, outcome: Direction)
    requires Valid(s)
    requires Predict(s, pc) == outcome && Abs(Sum(s.weights[Index(pc)], s.history)) >= THRESHOLD
    ensures Train(s, pc, outcome).weights == s.weights
  {
    var r := Train(s, pc, outcome);
    assert forall i | 0 <= i < NUM_PERCEPTRONS :: r.weights[i] == s.weights[i];
  }
}
