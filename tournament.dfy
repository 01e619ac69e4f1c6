/** The tournament scheme as a state machine over values: per-address local histories feeding
    a local counter table, a global counter table indexed by the global history, and a
    chooser table (same index) that selects between the two. */
module TournamentScheme {
  import opened Bits
  import opened Branch
  import opened ShiftRegister

  /** The three configured bit widths. */
  datatype Config = Config(ghistoryBits: nat, lhistoryBits: nat, pcIndexBits: nat)
  {
    predicate Valid()
    {
      ghistoryBits <= 30 && lhistoryBits <= 30 && pcIndexBits <= 30
    }
  }

  /** `localHistoryTable`, `localPredictorTable`, `globalPredictorTable`, `chooserTable` and
      `globalHistory`. */
  datatype State = State(
    localHistory: seq<Word>,
    localPredictor: seq<int>,
    globalPredictor: seq<int>,
    chooser: seq<int>,
    globalHistory: Word)

  /** Table sizes follow the configuration; every counter is within [SN, ST]; every local
      history has lhistoryBits bits and the global history ghistoryBits bits, so each history
      is a valid index of the table it selects from. */
  predicate Valid(s: State, c: Config)
  {
    c.Valid() &&
    |s.localHistory| == Pow2(c.pcIndexBits) &&
    (forall i | 0 <= i < |s.localHistory| :: s.localHistory[i] < Pow2(c.lhistoryBits)) &&
    |s.localPredictor| == Pow2(c.lhistoryBits) && AllCounters(s.localPredictor) &&
    |s.globalPredictor| == Pow2(c.ghistoryBits) && AllCounters(s.globalPredictor) &&
    |s.chooser| == Pow2(c.ghistoryBits) && AllCounters(s.chooser) &&
    s.globalHistory < Pow2(c.ghistoryBits)
  }

  /** The state init_predictor leaves: empty histories, every counter weakly not taken. */
  function Init(c: Config): (s: State)
    requires c.Valid()
    ensures Valid(s, c)
    ensures forall i | 0 <= i < |s.localHistory| :: s.localHistory[i] == 0
    ensures forall i | 0 <= i < |s.localPredictor| :: s.localPredictor[i] == WN
    ensures forall i | 0 <= i < |s.globalPredictor| :: s.globalPredictor[i] == WN && s.chooser[i] == WN
    ensures s.globalHistory == 0
  {
    State(
      Table(Pow2(c.pcIndexBits), 0),
      Table(Pow2(c.lhistoryBits), WN),
      Table(Pow2(c.ghistoryBits), WN),
      Table(Pow2(c.ghistoryBits), WN),
      0)
  }

  /** `pc & ((1 << pcIndexBits) - 1)`: the local history slot of an address. */
  function PcIndex(pc: Word, c: Config): (r: nat)
    ensures r < Pow2(c.pcIndexBits)
  {
    pc % Pow2(c.pcIndexBits)
  }

  /** `globalHistory & ((1 << ghistoryBits) - 1)`: the global and chooser index. */
  function GlobalIndex(s: State, c: Config): (r: nat)
    ensures r < Pow2(c.ghistoryBits)
  {
    s.globalHistory % Pow2(c.ghistoryBits)
  }

  /** The local counter's direction for the address's own history. */
  function LocalDecision(s: State, pc: Word, c: Config): (d: Direction)
    requires Valid(s, c)
    ensures var k := s.localPredictor[s.localHistory[PcIndex(pc, c)]]; d == Taken <==> k == WT || k == ST
  {
    ToDirection(s.localPredictor[s.localHistory[PcIndex(pc, c)]])
  }

  /** The global counter's direction for the current global history. */
  function GlobalDecision(s: State, c: Config): (d: Direction)
    requires Valid(s, c)
    ensures var k := s.globalPredictor[GlobalIndex(s, c)]; d == Taken <==> k == WT || k == ST
  {
    ToDirection(s.globalPredictor[GlobalIndex(s, c)])
  }

  /** The chooser selects the global decision in its upper two states (>= WT) and the local
      decision otherwise. */
  function Choose(choice: int, local: Direction, global: Direction): (d: Direction)
    ensures d == local || d == global
    ensures local == global ==> d == local
    ensures local != global ==> (d == global <==> choice >= WT)
  {
    if choice >= WT then global else local
  }

  /** make_prediction for the tournament scheme. */
  function Predict(s: State, pc: Word, c: Config): (d: Direction)
    requires Valid(s, c)
    ensures d == LocalDecision(s, pc, c) || d == GlobalDecision(s, c)
    ensures LocalDecision(s, pc, c) != GlobalDecision(s, c) ==>
              (d == GlobalDecision(s, c) <==> s.chooser[GlobalIndex(s, c)] == WT || s.chooser[GlobalIndex(s, c)] == ST)
  {
    Choose(s.chooser[GlobalIndex(s, c)], LocalDecision(s, pc, c), GlobalDecision(s, c))
  }

  /** The chooser's training rule: on disagreement, step towards global if global was right,
      else towards local if local was right; never past SN or ST; unchanged on agreement. */
  function ChooserUpdate(choice: int, local: Direction, global: Direction, outcome: Direction): (r: int)
    requires IsCounter(choice)
    ensures IsCounter(r)
    ensures local == global ==> r == choice
    ensures local != global && global == outcome ==> r == Increment(choice)
    ensures local != global && local == outcome ==> r == Decrement(choice)
  {
    if local != global then
      if global == outcome && choice < ST then choice + 1
      else if local == outcome && choice > SN then choice - 1
      else choice
    else choice
  }

  /** After a disagreement the chooser never moves away from the predictor that was right; a
      weak chooser (WN or WT) moves far enough to select it. */
  lemma ChooserFollowsWinner(choice: int, local: Direction, global: Direction, outcome: Direction)
    requires IsCounter(choice) && local != global
    ensures Choose(choice, local, global) == outcome ==>
              Choose(ChooserUpdate(choice, local, global, outcome), local, global) == outcome
    ensures choice == WN || choice == WT ==>
              Choose(ChooserUpdate(choice, local, global, outcome), local, global) == outcome
  {
  }

  /** train_predictor for the tournament scheme. Indices and decisions are those Predict
      used (computed from the histories before this outcome); the local and global counters
      each learn the outcome, the chooser learns only from a disagreement, and the outcome is
      shifted into the address's local history and into the global history. */
  function Train(s: State, pc: Word, outcome: Direction, c: Config): (r: State)
    requires Valid(s, c)
    ensures Valid(r, c)
    ensures var p, l, g := PcIndex(pc, c), s.localHistory[PcIndex(pc, c)], GlobalIndex(s, c);
      r.localPredictor == s.localPredictor[l := Update(s.localPredictor[l], outcome)] &&
      r.globalPredictor == s.globalPredictor[g := Update(s.globalPredictor[g], outcome)] &&
      (forall i | 0 <= i < |s.chooser| && i != g :: r.chooser[i] == s.chooser[i]) &&
      (forall i | 0 <= i < |s.localHistory| && i != p :: r.localHistory[i] == s.localHistory[i])
    ensures LocalDecision(s, pc, c) == GlobalDecision(s, c) ==> r.chooser == s.chooser
    ensures LocalDecision(s, pc, c) != GlobalDecision(s, c) ==>
              var g := GlobalIndex(s, c);
              if GlobalDecision(s, c) == outcome then r.chooser[g] == Increment(s.chooser[g])
              else r.chooser[g] == Decrement(s.chooser[g])
    ensures r.localHistory[PcIndex(pc, c)] == ShiftIn(s.localHistory[PcIndex(pc, c)], outcome, c.lhistoryBits)
    ensures r.globalHistory == ShiftIn(s.globalHistory, outcome, c.ghistoryBits)
    ensures c.lhistoryBits > 0 ==> Bit(r.localHistory[PcIndex(pc, c)], 0) == outcome.Bit()
    ensures c.ghistoryBits > 0 ==> Bit(r.globalHistory, 0) == outcome.Bit()
  {
    var p := PcIndex(pc, c);
    var l := s.localHistory[p];
    ShiftInBits(l, outcome, c.lhistoryBits, 0);
    ShiftInBits(s.globalHistory, outcome, c.ghistoryBits, 0);
    var g := GlobalIndex(s, c);
    var local := ToDirection(s.localPredictor[l]);
    var global := ToDirection(s.globalPredictor[g]);
    State(
      s.localHistory[p := ShiftIn(l, outcome, c.lhistoryBits)],
      s.localPredictor[l := Update(s.localPredictor[l], outcome)],
      s.globalPredictor[g := Update(s.globalPredictor[g], outcome)],
      s.chooser[g := ChooserUpdate(s.chooser[g], local, global, outcome)],
      ShiftIn(s.globalHistory, outcome, c.ghistoryBits))
  }
}
