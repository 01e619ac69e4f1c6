/** The predictor as the trace-replay harness sees it: one object per trace holding the
    configuration and, per scheme, an object with that scheme's global tables (arrays updated
    in place) and history register. init_predictor is the constructor, make_prediction and
    train_predictor are Predict and Train, and every method is proved against the value-level
    state machine of its scheme. */
module Predictor {
  import opened Bits
  import opened Branch
  import opened ShiftRegister
  import GShareScheme
  import TournamentScheme
  import PerceptronScheme

  /** `bpType`. */
  datatype Scheme = Static | GShare | Tournament | Custom

  /** `malloc` followed by init_predictor's `for (i = 0; i < size; i++) table[i] = v;`. */
  method NewFilled<T(0)>(size: nat, v: T) returns (a: array<T>)
    ensures fresh(a) && a[..] == Table(size, v)
  {
    a := new T[size];
    for i := 0 to size
      invariant forall k | 0 <= k < i :: a[k] == v
    {
      a[i] := v;
    }
    assert a[..] == Table(size, v);
  }

  /** `if (outcome == TAKEN && t[i] < ST) t[i]++; if (outcome == NOTTAKEN && t[i] > SN) t[i]--;`
      on one saturating counter of a table. */
  method TrainCounter(table: array<int>, i: nat, outcome: Direction)
    requires i < table.Length && IsCounter(table[i])
    modifies table
    ensures table[..] == old(table[..])[i := Update(old(table[i]), outcome)]
  {
    if outcome == Taken && table[i] < ST {
      table[i] := table[i] + 1;
    }
    if outcome == NotTaken && table[i] > SN {
      table[i] := table[i] - 1;
    }
  }

  /** The chooser update of train_predictor: when the two components disagree, step towards
      the global one if it was right (`chooser < ST`) and towards the local one if it was
      right (`chooser > SN`). */
  method TrainChooser(chooser: array<int>, i: nat, localDecision: Direction, globalDecision: Direction,
                      outcome: Direction)
    requires i < chooser.Length && IsCounter(chooser[i])
    modifies chooser
    ensures chooser[..] == old(chooser[..])[i :=
              TournamentScheme.ChooserUpdate(old(chooser[i]), localDecision, globalDecision, outcome)]
  {
    if localDecision != globalDecision {
      if globalDecision == outcome && chooser[i] < ST {
        chooser[i] := chooser[i] + 1;
      } else if localDecision == outcome && chooser[i] > SN {
        chooser[i] := chooser[i] - 1;
      }
    }
  }

  /** Row i of a perceptron table. */
  ghost function RowOf(t: array2<int>, i: nat): seq<int>
    reads t
    requires i < t.Length0
  {
    seq(t.Length1, j requires 0 <= j < t.Length1 reads t => t[i, j])
  }

  /** All rows of a perceptron table. */
  ghost function Rows(t: array2<int>): seq<seq<int>>
    reads t
  {
    seq(t.Length0, i requires 0 <= i < t.Length0 reads t => RowOf(t, i))
  }

  /** `memset(perceptronTable, 0, ...)` leaves the weights of PerceptronScheme.Init. */
  lemma ZeroTableIsInit(t: array2<int>)
    requires t.Length0 == PerceptronScheme.NUM_PERCEPTRONS && t.Length1 == PerceptronScheme.HISTORY_LEN + 1
    requires forall i, j | 0 <= i < t.Length0 && 0 <= j < t.Length1 :: t[i, j] == 0
    ensures Rows(t) == PerceptronScheme.Init().weights
  {
    forall i | 0 <= i < t.Length0
      ensures RowOf(t, i) == PerceptronScheme.ZeroRow()
    {
      assert forall j | 0 <= j < t.Length1 :: RowOf(t, i)[j] == 0;
    }
  }

  /** The perceptron sum of row index over history h, accumulated bit by bit. */
  method PerceptronSum(t: array2<int>, index: nat, h: Word) returns (sum: int)
    requires index < t.Length0 && PerceptronScheme.IsRow(RowOf(t, index))
    ensures sum == PerceptronScheme.Sum(RowOf(t, index), h)
  {
    ghost var row := RowOf(t, index);
    sum := t[index, 0];
    for i := 0 to PerceptronScheme.HISTORY_LEN
      invariant sum == row[0] + PerceptronScheme.Dot(row, h, i)
    {
      var bit := Bit(h, i);
      sum := sum + t[index, i + 1] * (if bit != 0 then 1 else -1);
    }
  }

  /** The learning step on row index: the bias, then each history weight, each stepped only
      when the result stays within [-128, 127]. */
  method AdjustRow(t: array2<int>, index: nat, h: Word, target: int)
    requires index < t.Length0 && PerceptronScheme.IsRow(RowOf(t, index))
    requires target == 1 || target == -1
    modifies t
    ensures RowOf(t, index) == PerceptronScheme.Adjust(old(RowOf(t, index)), h, target)
    ensures forall r, j | 0 <= r < t.Length0 && 0 <= j < t.Length1 && r != index :: t[r, j] == old(t[r, j])
  {
    ghost var row := RowOf(t, index);
    ghost var adjusted := PerceptronScheme.Adjust(row, h, target);
    var bias := t[index, 0];
    if bias + target <= 127 && bias + target >= -128 {
      t[index, 0] := bias + target;
    }
    for i := 0 to PerceptronScheme.HISTORY_LEN
      invariant forall j | 0 <= j < t.Length1 :: t[index, j] == if j <= i then adjusted[j] else row[j]
      invariant forall r, j | 0 <= r < t.Length0 && 0 <= j < t.Length1 && r != index :: t[r, j] == old(t[r, j])
    {
      var bit := Bit(h, i);
      var direction := if bit != 0 then 1 else -1;
      var w := t[index, i + 1];
      assert adjusted[i + 1] == PerceptronScheme.Step(w, target * direction);
      if w + target * direction <= 127 && w + target * direction >= -128 {
        t[index, i + 1] := w + target * direction;
      }
    }
    assert RowOf(t, index) == adjusted;
  }

  /** The GShare section: `gshareTable` and `ghr`. */
  class GShareTables {
    const ghistoryBits: nat
    var ghr: Word
    const table: array<int>

    ghost function State(): GShareScheme.State
      reads this`ghr, table
    {
      GShareScheme.State(table[..], ghr)
    }

    ghost predicate Valid()
      reads this`ghr, table
    {
      GShareScheme.Valid(State(), ghistoryBits)
    }

    /** The gshare part of init_predictor: 2^ghistoryBits counters, all WN. */
    constructor (ghistoryBits: nat)
      requires ghistoryBits <= 30
      ensures this.ghistoryBits == ghistoryBits && fresh(table)
      ensures State() == GShareScheme.Init(ghistoryBits) && Valid()
    {
      var t := NewFilled(Pow2(ghistoryBits), WN);
      this.ghistoryBits := ghistoryBits;
      ghr := 0;
      table := t;
    }

    /** make_prediction for GSHARE. */
    method Predict(pc: Word) returns (d: Direction)
      requires Valid()
      ensures d == GShareScheme.Predict(State(), pc, ghistoryBits)
    {
      var index := GShareScheme.Index(pc, ghr, ghistoryBits);
      d := if table[index] >= WT then Taken else NotTaken;
    }

    /** train_predictor for GSHARE. */
    method Train(pc: Word, outcome: Direction)
      requires Valid()
      modifies this`ghr, table
      ensures State() == GShareScheme.Train(old(State()), pc, outcome, ghistoryBits)
      ensures Valid()
    {
      var index := GShareScheme.Index(pc, ghr, ghistoryBits);
      TrainCounter(table, index, outcome);
      ghr := ShiftIn(ghr, outcome, ghistoryBits);
    }
  }

  /** The Tournament section: `localHistoryTable`, `localPredictorTable`,
      `globalPredictorTable`, `chooserTable` and `globalHistory`. */
  class TournamentTables {
    const config: TournamentScheme.Config
    const localHistoryTable: array<Word>
    const localPredictorTable: array<int>
    const globalPredictorTable: array<int>
    const chooserTable: array<int>
    var globalHistory: Word

    ghost function State(): TournamentScheme.State
      reads this`globalHistory, localHistoryTable, localPredictorTable, globalPredictorTable, chooserTable
    {
      TournamentScheme.State(localHistoryTable[..], localPredictorTable[..],
                             globalPredictorTable[..], chooserTable[..], globalHistory)
    }

    /** The three counter tables are distinct arrays holding a valid tournament state. */
    ghost predicate Valid()
      reads this`globalHistory, localHistoryTable, localPredictorTable, globalPredictorTable, chooserTable
    {
      localPredictorTable != globalPredictorTable && localPredictorTable != chooserTable &&
      globalPredictorTable != chooserTable &&
      TournamentScheme.Valid(State(), config)
    }

    /** The tournament part of init_predictor: histories 0, every counter WN. */
    constructor (config: TournamentScheme.Config)
      requires config.Valid()
      ensures this.config == config
      ensures fresh(localHistoryTable) && fresh(localPredictorTable) &&
              fresh(globalPredictorTable) && fresh(chooserTable)
      ensures State() == TournamentScheme.Init(config) && Valid()
    {
      var localHistory := NewFilled(Pow2(config.pcIndexBits), 0);
      var localPredictor := NewFilled(Pow2(config.lhistoryBits), WN);
      var globalPredictor := NewFilled(Pow2(config.ghistoryBits), WN);
      var chooser := NewFilled(Pow2(config.ghistoryBits), WN);
      this.config := config;
      localHistoryTable, localPredictorTable := localHistory, localPredictor;
      globalPredictorTable, chooserTable := globalPredictor, chooser;
      globalHistory := 0;
    }

    /** The tables of a scheme that does not allocate them: empty, never read. */
    constructor Unallocated()
      ensures fresh(localHistoryTable) && fresh(localPredictorTable) &&
              fresh(globalPredictorTable) && fresh(chooserTable)
      ensures localHistoryTable.Length == 0 && localPredictorTable.Length == 0 &&
              globalPredictorTable.Length == 0 && chooserTable.Length == 0
    {
      config := TournamentScheme.Config(0, 0, 0);
      localHistoryTable := new Word[0];
      localPredictorTable := new int[0];
      globalPredictorTable := new int[0];
      chooserTable := new int[0];
      globalHistory := 0;
    }

    /** make_prediction for TOURNAMENT. */
    method Predict(pc: Word) returns (d: Direction)
      requires Valid()
      ensures d == TournamentScheme.Predict(State(), pc, config)
    {
      var pcIndex := TournamentScheme.PcIndex(pc, config);
      var lhist := localHistoryTable[pcIndex];
      var lpred := localPredictorTable[lhist];
      var gindex := globalHistory % Pow2(config.ghistoryBits);
      var gpred := globalPredictorTable[gindex];
      var choice := chooserTable[gindex];
      d := if choice >= WT then (if gpred >= WT then Taken else NotTaken)
           else (if lpred >= WT then Taken else NotTaken);
    }

    /** train_predictor for TOURNAMENT. */
    method Train(pc: Word, outcome: Direction)
      requires Valid()
      modifies this`globalHistory, localHistoryTable, localPredictorTable, globalPredictorTable, chooserTable
      ensures State() == TournamentScheme.Train(old(State()), pc, outcome, config)
      ensures Valid()
    {
      var pcIndex := TournamentScheme.PcIndex(pc, config);
      var lhist := localHistoryTable[pcIndex];
      var lpred := localPredictorTable[lhist];
      var gindex := globalHistory % Pow2(config.ghistoryBits);
      var gpred := globalPredictorTable[gindex];

      var localDecision := if lpred >= WT then Taken else NotTaken;
      var globalDecision := if gpred >= WT then Taken else NotTaken;

      TrainCounter(localPredictorTable, lhist, outcome);
      TrainCounter(globalPredictorTable, gindex, outcome);
      TrainChooser(chooserTable, gindex, localDecision, globalDecision, outcome);

      localHistoryTable[pcIndex] := ShiftIn(lhist, outcome, config.lhistoryBits);
      globalHistory := ShiftIn(globalHistory, outcome, config.ghistoryBits);
    }
  }

  /** The Custom section: `perceptronTable` and `perceptronHistory`. */
  class PerceptronTables {
    const table: array2<int>
    var history: Word

    ghost function State(): PerceptronScheme.State
      reads this`history, table
    {
      PerceptronScheme.State(Rows(table), history)
    }

    ghost predicate Valid()
      reads this`history, table
    {
      PerceptronScheme.Valid(State())
    }

    /** The zero-initialised static table and history (init_predictor's memset for CUSTOM
        leaves them as they are). */
    constructor ()
      ensures fresh(table)
      ensures State() == PerceptronScheme.Init() && Valid()
    {
      var t := new int[PerceptronScheme.NUM_PERCEPTRONS, PerceptronScheme.HISTORY_LEN + 1]((_, _) => 0);
      ZeroTableIsInit(t);
      table := t;
      history := 0;
    }

    /** make_prediction for CUSTOM. */
    method Predict(pc: Word) returns (d: Direction)
      requires Valid()
      ensures d == PerceptronScheme.Predict(State(), pc)
    {
      var index := PerceptronScheme.Index(pc);
      assert RowOf(table, index) == State().weights[index];
      var sum := PerceptronSum(table, index, history);
      d := if sum >= 0 then Taken else NotTaken;
    }

    /** train_predictor for CUSTOM. */
    method Train(pc: Word, outcome: Direction)
      requires Valid()
      modifies this`history, table
      ensures State() == PerceptronScheme.Train(old(State()), pc, outcome)
      ensures Valid()
    {
      var index := PerceptronScheme.Index(pc);
      ghost var before := State();
      ghost var expected := PerceptronScheme.Train(before, pc, outcome);
      assert RowOf(table, index) == before.weights[index];
      var sum := PerceptronSum(table, index, history);

      var prediction := if sum >= 0 then Taken else NotTaken;
      var target := if outcome == Taken then 1 else -1;

      if prediction != outcome || PerceptronScheme.Abs(sum) < PerceptronScheme.THRESHOLD {
        AdjustRow(table, index, history, target);
      }
      forall i | 0 <= i < PerceptronScheme.NUM_PERCEPTRONS
        ensures RowOf(table, i) == expected.weights[i]
      {
        if i != index {
          assert forall j | 0 <= j < table.Length1 :: RowOf(table, i)[j] == before.weights[i][j];
        }
      }
      assert Rows(table) == expected.weights;
      history := ShiftIn(history, outcome, PerceptronScheme.HISTORY_LEN);
    }
  }

  /** One predictor instance: `bpType`, the three bit widths, and the globals of every
      section. The gshare table is allocated for every scheme and the tournament tables for
      TOURNAMENT and CUSTOM, as init_predictor does; the perceptron table is static. */
  class BranchPredictor {
    const scheme: Scheme
    const ghistoryBits: nat
    const lhistoryBits: nat
    const pcIndexBits: nat
    const gshare: GShareTables
    const tournament: TournamentTables
    const perceptron: PerceptronTables

    function Config(): TournamentScheme.Config
    {
      TournamentScheme.Config(ghistoryBits, lhistoryBits, pcIndexBits)
    }

    /** Whether init_predictor allocates the tournament tables. */
    predicate HasTournamentTables()
    {
      scheme == Tournament || scheme == Custom
    }

    ghost predicate Valid()
      reads gshare, gshare.table, tournament, tournament.localHistoryTable,
            tournament.localPredictorTable, tournament.globalPredictorTable, tournament.chooserTable,
            perceptron, perceptron.table
    {
      ghistoryBits <= 30 &&
      gshare.ghistoryBits == ghistoryBits && gshare.Valid() &&
      gshare.table != tournament.localPredictorTable && gshare.table != tournament.globalPredictorTable &&
      gshare.table != tournament.chooserTable &&
      (HasTournamentTables() ==> tournament.config == Config() && tournament.Valid()) &&
      perceptron.Valid()
    }

    /** init_predictor for the given configuration. */
    constructor (scheme: Scheme, ghistoryBits: nat, lhistoryBits: nat, pcIndexBits: nat)
      requires ghistoryBits <= 30
      requires scheme == Tournament || scheme == Custom ==> lhistoryBits <= 30 && pcIndexBits <= 30
      ensures this.scheme == scheme && this.ghistoryBits == ghistoryBits &&
              this.lhistoryBits == lhistoryBits && this.pcIndexBits == pcIndexBits
      ensures gshare.State() == GShareScheme.Init(ghistoryBits)
      ensures HasTournamentTables() ==> tournament.State() == TournamentScheme.Init(Config())
      ensures perceptron.State() == PerceptronScheme.Init()
      ensures fresh(gshare) && fresh(gshare.table)
      ensures fresh(tournament) && fresh(tournament.localHistoryTable) &&
              fresh(tournament.localPredictorTable) && fresh(tournament.globalPredictorTable) &&
              fresh(tournament.chooserTable)
      ensures fresh(perceptron) && fresh(perceptron.table)
      ensures Valid()
    {
      var g := new GShareTables(ghistoryBits);
      var t;
      if scheme == Tournament || scheme == Custom {
        t := new TournamentTables(TournamentScheme.Config(ghistoryBits, lhistoryBits, pcIndexBits));
      } else {
        t := new TournamentTables.Unallocated();
      }
      var p := new PerceptronTables();
      this.scheme := scheme;
      this.ghistoryBits := ghistoryBits;
      this.lhistoryBits := lhistoryBits;
      this.pcIndexBits := pcIndexBits;
      gshare, tournament, perceptron := g, t, p;
    }

    /** make_prediction: consults the configured scheme and changes nothing. */
    method Predict(pc: Word) returns (d: Direction)
      requires Valid()
      ensures scheme == Static ==> d == Taken
      ensures scheme == GShare ==> d == GShareScheme.Predict(gshare.State(), pc, ghistoryBits)
      ensures scheme == Tournament ==> d == TournamentScheme.Predict(tournament.State(), pc, Config())
      ensures scheme == Custom ==> d == PerceptronScheme.Predict(perceptron.State(), pc)
    {
      match scheme
      case Static =>
        d := Taken;
      case GShare =>
        d := gshare.Predict(pc);
      case Tournament =>
        d := tournament.Predict(pc);
      case Custom =>
        d := perceptron.Predict(pc);
    }

    /** train_predictor: trains the configured scheme on the resolved outcome. STATIC is a
        no-op, and no scheme touches another section's globals. */
    method Train(pc: Word, outcome: Direction)
      requires Valid()
      modifies gshare, gshare.table, tournament, tournament.localHistoryTable,
               tournament.localPredictorTable, tournament.globalPredictorTable, tournament.chooserTable,
               perceptron, perceptron.table
      ensures scheme == GShare ==>
                gshare.State() == GShareScheme.Train(old(gshare.State()), pc, outcome, ghistoryBits)
      ensures scheme == Tournament ==>
                tournament.State() == TournamentScheme.Train(old(tournament.State()), pc, outcome, Config())
      ensures scheme == Custom ==>
                perceptron.State() == PerceptronScheme.Train(old(perceptron.State()), pc, outcome)
      ensures scheme != GShare ==> unchanged(gshare, gshare.table)
      ensures scheme != Tournament ==>
                unchanged(tournament, tournament.localHistoryTable, tournament.localPredictorTable,
                          tournament.globalPredictorTable, tournament.chooserTable)
      ensures scheme != Custom ==> unchanged(perceptron, perceptron.table)
      ensures Valid()
    {
      match scheme
      case Static =>
      case GShare =>
        gshare.Train(pc, outcome);
      case Tournament =>
        tournament.Train(pc, outcome);
      case Custom =>
        perceptron.Train(pc, outcome);
    }
  }
}
