# Branch direction predictor — Dafny model

This project models the predictor core of a trace-driven branch predictor (`src/predictor.c`):
`init_predictor`, `make_prediction` and `train_predictor` for the four schemes selected by
`bpType`:

- **Static**: always predicts taken and never trains.
- **GShare**: 2^ghistoryBits two-bit saturating counters indexed by `(pc ^ ghr)` masked to
  ghistoryBits bits, with a ghistoryBits-bit global history register `ghr`.
- **Tournament**: a per-address local history table (2^pcIndexBits entries of lhistoryBits
  bits) selecting from a local counter table, a global counter table and a chooser table
  indexed by the ghistoryBits-bit `globalHistory`. The chooser picks the global counter's
  direction in its upper two states and learns only when the two components disagree.
- **Custom (perceptron)**: 256 rows of 29 signed 8-bit weights (a bias and one weight per
  history bit) and a 28-bit `perceptronHistory`. The prediction is the sign of the bias plus
  each history weight counted positive for a 1 bit and negative for a 0 bit. Training fires on
  a misprediction or when |sum| < 50, and each weight step is skipped, not clamped, when it
  would leave [-128, 127].

Layout:

- `bits.dfy` (module `Bits`): `uint32_t` words, `1 << k`, masks, bit tests and XOR on
  unbounded integers, with the lemmas connecting them.
- `branch.dfy` (module `Branch`): the TAKEN = 1 / NOTTAKEN = 0 direction, the counter states
  SN = 0, WN = 1, WT = 2, ST = 3 and the saturating counter update.
- `shift_register.dfy` (module `ShiftRegister`): the masked history shift `((h << 1) | outcome)
  & ((1 << k) - 1)` and what a run of outcomes leaves in a register.
- `gshare.dfy`, `tournament.dfy`, `perceptron.dfy`: each scheme as a state machine over
  values (`Init`, `Predict`, `Train`), with the properties of that scheme proved as lemmas.
- `predictor.dfy` (module `Predictor`): the imperative model. Each section of globals in the
  source is a class whose tables are arrays updated in place (`GShareTables`,
  `TournamentTables`, `PerceptronTables`). Each class's constructor, `Predict` and `Train`
  are proved against its scheme's value-level `Init`, `Predict` and `Train`. `BranchPredictor`
  holds `bpType`, the three bit widths and one object per section. Its constructor is
  `init_predictor`, and its `Predict` and `Train` dispatch on the scheme.

Modelling choices:

- `x & ((1 << k) - 1)` is `x % 2^k`. `(x >> i) & 1` is `Bits.Bit`, which halves x i times.
  `Bits.BitIsShift` proves this equals `(x / 2^i) % 2`. `a ^ b` is `Bits.Xor`, defined bit by bit.
- `(h << 1) | outcome` is modelled on a 32-bit register: the shift wraps at 2^32 before the
  mask. The shifted value's low bit is 0, so the OR adds the outcome.
- Directions are a datatype, so an outcome other than 0 or 1 cannot be passed. The scheme is a
  datatype as well, so the `default:` branches cannot be reached.
- Allocation follows `init_predictor`. The gshare table is allocated and filled with WN for
  every scheme. The tournament tables are allocated for TOURNAMENT and CUSTOM. For the other
  schemes they are empty arrays that nothing reads. The perceptron table is the zeroed
  static table for every scheme.

Behaviour of the code worth noting, which the model follows:

- Static still allocates the gshare table and fills it with WN. CUSTOM allocates and fills the
  tournament tables as well as using the perceptron table.
- A bit width of 0 is accepted at init: a 0-bit register is always 0 and its table has one
  entry.
- A perceptron bias step that would cross -128 or 127 is skipped, so a wrong prediction does
  not always move the bias by ±1. `PerceptronScheme.TrainRow` states this rule.
- From init, a gshare address that always resolves one way is predicted that way after
  2^ghistoryBits + 1 rounds (`GShareScheme.ConvergesFromInit`). From any valid state,
  ghistoryBits + 2 rounds are enough (`GShareScheme.Converges`).

## Model

| member | source | states |
|---|---|---|
| Bits.Pow2 | src/predictor.c:35 | `1 << k` is at least 1, so every table has at least one entry |
| Bits.Pow2FitsWord | src/predictor.c:35-42 | every table size `1 << n` with n <= 30 is at most 2^30, so it fits a `uint32_t` |
| Bits.Bit | src/predictor.c:88 | `(x >> i) & 1` is 0 or 1 |
| Bits.BitIsShift | src/predictor.c:88 | halving x i times and taking the low bit equals `(x / 2^i) % 2`, which is `(x >> i) & 1` for unsigned x |
| Bits.Xor | src/predictor.c:67 | `a ^ b` is at most a + b, and it is 0 exactly when a == b |
| Bits.XorBits | src/predictor.c:67 | bit i of `a ^ b` is 1 exactly when bit i of a and bit i of b differ |
| Bits.BitOfMod | src/predictor.c:106 | masking with `(1 << k) - 1` keeps bits below k and clears every bit from k up |
| Branch.Direction.Bit | src/predictor.c:106 | the value OR'd into a history register is 0 or 1, and 1 exactly for TAKEN |
| Branch.Table | src/predictor.c:37 | a filled table has the given size, and every entry holds the fill value |
| Branch.ToDirection | src/predictor.c:118-119 | `c >= WT ? TAKEN : NOTTAKEN`: a counter in [SN, ST] predicts taken exactly in its two upper states, WT and ST |
| Branch.Increment | src/predictor.c:104 | `if (c < ST) c++` stays in [SN, ST], rises by at most one, and is unchanged exactly at ST |
| Branch.Decrement | src/predictor.c:105 | `if (c > SN) c--` stays in [SN, ST], falls by at most one, and is unchanged exactly at SN |
| Branch.Update | src/predictor.c:104-105 | a trained counter stays in [SN, ST] and moves only towards the outcome. It is unchanged exactly when already saturated towards that outcome |
| Branch.Saturated | src/predictor.c:68 | the extreme state for an outcome (ST for taken, SN for not taken) predicts that outcome |
| Branch.UpdateKeepsCorrectDirection | src/predictor.c:68 | a counter that predicts the outcome still predicts it after training on it |
| Branch.SaturatedSurvivesOneMiss | src/predictor.c:104-105 | a saturated counter keeps its prediction after one contrary outcome and flips after two |
| Branch.UpdateN | src/predictor.c:104-105 | any number of trainings keeps a counter in [SN, ST] |
| Branch.UpdateNDistance | src/predictor.c:104-105 | each identical outcome brings a counter one step closer to saturation, until it gets there |
| Branch.UpdateNDecides | src/predictor.c:104-105 | two or more identical outcomes make any counter predict that outcome |
| Branch.UpdateNSaturates | src/predictor.c:104-105 | three or more identical outcomes drive any counter to the extreme state for that outcome |
| ShiftRegister.ShiftIn | src/predictor.c:106 | the masked shift always leaves a k-bit value, below 2^k |
| ShiftRegister.ShiftInBits | src/predictor.c:134-135 | after a shift, bit 0 is the outcome, bit i is the old bit i - 1, and bits from k up are 0 |
| ShiftRegister.RunHoldsLastOutcomes | src/predictor.c:106 | after a run of shifts, bit i holds the outcome i + 1 branches back, or an older bit of the start value |
| ShiftRegister.RunFills | src/predictor.c:106 | k identical outcomes in a row leave the k-bit register all 0 or all 1, whatever it held |
| GShareScheme.Init | src/predictor.c:35-37 | the initial state is valid, every counter is WN (predicting not taken), and ghr is 0, the value its declaration at line 16 gives it |
| GShareScheme.Index | src/predictor.c:67 | the gshare index is always a valid table index |
| GShareScheme.Predict | src/predictor.c:66-68 | the prediction is taken exactly when the counter at Index(pc, ghr) is WT or ST |
| GShareScheme.Train | src/predictor.c:102-108 | training keeps the state valid, with every counter in [SN, ST] and ghr below 2^ghistoryBits. Only the counter at the index Predict used changes, by one counter update. The new ghr is the old one with the outcome shifted in, so the outcome lands in bit 0 |
| GShareScheme.Repeat | src/predictor.c:102-108 | any number of training rounds keeps the gshare state valid |
| GShareScheme.RepeatHistory | src/predictor.c:106 | after n rounds with one outcome, ghr is the start value with n copies of that outcome shifted in |
| GShareScheme.FilledIsFixed | src/predictor.c:106 | shifting an outcome into a register already full of it changes nothing |
| GShareScheme.TrainFromFilled | src/predictor.c:103-106 | with ghr full of the outcome, a round keeps ghr and trains the counter that ghr selects |
| GShareScheme.RepeatAfterFill | src/predictor.c:102-108 | from round ghistoryBits on, ghr stays full of the outcome and every round trains the same counter |
| GShareScheme.Converges | src/predictor.c:66-68 | an address that always resolves one way is predicted that way after ghistoryBits + 2 rounds, and its counter is saturated after ghistoryBits + 3 |
| GShareScheme.RepeatApproaches | src/predictor.c:104-105 | training with one outcome never moves any counter away from that outcome |
| GShareScheme.ConvergesFromInit | src/predictor.c:35-37 | from init, after 2^ghistoryBits + 1 rounds with one outcome, the address's counter is saturated and predicts that outcome |
| TournamentScheme.Init | src/predictor.c:39-53 | the initial state is valid, all local histories and the global history are 0, and every counter is WN |
| TournamentScheme.PcIndex | src/predictor.c:72 | the masked address is always a valid local history slot |
| TournamentScheme.GlobalIndex | src/predictor.c:75 | the masked global history is always a valid global and chooser index |
| TournamentScheme.LocalDecision | src/predictor.c:72-74 | the local decision is taken exactly when the local counter selected by the address's local history is WT or ST |
| TournamentScheme.GlobalDecision | src/predictor.c:75-76 | the global decision is taken exactly when the global counter selected by the masked global history is WT or ST |
| TournamentScheme.Choose | src/predictor.c:79-80 | the prediction is one of the two components' decisions. When they disagree it is the global one exactly when the chooser is at least WT |
| TournamentScheme.Predict | src/predictor.c:71-81 | the prediction is the local or the global decision. When they disagree it is the global one exactly when the chooser at the global index is WT or ST |
| TournamentScheme.ChooserUpdate | src/predictor.c:127-132 | the chooser stays in [SN, ST]. It is unchanged when the components agree, and otherwise steps towards global if global was right and towards local if local was right |
| TournamentScheme.ChooserFollowsWinner | src/predictor.c:127-132 | after a disagreement the chooser never stops selecting the component that was right, and a weak chooser starts selecting it |
| TournamentScheme.Train | src/predictor.c:110-137 | training keeps the state valid, so counters stay in [SN, ST] and histories stay within their widths and are valid indices. The local and global counters Predict read each take one update. The chooser changes only at the global index, only on disagreement, and by one step towards the component that was right. Only the address's local history changes. It and the global history each get the outcome shifted in, so the outcome lands in bit 0 of both |
| PerceptronScheme.Init | src/predictor.c:56-57 | the initial state is valid, every weight is 0 and the history is 0 |
| PerceptronScheme.Index | src/predictor.c:84 | `pc % 256` is always a valid row |
| PerceptronScheme.Polarity | src/predictor.c:89 | `bit ? 1 : -1`: a history bit counts as +1 exactly when it is 1, and as -1 when it is 0 |
| PerceptronScheme.Dot | src/predictor.c:87-90 | for a row of 8-bit weights, the history weights' contribution over n bits is within ±128·n |
| PerceptronScheme.Sum | src/predictor.c:85-90 | the sum is within ±128·29, so the `int32_t` accumulator cannot overflow |
| PerceptronScheme.Target | src/predictor.c:149 | the target is ±1, and positive exactly for a taken outcome |
| PerceptronScheme.Output | src/predictor.c:92 | a non-negative sum predicts taken and a negative one not taken, so a zero sum counts as taken |
| PerceptronScheme.Learns | src/predictor.c:152 | a row learns on every misprediction and whenever \|sum\| < 50. It does not learn when the prediction is right and \|sum\| >= 50, so it learns exactly in those two cases |
| PerceptronScheme.Step | src/predictor.c:159-161 | a guarded step keeps the weight in [-128, 127]. It applies exactly when the result is in range and is skipped otherwise, never clamped |
| PerceptronScheme.Adjust | src/predictor.c:153-163 | after a learning step the row is still valid. The bias moves by exactly the target when that stays in range and is unchanged otherwise. Each history weight moves by target times its bit's sign (+1 for a 1 bit, -1 for a 0 bit) exactly when the result stays in range, and is unchanged otherwise |
| PerceptronScheme.StepMovesTerm | src/predictor.c:159-161 | one weight step moves that weight's contribution by the target, or by 0 when skipped |
| PerceptronScheme.AdjustMovesDot | src/predictor.c:156-163 | learning moves the history contribution towards the target by between 0 and n, and by exactly n when no weight is at the bound it would cross |
| PerceptronScheme.AdjustMovesSum | src/predictor.c:152-163 | learning moves the sum towards the target by between 0 and 29, and by exactly 29 when no weight is at a bound |
| PerceptronScheme.TrainRow | src/predictor.c:148-163 | a trained row stays valid. It is unchanged unless the prediction was wrong or \|sum\| < 50. When it learns, it is the learning step Adjust towards the outcome's target, so the bias moves by exactly the target when it has room |
| PerceptronScheme.Predict | src/predictor.c:83-93 | the prediction is taken exactly when the sum of row pc % 256 over the current history is non-negative |
| PerceptronScheme.Train | src/predictor.c:139-167 | training keeps every weight in [-128, 127] and the history below 2^28. Only row pc % 256 changes, trained against the history Predict used. The new history is the old one with the outcome shifted in, so the outcome lands in bit 0 |
| PerceptronScheme.ZeroRowDot | src/predictor.c:87-90 | a row of zero weights contributes 0 whatever the history |
| PerceptronScheme.InitPredictsTaken | src/predictor.c:92 | right after init every address is predicted taken (sum 0 counts as taken) |
| PerceptronScheme.ConfidentCorrectKeepsWeights | src/predictor.c:152 | a correct prediction with \|sum\| >= 50 leaves the whole weight table unchanged |
| Predictor.NewFilled | src/predictor.c:49-52 | a freshly allocated table whose entries all hold the fill value |
| Predictor.TrainCounter | src/predictor.c:121-125 | the guarded `++`/`--` on one table entry applies the counter update to that entry and changes no other |
| Predictor.TrainChooser | src/predictor.c:127-132 | the in-place chooser update applies ChooserUpdate to the entry and changes no other |
| Predictor.ZeroTableIsInit | src/predictor.c:56 | an all-zero weight table is the initial perceptron table |
| Predictor.PerceptronSum | src/predictor.c:141-146 | the 28-step accumulation loop computes the perceptron sum of the row |
| Predictor.AdjustRow | src/predictor.c:153-163 | the in-place guarded bias and weight loop leaves the row as the learning step defines it. Every other row is unchanged |
| Predictor.GShareTables.constructor | src/predictor.c:35-37 | the table is allocated and filled to the initial gshare state |
| Predictor.GShareTables.Predict | src/predictor.c:66-68 | the prediction is the gshare prediction of the current state |
| Predictor.GShareTables.Train | src/predictor.c:102-107 | the new table and ghr are the gshare training of the old state, and stay valid |
| Predictor.TournamentTables.constructor | src/predictor.c:39-53 | the four tables are allocated and filled to the initial tournament state |
| Predictor.TournamentTables.Unallocated | src/predictor.c:39 | for STATIC and GSHARE, which allocate no tournament tables, the four tables are fresh and empty, and nothing reads them |
| Predictor.TournamentTables.Predict | src/predictor.c:71-81 | the prediction is the tournament prediction of the current state |
| Predictor.TournamentTables.Train | src/predictor.c:110-136 | the new tables and history are the tournament training of the old state, and stay valid |
| Predictor.PerceptronTables.constructor | src/predictor.c:55-58 | the zeroed table and history are the initial perceptron state |
| Predictor.PerceptronTables.Predict | src/predictor.c:83-93 | the prediction is the perceptron prediction of the current state |
| Predictor.PerceptronTables.Train | src/predictor.c:139-167 | the new weights and history are the perceptron training of the old state, and stay valid |
| Predictor.BranchPredictor.constructor | src/predictor.c:34-59 | init_predictor leaves a valid predictor. The gshare state is initial for every scheme, the tournament state is initial for TOURNAMENT and CUSTOM, and the perceptron state is initial. The three section objects and all their tables are freshly allocated, so the caller may train the new predictor |
| Predictor.BranchPredictor.Predict | src/predictor.c:61-98 | STATIC predicts taken, and every other scheme predicts with its own state. No state changes |
| Predictor.BranchPredictor.Train | src/predictor.c:100-173 | the configured scheme's state becomes its training of the old state. Every other section, and everything for STATIC, is unchanged. The predictor stays valid |

## Left out

- `bpName` and `verbose` (src/predictor.c:7, 13): display strings and a reporting flag that no
  predictor operation reads.
- The trace-replay harness, configuration parsing and statistics: `main.c` and
  `predictor.h` are not part of this model. The constants they fix (TAKEN = 1, NOTTAKEN = 0,
  SN..ST = 0..3) are taken from how `src/predictor.c` uses them.
- `malloc` failure: allocation is Dafny's `new`, which cannot fail.
- Predictor.BranchPredictor.constructor: the widths are `nat`, so negative widths, which the
  source's `int` globals (src/predictor.c:9-11) would allow, are not modelled. A negative shift
  count in `1 << n` is undefined behaviour as well. The constructor requires ghistoryBits to be
  at most 30 for every scheme. For TOURNAMENT and CUSTOM it also requires lhistoryBits and
  pcIndexBits to be at most 30. These are exactly the widths `init_predictor` uses as shift counts in `1 << n`, and for
  n >= 31 that shift is undefined behaviour in the source, so the model leaves those inputs
  out.
- Unrecognised `bpType` values and the `default:` branches (src/predictor.c:95-96, 170-171):
  the scheme is a datatype, so these branches cannot be reached.
- Outcome values other than 0 and 1: the outcome is a two-valued datatype.
- Counters are unbounded integers kept in [SN, ST] by invariant, not `uint8_t`. Weights are
  integers kept in [-128, 127], not `int8_t`. The invariants show that no narrowing ever
  happens.
- Pointer aliasing between tables is not modelled beyond what the code relies on: the
  tables are distinct arrays, and this is stated in the class invariants.
- The perceptron table is zeroed once: `memset` for CUSTOM (src/predictor.c:55-58), and static
  zero initialisation otherwise. The model starts every scheme with the zero table, which is
  the same state.
