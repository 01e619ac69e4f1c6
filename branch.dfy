/** Branch outcomes and the 2-bit saturating counter shared by the gshare and tournament
    tables. The constants are those of the predictor header: NOTTAKEN = 0, TAKEN = 1 and
    the counter states SN = 0, WN = 1, WT = 2, ST = 3. */
module Branch {

  /** The resolved (or predicted) direction of a conditional branch. */
  datatype Direction = NotTaken | Taken
  {
    /** The value the source ORs into a history register: TAKEN == 1, NOTTAKEN == 0. */
    function Bit(): (b: nat)
      ensures b <= 1
      ensures b == 1 <==> this == Taken
    {
      if Taken? then 1 else 0
    }
  }

  const SN := 0  // strongly not taken
  const WN := 1  // weakly not taken
  const WT := 2  // weakly taken
  const ST := 3  // strongly taken

  predicate IsCounter(c: int)
  {
    SN <= c <= ST
  }

  /** Every counter of a table is within [SN, ST]. */
  predicate AllCounters(table: seq<int>)
  {
    forall i | 0 <= i < |table| :: IsCounter(table[i])
  }

  /** A table of n entries all equal to v, as init_predictor's fill loops leave it. */
  function Table<T>(n: nat, v: T): (t: seq<T>)
    ensures |t| == n && forall i | 0 <= i < n :: t[i] == v
  {
    seq(n, _ => v)
  }

  /** A counter predicts taken in its two upper states. */
  function ToDirection(c: int): (d: Direction)
    ensures IsCounter(c) ==> (d == Taken <==> c == WT || c == ST)
  {
    if c >= WT then Taken else NotTaken
  }

  /** `if (c < ST) c++`: one step up, stopping at ST instead of wrapping. */
  function Increment(c: int): (r: int)
    requires IsCounter(c)
    ensures IsCounter(r)
    ensures c <= r <= c + 1
    ensures r == c <==> c == ST
  {
    if c < ST then c + 1 else c
  }

  /** `if (c > SN) c--`: one step down, stopping at SN instead of wrapping. */
  function Decrement(c: int): (r: int)
    requires IsCounter(c)
    ensures IsCounter(r)
    ensures c - 1 <= r <= c
    ensures r == c <==> c == SN
  {
    if c > SN then c - 1 else c
  }

  /** The counter trained with one outcome: towards ST on taken, towards SN on not taken. */
  function Update(c: int, outcome: Direction): (r: int)
    requires IsCounter(c)
    ensures IsCounter(r)
    ensures outcome == Taken ==> c <= r
    ensures outcome == NotTaken ==> r <= c
    ensures r == c <==> c == Saturated(outcome)
  {
    if outcome == Taken then Increment(c) else Decrement(c)
  }

  /** The state a counter reaches after enough identical outcomes. */
  function Saturated(outcome: Direction): (c: int)
    ensures IsCounter(c) && ToDirection(c) == outcome
  {
    match outcome
    case Taken => ST
    case NotTaken => SN
  }

  /** A counter that already predicts the outcome keeps predicting it after training. */
  lemma UpdateKeepsCorrectDirection(c: int, outcome: Direction)
    requires IsCounter(c) && ToDirection(c) == outcome
    ensures ToDirection(Update(c, outcome)) == outcome
  {
  }

  /** Hysteresis: a saturated counter needs two contrary outcomes to change its prediction. */
  lemma SaturatedSurvivesOneMiss(outcome: Direction, other: Direction)
    requires other != outcome
    ensures ToDirection(Update(Saturated(outcome), other)) == outcome
    ensures ToDirection(Update(Update(Saturated(outcome), other), other)) == other
  {
  }

  /** The counter after n identical training outcomes. */
  function UpdateN(c: int, outcome: Direction, n: nat): (r: int)
    requires IsCounter(c)
    ensures IsCounter(r)
  {
    if n == 0 then c else Update(UpdateN(c, outcome, n - 1), outcome)
  }

  /** How many more training steps with outcome a counter needs to saturate. */
  function Distance(c: int, outcome: Direction): (d: nat)
    requires IsCounter(c)
    ensures d <= ST - SN
    ensures d == 0 <==> c == Saturated(outcome)
  {
    if outcome == Taken then ST - c else c - SN
  }

  /** Each identical outcome brings a counter one step closer to saturation, until it gets there. */
  lemma {:induction false} UpdateNDistance(c: int, outcome: Direction, n: nat)
    requires IsCounter(c)
    ensures Distance(UpdateN(c, outcome, n), outcome) == if n >= Distance(c, outcome) then 0 else Distance(c, outcome) - n
  {
    if n > 0 {
      UpdateNDistance(c, outcome, n - 1);
    }
  }

  /** Two identical outcomes make any counter predict that outcome, and further ones keep it so. */
  lemma {:induction false} UpdateNDecides(c: int, outcome: Direction, n: nat)
    requires IsCounter(c) && n >= 2
    ensures ToDirection(UpdateN(c, outcome, n)) == outcome
  {
    if n > 2 {
      UpdateNDecides(c, outcome, n - 1);
    } else {
      assert UpdateN(c, outcome, 1) == Update(c, outcome);
    }
  }

  /** Three identical outcomes drive any counter to saturation, and it stays there. */
  lemma {:induction false} UpdateNSaturates(c: int, outcome: Direction, n: nat)
    requires IsCounter(c) && n >= 3
    ensures UpdateN(c, outcome, n) == Saturated(outcome)
  {
    UpdateNDistance(c, outcome, n);
  }
}
