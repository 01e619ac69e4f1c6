/** The history registers (`ghr`, `globalHistory`, `perceptronHistory` and each entry of
    `localHistoryTable`): k-bit shift registers with the most recent outcome in bit 0. */
module ShiftRegister {
  import opened Bits
  import opened Branch

  /** `((h << 1) | outcome) & ((1 << k) - 1)` on a `uint32_t` register. The shift wraps at
      32 bits; its low bit is 0, so OR-ing in the outcome adds it. */
  function ShiftIn(h: Word, outcome: Direction, k: nat): (r: Word)
    requires k <= 30
    ensures r < Pow2(k)
  {
    Pow2FitsWord(k);
    ((2 * h) % 0x1_0000_0000 + outcome.Bit()) % Pow2(k)
  }

  /** Shifting in an outcome puts it in bit 0, moves every older bit up by one and drops
      what reaches bit k. */
  lemma ShiftInBits(h: Word, outcome: Direction, k: nat, i: nat)
    requires k <= 30
    ensures Bit(ShiftIn(h, outcome, k), i) ==
              if i >= k then 0 else if i == 0 then outcome.Bit() else Bit(h, i - 1)
  {
    Pow2Values();
    Pow2FitsWord(k);
    var low := h % 0x8000_0000;
    var shifted := 2 * low + outcome.Bit();
    DivModUnique(2 * h, 0x1_0000_0000, h / 0x8000_0000, 2 * low);
    DivModUnique(shifted, 2, low, outcome.Bit());
    BitOfMod(shifted, k, i);
    if 0 < i < k {
      BitOfMod(h, 31, i - 1);
    }
  }

  /** The register after the outcomes are shifted in, oldest first. */
  function Run(h: Word, outcomes: seq<Direction>, k: nat): (r: Word)
    requires k <= 30
  {
    if |outcomes| == 0 then h
    else ShiftIn(Run(h, outcomes[..|outcomes| - 1], k), outcomes[|outcomes| - 1], k)
  }

  /** Bit i of the register is the outcome i + 1 branches ago; once fewer than i + 1 outcomes
      have been shifted in, it is an older bit of the starting value. */
  lemma {:induction false} RunHoldsLastOutcomes(h: Word, outcomes: seq<Direction>, k: nat, i: nat)
    requires k <= 30 && i < k
    ensures Bit(Run(h, outcomes, k), i) ==
              if i < |outcomes| then outcomes[|outcomes| - 1 - i].Bit() else Bit(h, i - |outcomes|)
  {
    if |outcomes| > 0 {
      var n := |outcomes|;
      ShiftInBits(Run(h, outcomes[..n - 1], k), outcomes[n - 1], k, i);
      if i > 0 {
        RunHoldsLastOutcomes(h, outcomes[..n - 1], k, i - 1);
      }
    }
  }

  /** The register value made of k copies of one outcome: 0 or 2^k - 1. */
  function Filled(outcome: Direction, k: nat): (r: Word)
    requires k <= 30
    ensures r < Pow2(k)
  {
    Pow2FitsWord(k);
    outcome.Bit() * (Pow2(k) - 1)
  }

  /** k identical outcomes in a row fill the register with that outcome, whatever it held. */
  lemma RunFills(h: Word, outcome: Direction, n: nat, k: nat)
    requires k <= 30 && h < Pow2(k) && n >= k
    ensures Run(h, seq(n, _ => outcome), k) == Filled(outcome, k)
  {
    var outcomes := seq(n, _ => outcome);
    var r := Run(h, outcomes, k);
    forall i | 0 <= i < k
      ensures Bit(r, i) == outcome.Bit()
    {
      RunHoldsLastOutcomes(h, outcomes, k, i);
    }
    if n > 0 {
      assert r == ShiftIn(Run(h, outcomes[..n - 1], k), outcome, k);
    }
    AllBitsEqual(r, k, outcome.Bit());
  }
}
