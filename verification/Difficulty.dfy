/** Difficulty adjustment and the difficulty history of a chain. */
module Difficulty {
  import opened Header
  import opened ProofOfWork
  import opened Chains

  const BLOCK_GENERATION_INTERVAL: int := 10
  const ADJUSTMENT_INTERVAL: int := 10
  const EXPECTED_TIME: int := ADJUSTMENT_INTERVAL * BLOCK_GENERATION_INTERVAL * NANOS_PER_SECOND
  const MIN_BITS: int := 8
  const MAX_BITS: int := 32

  function Times(chain: Chain): (r: seq<int>)
    ensures |r| == |chain|
  {
    seq(|chain|, i requires 0 <= i < |chain| => chain[i].header.timestamp)
  }

  /** adjustDifficulty, given the timestamps of the blocks so far. */
  function Adjusted(bits: uint32, times: seq<int>): uint32 {
    var n := |times|;
    if n % ADJUSTMENT_INTERVAL != 0 || n < ADJUSTMENT_INTERVAL then bits
    else
      var timeTaken := times[n - 1] - times[n - ADJUSTMENT_INTERVAL];
      if 2 * timeTaken < EXPECTED_TIME then (if bits < MAX_BITS then bits + 1 else bits)
      else if timeTaken > 2 * EXPECTED_TIME then (if bits > MIN_BITS then bits - 1 else bits)
      else bits
  }

  /** In full: at every tenth block, ten blocks in less than half the expected 100 seconds add a bit, up to 32, and ten
      blocks in more than twice that take one away, down to 8; otherwise nothing changes. */
  lemma AdjustedMeans(bits: uint32, times: seq<int>)
    ensures |times| < 10 || |times| % 10 != 0 ==> Adjusted(bits, times) == bits
    ensures |times| >= 10 && |times| % 10 == 0 ==>
      var taken := times[|times| - 1] - times[|times| - 10];
      (Adjusted(bits, times) == bits + 1 <==> taken < 50_000_000_000 && bits < 32) &&
      (Adjusted(bits, times) == bits - 1 <==> taken > 200_000_000_000 && bits > 8) &&
      bits - 1 <= Adjusted(bits, times) <= bits + 1
  {
  }

  /** In particular fast blocks lift the lowest difficulty, and slow ones lower the highest. */
  lemma BoundsAreLeft(fast: seq<int>, slow: seq<int>)
    requires |fast| == |slow| == 10 && fast[9] - fast[0] < 50_000_000_000 && slow[9] - slow[0] > 200_000_000_000
    ensures Adjusted(8, fast) == 9 && Adjusted(32, fast) == 32 && Adjusted(32, slow) == 31 && Adjusted(8, slow) == 8
  {
  }

  /** The difficulty block i should have, recomputed from the timestamps of blocks 0..i-1 alone. */
  function DifficultyAt(times: seq<int>, i: nat): uint32
    requires i <= |times|
  {
    if i == 0 then DEFAULT_TARGET_BITS else Adjusted(DifficultyAt(times, i - 1), times[..i])
  }

  /** The kept difficulty agrees with the recomputation, for every block and for the next one. */
  predicate HistoryOk(chain: Chain, bits: uint32) {
    && |chain| > 0
    && (forall i :: 0 <= i < |chain| ==> chain[i].header.difficultyTarget == DifficultyAt(Times(chain), i))
    && bits == DifficultyAt(Times(chain), |chain| - 1)
  }

  lemma {:induction false} DifficultyLooksBack(times: seq<int>, more: seq<int>, i: nat)
    requires i <= |times|
    ensures DifficultyAt(times + more, i) == DifficultyAt(times, i)
    decreases i
  {
    if i > 0 {
      DifficultyLooksBack(times, more, i - 1);
      assert (times + more)[..i] == times[..i];
    }
  }

  /** Appending a block mined at the adjusted difficulty keeps the history right. */
  lemma AppendKeepsHistory(chain: Chain, bits: uint32, b: BlockV)
    requires HistoryOk(chain, bits)
    requires b.header.difficultyTarget == Adjusted(bits, Times(chain))
    ensures HistoryOk(chain + [b], Adjusted(bits, Times(chain)))
  {
    var times, more := Times(chain), [b.header.timestamp];
    assert Times(chain + [b]) == times + more;
    assert (times + more)[..|chain|] == times;
    forall i: nat | i < |chain| ensures DifficultyAt(times + more, i) == DifficultyAt(times, i) {
      DifficultyLooksBack(times, more, i);
    }
  }

  lemma {:induction false} DifficultyInRange(times: seq<int>, i: nat)
    requires i <= |times|
    ensures MIN_BITS <= DifficultyAt(times, i) <= MAX_BITS
  {
    if i > 0 {
      DifficultyInRange(times, i - 1);
    }
  }

  predicate BitsInRange(bits: int) {
    MIN_BITS <= bits <= MAX_BITS
  }

  lemma AdjustedInRange(bits: uint32, times: seq<int>)
    requires BitsInRange(bits)
    ensures BitsInRange(Adjusted(bits, times))
  {
  }

  lemma DifficultyMovesAtIntervals(times: seq<int>, i: nat)
    requires 0 < i <= |times|
    ensures -1 <= DifficultyAt(times, i) - DifficultyAt(times, i - 1) <= 1
    ensures i % ADJUSTMENT_INTERVAL != 0 ==> DifficultyAt(times, i) == DifficultyAt(times, i - 1)
  {
  }

  /** Two blocks differ by at most the number of interval boundaries between them. */
  lemma {:induction false} DifficultyDrift(times: seq<int>, i: nat, j: nat)
    requires i <= j <= |times|
    ensures var boundaries := j / ADJUSTMENT_INTERVAL - i / ADJUSTMENT_INTERVAL;
      -boundaries <= DifficultyAt(times, j) - DifficultyAt(times, i) <= boundaries
    decreases j
  {
    if i < j {
      DifficultyDrift(times, i, j - 1);
      DifficultyMovesAtIntervals(times, j);
    }
  }

  /** The time the last interval took. */
  function Taken(times: seq<int>): int
    requires |times| >= ADJUSTMENT_INTERVAL
  {
    times[|times| - 1] - times[|times| - ADJUSTMENT_INTERVAL]
  }

  /** Faster blocks never make mining easier. */
  lemma FasterIsHarder(bits: uint32, fast: seq<int>, slow: seq<int>)
    requires |fast| == |slow| >= ADJUSTMENT_INTERVAL && Taken(fast) <= Taken(slow)
    requires MIN_BITS <= bits <= MAX_BITS
    ensures Adjusted(bits, fast) >= Adjusted(bits, slow)
  {
  }

  lemma {:induction false} SteadyTime(times: seq<int>, gap: int, i: nat, j: nat)
    requires i <= j < |times|
    requires forall k :: 0 < k < |times| ==> times[k] - times[k - 1] == gap
    ensures times[j] - times[i] == (j - i) * gap
    decreases j
  {
    if i < j {
      SteadyTime(times, gap, i, j - 1);
    }
  }

  /** At a steady pace of `gap` per block the difficulty rises if and only if nine gaps take less than half the
      expected time, and falls if and only if they take more than twice it: the interval of ten blocks
      is measured from its first block to its last, over nine gaps. */
  lemma SteadyPace(bits: uint32, times: seq<int>, gap: int)
    requires |times| >= ADJUSTMENT_INTERVAL && |times| % ADJUSTMENT_INTERVAL == 0 && MIN_BITS < bits < MAX_BITS
    requires forall k :: 0 < k < |times| ==> times[k] - times[k - 1] == gap
    ensures Adjusted(bits, times) == bits + 1 <==> 18 * gap < EXPECTED_TIME
    ensures Adjusted(bits, times) == bits - 1 <==> 9 * gap > 2 * EXPECTED_TIME
  {
    SteadyTime(times, gap, |times| - ADJUSTMENT_INTERVAL, |times| - 1);
  }

  /** `bits` is on that side of `tip` to which adjusting moves `tip`; equal only where adjusting does not move it. */
  predicate MovedAway(tip: uint32, bits: uint32, times: seq<int>) {
    var next := Adjusted(tip, times);
    if next > tip then bits > tip else if next < tip then bits < tip else bits == tip
  }

  /** Over the same timestamps every further adjustment goes the same way, so a difficulty that has moved away
      from the tip's never comes back to it. */
  lemma NeverMovesBack(tip: uint32, bits: uint32, times: seq<int>)
    requires BitsInRange(tip) && BitsInRange(bits) && (bits == tip || MovedAway(tip, bits, times))
    ensures MovedAway(tip, Adjusted(bits, times), times)
  {
  }

  /** Adjusting again at the same height, as a retry after a failed AddBlock does, moves the
      difficulty again unless it did not move the first time or has hit a bound. */
  lemma RetryMovesAgain(bits: uint32, times: seq<int>)
    requires MIN_BITS <= bits <= MAX_BITS
    ensures var once := Adjusted(bits, times);
      Adjusted(once, times) == once <==> once == bits || once == MIN_BITS || once == MAX_BITS
  {
  }

  /** Ten blocks at one instant: every adjustment at that height adds a bit. */
  lemma RetryMovesTwice(times: seq<int>)
    requires |times| == 10 && times[9] == times[0]
    ensures Adjusted(DEFAULT_TARGET_BITS, times) == DEFAULT_TARGET_BITS + 1
    ensures Adjusted(Adjusted(DEFAULT_TARGET_BITS, times), times) == DEFAULT_TARGET_BITS + 2
  {
  }
}
