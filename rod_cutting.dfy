/**
 * Unbounded rod cutting over an integer price list, where prices[k - 1] is
 * the price of a piece of length k. Two solvers compute the same thing:
 * RodCuttingMemo (top-down, a memo table filled by a recursive helper) and
 * RodCuttingTable (bottom-up, a dp array filled length by length). Both
 * rebuild the list of pieces by walking the "best first cut" table from the
 * full length down to 0.
 *
 * The recurrence is stated once, as pure functions (Opt and friends), and
 * both solvers are proved to return Solution(prices, length).
 */
module RodCutting {
  import Sequences

  /** What a solver returns: the best profit, the pieces of the best split in
      the order they are cut off, and len(cuts) - 1 (so -1 for length 0). */
  datatype RodResult = RodResult(maxProfit: int, cuts: seq<nat>, numberOfCuts: int)

  /** The longest priced piece that fits in a rod of length n. */
  function Longest(prices: seq<int>, n: nat): nat
  {
    if n <= |prices| then n else |prices|
  }

  /** A rod of length n can be cut into priced pieces at all. */
  predicate Solvable(prices: seq<int>, n: nat)
  {
    n == 0 || |prices| >= 1
  }

  // ---------------------------------------------------------------------
  // The recurrence
  // ---------------------------------------------------------------------

  /** Best profit for a rod of length n: 0 for the empty rod, otherwise the
      best candidate over the first pieces 1..Longest(prices, n). */
  function Opt(prices: seq<int>, n: nat): int
    requires Solvable(prices, n)
    decreases n, 1
  {
    if n == 0 then 0 else MaxCandidate(prices, n, Longest(prices, n))
  }

  /** Profit of cutting a first piece of length j off a rod of length n and
      selling the remainder as well as possible. */
  function Candidate(prices: seq<int>, n: nat, j: nat): int
    requires 1 <= j <= n && j <= |prices|
    decreases n, 0, j, 0
  {
    prices[j - 1] + Opt(prices, n - j)
  }

  /** Running maximum over the candidates 1..k, updated the way both loops
      update it: a later candidate replaces the best only when strictly
      greater. */
  function MaxCandidate(prices: seq<int>, n: nat, k: nat): int
    requires 1 <= k <= n && k <= |prices|
    decreases n, 0, k, 1
  {
    if k == 1 then Candidate(prices, n, 1)
    else
      var best := MaxCandidate(prices, n, k - 1);
      var c := Candidate(prices, n, k);
      if c > best then c else best
  }

  /** The first piece length recorded by that running maximum after the
      candidates 1..k have been tried. */
  function FirstBest(prices: seq<int>, n: nat, k: nat): (j: nat)
    requires 1 <= k <= n && k <= |prices|
    ensures 1 <= j <= k
  {
    if k == 1 then 1
    else if Candidate(prices, n, k) > MaxCandidate(prices, n, k - 1) then k
    else FirstBest(prices, n, k - 1)
  }

  /** The first cut recorded for a rod of length n. */
  function BestCut(prices: seq<int>, n: nat): (c: nat)
    requires 1 <= n && 1 <= |prices|
    ensures 1 <= c <= n && c <= |prices|
  {
    FirstBest(prices, n, Longest(prices, n))
  }

  /** The pieces obtained by following the recorded first cuts from n to 0. */
  function Reconstruct(prices: seq<int>, n: nat): seq<nat>
    requires Solvable(prices, n)
    decreases n
  {
    if n == 0 then []
    else
      var c := BestCut(prices, n);
      [c] + Reconstruct(prices, n - c)
  }

  /** The result both solvers are proved to return. */
  function Solution(prices: seq<int>, length: nat): RodResult
    requires Solvable(prices, length)
  {
    var cuts := Reconstruct(prices, length);
    RodResult(Opt(prices, length), cuts, |cuts| - 1)
  }

  // ---------------------------------------------------------------------
  // Cuttings: an independent description of what "optimal" means
  // ---------------------------------------------------------------------

  /** Sum of the piece lengths. */
  function Total(cuts: seq<nat>): nat
  {
    if cuts == [] then 0 else cuts[0] + Total(cuts[1..])
  }

  /** Every piece has a listed price. */
  predicate Priced(prices: seq<int>, cuts: seq<nat>)
  {
    forall k :: 0 <= k < |cuts| ==> 1 <= cuts[k] <= |prices|
  }

  /** What the pieces sell for. */
  function Revenue(prices: seq<int>, cuts: seq<nat>): int
    requires Priced(prices, cuts)
  {
    if cuts == [] then 0 else prices[cuts[0] - 1] + Revenue(prices, cuts[1..])
  }

  // ---------------------------------------------------------------------
  // Properties of the recurrence
  // ---------------------------------------------------------------------

  /** The running maximum is the largest candidate, and the recorded piece is
      the smallest one reaching it (ties go to the earlier candidate). */
  lemma {:induction false} MaxCandidateIsFirstMaximum(prices: seq<int>, n: nat, k: nat)
    requires 1 <= k <= n && k <= |prices|
    ensures forall j :: 1 <= j <= k ==> Candidate(prices, n, j) <= MaxCandidate(prices, n, k)
    ensures Candidate(prices, n, FirstBest(prices, n, k)) == MaxCandidate(prices, n, k)
    ensures forall j :: 1 <= j < FirstBest(prices, n, k) ==> Candidate(prices, n, j) < MaxCandidate(prices, n, k)
  {
    if k > 1 {
      MaxCandidateIsFirstMaximum(prices, n, k - 1);
    }
  }

  /** The recorded first cut achieves the optimum, no priced first piece does
      better, and every shorter first piece does strictly worse. */
  lemma {:induction false} BestCutIsFirstOptimal(prices: seq<int>, n: nat)
    requires 1 <= n && 1 <= |prices|
    ensures Candidate(prices, n, BestCut(prices, n)) == Opt(prices, n)
    ensures forall j :: 1 <= j <= Longest(prices, n) ==> Candidate(prices, n, j) <= Opt(prices, n)
    ensures forall j :: 1 <= j < BestCut(prices, n) ==> Candidate(prices, n, j) < Opt(prices, n)
  {
    MaxCandidateIsFirstMaximum(prices, n, Longest(prices, n));
  }

  /** The reconstructed pieces are priced, sum to n and sell for Opt. */
  lemma {:induction false} ReconstructIsOptimalCutting(prices: seq<int>, n: nat)
    requires Solvable(prices, n)
    ensures Priced(prices, Reconstruct(prices, n))
    ensures Total(Reconstruct(prices, n)) == n
    ensures Revenue(prices, Reconstruct(prices, n)) == Opt(prices, n)
  {
    if n > 0 {
      var c := BestCut(prices, n);
      ReconstructIsOptimalCutting(prices, n - c);
      BestCutIsFirstOptimal(prices, n);
    }
  }

  /** No way of cutting a rod into priced pieces earns more than Opt. */
  lemma {:induction false} OptIsUpperBound(prices: seq<int>, cuts: seq<nat>)
    requires Priced(prices, cuts)
    ensures Revenue(prices, cuts) <= Opt(prices, Total(cuts))
  {
    if cuts != [] {
      OptIsUpperBound(prices, cuts[1..]);
      BestCutIsFirstOptimal(prices, Total(cuts));
      assert Candidate(prices, Total(cuts), cuts[0]) <= Opt(prices, Total(cuts));
    }
  }

  /** A longer rod is never worth less when the unit piece has a
      non-negative price. */
  lemma {:induction false} OptMonotone(prices: seq<int>, n: nat)
    requires 1 <= |prices| && prices[0] >= 0
    ensures Opt(prices, n) <= Opt(prices, n + 1)
  {
    BestCutIsFirstOptimal(prices, n + 1);
    assert Candidate(prices, n + 1, 1) == prices[0] + Opt(prices, n);
  }

  /** When no split beats the whole rod's own price, the optimum is that
      price; when every split is strictly worse, the rod is not cut. */
  lemma {:induction false} WholeRodWhenUnbeaten(prices: seq<int>, n: nat)
    requires 1 <= n <= |prices|
    requires forall j :: 1 <= j < n ==> Candidate(prices, n, j) <= prices[n - 1]
    ensures Opt(prices, n) == prices[n - 1]
    ensures (forall j :: 1 <= j < n ==> Candidate(prices, n, j) < prices[n - 1]) ==> Reconstruct(prices, n) == [n]
  {
    BestCutIsFirstOptimal(prices, n);
    assert Candidate(prices, n, n) == prices[n - 1];
    if forall j :: 1 <= j < n ==> Candidate(prices, n, j) < prices[n - 1] {
      var c := BestCut(prices, n);
      assert c == n;
      assert Reconstruct(prices, n) == [n] + Reconstruct(prices, 0);
    }
  }

  // ---------------------------------------------------------------------
  // Top-down solver
  // ---------------------------------------------------------------------

  /** Every cached length holds its optimum and its first best cut, and
      the cache holds every length below any length it holds. */
  ghost predicate Cached(prices: seq<int>, memo: map<nat, int>, cutSolution: map<nat, nat>)
  {
    && cutSolution.Keys == memo.Keys
    && (forall k :: k in memo ==>
          1 <= k <= |prices| && memo[k] == Opt(prices, k) && cutSolution[k] == BestCut(prices, k))
    && (forall k, j :: k in memo && 1 <= j <= k ==> j in memo)
  }

  /** Storing the optimum and the first best cut of n keeps the cache
      consistent once every shorter length is cached. */
  lemma {:induction false} StoreKeepsCached(prices: seq<int>, memo: map<nat, int>, cutSolution: map<nat, nat>, n: nat)
    requires Cached(prices, memo, cutSolution) && 1 <= n <= |prices|
    requires forall k :: 1 <= k < n ==> k in memo
    ensures Cached(prices, memo[n := Opt(prices, n)], cutSolution[n := BestCut(prices, n)])
  {
  }

  /** The state the nested helper of the top-down solver closes over. */
  class MemoTable {
    const prices: seq<int>
    var memo: map<nat, int>
    var cutSolution: map<nat, nat>

    ghost predicate Valid()
      reads this
    {
      Cached(prices, memo, cutSolution)
    }

    constructor (prices: seq<int>)
      ensures this.prices == prices && memo == map[] && cutSolution == map[]
      ensures Valid()
    {
      this.prices := prices;
      memo := map[];
      cutSolution := map[];
    }

    /** Best profit for length n; fills the cache for 1..n on the way. A
        cached length is answered from the cache without touching it. */
    method Helper(n: nat) returns (best: int)
      requires Valid() && n <= |prices|
      modifies this
      ensures Valid()
      ensures best == Opt(prices, n)
      ensures forall k :: 1 <= k <= n ==> k in memo
      ensures old(memo).Keys <= memo.Keys
      ensures forall k :: k in memo ==> k in old(memo) || 1 <= k <= n
      ensures n == 0 || n in old(memo) ==> memo == old(memo) && cutSolution == old(cutSolution)
      decreases n, 1
    {
      if n == 0 {
        return 0;
      }
      if n in memo {
        return memo[n];
      }
      var maxProfit, bestCut := TryFirstPieces(n);
      StoreKeepsCached(prices, memo, cutSolution, n);
      memo := memo[n := maxProfit];
      cutSolution := cutSolution[n := bestCut];
      return maxProfit;
    }

    /** The loop of the helper: tries every first piece 1..n, asking the
        helper for the best price of the remainder, and keeps the first
        piece with the strictly greatest profit. */
    method TryFirstPieces(n: nat) returns (maxProfit: int, bestCut: nat)
      requires Valid() && 1 <= n <= |prices|
      modifies this
      ensures Valid()
      ensures maxProfit == Opt(prices, n) && bestCut == BestCut(prices, n)
      ensures forall k :: 1 <= k < n ==> k in memo
      ensures old(memo).Keys <= memo.Keys
      ensures forall k :: k in memo ==> k in old(memo) || 1 <= k < n
      decreases n, 0
    {
      // The source starts from minus infinity; the first candidate always
      // replaces it, which `i == 1 ||` states directly.
      maxProfit := 0;
      bestCut := 0;
      for i := 1 to n + 1
        invariant Valid()
        invariant old(memo).Keys <= memo.Keys
        invariant forall k :: k in memo ==> k in old(memo) || 1 <= k < n
        invariant i > 1 ==> forall k :: 1 <= k < n ==> k in memo
        invariant i > 1 ==> maxProfit == MaxCandidate(prices, n, i - 1) && bestCut == FirstBest(prices, n, i - 1)
      {
        var rest := Helper(n - i);
        var profit := prices[i - 1] + rest;
        assert profit == Candidate(prices, n, i);
        if i == 1 || profit > maxProfit {
          maxProfit := profit;
          bestCut := i;
        }
      }
      assert Longest(prices, n) == n;
    }
  }

  /** rod_cutting_memo: prices[i - 1] is read for every i up to length, so
      the price list must cover the whole rod. */
  method RodCuttingMemo(length: nat, prices: seq<int>) returns (r: RodResult)
    requires length <= |prices|
    ensures r == Solution(prices, length)
  {
    var solver := new MemoTable(prices);
    var maxProfit := solver.Helper(length);
    var cuts := CollectMemoCuts(prices, length, solver.cutSolution);
    r := RodResult(maxProfit, cuts, |cuts| - 1);
  }

  /** The reconstruction loop of rod_cutting_memo: follows the first cuts
      cached in cut_solution from the full length down to 0. */
  method CollectMemoCuts(prices: seq<int>, length: nat, cutSolution: map<nat, nat>) returns (cuts: seq<nat>)
    requires Solvable(prices, length)
    requires forall k :: 1 <= k <= length ==> k in cutSolution && cutSolution[k] == BestCut(prices, k)
    ensures cuts == Reconstruct(prices, length)
  {
    cuts := [];
    var n: nat := length;
    while n > 0
      invariant n <= length
      invariant cuts + Reconstruct(prices, n) == Reconstruct(prices, length)
      decreases n
    {
      CollectStep(prices, length, cuts, n);
      cuts := cuts + [cutSolution[n]];
      n := n - cutSolution[n];
    }
  }

  /** One step of either reconstruction loop: moving the first recorded cut
      of n from the remaining pieces to the collected ones keeps their
      concatenation equal to the full reconstruction. */
  lemma {:induction false} CollectStep(prices: seq<int>, length: nat, cuts: seq<nat>, n: nat)
    requires 1 <= n && Solvable(prices, length) && Solvable(prices, n)
    requires cuts + Reconstruct(prices, n) == Reconstruct(prices, length)
    ensures (cuts + [BestCut(prices, n)]) + Reconstruct(prices, n - BestCut(prices, n)) == Reconstruct(prices, length)
  {
    var c := BestCut(prices, n);
    assert Reconstruct(prices, n) == [c] + Reconstruct(prices, n - c);
    Sequences.AppendAssoc(cuts, [c], Reconstruct(prices, n - c));
  }

  // ---------------------------------------------------------------------
  // Bottom-up solver
  // ---------------------------------------------------------------------

  /** rod_cutting_table: with an empty price list and a positive length no
      cut is ever recorded and the reconstruction would not terminate, so
      a positive length needs at least one price. */
  method RodCuttingTable(length: nat, prices: seq<int>) returns (r: RodResult)
    requires Solvable(prices, length)
    ensures r == Solution(prices, length)
  {
    var dp := new int[length + 1](_ => 0);
    var cuts := new nat[length + 1](_ => 0);
    for i := 1 to length + 1
      invariant dp[0] == 0
      invariant forall k :: 1 <= k < i ==> dp[k] == Opt(prices, k) && cuts[k] == BestCut(prices, k)
    {
      // Minus infinity in the source; see `j == 1 ||` below.
      var maxProfit := 0;
      for j := 1 to i + 1
        modifies cuts
        invariant forall k :: 1 <= k < i ==> cuts[k] == BestCut(prices, k)
        invariant j > 1 ==> maxProfit == MaxCandidate(prices, i, Longest(prices, j - 1))
        invariant j > 1 ==> cuts[i] == FirstBest(prices, i, Longest(prices, j - 1))
      {
        if j <= |prices| {
          assert Longest(prices, j) == j;
          assert prices[j - 1] + dp[i - j] == Candidate(prices, i, j);
          if j == 1 || prices[j - 1] + dp[i - j] > maxProfit {
            maxProfit := prices[j - 1] + dp[i - j];
            cuts[i] := j;
          }
        }
      }
      dp[i] := maxProfit;
    }

    var resultCuts := CollectCuts(prices, length, cuts);
    r := RodResult(dp[length], resultCuts, |resultCuts| - 1);
  }

  /** The reconstruction loop of rod_cutting_table: follows the first cuts
      recorded in the table from the full length down to 0. */
  method CollectCuts(prices: seq<int>, length: nat, cuts: array<nat>) returns (resultCuts: seq<nat>)
    requires Solvable(prices, length) && length < cuts.Length
    requires forall k :: 1 <= k <= length ==> cuts[k] == BestCut(prices, k)
    ensures resultCuts == Reconstruct(prices, length)
  {
    resultCuts := [];
    var n: nat := length;
    while n > 0
      invariant n <= length
      invariant resultCuts + Reconstruct(prices, n) == Reconstruct(prices, length)
      decreases n
    {
      CollectStep(prices, length, resultCuts, n);
      resultCuts := resultCuts + [cuts[n]];
      n := n - cuts[n];
    }
  }

  /** Both solvers, run on the same input that both accept, return the same
      profit and the same list of pieces. */
  method CompareStrategies(length: nat, prices: seq<int>) returns (memo: RodResult, table: RodResult)
    requires length <= |prices|
    ensures memo == table
  {
    memo := RodCuttingMemo(length, prices);
    table := RodCuttingTable(length, prices);
  }

  // ---------------------------------------------------------------------
  // The inputs the repository runs
  // ---------------------------------------------------------------------

  lemma BasicCase()
    ensures Solution([2, 5, 7, 8, 10], 5) == RodResult(12, [1, 2, 2], 2)
  {
    var p := [2, 5, 7, 8, 10];
    assert Opt(p, 1) == 2;
    assert Opt(p, 2) == 5 && BestCut(p, 2) == 2;
    assert Opt(p, 3) == 7;
    assert MaxCandidate(p, 4, 2) == 10;
    assert Opt(p, 4) == 10 && BestCut(p, 4) == 2;
    assert MaxCandidate(p, 5, 2) == 12;
    assert Opt(p, 5) == 12 && BestCut(p, 5) == 1;
    assert Reconstruct(p, 2) == [2];
    assert Reconstruct(p, 4) == [2, 2];
  }

  lemma BestNotToCut()
    ensures Solution([1, 3, 8], 3) == RodResult(8, [3], 0)
  {
  }

  lemma UniformCuts()
    ensures Solution([3, 5, 6, 7], 4) == RodResult(12, [1, 1, 1, 1], 3)
  {
  }

  lemma {:induction false} EmptyRod(prices: seq<int>)
    ensures Solution(prices, 0) == RodResult(0, [], -1)
  {
  }
}
