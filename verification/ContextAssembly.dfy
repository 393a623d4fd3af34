/** The context assembler's greedy fill: take candidates by descending score per token while they
    fit, and how far that can fall short of the best possible choice. */
module ContextAssembly {
  import opened Sequences
  import opened Sorting

  type Positive = n: int | n > 0 witness 1

  /** Construction rejects a token count that is not positive; scores are not checked there. */
  datatype MemoryItem = MemoryItem(itemId: string, payload: string, tokenCount: Positive, score: real)

  function Density(i: MemoryItem): real {
    i.score / (i.tokenCount as real)
  }

  /** `sorted(..., key=density, reverse=True)`. */
  predicate Denser(a: MemoryItem, b: MemoryItem) {
    Density(a) > Density(b)
  }

  function Ranked(candidates: seq<MemoryItem>): seq<MemoryItem> {
    Sorted(candidates, Denser)
  }

  /** The greedy fill over already ranked items. */
  function Fill(ranked: seq<MemoryItem>, budget: int): seq<MemoryItem> {
    if ranked == [] then []
    else
      var init, last := ranked[..|ranked| - 1], ranked[|ranked| - 1];
      var taken := Fill(init, budget);
      if last.tokenCount <= budget - Tokens(taken) then taken + [last] else taken
  }

  function Tokens(items: seq<MemoryItem>): nat {
    if items == [] then 0 else Tokens(items[..|items| - 1]) + items[|items| - 1].tokenCount
  }

  function Score(items: seq<MemoryItem>): real {
    if items == [] then 0.0 else Score(items[..|items| - 1]) + items[|items| - 1].score
  }

  // ---------------------------------------------------------------- what the fill leaves out

  /** The candidates passed over, in rank order. */
  ghost function Skipped(ranked: seq<MemoryItem>, budget: int): seq<MemoryItem> {
    if ranked == [] then []
    else
      var init, last := ranked[..|ranked| - 1], ranked[|ranked| - 1];
      Skipped(init, budget) + (if last.tokenCount <= budget - Tokens(Fill(init, budget)) then [] else [last])
  }

  lemma LastIsTakenOrSkipped(ranked: seq<MemoryItem>, budget: int)
    requires ranked != []
    ensures var init, last := ranked[..|ranked| - 1], ranked[|ranked| - 1];
            || (Fill(ranked, budget) == Fill(init, budget) + [last] && Skipped(ranked, budget) == Skipped(init, budget))
            || (Fill(ranked, budget) == Fill(init, budget) && Skipped(ranked, budget) == Skipped(init, budget) + [last])
  {
    assert Skipped(ranked[..|ranked| - 1], budget) + [] == Skipped(ranked[..|ranked| - 1], budget);
  }

  lemma AddedToOne<T>(a: seq<T>, b: seq<T>, x: T)
    ensures multiset(a + [x]) + multiset(b) == multiset(a) + multiset(b) + multiset{x}
    ensures multiset(a) + multiset(b + [x]) == multiset(a) + multiset(b) + multiset{x}
  {
    MultisetAppend(a, x);
    MultisetAppend(b, x);
  }

  /** Every candidate is taken or skipped, never both. */
  lemma {:induction false} FillPartitions(ranked: seq<MemoryItem>, budget: int)
    ensures multiset(Fill(ranked, budget)) + multiset(Skipped(ranked, budget)) == multiset(ranked)
  {
    if ranked != [] {
      var init, last := ranked[..|ranked| - 1], ranked[|ranked| - 1];
      FillPartitions(init, budget);
      assert ranked == init + [last];
      MultisetAppend(init, last);
      LastIsTakenOrSkipped(ranked, budget);
      AddedToOne(Fill(init, budget), Skipped(init, budget), last);
    }
  }

  lemma TokensAppend(items: seq<MemoryItem>, last: MemoryItem)
    ensures Tokens(items + [last]) == Tokens(items) + last.tokenCount
    ensures Score(items + [last]) == Score(items) + last.score
  {
    assert (items + [last])[..|items|] == items;
  }

  /** The budget holds, and whatever was skipped is larger than what is left. */
  lemma {:induction false} FillFits(ranked: seq<MemoryItem>, budget: int)
    ensures 0 <= Tokens(Fill(ranked, budget)) <= (if budget >= 0 then budget else 0)
    ensures forall i :: 0 <= i < |Skipped(ranked, budget)| ==>
              Skipped(ranked, budget)[i].tokenCount > budget - Tokens(Fill(ranked, budget))
  {
    if ranked != [] {
      var init, last := ranked[..|ranked| - 1], ranked[|ranked| - 1];
      FillFits(init, budget);
      TokensAppend(Fill(init, budget), last);
    }
  }

  ghost predicate NonNegative(items: seq<MemoryItem>) {
    forall i :: 0 <= i < |items| ==> items[i].score >= 0.0
  }

  /** How many items are taken before the first one is skipped. */
  ghost function FirstSkip(ranked: seq<MemoryItem>, budget: int): (k: nat)
    ensures k <= |ranked|
  {
    if ranked == [] then 0
    else
      var init := ranked[..|ranked| - 1];
      var k := FirstSkip(init, budget);
      if k < |init| || ranked[|ranked| - 1].tokenCount > budget - Tokens(init) then k else k + 1
  }

  /** Up to the first skip the fill is the ranked prefix. */
  lemma {:induction false} FillStartsWithPrefix(ranked: seq<MemoryItem>, budget: int)
    ensures var k := FirstSkip(ranked, budget);
            if k == |ranked| then Fill(ranked, budget) == ranked && Skipped(ranked, budget) == []
            else
              && ranked[k].tokenCount > budget - Tokens(ranked[..k])
              && Skipped(ranked, budget) != [] && Skipped(ranked, budget)[0] == ranked[k]
  {
    if ranked != [] {
      var init, last := ranked[..|ranked| - 1], ranked[|ranked| - 1];
      FillStartsWithPrefix(init, budget);
      var k := FirstSkip(init, budget);
      if k < |init| {
        assert FirstSkip(ranked, budget) == k;
        assert ranked[..k] == init[..k];
      } else {
        assert Fill(init, budget) == init && Skipped(init, budget) == [];
        assert ranked == init + [last];
      }
    }
  }

  /** What the taken items below zero cost: zero when no score is negative. */
  ghost function Loss(items: seq<MemoryItem>): (loss: real)
    ensures loss >= 0.0
    ensures NonNegative(items) ==> loss == 0.0
  {
    if items == [] then 0.0
    else
      var last := items[|items| - 1];
      Loss(items[..|items| - 1]) + (if last.score < 0.0 then -last.score else 0.0)
  }

  lemma LossAppend(items: seq<MemoryItem>, last: MemoryItem)
    ensures Loss(items + [last]) == Loss(items) + (if last.score < 0.0 then -last.score else 0.0)
  {
    assert (items + [last])[..|items|] == items;
  }

  /** After the first skip the fill only adds, but for the items below zero it takes. */
  lemma {:induction false} FillScoresPrefix(ranked: seq<MemoryItem>, budget: int)
    ensures var prefix := ranked[..FirstSkip(ranked, budget)];
            Score(Fill(ranked, budget)) + Loss(Fill(ranked, budget)) >= Score(prefix) + Loss(prefix)
  {
    if ranked != [] {
      var init, last := ranked[..|ranked| - 1], ranked[|ranked| - 1];
      FillScoresPrefix(init, budget);
      TokensAppend(Fill(init, budget), last);
      LossAppend(Fill(init, budget), last);
      var k := FirstSkip(ranked, budget);
      FillStartsWithPrefix(ranked, budget);
      assert k == |ranked| ==> ranked[..k] == ranked;
      assert k < |ranked| ==> ranked[..k] == init[..k] && k == FirstSkip(init, budget);
    } else {
      assert ranked[..FirstSkip(ranked, budget)] == [];
    }
  }

  // ---------------------------------------------------------------- the bound

  /** `tokens` at `price` each, by repeated addition. */
  ghost function Cost(price: real, tokens: nat): real {
    if tokens == 0 then 0.0 else Cost(price, tokens - 1) + price
  }

  lemma {:induction false} CostIsProduct(price: real, tokens: nat)
    ensures Cost(price, tokens) == price * (tokens as real)
  {
    if tokens > 0 {
      CostIsProduct(price, tokens - 1);
      assert price * (tokens as real) == price * ((tokens - 1) as real) + price;
    }
  }

  lemma {:induction false} CostAdds(price: real, a: nat, b: nat)
    ensures Cost(price, a + b) == Cost(price, a) + Cost(price, b)
  {
    if b > 0 {
      CostAdds(price, a, b - 1);
    }
  }

  lemma {:induction false} CostGrows(price: real, a: nat, b: nat)
    requires price >= 0.0 && a <= b
    ensures Cost(price, a) <= Cost(price, b)
  {
    if a < b {
      CostGrows(price, a, b - 1);
    }
  }

  /** What an item is worth once every token costs `price`. */
  ghost function Gain(price: real): MemoryItem -> real {
    (i: MemoryItem) => i.score - Cost(price, i.tokenCount)
  }

  ghost function Surplus(items: seq<MemoryItem>, price: real): real {
    Score(items) - Cost(price, Tokens(items))
  }

  lemma {:induction false} GainSums(items: seq<MemoryItem>, price: real)
    ensures Sum(items, Gain(price)) == Surplus(items, price)
  {
    if items != [] {
      var init, last := items[..|items| - 1], items[|items| - 1];
      GainSums(init, price);
      CostAdds(price, Tokens(init), last.tokenCount);
    }
  }

  lemma ScoreIsCost(i: MemoryItem)
    ensures i.score == Cost(Density(i), i.tokenCount)
  {
    CostIsProduct(Density(i), i.tokenCount);
  }

  lemma {:induction false} CostOrder(low: real, high: real, tokens: nat)
    requires low <= high
    ensures Cost(low, tokens) <= Cost(high, tokens)
  {
    if tokens > 0 {
      CostOrder(low, high, tokens - 1);
    }
  }

  lemma GainSign(i: MemoryItem, price: real)
    ensures Density(i) >= price ==> Gain(price)(i) >= 0.0
    ensures Density(i) <= price ==> Gain(price)(i) <= 0.0
  {
    ScoreIsCost(i);
    if Density(i) >= price {
      CostOrder(price, Density(i), i.tokenCount);
    }
    if Density(i) <= price {
      CostOrder(Density(i), price, i.tokenCount);
    }
  }

  /** At `price` exactly the first `k` ranked items gain. */
  ghost predicate SplitsAt(ranked: seq<MemoryItem>, k: nat, price: real) {
    && k <= |ranked|
    && (forall i :: 0 <= i < k ==> Gain(price)(ranked[i]) >= 0.0)
    && (forall i :: k <= i < |ranked| ==> Gain(price)(ranked[i]) <= 0.0)
  }

  /** At such a price no choice has more surplus than the prefix. */
  lemma PrefixGainsMost(ranked: seq<MemoryItem>, k: nat, price: real, choice: seq<MemoryItem>)
    requires SplitsAt(ranked, k, price) && multiset(choice) <= multiset(ranked)
    ensures Surplus(choice, price) <= Surplus(ranked[..k], price)
  {
    PrefixIsBestSelection(ranked, k, Gain(price), choice);
    GainSums(choice, price);
    GainSums(ranked[..k], price);
  }

  /** By density order, the density of item `k` is such a price. */
  lemma RankSplits(ranked: seq<MemoryItem>, k: nat)
    requires k < |ranked| && Ordered(ranked, Denser)
    ensures SplitsAt(ranked, k, Density(ranked[k]))
  {
    forall i | 0 <= i < |ranked|
      ensures i < k ==> Gain(Density(ranked[k]))(ranked[i]) >= 0.0
      ensures k <= i ==> Gain(Density(ranked[k]))(ranked[i]) <= 0.0
    {
      GainSign(ranked[i], Density(ranked[k]));
      assert i < k ==> !Denser(ranked[k], ranked[i]);
      assert i > k ==> !Denser(ranked[i], ranked[k]);
    }
  }

  lemma RankedIsOrdered(candidates: seq<MemoryItem>)
    ensures multiset(Ranked(candidates)) == multiset(candidates) && Ordered(Ranked(candidates), Denser)
  {
    SortedIsOrdered(candidates, Denser);
  }

  ghost predicate Feasible(candidates: seq<MemoryItem>, budget: int, choice: seq<MemoryItem>) {
    multiset(choice) <= multiset(candidates) && Tokens(choice) <= budget
  }

  /** What the first skipped candidate could have added. */
  ghost function FirstSkippedScore(candidates: seq<MemoryItem>, budget: int): real {
    var skipped := Skipped(Ranked(candidates), budget);
    if skipped == [] || skipped[0].score < 0.0 then 0.0 else skipped[0].score
  }

  /** Whatever the scores, no feasible choice beats the greedy fill by more than the first candidate it
      skipped and the items below zero it took. */
  lemma GreedyFallsShortBy(candidates: seq<MemoryItem>, budget: int, choice: seq<MemoryItem>)
    requires Feasible(candidates, budget, choice)
    ensures var fill := Fill(Ranked(candidates), budget);
            Score(choice) <= Score(fill) + Loss(fill) + FirstSkippedScore(candidates, budget)
  {
    RankedIsOrdered(candidates);
    RankedFallsShortBy(Ranked(candidates), budget, choice);
  }

  /** With no score below zero, no feasible choice beats the greedy fill by more than the first candidate
      it skipped; if it skipped nothing, no feasible choice beats it at all. */
  lemma GreedyIsNearOptimal(candidates: seq<MemoryItem>, budget: int, choice: seq<MemoryItem>)
    requires NonNegative(candidates) && Feasible(candidates, budget, choice)
    ensures var skipped := Skipped(Ranked(candidates), budget);
            Score(choice) <= Score(Fill(Ranked(candidates), budget))
                             + (if skipped == [] then 0.0 else skipped[0].score)
  {
    GreedyFallsShortBy(candidates, budget, choice);
    FillPartitions(Ranked(candidates), budget);
    RankedIsOrdered(candidates);
    AmongNonNegative(candidates, Fill(Ranked(candidates), budget));
    AmongNonNegative(candidates, Skipped(Ranked(candidates), budget));
  }

  lemma AmongNonNegative(candidates: seq<MemoryItem>, some: seq<MemoryItem>)
    requires NonNegative(candidates) && multiset(some) <= multiset(candidates)
    ensures NonNegative(some)
  {
    forall i | 0 <= i < |some| ensures some[i].score >= 0.0 {
      assert some[i] in multiset(candidates);
    }
  }

  /** Nothing beats a fill that skipped nothing exactly when no candidate scores below zero: the fill
      takes whatever fits, also where leaving it out is better. */
  lemma UnskippedFillIsOptimalIff(candidates: seq<MemoryItem>, budget: int)
    requires Skipped(Ranked(candidates), budget) == []
    ensures (forall choice :: Feasible(candidates, budget, choice) ==>
               Score(choice) <= Score(Fill(Ranked(candidates), budget)))
       <==> NonNegative(candidates)
  {
    if NonNegative(candidates) {
      forall choice | Feasible(candidates, budget, choice)
        ensures Score(choice) <= Score(Fill(Ranked(candidates), budget))
      {
        GreedyIsNearOptimal(candidates, budget, choice);
      }
    } else {
      var i :| 0 <= i < |candidates| && candidates[i].score < 0.0;
      var better := LeavingOutIsBetter(candidates, budget, i);
      assert Feasible(candidates, budget, better);
    }
  }

  lemma LeavingOutIsBetter(candidates: seq<MemoryItem>, budget: int, i: nat) returns (better: seq<MemoryItem>)
    requires i < |candidates| && candidates[i].score < 0.0
    requires Skipped(Ranked(candidates), budget) == []
    ensures Feasible(candidates, budget, better) && Score(better) > Score(Fill(Ranked(candidates), budget))
  {
    var fill := Fill(Ranked(candidates), budget);
    UnskippedFillTakesAll(candidates, budget);
    FillFits(Ranked(candidates), budget);
    assert candidates[i] in multiset(candidates);
    better := Without(fill, candidates[i]);
  }

  lemma UnskippedFillTakesAll(candidates: seq<MemoryItem>, budget: int)
    requires Skipped(Ranked(candidates), budget) == []
    ensures multiset(Fill(Ranked(candidates), budget)) == multiset(candidates)
  {
    FillPartitions(Ranked(candidates), budget);
    RankedIsOrdered(candidates);
  }

  lemma Without(items: seq<MemoryItem>, i: MemoryItem) returns (rest: seq<MemoryItem>)
    requires i in multiset(items)
    ensures multiset(rest) <= multiset(items)
    ensures Score(items) == Score(rest) + i.score && Tokens(items) == Tokens(rest) + i.tokenCount
  {
    var j :| 0 <= j < |items| && items[j] == i;
    var before, after := items[..j], items[j + 1..];
    assert items == before + [i] + after;
    rest := before + after;
    DroppedItem(before, i, after);
    MultisetMiddle(before, i, after);
  }

  lemma MultisetMiddle<T>(before: seq<T>, x: T, after: seq<T>)
    ensures multiset(before + [x] + after) == multiset(before + after) + multiset{x}
  {
  }

  lemma {:induction false} DroppedItem(before: seq<MemoryItem>, i: MemoryItem, after: seq<MemoryItem>)
    ensures Score(before + [i] + after) == Score(before + after) + i.score
    ensures Tokens(before + [i] + after) == Tokens(before + after) + i.tokenCount
  {
    if after == [] {
      assert before + [i] + after == before + [i] && before + after == before;
      TokensAppend(before, i);
    } else {
      var init, last := after[..|after| - 1], after[|after| - 1];
      DroppedItem(before, i, init);
      assert before + [i] + after == (before + [i] + init) + [last] && before + after == (before + init) + [last];
      TokensAppend(before + [i] + init, last);
      TokensAppend(before + init, last);
    }
  }

  lemma RankedFallsShortBy(ranked: seq<MemoryItem>, budget: int, choice: seq<MemoryItem>)
    requires Ordered(ranked, Denser)
    requires multiset(choice) <= multiset(ranked) && Tokens(choice) <= budget
    ensures var fill, skipped := Fill(ranked, budget), Skipped(ranked, budget);
            Score(choice) <= Score(fill) + Loss(fill)
                             + (if skipped == [] || skipped[0].score < 0.0 then 0.0 else skipped[0].score)
  {
    FillStartsWithPrefix(ranked, budget);
    FillScoresPrefix(ranked, budget);
    var k := FirstSkip(ranked, budget);
    if k < |ranked| && ranked[k].score >= 0.0 {
      RankSplits(ranked, k);
      ScoreIsCost(ranked[k]);
      DensityNonNegative(ranked[k]);
      SkipBound(ranked, k, Density(ranked[k]), budget, choice);
    } else {
      forall i | k <= i < |ranked| ensures ranked[i].score < 0.0 {
        RankedStaysNegative(ranked, k, i);
      }
      EarningsBound(ranked, k, choice);
    }
  }

  /** Below a negative item the rank order holds only negative items. */
  lemma RankedStaysNegative(ranked: seq<MemoryItem>, k: nat, i: nat)
    requires Ordered(ranked, Denser) && k <= i < |ranked| && ranked[k].score < 0.0
    ensures ranked[i].score < 0.0
  {
    assert k < i ==> !Denser(ranked[i], ranked[k]);
    assert Density(ranked[i]) <= Density(ranked[k]) < 0.0;
  }

  ghost function ScoreOf(i: MemoryItem): real {
    i.score
  }

  /** If only the first `k` may earn anything, no choice earns more than they do. */
  lemma EarningsBound(ranked: seq<MemoryItem>, k: nat, choice: seq<MemoryItem>)
    requires k <= |ranked| && multiset(choice) <= multiset(ranked)
    requires forall i :: k <= i < |ranked| ==> ranked[i].score < 0.0
    ensures Score(choice) <= Score(ranked[..k]) + Loss(ranked[..k])
  {
    SelectionBelowPositive(choice, ranked, ScoreOf);
    ScoreIsSum(choice);
    EarnedIsPositiveSum(ranked, k);
  }

  lemma {:induction false} ScoreIsSum(items: seq<MemoryItem>)
    ensures Sum(items, ScoreOf) == Score(items)
  {
    if items != [] {
      ScoreIsSum(items[..|items| - 1]);
    }
  }

  lemma {:induction false} EarnedIsPositiveSum(ranked: seq<MemoryItem>, k: nat)
    requires k <= |ranked| && forall i :: k <= i < |ranked| ==> ranked[i].score < 0.0
    ensures PositiveSum(ranked, ScoreOf) == Score(ranked[..k]) + Loss(ranked[..k])
  {
    if ranked == [] {
      assert ranked[..k] == [];
    } else {
      var init := ranked[..|ranked| - 1];
      if k < |ranked| {
        EarnedIsPositiveSum(init, k);
        assert init[..k] == ranked[..k];
      } else {
        EarnedIsPositiveSum(init, k - 1);
        assert init[..k - 1] == init && ranked[..k] == ranked;
      }
    }
  }

  lemma SkipBound(ranked: seq<MemoryItem>, k: nat, price: real, budget: int, choice: seq<MemoryItem>)
    requires k < |ranked| && SplitsAt(ranked, k, price) && price >= 0.0
    requires ranked[k].score == Cost(price, ranked[k].tokenCount)
    requires multiset(choice) <= multiset(ranked)
    requires Tokens(choice) <= budget < Tokens(ranked[..k]) + ranked[k].tokenCount
    ensures Score(choice) <= Score(ranked[..k]) + ranked[k].score
  {
    var prefix := ranked[..k];
    PrefixGainsMost(ranked, k, price, choice);
    CostAdds(price, Tokens(prefix), ranked[k].tokenCount);
    CostGrows(price, Tokens(choice), Tokens(prefix) + ranked[k].tokenCount);
  }

  lemma DensityNonNegative(i: MemoryItem)
    requires i.score >= 0.0
    ensures Density(i) >= 0.0
  {
  }

  // ---------------------------------------------------------------- the builder

  datatype AssemblyResult = AssemblyResult(
    items: seq<MemoryItem>, degraded: bool, zonesUnavailable: seq<nat>,
    assemblyId: string, traceId: string, tokenCountTotal: int, tokenBudget: int)

  datatype BuildOutcome = Built(result: AssemblyResult) | MissingIdentifiers

  class ContextAssemblyBuilder {
    var candidates: seq<MemoryItem>
    var zonesUnavailable: seq<nat>
    var tokenBudget: int
    var assemblyId: string
    var traceId: string

    constructor ()
      ensures candidates == [] && zonesUnavailable == [] && tokenBudget == 0 && assemblyId == "" && traceId == ""
    {
      candidates, zonesUnavailable, tokenBudget, assemblyId, traceId := [], [], 0, "", "";
    }

    method WithTokenBudget(budget: int)
      modifies this`tokenBudget
      ensures tokenBudget == budget
    {
      tokenBudget := budget;
    }

    method WithIdentifiers(assembly: string, trace: string)
      modifies this`assemblyId, this`traceId
      ensures assemblyId == assembly && traceId == trace
    {
      assemblyId, traceId := assembly, trace;
    }

    method AddCandidates(items: seq<MemoryItem>)
      modifies this`candidates
      ensures candidates == old(candidates) + items
    {
      candidates := candidates + items;
    }

    method MarkZoneUnavailable(zone: nat)
      modifies this`zonesUnavailable
      ensures zonesUnavailable == if zone in old(zonesUnavailable) then old(zonesUnavailable) else old(zonesUnavailable) + [zone]
    {
      if zone !in zonesUnavailable {
        zonesUnavailable := zonesUnavailable + [zone];
      }
    }

    method GreedyKnapsackFill() returns (selected: seq<MemoryItem>)
      ensures selected == Fill(Ranked(candidates), tokenBudget)
    {
      var ranked := Ranked(candidates);
      selected := [];
      var remaining := tokenBudget;
      for i := 0 to |ranked|
        invariant selected == Fill(ranked[..i], tokenBudget)
        invariant remaining == tokenBudget - Tokens(selected)
      {
        assert ranked[..i + 1][..i] == ranked[..i];
        if ranked[i].tokenCount <= remaining {
          assert (selected + [ranked[i]])[..|selected|] == selected;
          selected := selected + [ranked[i]];
          remaining := remaining - ranked[i].tokenCount;
        }
      }
      assert ranked[..|ranked|] == ranked;
    }

    method Build() returns (outcome: BuildOutcome)
      ensures outcome.MissingIdentifiers? <==> assemblyId == "" || traceId == ""
      ensures outcome.Built? ==>
                && outcome.result.items == Fill(Ranked(candidates), tokenBudget)
                && outcome.result.degraded == (zonesUnavailable != [])
                && outcome.result.zonesUnavailable == zonesUnavailable
                && outcome.result.assemblyId == assemblyId && outcome.result.traceId == traceId
                && outcome.result.tokenBudget == tokenBudget
                && outcome.result.tokenCountTotal == Tokens(outcome.result.items)
                && (tokenBudget >= 0 ==> outcome.result.tokenCountTotal <= tokenBudget)
    {
      if assemblyId == "" || traceId == "" {
        return MissingIdentifiers;
      }
      var selected := GreedyKnapsackFill();
      FillFits(Ranked(candidates), tokenBudget);
      var total := 0;
      for i := 0 to |selected|
        invariant total == Tokens(selected[..i])
      {
        assert selected[..i + 1][..i] == selected[..i];
        total := total + selected[i].tokenCount;
      }
      assert selected[..|selected|] == selected;
      outcome := Built(AssemblyResult(selected, zonesUnavailable != [], zonesUnavailable,
                                      assemblyId, traceId, total, tokenBudget));
    }
  }
}
