/** Fitting prompt sections into a context window: a stable sort by layer and priority, three
    passes that hand out the token budget, and a filter that keeps fully funded sections. */
module PromptBudget {
  import opened Text

  const SAFETY_MARGIN: nat := 4096
  const INPUT_PRIORITY: nat := 255

  datatype Layer = System | Rules | Tools | Memory | Events | Input

  function Rank(l: Layer): nat {
    match l
    case System => 0
    case Rules => 1
    case Tools => 2
    case Memory => 3
    case Events => 4
    case Input => 5
  }

  datatype Section = Section(content: string, layer: Layer, priority: nat, tokens: nat)

  // A ratio as an exact fraction; values outside [0, 1] are allowed, and so is NaN.
  datatype Fraction = NaN | Quotient(num: int, den: int)

  datatype Budget = Fixed(claim: nat) | Ratio(ratio: Fraction) | Dynamic

  datatype Pair = Pair(section: Section, budget: Budget)

  predicate Proper(p: Pair) {
    p.budget.Ratio? && p.budget.ratio.Quotient? ==> p.budget.ratio.den > 0
  }

  // ---- grants ----

  function Min(a: nat, b: nat): nat {
    if a <= b then a else b
  }

  // The share of `remaining`, rounded down; the ratio is clamped to [0, 1] and NaN is nothing.
  function Share(remaining: nat, ratio: Fraction): nat
    requires ratio.Quotient? ==> ratio.den > 0
  {
    match ratio
    case NaN => 0
    case Quotient(num, den) =>
      if num <= 0 then 0
      else if num >= den then remaining
      else
        var product: nat := remaining * num;
        product / den
  }

  function Claim(p: Pair, remaining: nat): nat
    requires Proper(p)
  {
    match p.budget
    case Fixed(claim) => claim
    case Ratio(ratio) => Share(remaining, ratio)
    case Dynamic => p.section.tokens
  }

  function Grant(p: Pair, remaining: nat): (g: nat)
    requires Proper(p)
    ensures g <= remaining
  {
    Min(Claim(p, remaining), remaining)
  }

  // Fixed claims are served in the first pass, ratios in the second, dynamic ones in the third.
  function PassOf(b: Budget): nat {
    match b
    case Fixed(_) => 0
    case Ratio(_) => 1
    case Dynamic => 2
  }

  ghost predicate AllProper(pairs: seq<Pair>) {
    forall p | p in pairs :: Proper(p)
  }

  // What is left of the budget before position `i` of a pass.
  ghost function Left(pairs: seq<Pair>, budget: nat, pass: nat, i: nat): nat
    requires AllProper(pairs) && i <= |pairs|
    decreases pass, i
  {
    if i > 0 then
      var r := Left(pairs, budget, pass, i - 1);
      if PassOf(pairs[i - 1].budget) == pass then r - Grant(pairs[i - 1], r) else r
    else if pass > 0 then Left(pairs, budget, pass - 1, |pairs|)
    else budget
  }

  ghost function Granted(pairs: seq<Pair>, budget: nat, i: nat): nat
    requires AllProper(pairs) && i < |pairs|
  {
    Grant(pairs[i], Left(pairs, budget, PassOf(pairs[i].budget), i))
  }

  /** One pass over all sections, writing the grants of its kind. */
  method RunPass(pairs: seq<Pair>, pass: nat, granted: array<nat>, before: nat, ghost budget: nat)
    returns (remaining: nat)
    requires AllProper(pairs) && granted.Length == |pairs|
    requires before == Left(pairs, budget, pass, 0)
    modifies granted
    ensures remaining == Left(pairs, budget, pass, |pairs|)
    ensures forall i | 0 <= i < |pairs| ::
              granted[i] == if PassOf(pairs[i].budget) == pass then Granted(pairs, budget, i) else old(granted[i])
  {
    remaining := before;
    for i := 0 to |pairs|
      invariant remaining == Left(pairs, budget, pass, i)
      invariant forall k | 0 <= k < i ::
                  granted[k] == if PassOf(pairs[k].budget) == pass then Granted(pairs, budget, k) else old(granted[k])
      invariant forall k | i <= k < |pairs| :: granted[k] == old(granted[k])
    {
      if PassOf(pairs[i].budget) == pass {
        var claim := Claim(pairs[i], remaining);
        var grant := if claim <= remaining then claim else remaining;
        granted[i] := grant;
        remaining := remaining - grant;
      }
    }
  }

  /** Hands out the budget: Fixed, then Ratio, then Dynamic. */
  method AllocateBudgets(pairs: seq<Pair>, effectiveBudget: nat) returns (grants: seq<nat>)
    requires AllProper(pairs)
    ensures |grants| == |pairs|
    ensures forall i | 0 <= i < |pairs| :: grants[i] == Granted(pairs, effectiveBudget, i)
  {
    var granted := new nat[|pairs|](_ => 0);
    var remaining := RunPass(pairs, 0, granted, effectiveBudget, effectiveBudget);
    remaining := RunPass(pairs, 1, granted, remaining, effectiveBudget);
    remaining := RunPass(pairs, 2, granted, remaining, effectiveBudget);
    grants := granted[..];
  }

  // ---- conservation ----

  // The grants of one pass up to position `i`.
  ghost function PassTotal(pairs: seq<Pair>, budget: nat, pass: nat, i: nat): nat
    requires AllProper(pairs) && i <= |pairs|
  {
    if i == 0 then 0
    else PassTotal(pairs, budget, pass, i - 1) + if PassOf(pairs[i - 1].budget) == pass then Granted(pairs, budget, i - 1) else 0
  }

  lemma {:induction false} PassConserves(pairs: seq<Pair>, budget: nat, pass: nat, i: nat)
    requires AllProper(pairs) && i <= |pairs|
    ensures Left(pairs, budget, pass, i) + PassTotal(pairs, budget, pass, i) == Left(pairs, budget, pass, 0)
  {
    if i > 0 {
      PassConserves(pairs, budget, pass, i - 1);
    }
  }

  ghost function TotalGranted(pairs: seq<Pair>, budget: nat, i: nat): nat
    requires AllProper(pairs) && i <= |pairs|
  {
    if i == 0 then 0 else TotalGranted(pairs, budget, i - 1) + Granted(pairs, budget, i - 1)
  }

  lemma {:induction false} TotalIsByPass(pairs: seq<Pair>, budget: nat, i: nat)
    requires AllProper(pairs) && i <= |pairs|
    ensures TotalGranted(pairs, budget, i)
         == PassTotal(pairs, budget, 0, i) + PassTotal(pairs, budget, 1, i) + PassTotal(pairs, budget, 2, i)
  {
    if i > 0 {
      TotalIsByPass(pairs, budget, i - 1);
    }
  }

  /** Nothing is created or lost: the grants and what is left make up the budget. */
  lemma GrantsConserveBudget(pairs: seq<Pair>, budget: nat)
    requires AllProper(pairs)
    ensures TotalGranted(pairs, budget, |pairs|) + Left(pairs, budget, 2, |pairs|) == budget
  {
    TotalIsByPass(pairs, budget, |pairs|);
    PassConserves(pairs, budget, 0, |pairs|);
    PassConserves(pairs, budget, 1, |pairs|);
    PassConserves(pairs, budget, 2, |pairs|);
  }

  // ---- monotonicity ----

  // Sharing a larger amount gives no less, and leaves no less.
  lemma ShareIsMonotone(r1: nat, r2: nat, num: int, den: int)
    requires r1 <= r2 && 0 < num < den
    ensures r1 * num / den <= r2 * num / den <= r1 * num / den + (r2 - r1)
  {
    var d := r2 - r1;
    assert r2 * num == r1 * num + d * num;
    assert 0 <= d * num <= d * den;
    DivMonotone(r1 * num, r2 * num, den);
    DivMonotone(r2 * num, r1 * num + d * den, den);
    DivShift(r1 * num, d, den);
  }

  lemma DivMonotone(x: int, y: int, den: int)
    requires x <= y && den > 0
    ensures x / den <= y / den
  {
    var p, q := x / den, y / den;
    assert p * den <= x && y < q * den + den;
    if p > q {
      MultipleStep(p, q, den);
    }
  }

  lemma DivShift(x: int, d: int, den: int)
    requires den > 0
    ensures (x + d * den) / den == x / den + d
  {
    var q := x / den;
    var r := x % den;
    assert x + d * den == (q + d) * den + r;
    QuotientIs(x + d * den, q + d, r, den);
  }

  lemma {:induction false} MultipleStep(a: int, b: int, den: int)
    requires a > b && den > 0
    ensures a * den >= b * den + den
    decreases a - b
  {
    assert a * den == (a - 1) * den + den;
    if a > b + 1 {
      MultipleStep(a - 1, b, den);
    }
  }

  lemma QuotientIs(x: int, q: int, r: int, den: int)
    requires den > 0 && 0 <= r < den && x == q * den + r
    ensures x / den == q
  {
    var p := x / den;
    assert p * den <= x < p * den + den;
    if q > p {
      MultipleStep(q, p, den);
    } else if q < p {
      MultipleStep(p, q, den);
    }
  }

  lemma GrantIsMonotone(p: Pair, r1: nat, r2: nat)
    requires Proper(p) && r1 <= r2
    ensures Grant(p, r1) <= Grant(p, r2)
    ensures r1 - Grant(p, r1) <= r2 - Grant(p, r2)
  {
    if p.budget.Ratio? && p.budget.ratio.Quotient? && 0 < p.budget.ratio.num < p.budget.ratio.den {
      var num, den := p.budget.ratio.num, p.budget.ratio.den;
      ShareIsMonotone(r1, r2, num, den);
      ShareIsMonotone(0, r1, num, den);
      ShareIsMonotone(0, r2, num, den);
      assert 0 * num == 0 && 0 / den == 0;
    }
  }

  lemma {:induction false} LeftIsMonotone(pairs: seq<Pair>, b1: nat, b2: nat, pass: nat, i: nat)
    requires AllProper(pairs) && i <= |pairs| && b1 <= b2
    ensures Left(pairs, b1, pass, i) <= Left(pairs, b2, pass, i)
    decreases pass, i
  {
    if i > 0 {
      LeftIsMonotone(pairs, b1, b2, pass, i - 1);
      GrantIsMonotone(pairs[i - 1], Left(pairs, b1, pass, i - 1), Left(pairs, b2, pass, i - 1));
    } else if pass > 0 {
      LeftIsMonotone(pairs, b1, b2, pass - 1, |pairs|);
    }
  }

  /** Every grant is nondecreasing in the budget, through all three passes. */
  lemma GrantsAreMonotone(pairs: seq<Pair>, b1: nat, b2: nat, i: nat)
    requires AllProper(pairs) && i < |pairs| && b1 <= b2
    ensures Granted(pairs, b1, i) <= Granted(pairs, b2, i)
  {
    var pass := PassOf(pairs[i].budget);
    LeftIsMonotone(pairs, b1, b2, pass, i);
    GrantIsMonotone(pairs[i], Left(pairs, b1, pass, i), Left(pairs, b2, pass, i));
  }

  // ---- sorting ----

  predicate Before(a: Pair, b: Pair) {
    Rank(a.section.layer) < Rank(b.section.layer)
    || (Rank(a.section.layer) == Rank(b.section.layer) && a.section.priority < b.section.priority)
  }

  predicate SameKey(a: Pair, b: Pair) {
    a.section.layer == b.section.layer && a.section.priority == b.section.priority
  }

  // Puts a pair behind everything that does not come after it.
  function InsertSorted(sorted: seq<Pair>, p: Pair): seq<Pair> {
    if sorted == [] then [p]
    else
      var n := |sorted| - 1;
      if Before(p, sorted[n]) then InsertSorted(sorted[..n], p) + [sorted[n]] else sorted + [p]
  }

  // The stable sort of the pairs.
  function StableSort(pairs: seq<Pair>): seq<Pair> {
    if pairs == [] then [] else InsertSorted(StableSort(pairs[..|pairs| - 1]), pairs[|pairs| - 1])
  }

  ghost predicate Sorted(pairs: seq<Pair>) {
    forall i, j | 0 <= i < j < |pairs| :: !Before(pairs[j], pairs[i])
  }

  function WithKey(pairs: seq<Pair>, key: Pair): seq<Pair> {
    if pairs == [] then []
    else WithKey(pairs[..|pairs| - 1], key) + if SameKey(pairs[|pairs| - 1], key) then [pairs[|pairs| - 1]] else []
  }

  lemma {:induction false} InsertedMembers(sorted: seq<Pair>, p: Pair)
    ensures forall q | q in InsertSorted(sorted, p) :: q == p || q in sorted
  {
    if sorted != [] {
      InsertedMembers(sorted[..|sorted| - 1], p);
    }
  }

  lemma {:induction false} InsertKeepsSorted(sorted: seq<Pair>, p: Pair)
    requires Sorted(sorted)
    ensures Sorted(InsertSorted(sorted, p))
  {
    if sorted != [] {
      var n := |sorted| - 1;
      var rest, last := sorted[..n], sorted[n];
      var result := InsertSorted(sorted, p);
      if Before(p, last) {
        InsertKeepsSorted(rest, p);
        InsertedMembers(rest, p);
        forall i | 0 <= i < |result| - 1
          ensures !Before(last, result[i])
        {
          assert result[i] in InsertSorted(rest, p);
        }
      } else {
        forall i | 0 <= i < |sorted|
          ensures !Before(p, sorted[i])
        {
          assert i < n ==> !Before(last, sorted[i]);
        }
      }
    }
  }

  lemma {:induction false} InsertAddsOne(sorted: seq<Pair>, p: Pair)
    ensures multiset(InsertSorted(sorted, p)) == multiset(sorted) + multiset{p}
  {
    if sorted != [] {
      var n := |sorted| - 1;
      assert sorted == sorted[..n] + [sorted[n]];
      InsertAddsOne(sorted[..n], p);
    }
  }

  lemma {:induction false} InsertIsStable(sorted: seq<Pair>, p: Pair, key: Pair)
    requires Sorted(sorted)
    ensures WithKey(InsertSorted(sorted, p), key) == WithKey(sorted, key) + if SameKey(p, key) then [p] else []
  {
    if sorted == [] {
      assert [p][..0] == [];
    } else {
      var n := |sorted| - 1;
      var rest, last := sorted[..n], sorted[n];
      if Before(p, last) {
        InsertIsStable(rest, p, key);
        var inserted := InsertSorted(rest, p);
        assert (inserted + [last])[..|inserted|] == inserted;
      } else {
        assert (sorted + [p])[..|sorted|] == sorted;
      }
    }
  }

  /** The sort orders by layer, then priority. */
  lemma {:induction false} SortSorts(pairs: seq<Pair>)
    ensures Sorted(StableSort(pairs))
  {
    if pairs != [] {
      var n := |pairs| - 1;
      SortSorts(pairs[..n]);
      InsertKeepsSorted(StableSort(pairs[..n]), pairs[n]);
    }
  }

  /** The sort keeps every pair. */
  lemma {:induction false} SortPermutes(pairs: seq<Pair>)
    ensures multiset(StableSort(pairs)) == multiset(pairs)
  {
    if pairs != [] {
      var n := |pairs| - 1;
      var earlier := StableSort(pairs[..n]);
      calc {
        multiset(InsertSorted(earlier, pairs[n]));
        { InsertAddsOne(earlier, pairs[n]); }
        multiset(earlier) + multiset{pairs[n]};
        { SortPermutes(pairs[..n]); }
        multiset(pairs[..n]) + multiset{pairs[n]};
        { assert pairs == pairs[..n] + [pairs[n]]; }
        multiset(pairs);
      }
    }
  }

  /** The sort keeps the order of pairs with the same key. */
  lemma {:induction false} SortIsStable(pairs: seq<Pair>, key: Pair)
    ensures WithKey(StableSort(pairs), key) == WithKey(pairs, key)
  {
    if pairs != [] {
      var n := |pairs| - 1;
      SortIsStable(pairs[..n], key);
      SortSorts(pairs[..n]);
      InsertIsStable(StableSort(pairs[..n]), pairs[n], key);
    }
  }

  // ---- compiling a prompt ----

  datatype CompileResult = Compiled(sections: seq<Section>, totalTokens: nat) | LengthMismatch(sectionCount: nat, budgetCount: nat)

  function Paired(sections: seq<Section>, budgets: seq<Budget>): seq<Pair>
    requires |sections| == |budgets|
  {
    seq(|sections|, i requires 0 <= i < |sections| => Pair(sections[i], budgets[i]))
  }

  function InputPair(input: string, tokens: nat): Pair {
    Pair(Section(input, Input, INPUT_PRIORITY, tokens), Fixed(tokens))
  }

  // All sections with their budgets, the user input last, in the order of the prompt.
  function Arranged(sections: seq<Section>, budgets: seq<Budget>, input: string, tokens: nat): seq<Pair>
    requires |sections| == |budgets|
  {
    StableSort(Paired(sections, budgets) + [InputPair(input, tokens)])
  }

  function EffectiveBudget(contextLength: nat): nat {
    if contextLength >= SAFETY_MARGIN then contextLength - SAFETY_MARGIN else 0
  }

  ghost predicate Survives(pairs: seq<Pair>, budget: nat, i: nat)
    requires AllProper(pairs) && i < |pairs|
  {
    pairs[i].section.layer == Input || Granted(pairs, budget, i) >= pairs[i].section.tokens
  }

  // The sections that survive among the first `n`.
  ghost function Kept(pairs: seq<Pair>, budget: nat, n: nat): seq<Section>
    requires AllProper(pairs) && n <= |pairs|
  {
    if n == 0 then []
    else Kept(pairs, budget, n - 1) + if Survives(pairs, budget, n - 1) then [pairs[n - 1].section] else []
  }

  function SumTokens(sections: seq<Section>): nat {
    if sections == [] then 0 else SumTokens(sections[..|sections| - 1]) + sections[|sections| - 1].tokens
  }

  ghost predicate ProperBudgets(budgets: seq<Budget>) {
    forall b: Budget | b in budgets && b.Ratio? && b.ratio.Quotient? :: b.ratio.den > 0
  }

  lemma ArrangedIsProper(sections: seq<Section>, budgets: seq<Budget>, input: string, tokens: nat)
    requires |sections| == |budgets| && ProperBudgets(budgets)
    ensures AllProper(Arranged(sections, budgets, input, tokens))
  {
    var pairs := Paired(sections, budgets) + [InputPair(input, tokens)];
    SortPermutes(pairs);
    forall p | p in StableSort(pairs)
      ensures Proper(p)
    {
      assert p in multiset(StableSort(pairs));
      assert p in pairs;
      if p != InputPair(input, tokens) {
        var i :| 0 <= i < |sections| && pairs[i] == p;
        assert p.budget == budgets[i];
      }
    }
  }

  lemma KeptStep(pairs: seq<Pair>, budget: nat, n: nat)
    requires AllProper(pairs) && n < |pairs|
    ensures var before, s := Kept(pairs, budget, n), pairs[n].section;
            if Survives(pairs, budget, n)
            then Kept(pairs, budget, n + 1) == before + [s] && SumTokens(before + [s]) == SumTokens(before) + s.tokens
            else Kept(pairs, budget, n + 1) == before
  {
    var before, s := Kept(pairs, budget, n), pairs[n].section;
    assert (before + [s])[..|before|] == before;
    assert before + [] == before;
  }

  /** Compiles a prompt: what is kept is exactly what the grants fund. */
  method Compile(sections: seq<Section>, budgets: seq<Budget>, userInput: string, inputTokens: nat, contextLength: nat)
    returns (r: CompileResult)
    requires ProperBudgets(budgets)
    ensures |sections| != |budgets| ==> r == LengthMismatch(|sections|, |budgets|)
    ensures |sections| == |budgets| ==>
              AllProper(Arranged(sections, budgets, userInput, inputTokens))
              && var pairs := Arranged(sections, budgets, userInput, inputTokens);
                 r.Compiled? && r.sections == Kept(pairs, EffectiveBudget(contextLength), |pairs|)
                 && r.totalTokens == SumTokens(r.sections)
  {
    if |sections| != |budgets| {
      return LengthMismatch(|sections|, |budgets|);
    }
    ArrangedIsProper(sections, budgets, userInput, inputTokens);
    var paired := Paired(sections, budgets);
    paired := paired + [InputPair(userInput, inputTokens)];
    paired := StableSort(paired);
    var effectiveBudget := EffectiveBudget(contextLength);
    var grants := AllocateBudgets(paired, effectiveBudget);
    var trimmed: seq<Section> := [];
    var totalTokens := 0;
    for i := 0 to |paired|
      invariant trimmed == Kept(paired, effectiveBudget, i)
      invariant totalTokens == SumTokens(trimmed)
    {
      KeptStep(paired, effectiveBudget, i);
      if paired[i].section.layer == Input || grants[i] >= paired[i].section.tokens {
        trimmed := trimmed + [paired[i].section];
        totalTokens := totalTokens + paired[i].section.tokens;
      }
    }
    r := Compiled(trimmed, totalTokens);
  }

  // ---- what a prompt keeps ----

  /** A larger context keeps everything a smaller one keeps, in the same order. */
  lemma {:induction false} LargerContextKeepsMore(pairs: seq<Pair>, b1: nat, b2: nat, n: nat)
    requires AllProper(pairs) && n <= |pairs| && b1 <= b2
    ensures Subsequence(Kept(pairs, b1, n), Kept(pairs, b2, n))
  {
    if n > 0 {
      LargerContextKeepsMore(pairs, b1, b2, n - 1);
      GrantsAreMonotone(pairs, b1, b2, n - 1);
      var k1, k2 := Kept(pairs, b1, n - 1), Kept(pairs, b2, n - 1);
      SubsequenceSnoc(k1, k2, pairs[n - 1].section);
      assert k1 + [] == k1 && k2 + [] == k2;
    }
  }

  function SectionsOf(pairs: seq<Pair>): seq<Section> {
    seq(|pairs|, i requires 0 <= i < |pairs| => pairs[i].section)
  }

  /** What is kept is a subsequence of the sorted sections. */
  lemma {:induction false} KeptIsSubsequence(pairs: seq<Pair>, budget: nat, n: nat)
    requires AllProper(pairs) && n <= |pairs|
    ensures Subsequence(Kept(pairs, budget, n), SectionsOf(pairs[..n]))
  {
    if n > 0 {
      KeptIsSubsequence(pairs, budget, n - 1);
      var s := pairs[n - 1].section;
      assert SectionsOf(pairs[..n]) == SectionsOf(pairs[..n - 1]) + [s];
      SubsequenceSnoc(Kept(pairs, budget, n - 1), SectionsOf(pairs[..n - 1]), s);
      KeptStep(pairs, budget, n - 1);
    }
  }

  /** The user input is always kept, whatever the budget. */
  lemma {:induction false} InputIsKept(pairs: seq<Pair>, budget: nat, n: nat, i: nat)
    requires AllProper(pairs) && i < n <= |pairs| && pairs[i].section.layer == Input
    ensures pairs[i].section in Kept(pairs, budget, n)
  {
    KeptStep(pairs, budget, n - 1);
    if i < n - 1 {
      InputIsKept(pairs, budget, n - 1, i);
    }
  }

  // The tokens of the kept sections that are not input, and the grants to input sections.
  ghost function KeptTokens(pairs: seq<Pair>, budget: nat, n: nat): nat
    requires AllProper(pairs) && n <= |pairs|
  {
    if n == 0 then 0
    else KeptTokens(pairs, budget, n - 1)
         + if pairs[n - 1].section.layer != Input
             && Survives(pairs, budget, n - 1) then pairs[n - 1].section.tokens else 0
  }

  ghost function InputGrants(pairs: seq<Pair>, budget: nat, n: nat): nat
    requires AllProper(pairs) && n <= |pairs|
  {
    if n == 0 then 0
    else InputGrants(pairs, budget, n - 1)
         + if pairs[n - 1].section.layer == Input then Granted(pairs, budget, n - 1) else 0
  }

  lemma {:induction false} KeptIsFunded(pairs: seq<Pair>, budget: nat, n: nat)
    requires AllProper(pairs) && n <= |pairs|
    ensures KeptTokens(pairs, budget, n) + InputGrants(pairs, budget, n) <= TotalGranted(pairs, budget, n)
  {
    if n > 0 {
      KeptIsFunded(pairs, budget, n - 1);
    }
  }

  /** The kept sections, user input aside, cost at most the budget less what input was granted. */
  lemma KeptFitsBudget(pairs: seq<Pair>, budget: nat)
    requires AllProper(pairs)
    ensures KeptTokens(pairs, budget, |pairs|) + InputGrants(pairs, budget, |pairs|) <= budget
  {
    KeptIsFunded(pairs, budget, |pairs|);
    GrantsConserveBudget(pairs, budget);
  }

  /** For a compiled prompt: a longer context window never loses a section. */
  lemma LongerContextLosesNothing(sections: seq<Section>, budgets: seq<Budget>, input: string, tokens: nat,
                                  short: nat, long: nat)
    requires |sections| == |budgets| && ProperBudgets(budgets) && short <= long
    ensures AllProper(Arranged(sections, budgets, input, tokens))
    ensures var pairs := Arranged(sections, budgets, input, tokens);
            Subsequence(Kept(pairs, EffectiveBudget(short), |pairs|), Kept(pairs, EffectiveBudget(long), |pairs|))
  {
    ArrangedIsProper(sections, budgets, input, tokens);
    var pairs := Arranged(sections, budgets, input, tokens);
    LargerContextKeepsMore(pairs, EffectiveBudget(short), EffectiveBudget(long), |pairs|);
  }

  // ---- what a grant is ----

  /** A fixed section is granted its claim, a dynamic one its size, and a ratio its exact share
      rounded down, all of it from 1 on and nothing up to 0 or without a number; where less is
      left, that is all there is. */
  lemma GrantMeans(p: Pair, left: nat)
    requires Proper(p)
    ensures p.budget.Fixed? ==> Grant(p, left) == if p.budget.claim <= left then p.budget.claim else left
    ensures p.budget.Dynamic? ==> Grant(p, left) == if p.section.tokens <= left then p.section.tokens else left
    ensures p.budget.Ratio? && p.budget.ratio.NaN? ==> Grant(p, left) == 0
    ensures p.budget.Ratio? && p.budget.ratio.Quotient? ==>
              var num, den, g := p.budget.ratio.num, p.budget.ratio.den, Grant(p, left);
              if num <= 0 then g == 0
              else if num >= den then g == left
              else g * den <= left * num < g * den + den
  {
    if p.budget.Ratio? && p.budget.ratio.Quotient? && 0 < p.budget.ratio.num < p.budget.ratio.den {
      var num, den := p.budget.ratio.num, p.budget.ratio.den;
      var product := left * num;
      assert product == product / den * den + product % den;
      ShareIsMonotone(0, left, num, den);
      assert 0 * num == 0 && 0 / den == 0;
    }
  }

  // Fixed claims are served before ratios, ratios before dynamic ones, equals in their order.
  predicate ServedBefore(pairs: seq<Pair>, j: nat, i: nat)
    requires j < |pairs| && i < |pairs|
  {
    var a, b := pairs[j].budget, pairs[i].budget;
    (a.Fixed? && !b.Fixed?) || (a.Ratio? && b.Dynamic?)
    || (j < i && ((a.Fixed? && b.Fixed?) || (a.Ratio? && b.Ratio?) || (a.Dynamic? && b.Dynamic?)))
  }

  // What is granted, among the first `n`, to those that are served before section `i`.
  ghost function GrantedBefore(pairs: seq<Pair>, budget: nat, i: nat, n: nat): nat
    requires AllProper(pairs) && i < |pairs| && n <= |pairs|
  {
    if n == 0 then 0
    else GrantedBefore(pairs, budget, i, n - 1) + if ServedBefore(pairs, n - 1, i) then Granted(pairs, budget, n - 1) else 0
  }

  /** A section is granted from what the sections served before it have left. */
  lemma GrantedFromWhatIsLeft(pairs: seq<Pair>, budget: nat, i: nat)
    requires AllProper(pairs) && i < |pairs|
    ensures GrantedBefore(pairs, budget, i, |pairs|) <= budget
    ensures Granted(pairs, budget, i) == Grant(pairs[i], budget - GrantedBefore(pairs, budget, i, |pairs|))
  {
    var pass := PassOf(pairs[i].budget);
    BeforeByPass(pairs, budget, i, |pairs|);
    PassConserves(pairs, budget, pass, i);
    if pass > 0 { PassConserves(pairs, budget, pass - 1, |pairs|); }
    if pass > 1 { PassConserves(pairs, budget, pass - 2, |pairs|); }
  }

  lemma {:induction false} BeforeByPass(pairs: seq<Pair>, budget: nat, i: nat, n: nat)
    requires AllProper(pairs) && i < |pairs| && n <= |pairs|
    ensures var pass := PassOf(pairs[i].budget);
            GrantedBefore(pairs, budget, i, n)
            == PassTotal(pairs, budget, pass, if n <= i then n else i)
               + (if pass > 0 then PassTotal(pairs, budget, 0, n) else 0)
               + (if pass > 1 then PassTotal(pairs, budget, 1, n) else 0)
  {
    if n > 0 {
      BeforeByPass(pairs, budget, i, n - 1);
    }
  }

  /** The layers come in this order, whatever the priorities. */
  lemma LayersInOrder(a: Pair, b: Pair)
    ensures var order := [System, Rules, Tools, Memory, Events, Input];
            forall i, j | 0 <= i < j < 6 && a.section.layer == order[i] && b.section.layer == order[j] ::
              Before(a, b) && !Before(b, a)
    ensures a.section.layer == b.section.layer ==> (Before(a, b) <==> a.section.priority < b.section.priority)
  {
  }

  /** The user's input comes last, as long as priorities are bytes. */
  lemma InputIsLast(sections: seq<Section>, budgets: seq<Budget>, input: string, tokens: nat)
    requires |sections| == |budgets| && forall s | s in sections :: s.priority <= 255
    ensures Arranged(sections, budgets, input, tokens)
         == StableSort(Paired(sections, budgets)) + [Pair(Section(input, Input, 255, tokens), Fixed(tokens))]
  {
    var pairs, last := Paired(sections, budgets), InputPair(input, tokens);
    assert (pairs + [last])[..|pairs|] == pairs;
    var sorted := StableSort(pairs);
    SortPermutes(pairs);
    if sorted != [] {
      var p := sorted[|sorted| - 1];
      assert p in multiset(sorted);
      assert p in pairs;
      assert p.section in sections;
    }
  }

  // ---- what is enough ----

  // No ratios, and every fixed claim covers its section.
  ghost predicate Covered(pairs: seq<Pair>) {
    forall p | p in pairs :: p.budget.Dynamic? || (p.budget.Fixed? && p.section.tokens <= p.budget.claim)
  }

  // All that is claimed among the first `n`, but for section `i`.
  ghost function ClaimedByOthers(pairs: seq<Pair>, i: nat, n: nat): nat
    requires AllProper(pairs) && n <= |pairs|
  {
    if n == 0 then 0 else ClaimedByOthers(pairs, i, n - 1) + if n - 1 == i then 0 else Claim(pairs[n - 1], 0)
  }

  lemma {:induction false} GrantedIsClaimed(pairs: seq<Pair>, budget: nat, i: nat, n: nat)
    requires AllProper(pairs) && Covered(pairs) && i < |pairs| && n <= |pairs|
    ensures GrantedBefore(pairs, budget, i, n) <= ClaimedByOthers(pairs, i, n)
  {
    if n > 0 {
      GrantedIsClaimed(pairs, budget, i, n - 1);
      assert pairs[n - 1] in pairs;
    }
  }

  // A section whose claim is left over by the claims of all others is funded.
  lemma EnoughFunds(pairs: seq<Pair>, budget: nat, i: nat)
    requires AllProper(pairs) && Covered(pairs) && i < |pairs|
    requires ClaimedByOthers(pairs, i, |pairs|) + Claim(pairs[i], 0) <= budget
    ensures Granted(pairs, budget, i) == Claim(pairs[i], 0) >= pairs[i].section.tokens
  {
    GrantedFromWhatIsLeft(pairs, budget, i);
    GrantedIsClaimed(pairs, budget, i, |pairs|);
    assert pairs[i] in pairs;
  }

  lemma {:induction false} KeptAll(pairs: seq<Pair>, budget: nat, n: nat)
    requires AllProper(pairs) && n <= |pairs| && forall i | 0 <= i < n :: Granted(pairs, budget, i) >= pairs[i].section.tokens
    ensures Kept(pairs, budget, n) == SectionsOf(pairs[..n])
  {
    if n > 0 {
      KeptAll(pairs, budget, n - 1);
      assert SectionsOf(pairs[..n]) == SectionsOf(pairs[..n - 1]) + [pairs[n - 1].section];
    }
  }

  /** A context that exceeds all claims by the margin of 4096 tokens keeps every section. */
  lemma AmpleContextKeepsAll(pairs: seq<Pair>, contextLength: nat)
    requires AllProper(pairs) && Covered(pairs)
    requires forall i | 0 <= i < |pairs| :: ClaimedByOthers(pairs, i, |pairs|) + Claim(pairs[i], 0) + 4096 <= contextLength
    ensures Kept(pairs, EffectiveBudget(contextLength), |pairs|) == SectionsOf(pairs)
  {
    forall i: nat | i < |pairs|
      ensures Granted(pairs, EffectiveBudget(contextLength), i) >= pairs[i].section.tokens
    {
      assert ClaimedByOthers(pairs, i, |pairs|) + Claim(pairs[i], 0) + 4096 <= contextLength;
      EnoughFunds(pairs, EffectiveBudget(contextLength), i);
    }
    KeptAll(pairs, EffectiveBudget(contextLength), |pairs|);
    assert pairs[..|pairs|] == pairs;
  }

  /** A context of no more than the margin funds nothing. */
  lemma NoContextFundsNothing(pairs: seq<Pair>, contextLength: nat, i: nat)
    requires AllProper(pairs) && i < |pairs| && contextLength <= 4096
    ensures Granted(pairs, EffectiveBudget(contextLength), i) == 0
    ensures Survives(pairs, EffectiveBudget(contextLength), i)
            <==> pairs[i].section.layer == Input || pairs[i].section.tokens == 0
  {
    GrantedFromWhatIsLeft(pairs, 0, i);
  }
}
