/**
 * `best_combination` of meal_calculator.py: the 0/1 subset-sum dynamic
 * program that picks the dishes whose total comes closest to a budget
 * without exceeding it, preferring fewer dishes among equal totals.
 *
 * A choice of dishes is a subsequence of the menu: the menu's order is
 * kept and each listed dish is taken at most once. `MinCount(s, t)` is the
 * reference definition the program is proved against: the fewest dishes of
 * a subsequence of `s` whose prices add up to exactly `t`, if any does.
 */
module Optimizer {
  import opened Wrappers
  import opened Menu

  /** The total price of a choice of dishes. */
  function Sum(c: seq<MenuItem>): int {
    if c == [] then 0 else Sum(c[..|c| - 1]) + c[|c| - 1].price
  }

  /** `c` is `s` with some dishes left out, in the same order. */
  predicate IsSubseq(c: seq<MenuItem>, s: seq<MenuItem>)
    decreases |s|
  {
    if s == [] then c == []
    else IsSubseq(c, s[..|s| - 1])
         || (c != [] && c[|c| - 1] == s[|s| - 1] && IsSubseq(c[..|c| - 1], s[..|s| - 1]))
  }

  predicate NonNegative(s: seq<MenuItem>) {
    forall i :: 0 <= i < |s| ==> s[i].price >= 0
  }

  predicate Positive(s: seq<MenuItem>) {
    forall i :: 0 <= i < |s| ==> s[i].price > 0
  }

  /** The smaller of two optional counts; an absent count is no bound at all. */
  function MinOpt(a: Option<nat>, b: Option<nat>): (r: Option<nat>)
    ensures r.None? <==> a.None? && b.None?
    ensures r.Some? ==> (a.Some? ==> r.value <= a.value) && (b.Some? ==> r.value <= b.value)
    ensures r == a || r == b
  {
    match (a, b)
    case (None, _) => b
    case (_, None) => a
    case (Some(x), Some(y)) => if y < x then b else a
  }

  function Plus1(a: Option<nat>): Option<nat> {
    match a
    case None => None
    case Some(n) => Some(n + 1)
  }

  /**
   * The fewest dishes of a subsequence of `s` whose prices add up to `t`:
   * either the last dish of `s` is left out, or it completes a choice from
   * the rest that adds up to `t` minus its price.
   */
  function MinCount(s: seq<MenuItem>, t: int): Option<nat>
    decreases |s|
  {
    if s == [] then (if t == 0 then Some(0) else None)
    else
      var x := s[|s| - 1];
      MinOpt(MinCount(s[..|s| - 1], t), Plus1(MinCount(s[..|s| - 1], t - x.price)))
  }

  /** Every choice adding up to `t` has at least `MinCount(s, t)` dishes. */
  lemma {:induction false} MinCountIsMinimal(c: seq<MenuItem>, s: seq<MenuItem>)
    requires IsSubseq(c, s)
    ensures MinCount(s, Sum(c)).Some? && MinCount(s, Sum(c)).value <= |c|
    decreases |s|
  {
    if s == [] {
      assert c == [];
    } else if IsSubseq(c, s[..|s| - 1]) {
      MinCountIsMinimal(c, s[..|s| - 1]);
    } else {
      var c' := c[..|c| - 1];
      MinCountIsMinimal(c', s[..|s| - 1]);
      assert Sum(c) - s[|s| - 1].price == Sum(c');
    }
  }

  /** `MinCount` is attained: some choice adds up to `t` with exactly that many dishes. */
  lemma {:induction false} MinCountAttained(s: seq<MenuItem>, t: int) returns (c: seq<MenuItem>)
    requires MinCount(s, t).Some?
    ensures IsSubseq(c, s) && Sum(c) == t && |c| == MinCount(s, t).value
    decreases |s|
  {
    if s == [] {
      c := [];
    } else {
      var init, x := s[..|s| - 1], s[|s| - 1];
      if MinCount(s, t) == MinCount(init, t) {
        c := MinCountAttained(init, t);
      } else {
        var c' := MinCountAttained(init, t - x.price);
        c := c' + [x];
        assert c[..|c| - 1] == c';
      }
    }
  }

  /** No choice from non-negative prices adds up to a negative total. */
  lemma {:induction false} MinCountNegative(s: seq<MenuItem>, t: int)
    requires NonNegative(s) && t < 0
    ensures MinCount(s, t).None?
    decreases |s|
  {
    if s != [] {
      MinCountNegative(s[..|s| - 1], t);
      MinCountNegative(s[..|s| - 1], t - s[|s| - 1].price);
    }
  }

  /** The empty choice is always the fewest dishes for a total of zero. */
  lemma {:induction false} MinCountZero(s: seq<MenuItem>)
    ensures MinCount(s, 0) == Some(0)
    decreases |s|
  {
    if s != [] {
      MinCountZero(s[..|s| - 1]);
    }
  }

  /** A dish appended to the menu can be left out: choices from `s` stay choices. */
  lemma SubseqExtend(c: seq<MenuItem>, s: seq<MenuItem>, x: MenuItem)
    requires IsSubseq(c, s)
    ensures IsSubseq(c, s + [x])
  {
    assert (s + [x])[..|s|] == s;
  }

  /** Each dish of the menu is taken at most as often as it is listed. */
  lemma {:induction false} SubseqMultiset(c: seq<MenuItem>, s: seq<MenuItem>)
    requires IsSubseq(c, s)
    ensures multiset(c) <= multiset(s)
    decreases |s|
  {
    if s != [] {
      var init := s[..|s| - 1];
      assert s == init + [s[|s| - 1]];
      if IsSubseq(c, init) {
        SubseqMultiset(c, init);
      } else {
        SubseqMultiset(c[..|c| - 1], init);
        assert c == c[..|c| - 1] + [c[|c| - 1]];
      }
    }
  }

  /**
   * What a cell `best[t]` holds once the dishes `s` have been processed:
   * a choice exactly when one adds up to `t`, and then one with the fewest
   * dishes, none of them free.
   */
  predicate Filled(cell: Option<seq<MenuItem>>, s: seq<MenuItem>, t: int) {
    (cell.Some? <==> MinCount(s, t).Some?)
    && (cell.Some? ==>
          IsSubseq(cell.value, s) && Sum(cell.value) == t
          && |cell.value| == MinCount(s, t).value && Positive(cell.value))
  }

  /**
   * One relaxation of the inner loop: the choice at `amount` extended by
   * `x` replaces the one at `amount + x.price` when there is none there or
   * it is strictly shorter.
   */
  function Relaxed(atAmount: Option<seq<MenuItem>>, atNew: Option<seq<MenuItem>>, x: MenuItem): Option<seq<MenuItem>> {
    match atAmount
    case None => atNew
    case Some(c) =>
      if atNew.None? || |c + [x]| < |atNew.value| then Some(c + [x]) else atNew
  }

  /** Relaxing a cell with the next dish `x` brings it up to date with `s + [x]`. */
  lemma RelaxFilled(atAmount: Option<seq<MenuItem>>, atNew: Option<seq<MenuItem>>,
                    s: seq<MenuItem>, x: MenuItem, amount: int)
    requires x.price >= 0
    requires Filled(atAmount, s, amount) && Filled(atNew, s, amount + x.price)
    requires x.price == 0 ==> atNew == atAmount
    ensures Filled(Relaxed(atAmount, atNew, x), s + [x], amount + x.price)
  {
    var t := amount + x.price;
    MinCountSnoc(s, x, t);
    var r := Relaxed(atAmount, atNew, x);
    if r == atNew {
      if atNew.Some? {
        SubseqExtend(atNew.value, s, x);
      }
    } else {
      RelaxTakes(atAmount.value, s, x, amount);
    }
  }

  /** `MinCount` on a menu with one more dish at the end, unfolded once. */
  lemma MinCountSnoc(s: seq<MenuItem>, x: MenuItem, t: int)
    ensures MinCount(s + [x], t) == MinOpt(MinCount(s, t), Plus1(MinCount(s, t - x.price)))
  {
    assert (s + [x])[..|s|] == s;
  }

  /** Extending a fewest-dish choice for `amount` by a priced dish `x` is a fewest-dish choice for `amount + x.price` when that count is one more. */
  lemma RelaxTakes(c: seq<MenuItem>, s: seq<MenuItem>, x: MenuItem, amount: int)
    requires Filled(Some(c), s, amount) && x.price > 0
    requires MinCount(s + [x], amount + x.price) == Some(|c| + 1)
    ensures Filled(Some(c + [x]), s + [x], amount + x.price)
  {
    assert (c + [x])[..|c|] == c;
    assert (s + [x])[..|s|] == s;
    assert IsSubseq(c + [x], s + [x]);
    assert Sum(c + [x]) == Sum(c) + x.price;
  }

  /** A dish dearer than `t` cannot help reach `t`: the cell stays as it is. */
  lemma BelowPriceFilled(cell: Option<seq<MenuItem>>, s: seq<MenuItem>, x: MenuItem, t: int)
    requires NonNegative(s) && t < x.price
    requires Filled(cell, s, t)
    ensures Filled(cell, s + [x], t)
  {
    assert (s + [x])[..|s|] == s;
    MinCountNegative(s, t - x.price);
    if cell.Some? {
      SubseqExtend(cell.value, s, x);
    }
  }

  /**
   * One pass of the outer loop of `best_combination`: the scan from
   * `budget - item.price` down to 0 that offers `item` to every cell, so
   * that the table, up to date with the dishes `s`, becomes up to date
   * with `s + [item]`.
   */
  method AddDish(best: array<Option<seq<MenuItem>>>, ghost s: seq<MenuItem>, item: MenuItem)
    requires best.Length > 0 && NonNegative(s) && item.price >= 0
    requires forall t :: 0 <= t < best.Length ==> Filled(best[t], s, t)
    modifies best
    ensures forall t :: 0 <= t < best.Length ==> Filled(best[t], s + [item], t)
  {
    var budget := best.Length - 1;
    var amount := budget - item.price;
    while amount >= 0
      invariant amount <= budget - item.price
      invariant forall t :: 0 <= t <= budget ==>
        (t > amount + item.price ==> Filled(best[t], s + [item], t))
        && (t <= amount + item.price ==> Filled(best[t], s, t))
    {
      var newTotal := amount + item.price;
      ghost var atAmount, atNew := best[amount], best[newTotal];
      var combo := best[amount];
      if combo.Some? {
        var newCombo := combo.value + [item];
        var existing := best[newTotal];
        if existing.None? || |newCombo| < |existing.value| {
          best[newTotal] := Some(newCombo);
        }
      }
      assert best[newTotal] == Relaxed(atAmount, atNew, item);
      RelaxFilled(atAmount, atNew, s, item, amount);
      amount := amount - 1;
    }
    forall t | 0 <= t <= budget
      ensures Filled(best[t], s + [item], t)
    {
      if t <= amount + item.price {
        BelowPriceFilled(best[t], s, item, t);
      }
    }
  }

  /**
   * `best_combination(items, budget)`: a negative budget is a ValueError;
   * otherwise the highest total any choice of dishes reaches without
   * exceeding the budget, with a choice that reaches it using the fewest
   * dishes and no free dish.
   */
  method BestCombination(items: seq<MenuItem>, budget: int) returns (r: Result<(int, seq<MenuItem>), string>)
    requires NonNegative(items)
    ensures r.Failure? <==> budget < 0
    ensures r.Failure? ==> r.error == "budget must be a non-negative integer"
    ensures r.Success? ==>
      var (total, combo) := r.value;
      && 0 <= total <= budget
      && IsSubseq(combo, items) && multiset(combo) <= multiset(items) && Sum(combo) == total
      && (forall c :: IsSubseq(c, items) && Sum(c) <= budget ==> Sum(c) <= total)
      && (forall c :: IsSubseq(c, items) && Sum(c) == total ==> |combo| <= |c|)
      && Positive(combo)
      && (total == 0 ==> combo == [])
  {
    if budget < 0 {
      return Failure("budget must be a non-negative integer");
    }
    var best := new Option<seq<MenuItem>>[budget + 1](_ => None);
    best[0] := Some([]);
    forall t | 0 <= t <= budget
      ensures Filled(best[t], items[..0], t)
    {
      assert items[..0] == [];
    }

    var k := 0;
    while k < |items|
      invariant 0 <= k <= |items|
      invariant forall t :: 0 <= t <= budget ==> Filled(best[t], items[..k], t)
    {
      var item := items[k];
      assert items[..k + 1] == items[..k] + [item];
      assert NonNegative(items[..k]);
      AddDish(best, items[..k], item);
      k := k + 1;
    }
    assert items[..k] == items;

    MinCountZero(items);
    var total := budget;
    while best[total].None?
      invariant 0 <= total <= budget
      invariant forall t :: total < t <= budget ==> MinCount(items, t).None?
      decreases total
    {
      total := total - 1;
    }
    var combo := best[total].value;
    SubseqMultiset(combo, items);

    forall c | IsSubseq(c, items) && Sum(c) <= budget
      ensures Sum(c) <= total
    {
      MinCountIsMinimal(c, items);
    }
    forall c | IsSubseq(c, items) && Sum(c) == total
      ensures |combo| <= |c|
    {
      MinCountIsMinimal(c, items);
    }
    return Success((total, combo));
  }
}
