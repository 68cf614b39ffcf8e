/**
  Delivery tiers (basket.ts:32 and 90-98): the constructor sorts the configured
  rules by threshold, highest first, with a stable sort; the charge is the cost
  of the first sorted rule whose threshold the subtotal reaches, falling back to
  the last (lowest) rule's cost, or 0 when there are no rules.
 */
module Delivery {
  import opened Results
  import opened Config

  ghost predicate SortedDesc(rules: seq<DeliveryRule>) {
    forall i, j :: 0 <= i < j < |rules| ==> rules[i].threshold >= rules[j].threshold
  }

  /**
    Insert `rule` into a descending list after every rule whose threshold is at
    least its own, so that equal thresholds keep their arrival order.
   */
  function Insert(sorted: seq<DeliveryRule>, rule: DeliveryRule): (r: seq<DeliveryRule>)
    ensures multiset(r) == multiset(sorted) + multiset{rule}
    ensures |r| == |sorted| + 1
    ensures r[0] == rule || (|sorted| > 0 && r[0] == sorted[0])
  {
    if |sorted| == 0 then [rule]
    else if sorted[0].threshold >= rule.threshold then
      assert sorted == [sorted[0]] + sorted[1..];
      [sorted[0]] + Insert(sorted[1..], rule)
    else [rule] + sorted
  }

  /** Inserting into a descending list keeps it descending. */
  lemma {:induction false} InsertKeepsSorted(sorted: seq<DeliveryRule>, rule: DeliveryRule)
    requires SortedDesc(sorted)
    ensures SortedDesc(Insert(sorted, rule))
  {
    if |sorted| > 0 && sorted[0].threshold >= rule.threshold {
      var rest := Insert(sorted[1..], rule);
      InsertKeepsSorted(sorted[1..], rule);
      assert forall k :: 0 <= k < |rest| ==> rest[k].threshold <= sorted[0].threshold by {
        forall k | 0 <= k < |rest|
          ensures rest[k].threshold <= sorted[0].threshold
        {
          assert rest[k] in multiset(rest);
          assert rest[k] in multiset(sorted[1..]) + multiset{rule};
          if rest[k] != rule {
            var j :| 0 <= j < |sorted[1..]| && sorted[1..][j] == rest[k];
            assert sorted[j + 1] == rest[k];
          }
        }
      }
      assert Insert(sorted, rule) == [sorted[0]] + rest;
    }
  }

  /**
    The rule list as the constructor stores it: a copy of the configured rules
    sorted by threshold, highest first, by a stable sort.
   */
  function SortByThresholdDesc(rules: seq<DeliveryRule>): (r: seq<DeliveryRule>)
    ensures SortedDesc(r)
    ensures multiset(r) == multiset(rules)
    ensures |r| == |rules|
  {
    if |rules| == 0 then []
    else
      var init := rules[..|rules| - 1];
      var sortedInit := SortByThresholdDesc(init);
      assert rules == init + [rules[|rules| - 1]];
      InsertKeepsSorted(sortedInit, rules[|rules| - 1]);
      Insert(sortedInit, rules[|rules| - 1])
  }

  /**
    Index of the first rule whose threshold `subtotal` reaches, or `|rules|`
    when no rule qualifies: where the `for ... of` loop returns.
   */
  function FirstMatchIndex(rules: seq<DeliveryRule>, subtotal: int): (k: nat)
    ensures k <= |rules|
    ensures forall j :: 0 <= j < k ==> rules[j].threshold > subtotal
    ensures k < |rules| ==> rules[k].threshold <= subtotal
  {
    if |rules| == 0 then 0
    else if subtotal >= rules[0].threshold then 0
    else 1 + FirstMatchIndex(rules[1..], subtotal)
  }

  /** The rule the loop returns the cost of, if any. */
  function Selected(rules: seq<DeliveryRule>, subtotal: int): Option<DeliveryRule>
  {
    var k := FirstMatchIndex(rules, subtotal);
    if k < |rules| then Some(rules[k]) else None
  }

  /**
    The charge when no rule is reached: the cost of the last stored rule, or 0
    when there are no rules (for integer costs).
   */
  function FallbackCost(rules: seq<DeliveryRule>): (cost: int)
    ensures |rules| == 0 ==> cost == 0
    ensures |rules| > 0 ==> cost == rules[|rules| - 1].cost
  {
    if |rules| == 0 then 0 else rules[|rules| - 1].cost
  }

  /**
    The delivery charge for `subtotal`: the cost of the first rule whose
    threshold the subtotal reaches, or the fallback when none does.
   */
  function DeliveryCost(rules: seq<DeliveryRule>, subtotal: int): (cost: int)
    ensures (exists i :: 0 <= i < |rules| && rules[i].threshold <= subtotal) ==>
              exists k :: 0 <= k < |rules| && rules[k].threshold <= subtotal && cost == rules[k].cost
                          && forall j :: 0 <= j < k ==> rules[j].threshold > subtotal
    ensures (forall i :: 0 <= i < |rules| ==> rules[i].threshold > subtotal) ==> cost == FallbackCost(rules)
  {
    match Selected(rules, subtotal)
    case Some(rule) => rule.cost
    case None => FallbackCost(rules)
  }

  /** basket.ts:90-98, the loop with its early return and the fallback after it. */
  method CalculateDelivery(rules: seq<DeliveryRule>, subtotal: int) returns (cost: int)
    ensures cost == DeliveryCost(rules, subtotal)
  {
    var i := 0;
    while i < |rules|
      invariant i <= |rules|
      invariant forall j :: 0 <= j < i ==> rules[j].threshold > subtotal
    {
      if subtotal >= rules[i].threshold {
        return rules[i].cost;
      }
      i := i + 1;
    }
    if |rules| > 0 {
      cost := rules[|rules| - 1].cost;
    } else {
      cost := 0;
    }
  }

  /**
    On a descending list the charge is that of a highest-threshold rule among
    those the subtotal reaches.
   */
  lemma HighestReachedTier(rules: seq<DeliveryRule>, subtotal: int)
    requires SortedDesc(rules)
    requires exists i :: 0 <= i < |rules| && rules[i].threshold <= subtotal
    ensures exists k :: 0 <= k < |rules| && rules[k].threshold <= subtotal
                        && DeliveryCost(rules, subtotal) == rules[k].cost
                        && forall j :: 0 <= j < |rules| && rules[j].threshold <= subtotal ==> rules[j].threshold <= rules[k].threshold
  {
    var k := FirstMatchIndex(rules, subtotal);
    assert k < |rules|;
  }

  /** A subtotal exactly at a threshold pays that tier, not the next lower one. */
  lemma ThresholdIsInclusive(rules: seq<DeliveryRule>, subtotal: int)
    requires SortedDesc(rules)
    requires exists i :: 0 <= i < |rules| && rules[i].threshold == subtotal
    ensures exists k :: 0 <= k < |rules| && rules[k].threshold == subtotal
                        && DeliveryCost(rules, subtotal) == rules[k].cost
  {
    var i :| 0 <= i < |rules| && rules[i].threshold == subtotal;
    var k := FirstMatchIndex(rules, subtotal);
    assert k <= i;
  }

  /**
    The tier a reader of the unsorted configuration would pick: among the rules
    whose threshold the subtotal reaches, one with the highest threshold, and of
    several such the one listed first.
   */
  function ConfigTier(rules: seq<DeliveryRule>, subtotal: int): (r: Option<DeliveryRule>)
    ensures r.None? <==> forall i :: 0 <= i < |rules| ==> rules[i].threshold > subtotal
    ensures r.Some? ==> r.value in rules && r.value.threshold <= subtotal
    ensures r.Some? ==> forall i :: 0 <= i < |rules| && rules[i].threshold <= subtotal ==> rules[i].threshold <= r.value.threshold
  {
    if |rules| == 0 then None
    else
      var init := rules[..|rules| - 1];
      var last := rules[|rules| - 1];
      var best := ConfigTier(init, subtotal);
      assert rules == init + [last];
      if last.threshold <= subtotal && (best.None? || last.threshold > best.value.threshold) then Some(last)
      else best
  }

  /** Selecting from a list with one more rule in front. */
  lemma SelectedCons(rule: DeliveryRule, rest: seq<DeliveryRule>, subtotal: int)
    ensures Selected([rule] + rest, subtotal) == if rule.threshold <= subtotal then Some(rule) else Selected(rest, subtotal)
  {
    assert ([rule] + rest)[1..] == rest;
  }

  /** Inserting a rule changes the selection only when the new rule reaches a strictly higher tier. */
  lemma {:induction false} SelectedAfterInsert(sorted: seq<DeliveryRule>, rule: DeliveryRule, subtotal: int)
    requires SortedDesc(sorted)
    ensures var before := Selected(sorted, subtotal);
            Selected(Insert(sorted, rule), subtotal) ==
              if rule.threshold <= subtotal && (before.None? || rule.threshold > before.value.threshold)
              then Some(rule) else before
  {
    if |sorted| == 0 {
      SelectedCons(rule, [], subtotal);
    } else {
      var rest := sorted[1..];
      assert sorted == [sorted[0]] + rest;
      SelectedCons(sorted[0], rest, subtotal);
      if sorted[0].threshold >= rule.threshold {
        assert SortedDesc(rest);
        assert Insert(sorted, rule) == [sorted[0]] + Insert(rest, rule);
        SelectedAfterInsert(rest, rule, subtotal);
        SelectedCons(sorted[0], Insert(rest, rule), subtotal);
      } else {
        SelectedCons(rule, sorted, subtotal);
        var before := Selected(sorted, subtotal);
        if before.Some? {
          var k := FirstMatchIndex(sorted, subtotal);
          assert before.value == sorted[k];
          assert sorted[k].threshold <= sorted[0].threshold;
        }
      }
    }
  }

  /**
    Sorting is what makes the first match the right tier: selecting from the
    stably sorted list gives exactly the configuration-order reference tier,
    ties included.
   */
  lemma {:induction false} SortedSelectionIsConfigTier(rules: seq<DeliveryRule>, subtotal: int)
    ensures Selected(SortByThresholdDesc(rules), subtotal) == ConfigTier(rules, subtotal)
  {
    if |rules| > 0 {
      var init := rules[..|rules| - 1];
      SortedSelectionIsConfigTier(init, subtotal);
      SelectedAfterInsert(SortByThresholdDesc(init), rules[|rules| - 1], subtotal);
    }
  }

  /** A rule list that is already descending is left as it is by the stable sort. */
  lemma {:induction false} SortKeepsSortedList(rules: seq<DeliveryRule>)
    requires SortedDesc(rules)
    ensures SortByThresholdDesc(rules) == rules
  {
    if |rules| > 0 {
      var init := rules[..|rules| - 1];
      var last := rules[|rules| - 1];
      assert rules == init + [last];
      SortedPrefix(init, last);
      SortKeepsSortedList(init);
      InsertLowestAppends(init, last);
      SortStep(rules);
    }
  }

  /** The sort inserts the last rule into the sorted rest. */
  lemma SortStep(rules: seq<DeliveryRule>)
    requires |rules| > 0
    ensures SortByThresholdDesc(rules) == Insert(SortByThresholdDesc(rules[..|rules| - 1]), rules[|rules| - 1])
  {
  }

  /** Dropping the last rule of a descending list leaves a descending list, none of it below the rule dropped. */
  lemma SortedPrefix(init: seq<DeliveryRule>, last: DeliveryRule)
    requires SortedDesc(init + [last])
    ensures SortedDesc(init)
    ensures forall i :: 0 <= i < |init| ==> init[i].threshold >= last.threshold
  {
    assert forall i :: 0 <= i < |init| ==> (init + [last])[i] == init[i];
    assert (init + [last])[|init|] == last;
  }

  /** A rule no higher than any in the list goes to the end. */
  lemma {:induction false} InsertLowestAppends(sorted: seq<DeliveryRule>, rule: DeliveryRule)
    requires forall i :: 0 <= i < |sorted| ==> sorted[i].threshold >= rule.threshold
    ensures Insert(sorted, rule) == sorted + [rule]
  {
    if |sorted| > 0 {
      InsertLowestAppends(sorted[1..], rule);
      assert sorted == [sorted[0]] + sorted[1..];
    }
  }

  /** Inserting a rule above the lowest one leaves the lowest one last. */
  lemma {:induction false} InsertKeepsLast(sorted: seq<DeliveryRule>, rule: DeliveryRule)
    requires |sorted| > 0 && sorted[|sorted| - 1].threshold < rule.threshold
    ensures Insert(sorted, rule)[|sorted|] == sorted[|sorted| - 1]
  {
    if |sorted| > 1 && sorted[0].threshold >= rule.threshold {
      InsertKeepsLast(sorted[1..], rule);
      assert Insert(sorted, rule) == [sorted[0]] + Insert(sorted[1..], rule);
    }
  }

  /** Index of the last-listed rule among those of the lowest threshold. */
  function LowestLast(rules: seq<DeliveryRule>): (k: nat)
    requires |rules| > 0
    ensures k < |rules|
    ensures forall i :: 0 <= i < |rules| ==> rules[k].threshold <= rules[i].threshold
    ensures forall i :: k < i < |rules| ==> rules[k].threshold < rules[i].threshold
  {
    if |rules| == 1 then 0
    else
      var init := rules[..|rules| - 1];
      var k := LowestLast(init);
      assert forall i :: 0 <= i < |init| ==> rules[i] == init[i];
      if rules[|rules| - 1].threshold <= init[k].threshold then |rules| - 1 else k
  }

  /** The stable sort puts the last-listed lowest rule at the end. */
  lemma {:induction false} SortedLastIsLowestLast(rules: seq<DeliveryRule>)
    requires |rules| > 0
    ensures SortByThresholdDesc(rules)[|rules| - 1] == rules[LowestLast(rules)]
  {
    var n := |rules|;
    var init := rules[..n - 1];
    var x := rules[n - 1];
    SortStep(rules);
    var sorted := SortByThresholdDesc(init);
    if n > 1 {
      SortedLastIsLowestLast(init);
      var k := LowestLast(init);
      assert rules[k] == init[k];
      if x.threshold <= init[k].threshold {
        SortedAboveLast(sorted, x);
        InsertLowestAppends(sorted, x);
        assert (sorted + [x])[n - 1] == x;
      } else {
        InsertKeepsLast(sorted, x);
      }
    }
  }

  /** Every rule of a descending list is at least as high as its last one. */
  lemma SortedAboveLast(sorted: seq<DeliveryRule>, rule: DeliveryRule)
    requires SortedDesc(sorted) && |sorted| > 0 && rule.threshold <= sorted[|sorted| - 1].threshold
    ensures forall i :: 0 <= i < |sorted| ==> sorted[i].threshold >= rule.threshold
  {
    forall i | 0 <= i < |sorted|
      ensures sorted[i].threshold >= rule.threshold
    {
      if i < |sorted| - 1 {
        assert sorted[i].threshold >= sorted[|sorted| - 1].threshold;
      }
    }
  }

  /**
    With no rule reached, the fallback charges a rule of the lowest configured
    threshold, and of several such the one listed last.
   */
  lemma FallbackIsLowest(rules: seq<DeliveryRule>)
    requires |rules| > 0
    ensures exists k :: 0 <= k < |rules| && SortByThresholdDesc(rules)[|rules| - 1] == rules[k]
                        && FallbackCost(SortByThresholdDesc(rules)) == rules[k].cost
                        && (forall i :: 0 <= i < |rules| ==> rules[k].threshold <= rules[i].threshold)
                        && (forall i :: k < i < |rules| ==> rules[k].threshold < rules[i].threshold)
  {
    SortedLastIsLowestLast(rules);
    var k := LowestLast(rules);
  }
}
