/** The case-study quiz: answer scoring and the session that walks a learner through
    one case's questions. */
module CaseSessions {
  import opened Wrappers
  import opened Catalog

  /** The number of answered positions whose answer equals the key at that position.
      `None` is a position never answered (a hole in the answers array). */
  function CorrectCount(answers: seq<Option<int>>, key: seq<int>): (c: nat)
    requires |answers| <= |key|
    ensures c <= |answers|
    decreases |answers|
  {
    if answers == [] then 0
    else
      var last := |answers| - 1;
      CorrectCount(answers[..last], key) + (if answers[last] == Some(key[last]) then 1 else 0)
  }

  /** The positions counted as correct. */
  function CorrectPositions(answers: seq<Option<int>>, key: seq<int>): set<nat>
    requires |answers| <= |key|
  {
    set i: nat | i < |answers| && answers[i] == Some(key[i])
  }

  /** The count is exactly the number of positions answered with the key's option. */
  lemma {:induction false} CorrectCountIsPositions(answers: seq<Option<int>>, key: seq<int>)
    requires |answers| <= |key|
    ensures CorrectCount(answers, key) == |CorrectPositions(answers, key)|
    decreases |answers|
  {
    if answers != [] {
      var last := |answers| - 1;
      var prefix := answers[..last];
      CorrectCountIsPositions(prefix, key);
      var before := CorrectPositions(prefix, key);
      var now := CorrectPositions(answers, key);
      if answers[last] == Some(key[last]) {
        assert now == before + {last};
        assert last !in before;
      } else {
        assert now == before;
      }
    }
  }

  /** A percentage rounded to the nearest integer, halves rounding up. A count above the
      total gives a percentage above 100, as the source's division does. */
  function RoundedPercent(count: nat, total: nat): (r: int)
    requires 0 < total
    ensures 0 <= r
    ensures count <= total ==> r <= 100
    ensures total * (2 * r - 1) <= 200 * count < total * (2 * r + 1)
  {
    var r := (200 * count + total) / (2 * total);
    DivisionBounds(200 * count + total, 2 * total);
    RoundingBounds(count, total, r);
    r
  }

  lemma DivisionBounds(n: nat, d: nat)
    requires d > 0
    ensures d * (n / d) <= n < d * (n / d) + d
  {
  }

  /** The bounds a quotient of `200 * count + total` by `2 * total` must lie within. */
  lemma RoundingBounds(count: nat, total: nat, r: int)
    requires 0 < total
    requires (2 * total) * r <= 200 * count + total < (2 * total) * r + 2 * total
    ensures 0 <= r
    ensures count <= total ==> r <= 100
    ensures total * (2 * r - 1) <= 200 * count < total * (2 * r + 1)
  {
    assert total * (2 * r - 1) == (2 * total) * r - total;
    assert total * (2 * r + 1) == (2 * total) * r + total;
    CancelFactor(total, -1, 2 * r + 1);
    if count <= total {
      CancelFactor(total, 2 * r - 1, 201);
    }
  }

  /** Rounding is monotone: more correct answers never give a lower score. */
  lemma RoundedPercentMonotone(c1: nat, c2: nat, total: nat)
    requires 0 < total && c1 <= c2 <= total
    ensures RoundedPercent(c1, total) <= RoundedPercent(c2, total)
  {
    var r1, r2 := RoundedPercent(c1, total), RoundedPercent(c2, total);
    CancelFactor(total, 2 * r1 - 1, 2 * r2 + 1);
  }

  /** All correct scores 100; none correct scores 0. */
  lemma RoundedPercentExtremes(total: nat)
    requires 0 < total
    ensures RoundedPercent(total, total) == 100
    ensures RoundedPercent(0, total) == 0
  {
    var r := RoundedPercent(total, total);
    CancelFactor(total, 199, 2 * r + 1);
    var z := RoundedPercent(0, total);
    CancelFactor(total, 2 * z - 1, 1);
  }

  /** A positive factor can be cancelled from a strict inequality. */
  lemma CancelFactor(t: int, a: int, b: int)
    requires t > 0 && t * a < t * b
    ensures a < b
  {
    if a >= b {
      MulMonotone(t, b, a);
    }
  }

  lemma MulMonotone(t: int, a: int, b: int)
    requires t > 0 && a <= b
    ensures t * a <= t * b
  {
  }

  /** The score of a set of answers against an answer key. */
  function Score(answers: seq<Option<int>>, key: seq<int>): (s: int)
    requires 0 < |key| && |answers| <= |key|
    ensures 0 <= s <= 100
    ensures s == RoundedPercent(CorrectCount(answers, key), |key|)
  {
    RoundedPercent(CorrectCount(answers, key), |key|)
  }

  /** Three questions keyed [1, 0, 2] answered [1, 0, 1]: two correct, score 67. */
  lemma ThreeQuestionExample()
    ensures CorrectCount([Some(1), Some(0), Some(1)], [1, 0, 2]) == 2
    ensures Score([Some(1), Some(0), Some(1)], [1, 0, 2]) == 67
  {
    var a: seq<Option<int>> := [Some(1), Some(0), Some(1)];
    assert a[..2] == [Some(1), Some(0)] && a[..2][..1] == [Some(1)] && a[..2][..1][..0] == [];
  }

  /** `answers[i] = v` on a JavaScript array: position `i` holds `v`, earlier positions
      keep their value, and positions between the old end and `i` become holes. */
  function Assign(answers: seq<Option<int>>, i: nat, v: Option<int>): (r: seq<Option<int>>)
    ensures |r| == if i < |answers| then |answers| else i + 1
    ensures r[i] == v
    ensures forall k :: 0 <= k < |r| && k != i ==> r[k] == if k < |answers| then answers[k] else None
  {
    if i < |answers| then answers[i := v]
    else answers + seq(i - |answers|, _ => None) + [v]
  }

  /** The case-specific fields of the completion row written when a case is finished: the
      case and its score. The row's identifier, user, time taken and timestamp are not modelled. */
  datatype CaseCompletion = CaseCompletion(caseId: string, score: int)

  /** The state of the case-study view. `selected` is the open case (None on the case list);
      `showResults` distinguishes the results page from the question pages. */
  class CaseSession {
    var selected: Option<CaseStudy>
    var current: nat
    var answers: seq<Option<int>>
    var showResults: bool
    var completed: seq<string>

    ghost predicate Valid()
      reads this
    {
      selected.Some? ==>
        WellFormedCase(selected.value)
        && current < |selected.value.questions|
        && |answers| <= |selected.value.questions|
    }

    /** The number of questions in the open case. */
    function Total(): nat
      reads this
      requires selected.Some?
    {
      |selected.value.questions|
    }

    /** Whether the current question has an answer, which is what enables Next/Finish. */
    function CurrentAnswered(): (b: bool)
      reads this
    {
      current < |answers| && answers[current].Some?
    }

    /** The count and score the results page shows for the open case. */
    function ShownResult(): (r: (nat, int))
      reads this
      requires Valid() && selected.Some?
      ensures r.0 <= Total() && 0 <= r.1 <= 100
      ensures r.0 == CorrectCount(answers, AnswerKey(selected.value))
      ensures r.1 == RoundedPercent(r.0, Total())
    {
      var key := AnswerKey(selected.value);
      (CorrectCount(answers, key), Score(answers, key))
    }

    /** The view starts on the case list with cases 2 and 3 already marked completed. */
    constructor ()
      ensures Valid()
      ensures selected.None? && current == 0 && answers == [] && !showResults
      ensures completed == ["case2", "case3"]
    {
      selected := None;
      current := 0;
      answers := [];
      showResults := false;
      completed := ["case2", "case3"];
    }

    /** Start (or retry) a case: first question, no answers, results hidden. */
    method StartCase(c: CaseStudy)
      requires WellFormedCase(c)
      modifies this
      ensures Valid()
      ensures selected == Some(c) && current == 0 && answers == [] && !showResults
      ensures completed == old(completed)
    {
      selected := Some(c);
      current := 0;
      answers := [];
      showResults := false;
    }

    /** Record `option` for the current question; re-selecting overwrites (last write wins).
        Nothing else changes: not the question shown, not the other answers. */
    method SelectAnswer(option: int)
      requires Valid() && selected.Some? && !showResults
      modifies this`answers
      ensures Valid()
      ensures answers == Assign(old(answers), current, Some(option))
      ensures CurrentAnswered()
    {
      answers := Assign(answers, current, Some(option));
    }

    /** The Previous button: one question back, never below the first; answers stay. */
    method Previous()
      requires Valid() && selected.Some? && !showResults
      modifies this`current
      ensures Valid()
      ensures current == if old(current) == 0 then 0 else old(current) - 1
    {
      current := if current == 0 then 0 else current - 1;
    }

    /** The Back button: return to the case list; everything else is kept. */
    method Back()
      modifies this`selected
      ensures selected.None?
    {
      selected := None;
    }

    /** What the Finish click hands to the pending write: the open case scored on the answers
        as they stand at the click, the same score the results page shows for them. */
    function Completion(): (done: CaseCompletion)
      reads this
      requires Valid() && selected.Some?
      ensures done.caseId == selected.value.id
      ensures done.score == ShownResult().1
    {
      var key := AnswerKey(selected.value);
      var correct := CorrectCount(answers, key);
      CaseCompletion(selected.value.id, RoundedPercent(correct, |key|))
    }

    /** The end of the pending write for `done`: the case id joins the completed list when
        the completion was stored, and the results are shown either way. Nothing else
        changes, so answers changed while the write was pending are what the results page
        scores, and a second Finish click while the first write was pending completes the
        case a second time. */
    method FinishCase(done: CaseCompletion, persisted: bool)
      requires Valid()
      modifies this`showResults, this`completed
      ensures Valid() && showResults
      ensures completed == old(completed) + (if persisted then [done.caseId] else [])
    {
      if persisted {
        completed := completed + [done.caseId];
      }
      showResults := true;
    }

    /** The Next / Finish button. It does nothing while the current question is unanswered;
        otherwise it moves to the next question, or, on the last one, starts the completion
        write and returns what it will store. The question page stays live until that write
        ends with `FinishCase`. */
    method Next() returns (accepted: bool, pending: Option<CaseCompletion>)
      requires Valid() && selected.Some? && !showResults
      modifies this`current
      ensures Valid() && current < Total()
      ensures accepted == old(CurrentAnswered())
      ensures !accepted ==> current == old(current) && pending.None?
      ensures accepted && old(current) < Total() - 1 ==> current == old(current) + 1 && pending.None?
      ensures accepted && old(current) == Total() - 1 ==>
        current == old(current) && pending == Some(Completion())
    {
      accepted := CurrentAnswered();
      pending := None;
      if accepted {
        if current < Total() - 1 {
          current := current + 1;
        } else {
          pending := Some(Completion());
        }
      }
    }
  }

  /** Two Finish clicks before the first completion write ends both start a write, and once
      both are stored the case is in the completed list twice. */
  method FinishTwiceWhilePending(session: CaseSession)
    requires session.Valid() && session.selected.Some? && !session.showResults
    requires session.CurrentAnswered() && session.current == session.Total() - 1
    modifies session
    ensures session.showResults
    ensures session.completed == old(session.completed) + [old(session.selected.value.id)] + [old(session.selected.value.id)]
  {
    var _, first := session.Next();
    var _, second := session.Next();
    session.FinishCase(first.value, true);
    session.FinishCase(second.value, true);
  }
}
