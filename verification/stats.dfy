/**
 The global tally of `updateStats`: every character entry of every buff type
 of every board counts towards the total, and the checked ones towards the
 completed count; the progress bar shows their ratio as a percentage, or 0
 when there is nothing to count.
 */
module Stats {
  import opened JsStrings
  import opened Boards
  import opened Checklist
  import opened View

  /** The sum of `f` over the finite set `s`. */
  ghost function SetSum(s: set<JsString>, f: JsString -> nat): nat
    decreases |s|
  {
    if s == {} then 0 else var x :| x in s; f(x) + SetSum(s - {x}, f)
  }

  /** The sum may peel off any element first. */
  lemma {:induction false} SetSumRemove(s: set<JsString>, f: JsString -> nat, x: JsString)
    requires x in s
    ensures SetSum(s, f) == f(x) + SetSum(s - {x}, f)
    decreases |s|
  {
    var y :| y in s && SetSum(s, f) == f(y) + SetSum(s - {y}, f);
    if y != x {
      SetSumRemove(s - {y}, f, x);
      SetSumRemove(s - {x}, f, y);
      assert s - {y} - {x} == s - {x} - {y};
    }
  }

  /** A pointwise smaller summand gives a smaller sum, and the sums are equal
      only when the summands are. */
  lemma {:induction false} SetSumMonotone(s: set<JsString>, f: JsString -> nat, g: JsString -> nat)
    requires forall x :: x in s ==> f(x) <= g(x)
    ensures SetSum(s, f) <= SetSum(s, g)
    ensures SetSum(s, f) == SetSum(s, g) <==> forall x :: x in s ==> f(x) == g(x)
    decreases |s|
  {
    if s != {} {
      var x :| x in s;
      SetSumRemove(s, f, x);
      SetSumRemove(s, g, x);
      SetSumMonotone(s - {x}, f, g);
    }
  }

  /** Adding one new element adds its summand. */
  lemma SetSumAdd(s: set<JsString>, f: JsString -> nat, x: JsString)
    requires x !in s
    ensures SetSum(s + {x}, f) == SetSum(s, f) + f(x)
  {
    SetSumRemove(s + {x}, f, x);
    assert s + {x} - {x} == s;
  }

  // ---------------------------------------------------------------------------
  // What the tally should come to
  // ---------------------------------------------------------------------------

  /** The length of each buff type's list on `board`. */
  function ListLengths(board: Board): JsString -> nat
  {
    b => if b in board.buffs then |board.buffs[b]| else 0
  }

  /** The checked count of each buff type's list on board `key`. */
  function ListChecked(state: CheckedState, key: JsString, board: Board): JsString -> nat
  {
    b => BuffChecked(state, key, board, b)
  }

  function BuffChecked(state: CheckedState, key: JsString, board: Board, buff: JsString): nat
  {
    if buff in board.buffs then CheckedCount(state, key, buff, board.buffs[buff]) else 0
  }

  /** Character entries per board. */
  ghost function BoardTotals(data: BoardMap): JsString -> nat
  {
    k => BoardTotal(data, k)
  }

  ghost function BoardTotal(data: BoardMap, key: JsString): nat
  {
    if key in data then SetSum(data[key].buffs.Keys, ListLengths(data[key])) else 0
  }

  /** Checked character entries per board. */
  ghost function BoardCompleted(data: BoardMap, state: CheckedState): JsString -> nat
  {
    k => BoardChecked(data, state, k)
  }

  ghost function BoardChecked(data: BoardMap, state: CheckedState, key: JsString): nat
  {
    if key in data then SetSum(data[key].buffs.Keys, ListChecked(state, key, data[key])) else 0
  }

  /** All character entries: the sum of the lengths of all buff lists. */
  ghost function Total(data: BoardMap): nat
  {
    SetSum(data.Keys, BoardTotals(data))
  }

  /** All checked character entries. */
  ghost function Completed(data: BoardMap, state: CheckedState): nat
  {
    SetSum(data.Keys, BoardCompleted(data, state))
  }

  /** Every character entry of every list is checked. */
  ghost predicate AllChecked(data: BoardMap, state: CheckedState)
  {
    forall k, b, i :: k in data && b in data[k].buffs && 0 <= i < |data[k].buffs[b]|
      ==> IsChecked(state, k, b, data[k].buffs[b][i])
  }

  /** Never more completed than total entries, and all of them completed
      exactly when every entry is checked. */
  lemma CompletedBoundedByTotal(data: BoardMap, state: CheckedState)
    ensures Completed(data, state) <= Total(data)
    ensures Completed(data, state) == Total(data) <==> AllChecked(data, state)
  {
    forall k | k in data
      ensures BoardCompleted(data, state)(k) <= BoardTotals(data)(k)
      ensures BoardCompleted(data, state)(k) == BoardTotals(data)(k)
              <==> forall b :: b in data[k].buffs ==> ListChecked(state, k, data[k])(b) == ListLengths(data[k])(b)
    {
      SetSumMonotone(data[k].buffs.Keys, ListChecked(state, k, data[k]), ListLengths(data[k]));
    }
    SetSumMonotone(data.Keys, BoardCompleted(data, state), BoardTotals(data));
  }

  // ---------------------------------------------------------------------------
  // The loops of updateStats
  // ---------------------------------------------------------------------------

  /** The loop over the buff types of one board, each adding its list's
      length and checked count. */
  method TallyBoard(data: BoardMap, state: CheckedState, key: JsString) returns (completed: nat, total: nat)
    requires key in data
    ensures total == BoardTotal(data, key)
    ensures completed == BoardChecked(data, state, key)
  {
    var board := data[key];
    completed, total := 0, 0;
    var remaining := board.buffs.Keys;
    while remaining != {}
      invariant remaining <= board.buffs.Keys
      invariant total == SetSum(board.buffs.Keys - remaining, ListLengths(board))
      invariant completed == SetSum(board.buffs.Keys - remaining, ListChecked(state, key, board))
      decreases |remaining|
    {
      var b :| b in remaining;
      TallyBoardStep(state, key, board, remaining, b);
      total := total + |board.buffs[b]|;
      completed := completed + BuffChecked(state, key, board, b);
      remaining := remaining - {b};
    }
    assert board.buffs.Keys - remaining == board.buffs.Keys;
  }

  lemma TallyBoardStep(state: CheckedState, key: JsString, board: Board, remaining: set<JsString>, b: JsString)
    requires b in remaining && remaining <= board.buffs.Keys
    ensures SetSum(board.buffs.Keys - (remaining - {b}), ListLengths(board))
         == SetSum(board.buffs.Keys - remaining, ListLengths(board)) + |board.buffs[b]|
    ensures SetSum(board.buffs.Keys - (remaining - {b}), ListChecked(state, key, board))
         == SetSum(board.buffs.Keys - remaining, ListChecked(state, key, board)) + BuffChecked(state, key, board, b)
  {
    var done := board.buffs.Keys - remaining;
    assert board.buffs.Keys - (remaining - {b}) == done + {b};
    SetSumAdd(done, ListLengths(board), b);
    SetSumAdd(done, ListChecked(state, key, board), b);
  }

  /** The running tally over the boards already visited. */
  ghost predicate TallyUpTo(data: BoardMap, state: CheckedState, remaining: set<JsString>, completed: nat, total: nat)
  {
    && remaining <= data.Keys
    && total == SetSum(data.Keys - remaining, BoardTotals(data))
    && completed == SetSum(data.Keys - remaining, BoardCompleted(data, state))
  }

  /** One iteration of the loop over the boards. */
  method TallyStep(data: BoardMap, state: CheckedState, remaining: set<JsString>, completed: nat, total: nat)
    returns (remaining': set<JsString>, completed': nat, total': nat)
    requires remaining != {}
    requires TallyUpTo(data, state, remaining, completed, total)
    ensures TallyUpTo(data, state, remaining', completed', total')
    ensures remaining' < remaining
  {
    var k :| k in remaining;
    var c, t := TallyBoard(data, state, k);
    var done := data.Keys - remaining;
    assert data.Keys - (remaining - {k}) == done + {k};
    SetSumAdd(done, BoardTotals(data), k);
    SetSumAdd(done, BoardCompleted(data, state), k);
    remaining', completed', total' := remaining - {k}, completed + c, total + t;
  }

  /** The loop over the boards of `updateStats`. */
  method Tally(data: BoardMap, state: CheckedState) returns (completed: nat, total: nat)
    ensures total == Total(data)
    ensures completed == Completed(data, state)
  {
    completed, total := 0, 0;
    var remaining := data.Keys;
    assert data.Keys - remaining == {};
    while remaining != {}
      invariant TallyUpTo(data, state, remaining, completed, total)
      decreases remaining
    {
      remaining, completed, total := TallyStep(data, state, remaining, completed, total);
    }
    assert data.Keys - remaining == data.Keys;
  }

  /** `updateStats`: the completed and total counts and the progress
      percentage, 0 when there are no entries. */
  method UpdateStats(data: BoardMap, state: CheckedState) returns (completed: nat, total: nat, percentage: real)
    ensures total == Total(data)
    ensures completed == Completed(data, state)
    ensures completed <= total
    ensures total == 0 ==> percentage == 0.0
    ensures 0.0 <= percentage <= 100.0
    ensures percentage == 100.0 <==> total > 0 && AllChecked(data, state)
  {
    completed, total := Tally(data, state);
    CompletedBoundedByTotal(data, state);
    percentage := Percentage(completed, total);
  }

  /** `total > 0 ? (completed / total) * 100 : 0`, in exact arithmetic. */
  function Percentage(completed: nat, total: nat): (p: real)
    requires completed <= total
    ensures total == 0 ==> p == 0.0
    ensures 0.0 <= p <= 100.0
    ensures p == 100.0 <==> total > 0 && completed == total
    ensures p == 0.0 <==> completed == 0
  {
    if total > 0 then
      var q := completed as real / total as real;
      assert q * total as real == completed as real;
      q * 100.0
    else
      0.0
  }
}
