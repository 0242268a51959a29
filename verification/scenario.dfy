/**
 A worked example across both halves: two characters whose files both list
 the same buff type under board 1 end up in one sorted list, and checking one
 of them makes that group read "x 1" out of two.
 */
module Scenario {
  import opened JsStrings
  import opened Wrappers
  import opened Sorting
  import opened Boards
  import opened Aggregator
  import opened Checklist
  import opened View

  /** The files `a.json` and `b.json`, each `{"ボード1": [buff]}`. */
  function TwoFiles(a: JsString, b: JsString, buff: JsString): seq<Record>
  {
    [Record(a, [Entry(Board1Name, [buff])]), Record(b, [Entry(Board1Name, [buff])])]
  }

  lemma Board1Resolves()
    ensures ResolveBoard(Board1Name) == Some(Board1Key)
  {
    BoardNamesMatchSkeleton();
    assert Board1Name != Board2Name && Board1Name != Board3Name by {
      assert Board1Name[3] != Board2Name[3] && Board1Name[3] != Board3Name[3];
    }
  }

  /** Each of the two characters contributes `buff` on board 1 once. */
  lemma TwoFilesContribution(a: JsString, b: JsString, buff: JsString, c: JsString)
    requires a != b
    ensures Contribution(TwoFiles(a, b, buff), Board1Key, buff, c) == (if c == a || c == b then 1 else 0)
  {
    var records := TwoFiles(a, b, buff);
    Board1Resolves();
    assert multiset([buff])[buff] == 1;
    assert EntriesCount(records[0].entries, Board1Key, buff) == 1;
    assert EntriesCount(records[1].entries, Board1Key, buff) == 1;
    assert records[0].entries[1..] == [] && records[1].entries[1..] == [];
    assert records[1..][1..] == [];
    assert Contribution(records[1..], Board1Key, buff, c) == (if c == b then 1 else 0);
  }

  /** The list of `buff` on board 1 holds each of the two characters once. */
  lemma TwoFilesMultiset(a: JsString, b: JsString, buff: JsString)
    requires a != b
    ensures multiset(BuffList(Compile(TwoFiles(a, b, buff)), Board1Key, buff)) == multiset([a, b])
  {
    var records := TwoFiles(a, b, buff);
    forall c
      ensures multiset(BuffList(Compile(records), Board1Key, buff))[c] == if c == a || c == b then 1 else 0
    {
      CompileCount(records, Board1Key, buff, c);
      TwoFilesContribution(a, b, buff, c);
    }
    CountsOfTwo(BuffList(Compile(records), Board1Key, buff), a, b);
  }

  /** A list holding `a` once, `b` once and nothing else. */
  lemma CountsOfTwo(list: seq<JsString>, a: JsString, b: JsString)
    requires a != b
    requires forall c :: multiset(list)[c] == if c == a || c == b then 1 else 0
    ensures multiset(list) == multiset([a, b])
  {
    forall c
      ensures multiset(list)[c] == multiset([a, b])[c]
    {
    }
  }

  /** Board 1 gets a list for `buff`. */
  lemma TwoFilesBuff(a: JsString, b: JsString, buff: JsString)
    ensures Board1Key in Compile(TwoFiles(a, b, buff)) && buff in Compile(TwoFiles(a, b, buff))[Board1Key].buffs
  {
    var records := TwoFiles(a, b, buff);
    Board1Resolves();
    CompileMembership(records, 0, 0, buff);
  }

  /** Aggregation gives board 1 the buff type with the list [a, b], `a` being
      the one that sorts first. */
  lemma TwoFilesList(a: JsString, b: JsString, buff: JsString)
    requires a != b && LessEq(a, b)
    ensures Board1Key in Compile(TwoFiles(a, b, buff)) && buff in Compile(TwoFiles(a, b, buff))[Board1Key].buffs
    ensures Compile(TwoFiles(a, b, buff))[Board1Key].buffs[buff] == [a, b]
  {
    var records := TwoFiles(a, b, buff);
    TwoFilesBuff(a, b, buff);
    TwoFilesMultiset(a, b, buff);
    CompileListsSortedNonEmpty(records);
    ListOfTwo(Compile(records), Board1Key, buff, a, b);
  }

  /** A sorted list holding exactly `a` and `b`, `a` sorting first, is [a, b]. */
  lemma ListOfTwo(boards: BoardMap, key: JsString, buff: JsString, a: JsString, b: JsString)
    requires Sorted(BuffList(boards, key, buff)) && multiset(BuffList(boards, key, buff)) == multiset([a, b])
    requires LessEq(a, b)
    ensures BuffList(boards, key, buff) == [a, b]
  {
    SortUnique(BuffList(boards, key, buff), [a, b]);
  }

  /** Checking `a` from an empty state counts one of the two, checking `b`
      as well counts both. */
  lemma ToggleCounts(a: JsString, b: JsString, buff: JsString)
    requires a != b
    ensures var once := Toggle(map[], Board1Key, buff, a);
            && CheckedCount(once, Board1Key, buff, [a, b]) == 1
            && CheckedCount(Toggle(once, Board1Key, buff, b), Board1Key, buff, [a, b]) == 2
  {
    var prefix := Board1Key + [Dash] + buff + [Dash];
    assert CharacterId(Board1Key, buff, a) == prefix + a && CharacterId(Board1Key, buff, b) == prefix + b;
    assert (prefix + a)[|prefix|..] == a && (prefix + b)[|prefix|..] == b;
    var once := Toggle(map[], Board1Key, buff, a);
    assert IsChecked(once, Board1Key, buff, a) && !IsChecked(once, Board1Key, buff, b);
    var twice := Toggle(once, Board1Key, buff, b);
    assert IsChecked(twice, Board1Key, buff, a) && IsChecked(twice, Board1Key, buff, b);
  }

  /** After `toggleCharacter("board1", buff, a)` from an empty state the group
      reads one checked out of two and is not all-completed; toggling `b` too
      completes it. */
  lemma TwoFilesToggle(a: JsString, b: JsString, buff: JsString)
    requires a != b && LessEq(a, b)
    ensures Board1Key in Compile(TwoFiles(a, b, buff)) && buff in Compile(TwoFiles(a, b, buff))[Board1Key].buffs
    ensures var list := Compile(TwoFiles(a, b, buff))[Board1Key].buffs[buff];
            var once := Toggle(map[], Board1Key, buff, a);
            && |list| == 2
            && CheckedCount(once, Board1Key, buff, list) == 1
            && CheckedCount(Toggle(once, Board1Key, buff, b), Board1Key, buff, list) == 2
  {
    TwoFilesList(a, b, buff);
    ToggleCounts(a, b, buff);
  }

  /** A file that uses the board key `board1` as a board name contributes
      nothing: only the display names are mapped. */
  lemma BoardKeyIsNotABoardName(character: JsString, buffNames: seq<JsString>)
    ensures Compile([Record(character, [Entry(Board1Key, buffNames)])]) == Compile([])
  {
    BoardNamesMatchSkeleton();
    assert Board1Key !in BoardNameToKey by {
      assert Board1Key[0] != Board1Name[0] && Board1Key[0] != Board2Name[0] && Board1Key[0] != Board3Name[0];
    }
    var e := Entry(Board1Key, buffNames);
    UnknownBoardSkipped(InitialBoards, character, [], e, []);
    assert [] + [e] + [] == [e];
    assert Collect(InitialBoards, [Record(character, [e])]) == Collect(InitialBoards, []);
  }
}
