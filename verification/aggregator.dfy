/**
 The build-time aggregator: it turns per-character records (board name to the
 buff types that character unlocks there) into the board-centric structure
 board key to buff type to the characters that unlock it, then sorts every
 character list.

 The character files arrive as a sequence in directory-listing order, and each
 file's boards as a sequence in key order, so that the fold below visits them
 exactly as the nested `forEach` calls do. `CompileDeterminedByContributions`,
 `CompileRecordOrderIrrelevant` and `CompileKeyOrderIrrelevant` show that the
 sorted result depends on neither order.
 */
module Aggregator {
  import opened JsStrings
  import opened Wrappers
  import opened Sorting
  import opened Boards

  /** One key of a character file: a board name and the buff types listed under it. */
  datatype Entry = Entry(boardName: JsString, buffNames: seq<JsString>)

  /** One parsed character file: the character's name (the file's base name)
      and the file's keys in order. */
  datatype Record = Record(character: JsString, entries: seq<Entry>)

  // ---------------------------------------------------------------------------
  // Invariants of the structure being built
  // ---------------------------------------------------------------------------

  /** Every key the board-name mapping can produce is a board of `boards`. */
  predicate Resolvable(boards: BoardMap)
  {
    forall n :: n in BoardNameToKey ==> BoardNameToKey[n] in boards
  }

  /** `boards1` has the boards of `boards0`, with the same names and icons. */
  ghost predicate SameBoards(boards0: BoardMap, boards1: BoardMap)
  {
    && boards0.Keys == boards1.Keys
    && forall k :: k in boards0 ==> boards1[k].name == boards0[k].name && boards1[k].icon == boards0[k].icon
  }

  /** No buff type has an empty character list. */
  ghost predicate NoEmptyLists(boards: BoardMap)
  {
    forall k, b :: k in boards && b in boards[k].buffs ==> |boards[k].buffs[b]| > 0
  }

  /** The character list of `buff` on board `key`, empty where there is none. */
  function BuffList(boards: BoardMap, key: JsString, buff: JsString): seq<JsString>
  {
    if key in boards && buff in boards[key].buffs then boards[key].buffs[buff] else []
  }

  // ---------------------------------------------------------------------------
  // The aggregation loop
  // ---------------------------------------------------------------------------

  /** `boards[key].buffs[buff].push(character)`, creating the list on first encounter. */
  function Push(boards: BoardMap, key: JsString, buff: JsString, character: JsString): (r: BoardMap)
    requires key in boards
    ensures SameBoards(boards, r)
    ensures BuffList(r, key, buff) == BuffList(boards, key, buff) + [character]
    ensures r[key].buffs.Keys == boards[key].buffs.Keys + {buff}
    ensures forall k :: k in boards && k != key ==> r[k] == boards[k]
    ensures forall b :: b != buff ==> BuffList(r, key, b) == BuffList(boards, key, b)
    ensures NoEmptyLists(boards) ==> NoEmptyLists(r)
  {
    var board := boards[key];
    boards[key := board.(buffs := board.buffs[buff := BuffList(boards, key, buff) + [character]])]
  }

  /** `buffs.forEach(buffName => ...)`: push `character` onto every listed buff of board `key`. */
  function PushAll(boards: BoardMap, key: JsString, buffNames: seq<JsString>, character: JsString): (r: BoardMap)
    requires key in boards
    ensures SameBoards(boards, r)
    ensures NoEmptyLists(boards) ==> NoEmptyLists(r)
    decreases |buffNames|
  {
    if |buffNames| == 0 then boards
    else PushAll(Push(boards, key, buffNames[0], character), key, buffNames[1..], character)
  }

  /** `Object.keys(data).forEach(boardName => ...)` for one character file:
      entries naming an unknown board are skipped. */
  function AddEntries(boards: BoardMap, character: JsString, entries: seq<Entry>): (r: BoardMap)
    requires Resolvable(boards)
    ensures SameBoards(boards, r)
    ensures NoEmptyLists(boards) ==> NoEmptyLists(r)
    decreases |entries|
  {
    if |entries| == 0 then boards
    else
      var next :=
        match ResolveBoard(entries[0].boardName)
        case None => boards
        case Some(key) => PushAll(boards, key, entries[0].buffNames, character);
      AddEntries(next, character, entries[1..])
  }

  /** `files.forEach(file => ...)`: fold every character file into `boards`. */
  function Collect(boards: BoardMap, records: seq<Record>): (r: BoardMap)
    requires Resolvable(boards)
    ensures SameBoards(boards, r)
    ensures NoEmptyLists(boards) ==> NoEmptyLists(r)
    decreases |records|
  {
    if |records| == 0 then boards
    else Collect(AddEntries(boards, records[0].character, records[0].entries), records[1..])
  }

  /** The final pass: `sort()` every character list. Each list comes out
      ascending and holding the same names as before; nothing else changes. */
  function SortAll(boards: BoardMap): (r: BoardMap)
    ensures SameBoards(boards, r)
    ensures forall k :: k in boards ==> r[k].buffs.Keys == boards[k].buffs.Keys
    ensures forall k, b :: Sorted(BuffList(r, k, b))
    ensures forall k, b :: multiset(BuffList(r, k, b)) == multiset(BuffList(boards, k, b))
  {
    map k | k in boards :: boards[k].(buffs := map b | b in boards[k].buffs :: Sort(boards[k].buffs[b]))
  }

  /** The whole aggregator: the generated `crayonData` for the given character
      files. It has the boards of the skeleton, and every list in it is
      ascending and non-empty. */
  function Compile(records: seq<Record>): (r: BoardMap)
    ensures SameBoards(InitialBoards, r)
    ensures NoEmptyLists(r)
    ensures forall k, b :: Sorted(BuffList(r, k, b))
  {
    BoardNamesMatchSkeleton();
    var collected := Collect(InitialBoards, records);
    SortAllKeepsNonEmpty(collected);
    SortAll(collected)
  }

  lemma SortAllKeepsNonEmpty(boards: BoardMap)
    requires NoEmptyLists(boards)
    ensures NoEmptyLists(SortAll(boards))
  {
    var r := SortAll(boards);
    forall k, b | k in r && b in r[k].buffs
      ensures |r[k].buffs[b]| > 0
    {
      assert |multiset(BuffList(r, k, b))| == |multiset(BuffList(boards, k, b))|;
    }
  }

  // ---------------------------------------------------------------------------
  // Reference definition: how many times each character is contributed
  // ---------------------------------------------------------------------------

  /** How many times the entries list `buff` under a board name that resolves to `key`. */
  function EntriesCount(entries: seq<Entry>, key: JsString, buff: JsString): nat
    decreases |entries|
  {
    if |entries| == 0 then 0
    else
      (if ResolveBoard(entries[0].boardName) == Some(key) then multiset(entries[0].buffNames)[buff] else 0)
      + EntriesCount(entries[1..], key, buff)
  }

  /** How many times the character files of `character` list `buff` for board `key`. */
  function Contribution(records: seq<Record>, key: JsString, buff: JsString, character: JsString): nat
    decreases |records|
  {
    if |records| == 0 then 0
    else
      (if records[0].character == character then EntriesCount(records[0].entries, key, buff) else 0)
      + Contribution(records[1..], key, buff, character)
  }

  /** Some file lists `buff` under a board name that resolves to `key`. */
  ghost predicate Lists(records: seq<Record>, key: JsString, buff: JsString)
  {
    exists i, j :: 0 <= i < |records| && 0 <= j < |records[i].entries|
      && ResolveBoard(records[i].entries[j].boardName) == Some(key)
      && buff in records[i].entries[j].buffNames
  }

  // ---------------------------------------------------------------------------
  // Counting through the fold
  // ---------------------------------------------------------------------------

  /** How often `c` occurs in the list of `b` on board `k`. */
  function Occurrences(boards: BoardMap, k: JsString, b: JsString, c: JsString): nat
  {
    multiset(BuffList(boards, k, b))[c]
  }

  lemma PushCount(boards: BoardMap, key: JsString, buff: JsString, character: JsString, k: JsString, b: JsString, c: JsString)
    requires key in boards
    ensures Occurrences(Push(boards, key, buff, character), k, b, c)
         == Occurrences(boards, k, b, c) + (if k == key && b == buff && c == character then 1 else 0)
  {
    var next := Push(boards, key, buff, character);
    if k == key && b == buff {
      assert BuffList(next, k, b) == BuffList(boards, k, b) + [character];
    } else if k == key {
      assert BuffList(next, k, b) == BuffList(boards, k, b);
    } else {
      assert k !in boards || next[k] == boards[k];
      assert BuffList(next, k, b) == BuffList(boards, k, b);
    }
  }

  lemma {:induction false} PushAllCount(boards: BoardMap, key: JsString, buffNames: seq<JsString>, character: JsString,
                                        k: JsString, b: JsString, c: JsString)
    requires key in boards
    ensures Occurrences(PushAll(boards, key, buffNames, character), k, b, c)
         == Occurrences(boards, k, b, c) + (if k == key && c == character then multiset(buffNames)[b] else 0)
    decreases |buffNames|
  {
    if |buffNames| > 0 {
      var next := Push(boards, key, buffNames[0], character);
      PushCount(boards, key, buffNames[0], character, k, b, c);
      PushAllCount(next, key, buffNames[1..], character, k, b, c);
      MultisetFirst(buffNames, b);
    }
  }

  /** Counting in a list: its first element, then the rest. */
  lemma MultisetFirst(s: seq<JsString>, x: JsString)
    requires |s| > 0
    ensures multiset(s)[x] == (if s[0] == x then 1 else 0) + multiset(s[1..])[x]
  {
    assert s == [s[0]] + s[1..];
  }

  lemma {:induction false} AddEntriesCount(boards: BoardMap, character: JsString, entries: seq<Entry>,
                                           k: JsString, b: JsString, c: JsString)
    requires Resolvable(boards)
    ensures Occurrences(AddEntries(boards, character, entries), k, b, c)
         == Occurrences(boards, k, b, c) + (if c == character then EntriesCount(entries, k, b) else 0)
    decreases |entries|
  {
    if |entries| > 0 {
      var next :=
        match ResolveBoard(entries[0].boardName)
        case None => boards
        case Some(key) => PushAll(boards, key, entries[0].buffNames, character);
      if ResolveBoard(entries[0].boardName).Some? {
        PushAllCount(boards, ResolveBoard(entries[0].boardName).value, entries[0].buffNames, character, k, b, c);
      }
      AddEntriesCount(next, character, entries[1..], k, b, c);
    }
  }

  lemma {:induction false} CollectCount(boards: BoardMap, records: seq<Record>, k: JsString, b: JsString, c: JsString)
    requires Resolvable(boards)
    ensures Occurrences(Collect(boards, records), k, b, c)
         == Occurrences(boards, k, b, c) + Contribution(records, k, b, c)
    decreases |records|
  {
    if |records| > 0 {
      var next := AddEntries(boards, records[0].character, records[0].entries);
      AddEntriesCount(boards, records[0].character, records[0].entries, k, b, c);
      CollectCount(next, records[1..], k, b, c);
    }
  }

  // ---------------------------------------------------------------------------
  // Properties of the generated data
  // ---------------------------------------------------------------------------

  /** The output has exactly the three boards of the skeleton, with their names
      and icons, whatever the files contain. */
  lemma CompileKeepsBoards(records: seq<Record>)
    ensures Compile(records).Keys == {Board1Key, Board2Key, Board3Key}
    ensures forall k :: k in InitialBoards ==>
              Compile(records)[k].name == InitialBoards[k].name && Compile(records)[k].icon == InitialBoards[k].icon
  {
    BoardNamesMatchSkeleton();
  }

  /** No deduplication: a character occurs in the list of `buff` on board `key`
      exactly as often as its files list `buff` under that board's name. */
  lemma CompileCount(records: seq<Record>, key: JsString, buff: JsString, character: JsString)
    ensures multiset(BuffList(Compile(records), key, buff))[character] == Contribution(records, key, buff, character)
  {
    BoardNamesMatchSkeleton();
    CollectCount(InitialBoards, records, key, buff, character);
    assert BuffList(InitialBoards, key, buff) == [];
  }

  /** Every list of the output is ascending and non-empty (a list exists only
      once some character was pushed onto it). */
  lemma CompileListsSortedNonEmpty(records: seq<Record>)
    ensures forall k, b :: Sorted(BuffList(Compile(records), k, b))
    ensures NoEmptyLists(Compile(records))
  {
  }

  /** The sort step reorders but never adds or drops a name. */
  lemma CompileSortIsPermutation(records: seq<Record>, key: JsString, buff: JsString)
    ensures multiset(BuffList(Compile(records), key, buff)) == multiset(BuffList(Collect(InitialBoards, records), key, buff))
  {
    BoardNamesMatchSkeleton();
  }

  lemma {:induction false} EntriesCountPositive(entries: seq<Entry>, j: int, key: JsString, buff: JsString)
    requires 0 <= j < |entries|
    requires ResolveBoard(entries[j].boardName) == Some(key) && buff in entries[j].buffNames
    ensures EntriesCount(entries, key, buff) > 0
    decreases j
  {
    if j > 0 {
      EntriesCountPositive(entries[1..], j - 1, key, buff);
    }
  }

  lemma {:induction false} ContributionPositive(records: seq<Record>, i: int, j: int, key: JsString, buff: JsString)
    requires 0 <= i < |records| && 0 <= j < |records[i].entries|
    requires ResolveBoard(records[i].entries[j].boardName) == Some(key) && buff in records[i].entries[j].buffNames
    ensures Contribution(records, key, buff, records[i].character) > 0
    decreases i
  {
    if i == 0 {
      EntriesCountPositive(records[0].entries, j, key, buff);
    } else {
      ContributionPositive(records[1..], i - 1, j, key, buff);
    }
  }

  lemma {:induction false} EntriesCountWitness(entries: seq<Entry>, key: JsString, buff: JsString) returns (j: int)
    requires EntriesCount(entries, key, buff) > 0
    ensures 0 <= j < |entries| && ResolveBoard(entries[j].boardName) == Some(key) && buff in entries[j].buffNames
    decreases |entries|
  {
    if ResolveBoard(entries[0].boardName) == Some(key) && multiset(entries[0].buffNames)[buff] > 0 {
      j := 0;
    } else {
      var j' := EntriesCountWitness(entries[1..], key, buff);
      j := j' + 1;
    }
  }

  lemma {:induction false} ContributionWitness(records: seq<Record>, key: JsString, buff: JsString, character: JsString)
    requires Contribution(records, key, buff, character) > 0
    ensures Lists(records, key, buff)
    decreases |records|
  {
    if records[0].character == character && EntriesCount(records[0].entries, key, buff) > 0 {
      var j := EntriesCountWitness(records[0].entries, key, buff);
      assert ResolveBoard(records[0].entries[j].boardName) == Some(key) && buff in records[0].entries[j].buffNames;
    } else {
      ContributionWitness(records[1..], key, buff, character);
      var i, j :| 0 <= i < |records[1..]| && 0 <= j < |records[1..][i].entries|
        && ResolveBoard(records[1..][i].entries[j].boardName) == Some(key)
        && buff in records[1..][i].entries[j].buffNames;
      assert records[i + 1] == records[1..][i];
    }
  }

  /** Grouping: whenever a file of character c lists buff b under a known board
      name, c is in the list of b on that board. */
  lemma CompileMembership(records: seq<Record>, i: int, j: int, buff: JsString)
    requires 0 <= i < |records| && 0 <= j < |records[i].entries|
    requires records[i].entries[j].boardName in BoardNameToKey
    requires buff in records[i].entries[j].buffNames
    ensures var key := BoardNameToKey[records[i].entries[j].boardName];
            key in Compile(records) && buff in Compile(records)[key].buffs
            && records[i].character in Compile(records)[key].buffs[buff]
  {
    var key := BoardNameToKey[records[i].entries[j].boardName];
    ContributionPositive(records, i, j, key, buff);
    CompileCount(records, key, buff, records[i].character);
    CompileKeepsBoards(records);
  }

  /** A buff type gets a list on a board exactly when some file lists it under
      a name of that board. */
  lemma CompileBuffTypes(records: seq<Record>, key: JsString, buff: JsString)
    requires key in InitialBoards
    ensures key in Compile(records)
    ensures buff in Compile(records)[key].buffs <==> Lists(records, key, buff)
  {
    CompileKeepsBoards(records);
    var r := Compile(records);
    if buff in r[key].buffs {
      CompileListsSortedNonEmpty(records);
      var c := r[key].buffs[buff][0];
      CompileCount(records, key, buff, c);
      ContributionWitness(records, key, buff, c);
    }
    if Lists(records, key, buff) {
      var i, j :| 0 <= i < |records| && 0 <= j < |records[i].entries|
        && ResolveBoard(records[i].entries[j].boardName) == Some(key)
        && buff in records[i].entries[j].buffNames;
      CompileMembership(records, i, j, buff);
    }
  }

  /** Board names the mapping does not know are skipped: an entry naming one,
      wherever it stands in the file, changes nothing. */
  lemma {:induction false} UnknownBoardSkipped(boards: BoardMap, character: JsString, before: seq<Entry>, e: Entry, after: seq<Entry>)
    requires Resolvable(boards)
    requires e.boardName !in BoardNameToKey
    ensures AddEntries(boards, character, before + [e] + after) == AddEntries(boards, character, before + after)
    decreases |before|
  {
    if |before| == 0 {
      assert before + [e] + after == [e] + after && before + after == after;
      assert ([e] + after)[1..] == after;
      assert ResolveBoard(e.boardName).None?;
    } else {
      var next :=
        match ResolveBoard(before[0].boardName)
        case None => boards
        case Some(key) => PushAll(boards, key, before[0].buffNames, character);
      assert (before + [e] + after)[1..] == before[1..] + [e] + after;
      assert (before + after)[1..] == before[1..] + after;
      UnknownBoardSkipped(next, character, before[1..], e, after);
    }
  }

  // ---------------------------------------------------------------------------
  // The output is determined by the contributions alone
  // ---------------------------------------------------------------------------

  /** Two sets of files that contribute every (board, buff type, character)
      equally often produce the same output. */
  lemma CompileDeterminedByContributions(records1: seq<Record>, records2: seq<Record>)
    requires forall k, b, c :: Contribution(records1, k, b, c) == Contribution(records2, k, b, c)
    ensures Compile(records1) == Compile(records2)
  {
    var r1, r2 := Compile(records1), Compile(records2);
    forall k, b
      ensures BuffList(r1, k, b) == BuffList(r2, k, b)
    {
      forall c
        ensures multiset(BuffList(r1, k, b))[c] == multiset(BuffList(r2, k, b))[c]
      {
        CompileCount(records1, k, b, c);
        CompileCount(records2, k, b, c);
      }
      assert multiset(BuffList(r1, k, b)) == multiset(BuffList(r2, k, b));
      SortUnique(BuffList(r1, k, b), BuffList(r2, k, b));
    }
    SameListsSameBoards(InitialBoards, r1, r2);
  }

  /** Two boards maps with the boards of `boards`, no empty list and the same
      list everywhere are equal. */
  lemma SameListsSameBoards(boards: BoardMap, r1: BoardMap, r2: BoardMap)
    requires SameBoards(boards, r1) && SameBoards(boards, r2)
    requires NoEmptyLists(r1) && NoEmptyLists(r2)
    requires forall k, b :: BuffList(r1, k, b) == BuffList(r2, k, b)
    ensures r1 == r2
  {
    forall k | k in r1
      ensures r1[k] == r2[k]
    {
      assert r1[k].buffs.Keys == r2[k].buffs.Keys by {
        forall b | b in r1[k].buffs
          ensures b in r2[k].buffs
        {
          assert |BuffList(r1, k, b)| > 0;
        }
        forall b | b in r2[k].buffs
          ensures b in r1[k].buffs
        {
          assert |BuffList(r2, k, b)| > 0;
        }
      }
      assert r1[k].buffs == r2[k].buffs by {
        forall b | b in r1[k].buffs
          ensures r1[k].buffs[b] == r2[k].buffs[b]
        {
          assert BuffList(r1, k, b) == BuffList(r2, k, b);
        }
      }
    }
  }

  lemma {:induction false} ContributionRemove(records: seq<Record>, m: int, k: JsString, b: JsString, c: JsString)
    requires 0 <= m < |records|
    ensures Contribution(records, k, b, c)
         == (if records[m].character == c then EntriesCount(records[m].entries, k, b) else 0)
            + Contribution(records[..m] + records[m + 1..], k, b, c)
    decreases m
  {
    if m > 0 {
      ContributionRemove(records[1..], m - 1, k, b, c);
      var rest := records[..m] + records[m + 1..];
      assert rest[0] == records[0];
      assert rest[1..] == records[1..][..m - 1] + records[1..][m..];
    } else {
      assert records[..0] + records[1..] == records[1..];
    }
  }

  lemma {:induction false} ContributionPermutation(records1: seq<Record>, records2: seq<Record>, k: JsString, b: JsString, c: JsString)
    requires multiset(records1) == multiset(records2)
    ensures Contribution(records1, k, b, c) == Contribution(records2, k, b, c)
    decreases |records1|
  {
    if |records1| == 0 {
      assert |records2| == |multiset(records2)| == 0;
    } else {
      var m := MatchFirst(records1, records2);
      ContributionPermutation(records1[1..], records2[..m] + records2[m + 1..], k, b, c);
      ContributionRemove(records2, m, k, b, c);
    }
  }

  /** The order in which the directory lists the character files does not
      change the output. */
  lemma CompileRecordOrderIrrelevant(records1: seq<Record>, records2: seq<Record>)
    requires multiset(records1) == multiset(records2)
    ensures Compile(records1) == Compile(records2)
  {
    forall k, b, c
      ensures Contribution(records1, k, b, c) == Contribution(records2, k, b, c)
    {
      ContributionPermutation(records1, records2, k, b, c);
    }
    CompileDeterminedByContributions(records1, records2);
  }

  // ---------------------------------------------------------------------------
  // The order of the keys inside a file does not matter either
  // ---------------------------------------------------------------------------

  lemma {:induction false} EntriesCountRemove(entries: seq<Entry>, m: int, k: JsString, b: JsString)
    requires 0 <= m < |entries|
    ensures EntriesCount(entries, k, b)
         == (if ResolveBoard(entries[m].boardName) == Some(k) then multiset(entries[m].buffNames)[b] else 0)
            + EntriesCount(entries[..m] + entries[m + 1..], k, b)
    decreases m
  {
    if m > 0 {
      EntriesCountRemove(entries[1..], m - 1, k, b);
      var rest := entries[..m] + entries[m + 1..];
      assert rest[0] == entries[0];
      assert rest[1..] == entries[1..][..m - 1] + entries[1..][m..];
    } else {
      assert entries[..0] + entries[1..] == entries[1..];
    }
  }

  /** Where the first element of `s1` sits in a permutation `s2` of it, and
      that the rest of `s1` is a permutation of `s2` without it. */
  lemma MatchFirst<T>(s1: seq<T>, s2: seq<T>) returns (m: int)
    requires |s1| > 0 && multiset(s1) == multiset(s2)
    ensures 0 <= m < |s2| && s2[m] == s1[0]
    ensures multiset(s1[1..]) == multiset(s2[..m] + s2[m + 1..])
  {
    assert s1[0] in multiset(s2);
    m :| 0 <= m < |s2| && s2[m] == s1[0];
    var rest := s2[..m] + s2[m + 1..];
    assert s2 == s2[..m] + [s2[m]] + s2[m + 1..];
    assert multiset(s2) == multiset(s2[..m]) + multiset{s2[m]} + multiset(s2[m + 1..]);
    assert multiset(rest) == multiset(s2[..m]) + multiset(s2[m + 1..]);
    assert s1 == [s1[0]] + s1[1..];
    assert multiset(s1) == multiset{s1[0]} + multiset(s1[1..]);
    assert multiset(s1[1..]) == multiset(s1) - multiset{s1[0]} == multiset(s2) - multiset{s2[m]};
  }

  lemma {:induction false} EntriesCountPermutation(entries1: seq<Entry>, entries2: seq<Entry>, k: JsString, b: JsString)
    requires multiset(entries1) == multiset(entries2)
    ensures EntriesCount(entries1, k, b) == EntriesCount(entries2, k, b)
    decreases |entries1|
  {
    if |entries1| == 0 {
      assert |entries2| == |multiset(entries2)| == 0;
    } else {
      var m := MatchFirst(entries1, entries2);
      EntriesCountPermutation(entries1[1..], entries2[..m] + entries2[m + 1..], k, b);
      EntriesCountRemove(entries2, m, k, b);
    }
  }

  /** `records2` is `records1` with the keys of every file possibly reordered. */
  ghost predicate SameFilesUpToKeyOrder(records1: seq<Record>, records2: seq<Record>)
  {
    && |records1| == |records2|
    && forall i :: 0 <= i < |records1| ==>
         records1[i].character == records2[i].character && multiset(records1[i].entries) == multiset(records2[i].entries)
  }

  lemma {:induction false} ContributionKeyOrder(records1: seq<Record>, records2: seq<Record>, k: JsString, b: JsString, c: JsString)
    requires SameFilesUpToKeyOrder(records1, records2)
    ensures Contribution(records1, k, b, c) == Contribution(records2, k, b, c)
    decreases |records1|
  {
    if |records1| > 0 {
      EntriesCountPermutation(records1[0].entries, records2[0].entries, k, b);
      assert SameFilesUpToKeyOrder(records1[1..], records2[1..]) by {
        forall i | 0 <= i < |records1[1..]|
          ensures records1[1..][i].character == records2[1..][i].character
          ensures multiset(records1[1..][i].entries) == multiset(records2[1..][i].entries)
        {
          assert records1[1..][i] == records1[i + 1] && records2[1..][i] == records2[i + 1];
        }
      }
      ContributionKeyOrder(records1[1..], records2[1..], k, b, c);
    }
  }

  /** The order in which `Object.keys` lists a file's board names does not
      change the output. */
  lemma CompileKeyOrderIrrelevant(records1: seq<Record>, records2: seq<Record>)
    requires SameFilesUpToKeyOrder(records1, records2)
    ensures Compile(records1) == Compile(records2)
  {
    forall k, b, c
      ensures Contribution(records1, k, b, c) == Contribution(records2, k, b, c)
    {
      ContributionKeyOrder(records1, records2, k, b, c);
    }
    CompileDeterminedByContributions(records1, records2);
  }
}
