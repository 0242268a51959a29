/**
 What `renderContent` computes once the DOM calls are stripped away: which
 boards are shown under the board filter, which characters of each buff type
 survive the search, the per-buff checked count and the all-completed mark.
 The rendered page is described by a view model of plain values.
 */
module View {
  import opened JsStrings
  import opened Wrappers
  import opened Boards
  import opened Checklist

  /** The filter value that shows every board. */
  const AllBoards: JsString := FromBmp("all")

  /** One character entry: its name and whether it is marked completed. */
  datatype CharacterView = CharacterView(name: JsString, completed: bool)

  /** One buff group: the count shown as `x N`, the `all-completed` mark and the
      characters left by the search. */
  datatype BuffGroup = BuffGroup(checkedCount: nat, allCompleted: bool, characters: seq<CharacterView>)

  /** One board section: its title and the buff groups it shows. */
  datatype BoardSection = BoardSection(title: JsString, groups: map<JsString, BuffGroup>)

  // ---------------------------------------------------------------------------
  // Board filter and search
  // ---------------------------------------------------------------------------

  /** The board filter: a board is skipped when the filter is neither `all`
      nor its key. */
  function ShowsBoard(filter: JsString, key: JsString): (r: bool)
    ensures r <==> filter == AllBoards || filter == key
  {
    !(filter != AllBoards && filter != key)
  }

  /** `char.toLowerCase().includes(currentSearch.toLowerCase())`: the search,
      lower-cased, occurs somewhere in the lower-cased name; the empty search
      matches every name. */
  function Matches(character: JsString, search: JsString): (r: bool)
    ensures r <==> exists i :: OccursAt(ToLower(character), ToLower(search), i)
    ensures |search| == 0 ==> r
  {
    IncludesIff(ToLower(character), ToLower(search));
    IncludesEmpty(ToLower(character));
    Includes(ToLower(character), ToLower(search))
  }

  /** The match ignores ASCII case on both sides. */
  lemma MatchesIgnoresCase(character: JsString, search: JsString)
    ensures Matches(ToLower(character), search) == Matches(character, search)
    ensures Matches(character, ToLower(search)) == Matches(character, search)
  {
    ToLowerIdempotent(character);
    ToLowerIdempotent(search);
  }

  /** `a` is `b` with some elements left out, the rest in their order. */
  ghost predicate IsSubsequence(a: seq<JsString>, b: seq<JsString>)
    decreases |b|
  {
    if |b| == 0 then |a| == 0
    else (|a| > 0 && a[0] == b[0] && IsSubsequence(a[1..], b[1..])) || IsSubsequence(a, b[1..])
  }

  /** `characters.filter(char => ...)` with the search predicate: the matching
      characters, in order, each as often as in the list. */
  function FilterCharacters(characters: seq<JsString>, search: JsString): (r: seq<JsString>)
    ensures IsSubsequence(r, characters)
    ensures forall i :: 0 <= i < |r| ==> Matches(r[i], search)
    ensures forall x :: Matches(x, search) ==> multiset(r)[x] == multiset(characters)[x]
    decreases |characters|
  {
    if |characters| == 0 then
      []
    else
      assert characters == [characters[0]] + characters[1..];
      var rest := FilterCharacters(characters[1..], search);
      if Matches(characters[0], search) then
        assert ([characters[0]] + rest)[1..] == rest;
        [characters[0]] + rest
      else
        rest
  }

  /** The empty search keeps the whole list. */
  lemma {:induction false} FilterEmptySearch(characters: seq<JsString>)
    ensures FilterCharacters(characters, []) == characters
    decreases |characters|
  {
    if |characters| > 0 {
      FilterEmptySearch(characters[1..]);
      assert characters == [characters[0]] + characters[1..];
    }
  }

  /** The filter leaves nothing exactly when no character matches. */
  lemma FilterEmptyIff(characters: seq<JsString>, search: JsString)
    ensures |FilterCharacters(characters, search)| == 0
            <==> forall i :: 0 <= i < |characters| ==> !Matches(characters[i], search)
  {
    var r := FilterCharacters(characters, search);
    if |r| == 0 {
      forall i | 0 <= i < |characters|
        ensures !Matches(characters[i], search)
      {
        assert r == [] && characters[i] in multiset(characters);
      }
    } else {
      assert Matches(r[0], search);
      assert r[0] in multiset(characters);
    }
  }

  // ---------------------------------------------------------------------------
  // Completion of one buff type
  // ---------------------------------------------------------------------------

  /** `characters.filter(char => isChecked(...)).length`. */
  function CheckedCount(state: CheckedState, key: JsString, buff: JsString, characters: seq<JsString>): (r: nat)
    ensures r <= |characters|
    ensures r == |characters| <==> forall i :: 0 <= i < |characters| ==> IsChecked(state, key, buff, characters[i])
    ensures r == 0 <==> forall i :: 0 <= i < |characters| ==> !IsChecked(state, key, buff, characters[i])
    decreases |characters|
  {
    if |characters| == 0 then
      0
    else
      var rest := CheckedCount(state, key, buff, characters[1..]);
      assert forall i :: 1 <= i < |characters| ==> characters[i] == characters[1..][i - 1];
      (if IsChecked(state, key, buff, characters[0]) then 1 else 0) + rest
  }

  /** A single character counts one exactly when it is checked. */
  lemma CheckedCountOne(state: CheckedState, key: JsString, buff: JsString, x: JsString)
    ensures CheckedCount(state, key, buff, [x]) == if IsChecked(state, key, buff, x) then 1 else 0
  {
  }

  /** The count of a concatenation is the sum of the counts; with
      `CheckedCountOne` this fixes the count of every list as the number of
      its checked entries. */
  lemma {:induction false} CheckedCountAppend(state: CheckedState, key: JsString, buff: JsString, xs: seq<JsString>, ys: seq<JsString>)
    ensures CheckedCount(state, key, buff, xs + ys) == CheckedCount(state, key, buff, xs) + CheckedCount(state, key, buff, ys)
    decreases |xs|
  {
    if |xs| == 0 {
      assert xs + ys == ys;
    } else {
      assert (xs + ys)[0] == xs[0];
      assert (xs + ys)[1..] == xs[1..] + ys;
      CheckedCountAppend(state, key, buff, xs[1..], ys);
    }
  }

  /** The group of `buff`, or `None` when the search leaves none of its
      characters. The count and the mark are taken over the whole list. */
  function RenderGroup(state: CheckedState, key: JsString, buff: JsString, characters: seq<JsString>, search: JsString): (r: Option<BuffGroup>)
    ensures r.None? <==> forall i :: 0 <= i < |characters| ==> !Matches(characters[i], search)
    ensures r.Some? ==> r.value.checkedCount <= |characters|
    ensures r.Some? ==>
              (r.value.allCompleted <==>
                 |characters| > 0 && forall i :: 0 <= i < |characters| ==> IsChecked(state, key, buff, characters[i]))
    ensures r.Some? ==>
              var shown := FilterCharacters(characters, search);
              && |r.value.characters| == |shown|
              && forall i :: 0 <= i < |shown| ==>
                   r.value.characters[i].name == shown[i] && r.value.characters[i].completed == IsChecked(state, key, buff, shown[i])
  {
    FilterEmptyIff(characters, search);
    var shown := FilterCharacters(characters, search);
    if |shown| == 0 then
      None
    else
      var count := CheckedCount(state, key, buff, characters);
      Some(BuffGroup(
        count,
        count == |characters| && |characters| > 0,
        seq(|shown|, i requires 0 <= i < |shown| => CharacterView(shown[i], IsChecked(state, key, buff, shown[i])))))
  }

  /** The section of one board: its title, and a group for exactly the buff
      types with some character matching the search. */
  function RenderBoard(state: CheckedState, key: JsString, board: Board, search: JsString): (r: BoardSection)
    ensures r.title == board.name
    ensures forall b :: b in r.groups <==>
              b in board.buffs && exists i :: 0 <= i < |board.buffs[b]| && Matches(board.buffs[b][i], search)
    ensures forall b :: b in r.groups ==> RenderGroup(state, key, b, board.buffs[b], search) == Some(r.groups[b])
  {
    BoardSection(
      board.name,
      map b | b in board.buffs && RenderGroup(state, key, b, board.buffs[b], search).Some?
        :: RenderGroup(state, key, b, board.buffs[b], search).value)
  }

  /** The view model of `renderContent` for the given filter and search: a
      section for exactly the boards the filter lets through. */
  function Render(data: BoardMap, state: CheckedState, filter: JsString, search: JsString): (r: map<JsString, BoardSection>)
    ensures forall k :: k in r <==> k in data && (filter == AllBoards || filter == k)
    ensures forall k :: k in r ==> r[k] == RenderBoard(state, k, data[k], search)
  {
    map k | k in data && ShowsBoard(filter, k) :: RenderBoard(state, k, data[k], search)
  }

  // ---------------------------------------------------------------------------
  // Properties of the view
  // ---------------------------------------------------------------------------

  /** A board is shown exactly when the filter is `all` or its key: `all`
      shows every board, a board key shows that board alone, anything else
      shows nothing. */
  lemma RenderSelectsBoards(data: BoardMap, state: CheckedState, filter: JsString, search: JsString)
    ensures forall k :: k in Render(data, state, filter, search) <==> k in data && (filter == AllBoards || filter == k)
    ensures filter == AllBoards ==> Render(data, state, filter, search).Keys == data.Keys
    ensures filter != AllBoards && filter in data ==> Render(data, state, filter, search).Keys == {filter}
    ensures filter != AllBoards && filter !in data ==> Render(data, state, filter, search).Keys == {}
  {
  }

  /** A buff group is omitted exactly when the search leaves none of its
      characters; otherwise it shows the matching characters in list order,
      each with its own checked flag. */
  lemma RenderGroupContents(data: BoardMap, state: CheckedState, filter: JsString, search: JsString, key: JsString, buff: JsString)
    requires key in Render(data, state, filter, search)
    ensures buff in Render(data, state, filter, search)[key].groups
            <==> buff in data[key].buffs
                 && exists i :: 0 <= i < |data[key].buffs[buff]| && Matches(data[key].buffs[buff][i], search)
    ensures buff in Render(data, state, filter, search)[key].groups ==>
              var views := Render(data, state, filter, search)[key].groups[buff].characters;
              var shown := FilterCharacters(data[key].buffs[buff], search);
              && |views| == |shown|
              && forall i :: 0 <= i < |views| ==>
                   views[i].name == shown[i] && views[i].completed == IsChecked(state, key, buff, shown[i])
  {
    if buff in data[key].buffs {
      FilterEmptyIff(data[key].buffs[buff], search);
    }
  }

  /** The checked count is taken over the whole list, whatever the search:
      it lies between 0 and the list's length, and the group is marked
      all-completed exactly when the list is non-empty and fully checked. */
  lemma RenderGroupCompletion(data: BoardMap, state: CheckedState, filter: JsString, search: JsString, key: JsString, buff: JsString)
    requires key in Render(data, state, filter, search)
    requires buff in Render(data, state, filter, search)[key].groups
    ensures var g := Render(data, state, filter, search)[key].groups[buff];
            var characters := data[key].buffs[buff];
            && g.checkedCount == CheckedCount(state, key, buff, characters)
            && g.checkedCount <= |characters|
            && (g.allCompleted <==>
                  |characters| > 0 && forall i :: 0 <= i < |characters| ==> IsChecked(state, key, buff, characters[i]))
  {
  }

  /** Changing the search never changes the count or the mark of a group that
      stays visible. */
  lemma RenderCountIgnoresSearch(data: BoardMap, state: CheckedState, filter: JsString, search1: JsString, search2: JsString,
                                 key: JsString, buff: JsString)
    requires key in Render(data, state, filter, search1) && buff in Render(data, state, filter, search1)[key].groups
    requires key in Render(data, state, filter, search2) && buff in Render(data, state, filter, search2)[key].groups
    ensures Render(data, state, filter, search1)[key].groups[buff].checkedCount
         == Render(data, state, filter, search2)[key].groups[buff].checkedCount
    ensures Render(data, state, filter, search1)[key].groups[buff].allCompleted
         == Render(data, state, filter, search2)[key].groups[buff].allCompleted
  {
  }

  /** With an empty search every non-empty list is shown in full. */
  lemma RenderEmptySearch(data: BoardMap, state: CheckedState, filter: JsString, key: JsString, buff: JsString)
    requires key in Render(data, state, filter, [])
    requires buff in data[key].buffs && |data[key].buffs[buff]| > 0
    ensures buff in Render(data, state, filter, [])[key].groups
    ensures |Render(data, state, filter, [])[key].groups[buff].characters| == |data[key].buffs[buff]|
    ensures forall i :: 0 <= i < |data[key].buffs[buff]| ==>
              Render(data, state, filter, [])[key].groups[buff].characters[i].name == data[key].buffs[buff][i]
  {
    FilterEmptySearch(data[key].buffs[buff]);
  }
}
