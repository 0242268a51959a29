/**
 The checklist state of the browser page: a map from a composite key
 (board key, buff type, character) to a checked flag, the default-false
 lookup, and the flip a click performs.
 */
module Checklist {
  import opened JsStrings
  import opened Wrappers

  /** `checkedState`: composite key to checked flag. */
  type CheckedState = map<JsString, bool>

  /** `getCharacterId`: the template literal `${board}-${buff}-${character}`.
      When board key and buff type contain no dash, cutting the key at its
      first two dashes gives the three parts back. */
  function CharacterId(board: JsString, buff: JsString, character: JsString): (r: JsString)
    ensures Dash !in board && Dash !in buff ==> SplitId(r) == Some((board, buff, character))
  {
    SplitIdInverts(board, buff, character);
    board + [Dash] + buff + [Dash] + character
  }

  lemma SplitIdInverts(board: JsString, buff: JsString, character: JsString)
    ensures Dash !in board && Dash !in buff ==>
              SplitId(board + [Dash] + buff + [Dash] + character) == Some((board, buff, character))
  {
    if Dash !in board && Dash !in buff {
      var rest := buff + [Dash] + character;
      BeforeDashStops(board, rest);
      BeforeDashStops(buff, character);
      assert board + [Dash] + rest == board + [Dash] + buff + [Dash] + character;
      assert (board + [Dash] + rest)[|board| + 1..] == rest;
      assert (buff + [Dash] + character)[|buff| + 1..] == character;
    }
  }

  /** The part of `s` before its first dash (all of `s` when it has none). */
  function BeforeDash(s: JsString): (r: JsString)
    ensures Dash !in r
    ensures |r| <= |s| && r == s[..|r|]
    ensures |r| < |s| ==> s[|r|] == Dash
    decreases |s|
  {
    if |s| == 0 || s[0] == Dash then []
    else [s[0]] + BeforeDash(s[1..])
  }

  /** A dash-free prefix followed by a dash is exactly what `BeforeDash` finds. */
  lemma BeforeDashStops(x: JsString, u: JsString)
    requires Dash !in x
    ensures BeforeDash(x + [Dash] + u) == x
  {
    var s := x + [Dash] + u;
    var r := BeforeDash(s);
    assert s[|x|] == Dash;
    assert forall i :: 0 <= i < |x| ==> s[i] == x[i];
    assert x == s[..|x|];
  }

  /** Cut a key at its first two dashes; `None` when it has fewer. */
  function SplitId(id: JsString): Option<(JsString, JsString, JsString)>
  {
    var board := BeforeDash(id);
    if |board| == |id| then None
    else
      var rest := id[|board| + 1..];
      var buff := BeforeDash(rest);
      if |buff| == |rest| then None
      else Some((board, buff, rest[|buff| + 1..]))
  }

  /** `isChecked`: `checkedState[id] || false`. An absent key reads as false. */
  function IsChecked(state: CheckedState, board: JsString, buff: JsString, character: JsString): (r: bool)
    ensures CharacterId(board, buff, character) !in state ==> !r
    ensures CharacterId(board, buff, character) in state ==> r == state[CharacterId(board, buff, character)]
  {
    var id := CharacterId(board, buff, character);
    id in state && state[id]
  }

  /** The state change of `toggleCharacter`: `checkedState[id] = !checkedState[id]`,
      where an absent entry negates to true. */
  function Toggle(state: CheckedState, board: JsString, buff: JsString, character: JsString): (r: CheckedState)
    ensures IsChecked(r, board, buff, character) == !IsChecked(state, board, buff, character)
    ensures CharacterId(board, buff, character) in r
    ensures r.Keys == state.Keys + {CharacterId(board, buff, character)}
    ensures forall id :: id in state && id != CharacterId(board, buff, character) ==> r[id] == state[id]
  {
    var id := CharacterId(board, buff, character);
    state[id := !(id in state && state[id])]
  }

  /** Toggling the same entry twice restores what every entry reads as. */
  lemma ToggleTwiceRestores(state: CheckedState, board: JsString, buff: JsString, character: JsString)
    ensures forall b, t, c ::
              IsChecked(Toggle(Toggle(state, board, buff, character), board, buff, character), b, t, c)
              == IsChecked(state, b, t, c)
  {
    var once := Toggle(state, board, buff, character);
    var twice := Toggle(once, board, buff, character);
    forall b, t, c
      ensures IsChecked(twice, b, t, c) == IsChecked(state, b, t, c)
    {
      if CharacterId(b, t, c) == CharacterId(board, buff, character) {
        assert IsChecked(twice, b, t, c) == !IsChecked(once, board, buff, character);
      }
    }
  }

  /** The key is unique per combination as long as board keys and buff types
      contain no dash (the character name may contain one). */
  lemma CharacterIdInjective(board1: JsString, buff1: JsString, character1: JsString,
                             board2: JsString, buff2: JsString, character2: JsString)
    requires Dash !in board1 && Dash !in buff1 && Dash !in board2 && Dash !in buff2
    ensures CharacterId(board1, buff1, character1) == CharacterId(board2, buff2, character2)
            <==> board1 == board2 && buff1 == buff2 && character1 == character2
  {
  }

  /** Without that condition the key is not unique: a buff type `b-c` with
      character `d` and a buff type `b` with character `c-d` share the key
      `board-b-c-d`. */
  lemma CharacterIdCollision(board: JsString, b: JsString, c: JsString, d: JsString)
    ensures CharacterId(board, b + [Dash] + c, d) == CharacterId(board, b, c + [Dash] + d)
    ensures b + [Dash] + c != b
  {
    assert |b + [Dash] + c| != |b|;
  }

  /** Toggling one combination leaves every other combination as it was, under
      the same no-dash condition. */
  lemma ToggleLeavesOthers(state: CheckedState, board: JsString, buff: JsString, character: JsString,
                           b: JsString, t: JsString, c: JsString)
    requires Dash !in board && Dash !in buff && Dash !in b && Dash !in t
    requires (b, t, c) != (board, buff, character)
    ensures IsChecked(Toggle(state, board, buff, character), b, t, c) == IsChecked(state, b, t, c)
  {
    CharacterIdInjective(board, buff, character, b, t, c);
  }
}
