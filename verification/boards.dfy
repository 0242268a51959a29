/**
 The board data shared by the aggregator (which produces it) and the checklist
 (which renders it): three fixed boards, each with a display name, an icon and
 a map from buff type to the names of the characters that unlock it.
 */
module Boards {
  import opened JsStrings
  import opened Wrappers

  /** One board: `{ name, icon, buffs }`, `buffs` mapping a buff type to its characters. */
  datatype Board = Board(name: JsString, icon: JsString, buffs: map<JsString, seq<JsString>>)

  /** The `boards` / `crayonData` object: board key to board. */
  type BoardMap = map<JsString, Board>

  const Board1Key: JsString := FromBmp("board1")
  const Board2Key: JsString := FromBmp("board2")
  const Board3Key: JsString := FromBmp("board3")

  /** "ボード1", "ボード2", "ボード3" (katakana bo, long vowel mark, do, digit). */
  const Board1Name: JsString := FromBmp("\U{30DC}\U{30FC}\U{30C9}1")
  const Board2Name: JsString := FromBmp("\U{30DC}\U{30FC}\U{30C9}2")
  const Board3Name: JsString := FromBmp("\U{30DC}\U{30FC}\U{30C9}3")

  /** The icons U+1F4CB, U+1F4C4 and U+1F4C3 lie outside the Basic Multilingual
      Plane, so each is a surrogate pair of two code units. */
  const Board1Icon: JsString := [0xD83D, 0xDCCB]
  const Board2Icon: JsString := [0xD83D, 0xDCC4]
  const Board3Icon: JsString := [0xD83D, 0xDCC3]

  /** The board skeleton the aggregator starts from: every board without buffs. */
  const InitialBoards: BoardMap := map[
    Board1Key := Board(Board1Name, Board1Icon, map[]),
    Board2Key := Board(Board2Name, Board2Icon, map[]),
    Board3Key := Board(Board3Name, Board3Icon, map[])
  ]

  /** `boardNameToKey`: the board names a character file may use. */
  const BoardNameToKey: map<JsString, JsString> := map[
    Board1Name := Board1Key,
    Board2Name := Board2Key,
    Board3Name := Board3Key
  ]

  /** The own-property lookup `boardNameToKey[boardName]`; `None` for a name the
      mapping does not know. */
  function ResolveBoard(boardName: JsString): (r: Option<JsString>)
    ensures r.Some? <==> boardName in BoardNameToKey
    ensures r.Some? ==> r.value in InitialBoards && InitialBoards[r.value].name == boardName
  {
    BoardNamesMatchSkeleton();
    if boardName in BoardNameToKey then Some(BoardNameToKey[boardName]) else None
  }

  /** The mapping and the skeleton agree: each known name leads to the board
      that carries that name, and every board is reachable by its name. */
  lemma BoardNamesMatchSkeleton()
    ensures InitialBoards.Keys == {Board1Key, Board2Key, Board3Key}
    ensures forall n :: n in BoardNameToKey ==>
              BoardNameToKey[n] in InitialBoards && InitialBoards[BoardNameToKey[n]].name == n
    ensures forall k :: k in InitialBoards ==>
              InitialBoards[k].name in BoardNameToKey && BoardNameToKey[InitialBoards[k].name] == k
  {
    assert Board1Key[5] != Board2Key[5] && Board1Key[5] != Board3Key[5] && Board2Key[5] != Board3Key[5];
    assert Board1Name[3] != Board2Name[3] && Board1Name[3] != Board3Name[3] && Board2Name[3] != Board3Name[3];
  }
}
