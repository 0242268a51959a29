/**
 The aggregator as `compile.js` writes its two lookups. `boardNameToKey[boardName]`
 and `boards[boardKey].buffs[buffName]` are plain property reads on ordinary
 objects, so they also find the members every object inherits from
 `Object.prototype`. Those members are truthy and are neither a board key nor
 an array, so a board name or a buff type spelt like one of them makes the
 script throw a TypeError and write no output at all, where an unknown board
 name is otherwise skipped and a new buff type otherwise gets its own list.

 `Aggregator` is the intended behaviour (own-property lookups only); this
 module is the behaviour as written, and `CompileAsWrittenIff` states exactly
 when the two differ.
 */
module PrototypeLookup {
  import opened JsStrings
  import opened Wrappers
  import opened Boards
  import opened Aggregator

  /** The property names every plain object inherits from `Object.prototype`. */
  const InheritedNames: set<JsString> := {
    FromBmp("constructor"), FromBmp("hasOwnProperty"), FromBmp("isPrototypeOf"),
    FromBmp("propertyIsEnumerable"), FromBmp("toLocaleString"), FromBmp("toString"),
    FromBmp("valueOf"), FromBmp("__proto__"), FromBmp("__defineGetter__"),
    FromBmp("__defineSetter__"), FromBmp("__lookupGetter__"), FromBmp("__lookupSetter__")
  }

  /** The only way the script fails on well-formed files. */
  datatype Failure = TypeError

  /** What `boardNameToKey[boardName]` yields. */
  datatype Lookup =
    | Own(key: JsString)   // a board key
    | Inherited            // a function or `Object.prototype`: truthy, but no board
    | Missing              // `undefined`: the entry is skipped

  function LookupBoardName(name: JsString): (r: Lookup)
    ensures r.Own? <==> name in BoardNameToKey
    ensures r.Own? ==> r.key == BoardNameToKey[name]
    ensures r.Inherited? <==> name !in BoardNameToKey && name in InheritedNames
  {
    if name in BoardNameToKey then Own(BoardNameToKey[name])
    else if name in InheritedNames then Inherited
    else Missing
  }

  /** Some element of `names` is an inherited property name. */
  predicate HasInherited(names: seq<JsString>)
  {
    exists i :: 0 <= i < |names| && names[i] in InheritedNames
  }

  /** No list of `boards` is keyed by an inherited name (true of the skeleton,
      and kept by every push that succeeds). */
  predicate NoInheritedBuffs(boards: BoardMap)
  {
    forall k, b :: k in boards && b in boards[k].buffs ==> b !in InheritedNames
  }

  /** The entry makes the script throw: an inherited board name with at least
      one buff type, or a known board name with an inherited buff type. */
  predicate Throws(e: Entry)
  {
    match LookupBoardName(e.boardName)
    case Missing => false
    case Inherited => |e.buffNames| > 0
    case Own(_) => HasInherited(e.buffNames)
  }

  /** Some entry of some file makes the script throw. */
  predicate AnyThrows(records: seq<Record>)
  {
    exists i, j :: 0 <= i < |records| && 0 <= j < |records[i].entries| && Throws(records[i].entries[j])
  }

  // ---------------------------------------------------------------------------
  // The loop as written
  // ---------------------------------------------------------------------------

  /** `if (!buffs[buffName]) buffs[buffName] = []; buffs[buffName].push(charName)`:
      an own list is extended, an absent name gets a new list, and an
      inherited member has no `push`. */
  function PushAsWritten(boards: BoardMap, key: JsString, buff: JsString, character: JsString): (r: Result<BoardMap, Failure>)
    requires key in boards
    ensures r.Err? <==> buff !in boards[key].buffs && buff in InheritedNames
    ensures r.Ok? ==> r.value == Push(boards, key, buff, character)
  {
    if buff !in boards[key].buffs && buff in InheritedNames then Err(TypeError)
    else Ok(Push(boards, key, buff, character))
  }

  function PushAllAsWritten(boards: BoardMap, key: JsString, buffNames: seq<JsString>, character: JsString): (r: Result<BoardMap, Failure>)
    requires key in boards
    ensures r.Ok? ==> r.value == PushAll(boards, key, buffNames, character)
    ensures r.Err? ==> HasInherited(buffNames)
    decreases |buffNames|
  {
    if |buffNames| == 0 then Ok(boards)
    else
      match PushAsWritten(boards, key, buffNames[0], character)
      case Err(e) => Err(e)
      case Ok(next) => PushAllAsWritten(next, key, buffNames[1..], character)
  }

  /** For an inherited board name, `boards[boardKey]` is `undefined` and the
      first buff type of the entry throws on `.buffs`. */
  function AddEntriesAsWritten(boards: BoardMap, character: JsString, entries: seq<Entry>): (r: Result<BoardMap, Failure>)
    requires Resolvable(boards)
    ensures r.Ok? ==> r.value == AddEntries(boards, character, entries)
    decreases |entries|
  {
    if |entries| == 0 then Ok(boards)
    else
      var next :=
        match LookupBoardName(entries[0].boardName)
        case Missing => Ok(boards)
        case Inherited => if |entries[0].buffNames| == 0 then Ok(boards) else Err(TypeError)
        case Own(key) => PushAllAsWritten(boards, key, entries[0].buffNames, character);
      match next
      case Err(e) => Err(e)
      case Ok(b) => AddEntriesAsWritten(b, character, entries[1..])
  }

  function CollectAsWritten(boards: BoardMap, records: seq<Record>): (r: Result<BoardMap, Failure>)
    requires Resolvable(boards)
    ensures r.Ok? ==> r.value == Collect(boards, records)
    decreases |records|
  {
    if |records| == 0 then Ok(boards)
    else
      match AddEntriesAsWritten(boards, records[0].character, records[0].entries)
      case Err(e) => Err(e)
      case Ok(next) => CollectAsWritten(next, records[1..])
  }

  /** The script as written: the generated data, or the exception that stops it
      before anything is written. */
  function CompileAsWritten(records: seq<Record>): (r: Result<BoardMap, Failure>)
    ensures r.Ok? ==> r.value == Compile(records)
  {
    BoardNamesMatchSkeleton();
    match CollectAsWritten(InitialBoards, records)
    case Err(e) => Err(e)
    case Ok(boards) => Ok(SortAll(boards))
  }

  // ---------------------------------------------------------------------------
  // Exactly when the script as written fails
  // ---------------------------------------------------------------------------

  lemma {:induction false} PushAllAsWrittenIff(boards: BoardMap, key: JsString, buffNames: seq<JsString>, character: JsString)
    requires key in boards && NoInheritedBuffs(boards)
    ensures PushAllAsWritten(boards, key, buffNames, character).Err? <==> HasInherited(buffNames)
    ensures PushAllAsWritten(boards, key, buffNames, character).Ok? ==>
              NoInheritedBuffs(PushAllAsWritten(boards, key, buffNames, character).value)
    decreases |buffNames|
  {
    if |buffNames| > 0 {
      if buffNames[0] !in InheritedNames {
        var next := Push(boards, key, buffNames[0], character);
        PushAllAsWrittenIff(next, key, buffNames[1..], character);
        if HasInherited(buffNames) {
          var i :| 0 <= i < |buffNames| && buffNames[i] in InheritedNames;
          assert buffNames[1..][i - 1] in InheritedNames;
        }
        if HasInherited(buffNames[1..]) {
          var i :| 0 <= i < |buffNames[1..]| && buffNames[1..][i] in InheritedNames;
          assert buffNames[i + 1] in InheritedNames;
        }
      } else {
        assert buffNames[0] in InheritedNames;
      }
    }
  }

  lemma {:induction false} AddEntriesAsWrittenIff(boards: BoardMap, character: JsString, entries: seq<Entry>)
    requires Resolvable(boards) && NoInheritedBuffs(boards)
    ensures AddEntriesAsWritten(boards, character, entries).Err?
            <==> exists j :: 0 <= j < |entries| && Throws(entries[j])
    ensures AddEntriesAsWritten(boards, character, entries).Ok? ==>
              NoInheritedBuffs(AddEntriesAsWritten(boards, character, entries).value)
    decreases |entries|
  {
    if |entries| > 0 {
      var e := entries[0];
      if Throws(e) {
        if LookupBoardName(e.boardName).Own? {
          PushAllAsWrittenIff(boards, LookupBoardName(e.boardName).key, e.buffNames, character);
        }
        assert AddEntriesAsWritten(boards, character, entries).Err?;
      } else {
        var next :=
          match LookupBoardName(e.boardName)
          case Missing => boards
          case Inherited => boards
          case Own(key) => PushAll(boards, key, e.buffNames, character);
        if LookupBoardName(e.boardName).Own? {
          PushAllAsWrittenIff(boards, LookupBoardName(e.boardName).key, e.buffNames, character);
        }
        AddEntriesAsWrittenIff(next, character, entries[1..]);
        if exists j :: 0 <= j < |entries| && Throws(entries[j]) {
          var j :| 0 <= j < |entries| && Throws(entries[j]);
          assert Throws(entries[1..][j - 1]);
        }
        if exists j :: 0 <= j < |entries[1..]| && Throws(entries[1..][j]) {
          var j :| 0 <= j < |entries[1..]| && Throws(entries[1..][j]);
          assert Throws(entries[j + 1]);
        }
      }
    }
  }

  lemma {:induction false} CollectAsWrittenIff(boards: BoardMap, records: seq<Record>)
    requires Resolvable(boards) && NoInheritedBuffs(boards)
    ensures CollectAsWritten(boards, records).Err? <==> AnyThrows(records)
    ensures CollectAsWritten(boards, records).Ok? ==> NoInheritedBuffs(CollectAsWritten(boards, records).value)
    decreases |records|
  {
    if |records| > 0 {
      var r := records[0];
      AddEntriesAsWrittenIff(boards, r.character, r.entries);
      if exists j :: 0 <= j < |r.entries| && Throws(r.entries[j]) {
        var j :| 0 <= j < |r.entries| && Throws(r.entries[j]);
        assert Throws(records[0].entries[j]);
      } else {
        var next := AddEntries(boards, r.character, r.entries);
        CollectAsWrittenIff(next, records[1..]);
        AnyThrowsRest(records);
      }
    }
  }

  /** Without a throwing entry in the first file, some file has one exactly
      when some later file has. */
  lemma AnyThrowsRest(records: seq<Record>)
    requires |records| > 0
    requires forall j :: 0 <= j < |records[0].entries| ==> !Throws(records[0].entries[j])
    ensures AnyThrows(records) <==> AnyThrows(records[1..])
  {
    if AnyThrows(records) {
      var i, j :| 0 <= i < |records| && 0 <= j < |records[i].entries| && Throws(records[i].entries[j]);
      assert Throws(records[1..][i - 1].entries[j]);
    }
    if AnyThrows(records[1..]) {
      var i, j :| 0 <= i < |records[1..]| && 0 <= j < |records[1..][i].entries| && Throws(records[1..][i].entries[j]);
      assert Throws(records[i + 1].entries[j]);
    }
  }

  /** The script as written fails exactly when some entry names an inherited
      member, and otherwise produces the intended data. */
  lemma CompileAsWrittenIff(records: seq<Record>)
    ensures CompileAsWritten(records) == if AnyThrows(records) then Err(TypeError) else Ok(Compile(records))
  {
    BoardNamesMatchSkeleton();
    assert NoInheritedBuffs(InitialBoards);
    CollectAsWrittenIff(InitialBoards, records);
    if AnyThrows(records) {
      assert CompileAsWritten(records).error == TypeError;
    }
  }

  /** A board named `toString` with one buff type: the intended aggregator
      skips the entry, the script as written throws. */
  lemma InheritedBoardNameThrows()
    ensures var records := [Record(FromBmp("a"), [Entry(FromBmp("toString"), [FromBmp("x")])])];
            && CompileAsWritten(records) == Err(TypeError)
            && Compile(records) == Compile([])
  {
    var records := [Record(FromBmp("a"), [Entry(FromBmp("toString"), [FromBmp("x")])])];
    BoardNamesMatchSkeleton();
    assert FromBmp("toString") !in BoardNameToKey;
    assert Throws(records[0].entries[0]);
    CompileAsWrittenIff(records);
    UnknownBoardSkipped(InitialBoards, FromBmp("a"), [], records[0].entries[0], []);
  }

  /** A character with the buff type `constructor` on board 1: the intended
      aggregator lists the character under it, the script as written throws. */
  lemma InheritedBuffNameThrows()
    ensures var records := [Record(FromBmp("a"), [Entry(Board1Name, [FromBmp("constructor")])])];
            && CompileAsWritten(records) == Err(TypeError)
            && FromBmp("constructor") in Compile(records)[Board1Key].buffs
            && FromBmp("a") in Compile(records)[Board1Key].buffs[FromBmp("constructor")]
  {
    var records := [Record(FromBmp("a"), [Entry(Board1Name, [FromBmp("constructor")])])];
    BoardNamesMatchSkeleton();
    var e := records[0].entries[0];
    assert LookupBoardName(e.boardName) == Own(Board1Key);
    assert e.buffNames[0] in InheritedNames;
    assert Throws(e);
    assert AnyThrows(records);
    CompileAsWrittenIff(records);
    CompileMembership(records, 0, 0, FromBmp("constructor"));
  }
}
