/**
 * Hypothetical edits of a book: add, remove and modify over a list of positions and an index by id (risk/incremental_var.py).
 */
module WhatIf {
  import opened Wrappers
  import opened Builtin

  datatype Operation = Add | Remove | Modify

  datatype Change = Change(operation: Operation, positionId: Option<string>, position: Option<Position>)

  function Id(p: Position): string {
    p.header.id
  }

  predicate Held(book: seq<Position>, id: string) {
    exists i :: 0 <= i < |book| && Id(book[i]) == id
  }

  ghost predicate UniqueIds(book: seq<Position>) {
    forall i, j :: 0 <= i < j < |book| ==> Id(book[i]) != Id(book[j])
  }

  // ----- the edits, without an index -----

  /** An explicit id that is not empty, else that of the position the change carries. */
  function Target(c: Change): Option<string> {
    if c.positionId.Some? && c.positionId.value != "" then c.positionId
    else if c.position.Some? then Some(Id(c.position.value))
    else None
  }

  function Without(book: seq<Position>, id: string): seq<Position> {
    if book == [] then []
    else if Id(book[0]) == id then Without(book[1..], id)
    else [book[0]] + Without(book[1..], id)
  }

  function Replaced(book: seq<Position>, id: string, p: Position): (r: seq<Position>)
    ensures |r| == |book|
  {
    seq(|book|, i requires 0 <= i < |book| => if Id(book[i]) == id then p else book[i])
  }

  function Exists(id: string): string {
    "position id already exists: " + id
  }

  function Unknown(id: string): string {
    "unknown position: " + id
  }

  function Step(book: seq<Position>, c: Change): Result<seq<Position>, string> {
    match c.operation
    case Add =>
      if c.position.None? then Err("add requires position")
      else if Held(book, Id(c.position.value)) then Err(Exists(Id(c.position.value)))
      else Ok(book + [c.position.value])
    case Remove =>
      if Target(c) == None || Target(c) == Some("") then Err("remove requires position_id")
      else if !Held(book, Target(c).value) then Err(Unknown(Target(c).value))
      else Ok(Without(book, Target(c).value))
    case Modify =>
      if c.position.None? then Err("modify requires position")
      else if !Held(book, Target(c).value) then Err(Unknown(Target(c).value))
      else if Id(c.position.value) != Target(c).value && Held(book, Id(c.position.value)) then Err(Exists(Id(c.position.value)))
      else Ok(Replaced(book, Target(c).value, c.position.value))
  }

  /** The changes in turn, to the first failure. */
  function Edit(book: seq<Position>, changes: seq<Change>): Result<seq<Position>, string> {
    if changes == [] then Ok(book)
    else
      var before :- Edit(book, changes[..|changes| - 1]);
      Step(before, changes[|changes| - 1])
  }

  lemma EditStep(book: seq<Position>, changes: seq<Change>, k: nat)
    requires k < |changes| && Edit(book, changes[..k]).Ok?
    ensures Edit(book, changes[..k + 1]) == Step(Edit(book, changes[..k]).value, changes[k])
  {
    assert changes[..k + 1][..k] == changes[..k];
  }

  lemma {:induction false} EditFails(book: seq<Position>, changes: seq<Change>, k: nat)
    requires k <= |changes| && Edit(book, changes[..k]).Err?
    ensures Edit(book, changes) == Edit(book, changes[..k])
    decreases |changes|
  {
    if k < |changes| {
      var rest := changes[..|changes| - 1];
      assert rest[..k] == changes[..k];
      EditFails(book, rest, k);
    } else {
      assert changes[..k] == changes;
    }
  }

  // ----- unique ids -----

  lemma {:induction false} WithoutAt(book: seq<Position>, i: nat)
    requires UniqueIds(book) && i < |book|
    ensures Without(book, Id(book[i])) == book[..i] + book[i + 1..]
  {
    if i == 0 {
      WithoutNone(book[1..], Id(book[0]));
    } else {
      WithoutAt(book[1..], i - 1);
      assert book[1..][i - 1] == book[i];
      assert book[..i] + book[i + 1..] == [book[0]] + (book[1..][..i - 1] + book[1..][i..]);
    }
  }

  lemma {:induction false} WithoutNone(book: seq<Position>, id: string)
    requires forall i :: 0 <= i < |book| ==> Id(book[i]) != id
    ensures Without(book, id) == book
  {
    if book != [] {
      WithoutNone(book[1..], id);
    }
  }

  lemma ReplacedAt(book: seq<Position>, i: nat, p: Position)
    requires UniqueIds(book) && i < |book|
    ensures Replaced(book, Id(book[i]), p) == book[i := p]
  {
  }

  /** The position a change names: by an id that is not empty, else by the position it carries. */
  predicate Names(c: Change, id: string) {
    if c.positionId.Some? && c.positionId.value != "" then c.positionId.value == id
    else c.position.Some? && c.position.value.header.id == id
  }

  /** Where a change lands: an addition at the end, a removal or a modification at the one position it names, all others keeping their order. */
  lemma StepLands(book: seq<Position>, c: Change) returns (i: nat)
    requires UniqueIds(book) && Step(book, c).Ok?
    ensures c.operation == Add ==> c.position.Some? && Step(book, c).value == book + [c.position.value]
    ensures c.operation == Remove ==> i < |book| && Names(c, Id(book[i])) && Step(book, c).value == book[..i] + book[i + 1..]
    ensures c.operation == Modify ==> c.position.Some? && i < |book| && Names(c, Id(book[i])) && Step(book, c).value == book[i := c.position.value]
  {
    i := 0;
    if c.operation != Add {
      i :| 0 <= i < |book| && Id(book[i]) == Target(c).value;
      WithoutAt(book, i);
      if c.position.Some? {
        ReplacedAt(book, i, c.position.value);
      }
    }
  }

  /** Every change that goes through leaves the ids unique. */
  lemma StepKeepsUnique(book: seq<Position>, c: Change)
    requires UniqueIds(book) && Step(book, c).Ok?
    ensures UniqueIds(Step(book, c).value)
  {
    if c.operation == Remove {
      var i :| 0 <= i < |book| && Id(book[i]) == Target(c).value;
      WithoutAt(book, i);
      DroppedUnique(book, i);
    } else if c.operation == Modify {
      var i :| 0 <= i < |book| && Id(book[i]) == Target(c).value;
      ReplacedAt(book, i, c.position.value);
      RenamedUnique(book, i, c.position.value);
    } else {
      AppendedUnique(book, c.position.value);
    }
  }

  lemma AppendedUnique(book: seq<Position>, p: Position)
    requires UniqueIds(book) && !Held(book, Id(p))
    ensures UniqueIds(book + [p])
  {
  }

  lemma DroppedUnique(book: seq<Position>, i: nat)
    requires UniqueIds(book) && i < |book|
    ensures UniqueIds(book[..i] + book[i + 1..])
  {
    var after := book[..i] + book[i + 1..];
    forall j, k | 0 <= j < k < |after|
      ensures Id(after[j]) != Id(after[k])
    {
      assert after[j] == book[if j < i then j else j + 1];
      assert after[k] == book[if k < i then k else k + 1];
    }
  }

  lemma RenamedUnique(book: seq<Position>, i: nat, p: Position)
    requires UniqueIds(book) && i < |book| && (Id(p) == Id(book[i]) || !Held(book, Id(p)))
    ensures UniqueIds(book[i := p])
  {
  }

  /** What a change does to the ids: one more, one less, or one renamed. */
  lemma StepChangesIds(book: seq<Position>, c: Change, id: string)
    requires UniqueIds(book) && Step(book, c).Ok?
    ensures Held(Step(book, c).value, id) <==>
      (match c.operation
       case Add => Held(book, id) || id == Id(c.position.value)
       case Remove => Held(book, id) && id != Target(c).value
       case Modify => (Held(book, id) && id != Target(c).value) || id == Id(c.position.value))
  {
    var after := Step(book, c).value;
    if c.operation == Add {
      if Held(book, id) {
        var k :| 0 <= k < |book| && Id(book[k]) == id;
        assert Id(after[k]) == id;
      }
      assert after[|book|] == c.position.value;
    } else {
      var i :| 0 <= i < |book| && Id(book[i]) == Target(c).value;
      if c.operation == Remove {
        WithoutAt(book, i);
        DroppedIds(book, i, id);
      } else {
        ReplacedAt(book, i, c.position.value);
        RenamedIds(book, i, c.position.value, id);
      }
    }
  }

  lemma DroppedIds(book: seq<Position>, i: nat, id: string)
    requires UniqueIds(book) && i < |book|
    ensures Held(book[..i] + book[i + 1..], id) <==> Held(book, id) && id != Id(book[i])
  {
    var after := book[..i] + book[i + 1..];
    if Held(book, id) && id != Id(book[i]) {
      var k :| 0 <= k < |book| && Id(book[k]) == id;
      assert Id(after[if k < i then k else k - 1]) == id;
    }
  }

  lemma RenamedIds(book: seq<Position>, i: nat, p: Position, id: string)
    requires UniqueIds(book) && i < |book|
    ensures Held(book[i := p], id) <==> (Held(book, id) && id != Id(book[i])) || id == Id(p)
  {
    var after := book[i := p];
    assert after[i] == p;
    if Held(book, id) && id != Id(book[i]) {
      var k :| 0 <= k < |book| && Id(book[k]) == id;
      assert Id(after[k]) == id;
    }
  }

  lemma {:induction false} EditKeepsUnique(book: seq<Position>, changes: seq<Change>)
    requires UniqueIds(book) && Edit(book, changes).Ok?
    ensures UniqueIds(Edit(book, changes).value)
    decreases |changes|
  {
    if changes != [] {
      var rest := changes[..|changes| - 1];
      EditKeepsUnique(book, rest);
      StepKeepsUnique(Edit(book, rest).value, changes[|changes| - 1]);
    }
  }

  // ----- undoing -----

  /** Removing what was added gives the book back. */
  lemma AddThenRemove(book: seq<Position>, p: Position)
    requires UniqueIds(book) && Step(book, Change(Add, None, Some(p))).Ok? && Id(p) != ""
    ensures Edit(book, [Change(Add, None, Some(p)), Change(Remove, Some(Id(p)), None)]) == Ok(book)
  {
    var add, remove := Change(Add, None, Some(p)), Change(Remove, Some(Id(p)), None);
    var grown := book + [p];
    StepKeepsUnique(book, add);
    assert grown[|book|] == p;
    WithoutAt(grown, |book|);
    assert grown[..|book|] + grown[|book| + 1..] == book;
    TwoEdits(book, add, remove);
  }

  lemma TwoEdits(book: seq<Position>, c: Change, d: Change)
    requires Step(book, c).Ok?
    ensures Edit(book, [c, d]) == Step(Step(book, c).value, d)
  {
    assert [c][..0] == [] && [c][0] == c;
    assert Edit(book, [c]) == Step(book, c);
    assert [c, d][..1] == [c];
  }

  /** Modifying, with or without a new id, is undone by modifying back. */
  lemma ModifyBack(book: seq<Position>, i: nat, p: Position)
    requires UniqueIds(book) && i < |book| && Id(book[i]) != "" && Id(p) != ""
    requires Step(book, Change(Modify, Some(Id(book[i])), Some(p))).Ok?
    ensures Edit(book, [Change(Modify, Some(Id(book[i])), Some(p)), Change(Modify, Some(Id(p)), Some(book[i]))]) == Ok(book)
  {
    var there, back := Change(Modify, Some(Id(book[i])), Some(p)), Change(Modify, Some(Id(p)), Some(book[i]));
    ReplacedAt(book, i, p);
    StepKeepsUnique(book, there);
    var renamed := book[i := p];
    assert renamed[i] == p && Step(book, there) == Ok(renamed);
    ReplacedAt(renamed, i, book[i]);
    assert renamed[i := book[i]] == book;
    RenamedIds(book, i, p, Id(book[i]));
    TwoEdits(book, there, back);
  }

  // ----- size -----

  predicate Grows(c: Change) {
    c.operation == Add && c.position.Some?
  }

  /** How many changes add a position. */
  function Additions(changes: seq<Change>): nat {
    if changes == [] then 0
    else Additions(changes[..|changes| - 1]) + if Grows(changes[|changes| - 1]) then 1 else 0
  }

  lemma StepSize(book: seq<Position>, c: Change)
    requires UniqueIds(book) && Step(book, c).Ok?
    ensures |Step(book, c).value| ==
      match c.operation case Add => |book| + 1 case Remove => |book| - 1 case Modify => |book|
    ensures |Step(book, c).value| <= |book| + if Grows(c) then 1 else 0
  {
    if c.operation == Remove {
      var i :| 0 <= i < |book| && Id(book[i]) == Target(c).value;
      WithoutAt(book, i);
    }
  }

  lemma {:induction false} AdditionsGrow(changes: seq<Change>, k: nat)
    requires k <= |changes|
    ensures Additions(changes[..k]) <= Additions(changes)
    decreases |changes|
  {
    if k < |changes| {
      var rest := changes[..|changes| - 1];
      assert rest[..k] == changes[..k];
      AdditionsGrow(rest, k);
    } else {
      assert changes[..k] == changes;
    }
  }

  lemma {:induction false} EditSize(book: seq<Position>, changes: seq<Change>)
    requires UniqueIds(book) && Edit(book, changes).Ok?
    ensures |Edit(book, changes).value| <= |book| + Additions(changes)
    decreases |changes|
  {
    if changes != [] {
      var rest := changes[..|changes| - 1];
      EditSize(book, rest);
      EditKeepsUnique(book, rest);
      StepSize(Edit(book, rest).value, changes[|changes| - 1]);
    }
  }

  // ----- the edits with an index -----

  /** byId is the inverse of the list. */
  ghost predicate Indexes(byId: map<string, nat>, book: seq<Position>) {
    && (forall i :: 0 <= i < |book| ==> Id(book[i]) in byId && byId[Id(book[i])] == i)
    && (forall id :: id in byId ==> byId[id] < |book| && Id(book[byId[id]]) == id)
  }

  lemma IndexedUnique(byId: map<string, nat>, book: seq<Position>)
    requires Indexes(byId, book)
    ensures UniqueIds(book)
    ensures forall id :: Held(book, id) <==> id in byId
  {
    forall i, j | 0 <= i < j < |book|
      ensures Id(book[i]) != Id(book[j])
    {
      assert byId[Id(book[i])] == i && byId[Id(book[j])] == j;
    }
  }

  /** {p.id: i for i, p in enumerate(positions)}. */
  method BuildIndex(book: seq<Position>) returns (byId: map<string, nat>)
    requires UniqueIds(book)
    ensures Indexes(byId, book)
  {
    byId := map[];
    for i := 0 to |book|
      invariant forall k :: 0 <= k < i ==> Id(book[k]) in byId && byId[Id(book[k])] == k
      invariant forall id :: id in byId ==> byId[id] < i && Id(book[byId[id]]) == id
    {
      byId := byId[Id(book[i]) := i];
    }
  }

  /** One change, made on the list and the index together. */
  method ApplyChange(book: seq<Position>, byId: map<string, nat>, c: Change) returns (r: Result<seq<Position>, string>, index: map<string, nat>)
    requires Indexes(byId, book)
    ensures r == Step(book, c)
    ensures r.Ok? ==> Indexes(index, r.value)
  {
    IndexedUnique(byId, book);
    index := byId;
    match c.operation {
      case Add =>
        if c.position.None? {
          return Err("add requires position"), index;
        }
        var p := c.position.value;
        if Id(p) in byId {
          return Err(Exists(Id(p))), index;
        }
        r := Ok(book + [p]);
        index := byId[Id(p) := |book|];
      case Remove =>
        var target := Target(c);
        if target == None || target == Some("") {
          return Err("remove requires position_id"), index;
        }
        if target.value !in byId {
          return Err(Unknown(target.value)), index;
        }
        var at := byId[target.value];
        WithoutAt(book, at);
        var rest := book[..at] + book[at + 1..];
        StepKeepsUnique(book, c);
        index := BuildIndex(rest);
        r := Ok(rest);
      case Modify =>
        if c.position.None? {
          return Err("modify requires position"), index;
        }
        var p, target := c.position.value, Target(c).value;
        if target !in byId {
          return Err(Unknown(target)), index;
        }
        if Id(p) != target && Id(p) in byId {
          return Err(Exists(Id(p))), index;
        }
        var at := byId[target];
        ReplacedAt(book, at, p);
        r := Ok(book[at := p]);
        if Id(p) != target {
          index := (byId - {target})[Id(p) := at];
        }
    }
  }

  /** apply_what_if_changes. */
  method ApplyWhatIfChanges(book: seq<Position>, changes: seq<Change>) returns (r: Result<seq<Position>, string>)
    requires UniqueIds(book)
    ensures r == Edit(book, changes)
    ensures r.Ok? ==> UniqueIds(r.value)
  {
    var positions := book;
    var byId := BuildIndex(book);
    for k := 0 to |changes|
      invariant Edit(book, changes[..k]) == Ok(positions)
      invariant Indexes(byId, positions)
    {
      var edited, index := ApplyChange(positions, byId, changes[k]);
      EditStep(book, changes, k);
      if edited.Err? {
        EditFails(book, changes, k + 1);
        return Err(edited.error);
      }
      positions, byId := edited.value, index;
    }
    assert changes[..|changes|] == changes;
    IndexedUnique(byId, positions);
    r := Ok(positions);
  }
}
