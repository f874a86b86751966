/** Renaming one field of every object that a path reaches inside a JSON value. */
module Mappings {
  import opened Json

  type FieldPath = seq<string>

  /** Source and target paths of a rename, which differ in their last part only. */
  datatype FieldMapping = FieldMapping(from: FieldPath, to: FieldPath)

  function Init(path: FieldPath): FieldPath
    requires path != []
  {
    path[..|path| - 1]
  }

  function Last(path: FieldPath): string
    requires path != []
  {
    path[|path| - 1]
  }

  predicate Proper(m: FieldMapping) {
    m.from != [] && m.to != [] && Init(m.from) == Init(m.to) && Last(m.from) != Last(m.to)
  }

  function Swapped(m: FieldMapping): FieldMapping {
    FieldMapping(m.to, m.from)
  }

  // -------------------------------------------------------------- renaming

  /** The object with one field moved to another name; none if that name is taken. */
  function RenameField(fields: map<string, Json>, from: string, to: string): Option<map<string, Json>> {
    if from !in fields then Some(fields)
    else if to in fields then None
    else Some((fields - {from})[to := fields[from]])
  }

  function Rename(value: Json, from: FieldPath, to: FieldPath): Option<Json>
    requires from != [] && to != [] && |from| == |to|
    decreases |from|, 0
  {
    if |from| == 1 then
      if !value.Obj? then Some(value)
      else
        match RenameField(value.fields, from[0], to[0])
        case None => None
        case Some(fields) => Some(Obj(fields))
    else if from[0] == "*" then
      if !value.Arr? then Some(value)
      else
        match RenameItems(value.items, from[1..], to[1..])
        case None => None
        case Some(items) => Some(Arr(items))
    else if !value.Obj? || from[0] !in value.fields then Some(value)
    else
      match Rename(value.fields[from[0]], from[1..], to[1..])
      case None => None
      case Some(child) => Some(Obj(value.fields[from[0] := child]))
  }

  function RenameItems(items: seq<Json>, from: FieldPath, to: FieldPath): Option<seq<Json>>
    requires from != [] && to != [] && |from| == |to|
    decreases |from|, |items| + 1
  {
    if items == [] then Some([])
    else
      match (Rename(items[0], from, to), RenameItems(items[1..], from, to))
      case (Some(first), Some(rest)) => Some([first] + rest)
      case _ => None
  }

  /** What the walk leaves of a value. It stops at the first error, so that a failed rename
      has renamed what comes before the conflict and nothing after it. */
  function Left(value: Json, from: FieldPath, to: FieldPath): Json
    requires from != [] && to != [] && |from| == |to|
    decreases |from|, 0
  {
    if |from| == 1 then
      if !value.Obj? then value
      else
        match RenameField(value.fields, from[0], to[0])
        case None => value
        case Some(fields) => Obj(fields)
    else if from[0] == "*" then
      if !value.Arr? then value else Arr(LeftItems(value.items, from[1..], to[1..]))
    else if !value.Obj? || from[0] !in value.fields then value
    else Obj(value.fields[from[0] := Left(value.fields[from[0]], from[1..], to[1..])])
  }

  function LeftItems(items: seq<Json>, from: FieldPath, to: FieldPath): seq<Json>
    requires from != [] && to != [] && |from| == |to|
    decreases |from|, |items| + 1
  {
    if items == [] then []
    else if Rename(items[0], from, to).None? then [Left(items[0], from, to)] + items[1..]
    else [Left(items[0], from, to)] + LeftItems(items[1..], from, to)
  }

  /** A rename that succeeds leaves the renamed value. */
  lemma {:induction false} LeftIsRenamed(value: Json, from: FieldPath, to: FieldPath)
    requires from != [] && to != [] && |from| == |to| && Rename(value, from, to).Some?
    ensures Left(value, from, to) == Rename(value, from, to).value
    decreases |from|, 0
  {
    if |from| > 1 && from[0] == "*" && value.Arr? {
      LeftItemsAreRenamed(value.items, from[1..], to[1..]);
    } else if |from| > 1 && from[0] != "*" && value.Obj? && from[0] in value.fields {
      LeftIsRenamed(value.fields[from[0]], from[1..], to[1..]);
    }
  }

  lemma {:induction false} LeftItemsAreRenamed(items: seq<Json>, from: FieldPath, to: FieldPath)
    requires from != [] && to != [] && |from| == |to| && RenameItems(items, from, to).Some?
    ensures LeftItems(items, from, to) == RenameItems(items, from, to).value
    decreases |from|, |items| + 1
  {
    if items != [] {
      LeftIsRenamed(items[0], from, to);
      LeftItemsAreRenamed(items[1..], from, to);
    }
  }

  /** Item i is the first to fail. */
  predicate FailsAt(items: seq<Json>, from: FieldPath, to: FieldPath, i: nat)
    requires from != [] && to != [] && |from| == |to|
  {
    i < |items| && Rename(items[i], from, to).None? && forall k | 0 <= k < i :: Rename(items[k], from, to).Some?
  }

  /** In a list, the items before the first that fails are renamed, and those after it are as
      they were. */
  lemma {:induction false} LeftByFailure(items: seq<Json>, from: FieldPath, to: FieldPath, i: nat)
    requires from != [] && to != [] && |from| == |to| && FailsAt(items, from, to, i)
    ensures var left := LeftItems(items, from, to);
            && |left| == |items| && left[i] == Left(items[i], from, to) && left[i + 1..] == items[i + 1..]
            && forall k | 0 <= k < i :: Rename(items[k], from, to) == Some(left[k])
    decreases i
  {
    hide Rename, Left;
    if i > 0 {
      var rest := items[1..];
      assert forall k | 0 <= k < i - 1 :: rest[k] == items[k + 1];
      LeftByFailure(rest, from, to, i - 1);
      LeftIsRenamed(items[0], from, to);
    }
  }

  /** After i items, none of which failed: what the walk of the whole list leaves. */
  predicate WalkedTo(items: seq<Json>, now: seq<Json>, from: FieldPath, to: FieldPath, i: nat)
    requires from != [] && to != [] && |from| == |to|
  {
    && i <= |items| == |now|
    && LeftItems(items, from, to) == now[..i] + LeftItems(items[i..], from, to)
    && (RenameItems(items, from, to).None? <==> RenameItems(items[i..], from, to).None?)
    && now[i..] == items[i..]
  }

  lemma SetAt(now: seq<Json>, i: nat, x: Json, tail: seq<Json>)
    requires i < |now|
    ensures now[..i] + ([x] + tail) == now[i := x][..i + 1] + tail
    ensures now[i := x][i + 1..] == now[i + 1..]
    ensures now[i := x][..i + 1] + now[i + 1..] == now[i := x]
  {
  }

  lemma Tails(items: seq<Json>, i: nat)
    requires i < |items|
    ensures items[i..] != [] && items[i..][0] == items[i] && items[i..][1..] == items[i + 1..]
  {
  }

  lemma WalkStep(items: seq<Json>, now: seq<Json>, from: FieldPath, to: FieldPath, i: nat)
    requires from != [] && to != [] && |from| == |to| && i < |items| && WalkedTo(items, now, from, to, i)
    ensures now[i] == items[i]
    ensures var next := now[i := Left(items[i], from, to)];
            if Rename(items[i], from, to).None?
            then LeftItems(items, from, to) == next && RenameItems(items, from, to).None?
            else WalkedTo(items, next, from, to, i + 1)
  {
    hide Rename, Left;
    Tails(items, i);
    Tails(now, i);
    if Rename(items[i], from, to).None? {
      SetAt(now, i, Left(items[i], from, to), items[i + 1..]);
    } else {
      SetAt(now, i, Left(items[i], from, to), LeftItems(items[i + 1..], from, to));
    }
  }

  /** Renames as the engine does, item by item and stopping at the first error; also gives
      back what the value is then. */
  method RenameFieldAtPath(value: Json, from: FieldPath, to: FieldPath) returns (left: Json, failed: bool)
    requires from != [] && to != [] && |from| == |to|
    ensures failed <==> Rename(value, from, to).None?
    ensures left == Left(value, from, to)
    decreases |from|
  {
    if |from| == 1 {
      if !value.Obj? || from[0] !in value.fields {
        return value, false;
      }
      if to[0] in value.fields {
        return value, true;
      }
      var current := value.fields[from[0]];
      var fields := value.fields - {from[0]};
      fields := fields[to[0] := current];
      return Obj(fields), false;
    }
    if from[0] == "*" {
      if !value.Arr? {
        return value, false;
      }
      var items := value.items;
      for i := 0 to |items|
        invariant |items| == |value.items| && WalkedTo(value.items, items, from[1..], to[1..], i)
      {
        WalkStep(value.items, items, from[1..], to[1..], i);
        var item;
        item, failed := RenameFieldAtPath(items[i], from[1..], to[1..]);
        items := items[i := item];
        if failed {
          return Arr(items), true;
        }
      }
      return Arr(items), false;
    }
    if !value.Obj? || from[0] !in value.fields {
      return value, false;
    }
    left, failed := RenameFieldAtPath(value.fields[from[0]], from[1..], to[1..]);
    left := Obj(value.fields[from[0] := left]);
  }

  predicate RenamedPrefix(items: seq<Json>, renamed: seq<Json>, from: FieldPath, to: FieldPath)
    requires from != [] && to != [] && |from| == |to|
  {
    |renamed| <= |items| && forall k | 0 <= k < |renamed| :: Rename(items[k], from, to) == Some(renamed[k])
  }

  lemma {:induction false} ItemsRenamed(items: seq<Json>, renamed: seq<Json>, from: FieldPath, to: FieldPath)
    requires from != [] && to != [] && |from| == |to| && |items| == |renamed|
    ensures RenamedPrefix(items, renamed, from, to) <==> RenameItems(items, from, to) == Some(renamed)
    decreases |items|
  {
    hide Rename;
    if items != [] {
      ItemsRenamed(items[1..], renamed[1..], from, to);
      assert renamed == [renamed[0]] + renamed[1..];
      assert RenamedPrefix(items, renamed, from, to) <==>
             Rename(items[0], from, to) == Some(renamed[0]) && RenamedPrefix(items[1..], renamed[1..], from, to) by {
        if Rename(items[0], from, to) == Some(renamed[0]) && RenamedPrefix(items[1..], renamed[1..], from, to) {
          forall k | 0 <= k < |renamed|
            ensures Rename(items[k], from, to) == Some(renamed[k])
          {
            assert k > 0 ==> items[k] == items[1..][k - 1] && renamed[k] == renamed[1..][k - 1];
          }
        }
        if RenamedPrefix(items, renamed, from, to) {
          forall k | 0 <= k < |renamed| - 1
            ensures Rename(items[1..][k], from, to) == Some(renamed[1..][k])
          {
            assert Rename(items[k + 1], from, to) == Some(renamed[k + 1]);
          }
        }
      }
    }
  }

  lemma {:induction false} ItemsKeepCount(items: seq<Json>, from: FieldPath, to: FieldPath)
    requires from != [] && to != [] && |from| == |to| && RenameItems(items, from, to).Some?
    ensures |RenameItems(items, from, to).value| == |items|
    decreases |items|
  {
    if items != [] {
      ItemsKeepCount(items[1..], from, to);
    }
  }

  // -------------------------------------------------------------- what a path reaches

  /** The path leads from a value to one inside it; a star goes to every item of a list. */
  predicate Reaches(value: Json, path: FieldPath, at: Json)
    decreases |path|
  {
    if path == [] then at == value
    else if path[0] == "*" then value.Arr? && exists i | 0 <= i < |value.items| :: Reaches(value.items[i], path[1..], at)
    else value.Obj? && path[0] in value.fields && Reaches(value.fields[path[0]], path[1..], at)
  }

  predicate HasField(value: Json, name: string) {
    value.Obj? && name in value.fields
  }

  /** Some object the path reaches has both names. */
  ghost predicate Conflict(value: Json, m: FieldMapping)
    requires Proper(m)
  {
    exists at :: Reaches(value, Init(m.from), at) && HasField(at, Last(m.from)) && HasField(at, Last(m.to))
  }

  /** Some object the path reaches already has the target name. */
  ghost predicate TargetTaken(value: Json, m: FieldMapping)
    requires Proper(m)
  {
    exists at :: Reaches(value, Init(m.from), at) && HasField(at, Last(m.to))
  }

  /** The mapping one level down. */
  function Deeper(m: FieldMapping): FieldMapping
    requires |m.from| > 1 && |m.to| > 1
  {
    FieldMapping(m.from[1..], m.to[1..])
  }

  lemma DeeperIsProper(m: FieldMapping)
    requires Proper(m) && |m.from| > 1
    ensures |m.to| == |m.from| && Proper(Deeper(m)) && Last(Deeper(m).from) == Last(m.from) && Last(Deeper(m).to) == Last(m.to)
    ensures Init(m.from)[0] == m.from[0] == m.to[0] && Init(m.from)[1..] == Init(Deeper(m).from)
  {
    assert |Init(m.from)| == |Init(m.to)|;
    assert Init(m.from)[1..] == Init(m.from[1..]) && Init(m.to)[1..] == Init(m.to[1..]);
    assert Init(m.from)[0] == m.from[0] && Init(m.to)[0] == m.to[0];
  }

  lemma SameLength(m: FieldMapping)
    requires Proper(m)
    ensures |m.from| == |m.to|
  {
    assert |Init(m.from)| == |Init(m.to)|;
  }

  /** What a rename does to a value, as a whole: whether it fails, and whether the target
      name is already taken, both by what the path reaches. */
  lemma {:induction false} ConflictDeeper(value: Json, m: FieldMapping)
    requires Proper(m) && |m.from| > 1
    ensures |m.to| > 1 && Proper(Deeper(m))
    ensures m.from[0] != "*" ==>
              && (Conflict(value, m) <==> HasField(value, m.from[0]) && Conflict(value.fields[m.from[0]], Deeper(m)))
              && (TargetTaken(value, m) <==> HasField(value, m.from[0]) && TargetTaken(value.fields[m.from[0]], Deeper(m)))
    ensures m.from[0] == "*" ==>
              && (Conflict(value, m) <==> value.Arr? && exists i | 0 <= i < |value.items| :: Conflict(value.items[i], Deeper(m)))
              && (TargetTaken(value, m) <==> value.Arr? && exists i | 0 <= i < |value.items| :: TargetTaken(value.items[i], Deeper(m)))
  {
    DeeperIsProper(m);
    var path, deeper := Init(m.from), Init(Deeper(m).from);
    if m.from[0] == "*" {
      if value.Arr? {
        forall i, at | 0 <= i < |value.items| && Reaches(value.items[i], deeper, at)
          ensures Reaches(value, path, at)
        {
        }
      }
    }
  }

  lemma ShallowConflict(value: Json, m: FieldMapping)
    requires Proper(m) && |m.from| == 1
    ensures |m.to| == 1
    ensures Conflict(value, m) <==> HasField(value, m.from[0]) && HasField(value, m.to[0])
    ensures TargetTaken(value, m) <==> HasField(value, m.to[0])
  {
    SameLength(m);
    assert Init(m.from) == [];
    assert Reaches(value, [], value);
  }

  /** A rename fails exactly when some object its path reaches has both names. */
  lemma {:induction false} RenameFailsOnConflict(value: Json, m: FieldMapping)
    requires Proper(m)
    ensures |m.to| == |m.from| && (Rename(value, m.from, m.to).None? <==> Conflict(value, m))
    decreases |m.from|
  {
    hide Conflict;
    SameLength(m);
    if |m.from| == 1 {
      ShallowConflict(value, m);
    } else {
      ConflictDeeper(value, m);
      if m.from[0] == "*" {
        if value.Arr? {
          forall i | 0 <= i < |value.items|
            ensures Rename(value.items[i], m.from[1..], m.to[1..]).None? <==> Conflict(value.items[i], Deeper(m))
          {
            RenameFailsOnConflict(value.items[i], Deeper(m));
          }
          ItemsFailTogether(value.items, m.from[1..], m.to[1..]);
        }
      } else if HasField(value, m.from[0]) {
        RenameFailsOnConflict(value.fields[m.from[0]], Deeper(m));
      }
    }
  }

  lemma {:induction false} ItemsFailTogether(items: seq<Json>, from: FieldPath, to: FieldPath)
    requires from != [] && to != [] && |from| == |to|
    ensures RenameItems(items, from, to).None? <==> exists i | 0 <= i < |items| :: Rename(items[i], from, to).None?
    decreases |items|
  {
    hide Rename;
    if items != [] {
      ItemsFailTogether(items[1..], from, to);
      if RenameItems(items[1..], from, to).None? {
        var i :| 0 <= i < |items[1..]| && Rename(items[1..][i], from, to).None?;
        assert Rename(items[i + 1], from, to).None?;
      }
      if i :| 0 <= i < |items| && Rename(items[i], from, to).None? {
        assert i > 0 ==> items[i] == items[1..][i - 1];
      }
    }
  }

  // -------------------------------------------------------------- undoing

  /** The renamed value, taken back through the swapped mapping. */
  function RenamedBack(value: Json, m: FieldMapping): Option<Json>
    requires Proper(m) && |m.from| == |m.to|
  {
    match Rename(value, m.from, m.to)
    case None => None
    case Some(renamed) => Rename(renamed, m.to, m.from)
  }

  /** Renaming can be undone exactly when no object the path reaches has the target name. */
  lemma {:induction false} RenameUndone(value: Json, m: FieldMapping)
    requires Proper(m)
    ensures |m.to| == |m.from| && (RenamedBack(value, m) == Some(value) <==> !TargetTaken(value, m))
    decreases |m.from|
  {
    hide TargetTaken;
    SameLength(m);
    if |m.from| == 1 {
      ShallowConflict(value, m);
      if value.Obj? {
        FieldUndone(value.fields, m.from[0], m.to[0]);
      }
    } else {
      ConflictDeeper(value, m);
      DeeperIsProper(m);
      if m.from[0] == "*" {
        if value.Arr? {
          forall i | 0 <= i < |value.items|
            ensures RenamedBack(value.items[i], Deeper(m)) == Some(value.items[i]) <==> !TargetTaken(value.items[i], Deeper(m))
          {
            RenameUndone(value.items[i], Deeper(m));
          }
          ItemsUndone(value.items, Deeper(m));
        }
      } else if HasField(value, m.from[0]) {
        RenameUndone(value.fields[m.from[0]], Deeper(m));
        ChildUndone(value, m);
      }
    }
  }

  lemma FieldUndone(fields: map<string, Json>, from: string, to: string)
    requires from != to
    ensures var renamed := RenameField(fields, from, to);
            (renamed.Some? && RenameField(renamed.value, to, from) == Some(fields)) <==> to !in fields
  {
    var renamed := RenameField(fields, from, to);
    if renamed.Some? && from in fields {
      assert (renamed.value - {to})[from := renamed.value[to]] == fields;
    }
    if renamed.Some? && from !in fields && to in fields {
      assert to !in (fields - {to})[from := fields[to]];
    }
  }

  lemma ChildUndone(value: Json, m: FieldMapping)
    requires Proper(m) && |m.from| == |m.to| > 1 && Proper(Deeper(m)) && m.from[0] == m.to[0] != "*" && HasField(value, m.from[0])
    ensures RenamedBack(value, m) == Some(value) <==>
            RenamedBack(value.fields[m.from[0]], Deeper(m)) == Some(value.fields[m.from[0]])
  {
    var key, child := m.from[0], value.fields[m.from[0]];
    var renamed := Rename(child, m.from[1..], m.to[1..]);
    if renamed.Some? {
      var outer := value.fields[key := renamed.value];
      assert Rename(value, m.from, m.to) == Some(Obj(outer));
      var back := Rename(renamed.value, m.to[1..], m.from[1..]);
      if back.Some? {
        assert Rename(Obj(outer), m.to, m.from) == Some(Obj(outer[key := back.value]));
        if back.value == child {
          assert outer[key := back.value] == value.fields;
        } else {
          assert outer[key := back.value][key] != value.fields[key];
        }
      }
    }
  }

  lemma {:induction false} ItemsUndone(items: seq<Json>, m: FieldMapping)
    requires Proper(m) && |m.from| == |m.to|
    ensures var renamed := RenameItems(items, m.from, m.to);
            (renamed.Some? && RenameItems(renamed.value, m.to, m.from) == Some(items))
            <==> forall i | 0 <= i < |items| :: RenamedBack(items[i], m) == Some(items[i])
    decreases |items|
  {
    hide Rename;
    if items != [] {
      ItemsUndone(items[1..], m);
      assert forall i | 0 <= i < |items[1..]| :: items[1..][i] == items[i + 1];
      var first, rest := Rename(items[0], m.from, m.to), RenameItems(items[1..], m.from, m.to);
      if first.Some? && rest.Some? {
        var renamed := [first.value] + rest.value;
        assert renamed[1..] == rest.value;
        var firstBack, restBack := Rename(first.value, m.to, m.from), RenameItems(rest.value, m.to, m.from);
        if firstBack.Some? && restBack.Some? {
          assert RenameItems(renamed, m.to, m.from) == Some([firstBack.value] + restBack.value);
          assert [firstBack.value] + restBack.value == items <==> firstBack.value == items[0] && restBack.value == items[1..] by {
            if [firstBack.value] + restBack.value == items {
              assert items[1..] == restBack.value;
            }
          }
        }
      }
      if forall i | 0 <= i < |items[1..]| :: RenamedBack(items[1..][i], m) == Some(items[1..][i]) {
        if RenamedBack(items[0], m) == Some(items[0]) {
          forall i | 0 <= i < |items|
            ensures RenamedBack(items[i], m) == Some(items[i])
          {
            assert i > 0 ==> items[i] == items[1..][i - 1];
          }
        }
      } else {
        var i :| 0 <= i < |items[1..]| && RenamedBack(items[1..][i], m) != Some(items[1..][i]);
        assert RenamedBack(items[i + 1], m) != Some(items[i + 1]);
      }
    }
  }

  // -------------------------------------------------------------- where the fields go

  /** After a rename no object the path reaches has the source name. */
  lemma {:induction false} SourceIsGone(value: Json, m: FieldMapping, at: Json)
    requires Proper(m) && |m.from| == |m.to| && Rename(value, m.from, m.to).Some?
    requires Reaches(Rename(value, m.from, m.to).value, Init(m.from), at)
    ensures !HasField(at, Last(m.from))
    decreases |m.from|
  {
    if |m.from| > 1 {
      DeeperIsProper(m);
      var renamed := Rename(value, m.from, m.to).value;
      if m.from[0] == "*" {
        var i :| 0 <= i < |renamed.items| && Reaches(renamed.items[i], Init(m.from)[1..], at);
        ItemsKeepCount(value.items, m.from[1..], m.to[1..]);
        ItemsRenamed(value.items, renamed.items, m.from[1..], m.to[1..]);
        SourceIsGone(value.items[i], Deeper(m), at);
      } else {
        SourceIsGone(value.fields[m.from[0]], Deeper(m), at);
      }
    }
  }

  /** An object with the field's value under the target name. */
  predicate Holds(at: Json, name: string, value: Json) {
    HasField(at, name) && at.fields[name] == value
  }

  /** The field of every object the path reached is found under the target name. */
  lemma {:induction false} TargetHoldsTheField(value: Json, m: FieldMapping, at: Json)
    requires Proper(m) && |m.from| == |m.to| && Rename(value, m.from, m.to).Some?
    requires Reaches(value, Init(m.from), at) && HasField(at, Last(m.from))
    ensures exists moved :: Reaches(Rename(value, m.from, m.to).value, Init(m.from), moved)
                            && Holds(moved, Last(m.to), at.fields[Last(m.from)])
    decreases |m.from|
  {
    var renamed := Rename(value, m.from, m.to).value;
    if |m.from| == 1 {
      assert Reaches(renamed, Init(m.from), renamed) && Holds(renamed, Last(m.to), at.fields[Last(m.from)]);
    } else {
      DeeperIsProper(m);
      if m.from[0] == "*" {
        var i :| 0 <= i < |value.items| && Reaches(value.items[i], Init(m.from)[1..], at);
        ItemsKeepCount(value.items, m.from[1..], m.to[1..]);
        ItemsRenamed(value.items, renamed.items, m.from[1..], m.to[1..]);
        TargetHoldsTheField(value.items[i], Deeper(m), at);
        var moved :| Reaches(renamed.items[i], Init(Deeper(m).from), moved) && Holds(moved, Last(m.to), at.fields[Last(m.from)]);
        assert Reaches(renamed, Init(m.from), moved);
      } else {
        TargetHoldsTheField(value.fields[m.from[0]], Deeper(m), at);
        var moved :| Reaches(renamed.fields[m.from[0]], Init(Deeper(m).from), moved) && Holds(moved, Last(m.to), at.fields[Last(m.from)]);
        assert Reaches(renamed, Init(m.from), moved);
      }
    }
  }

  // -------------------------------------------------------------- several mappings

  predicate AllProper(mappings: seq<FieldMapping>) {
    forall i | 0 <= i < |mappings| :: Proper(mappings[i]) && |mappings[i].from| == |mappings[i].to|
  }

  function Apply(value: Json, mappings: seq<FieldMapping>): Option<Json>
    requires AllProper(mappings)
    decreases |mappings|
  {
    if mappings == [] then Some(value)
    else
      match Rename(value, mappings[0].from, mappings[0].to)
      case None => None
      case Some(renamed) => Apply(renamed, mappings[1..])
  }

  lemma {:induction false} ApplyInTwo(value: Json, first: seq<FieldMapping>, second: seq<FieldMapping>)
    requires AllProper(first) && AllProper(second)
    ensures AllProper(first + second)
    ensures Apply(value, first + second) == match Apply(value, first) case None => None case Some(v) => Apply(v, second)
    decreases |first|
  {
    hide Rename;
    if first == [] {
      assert first + second == second;
    } else {
      assert (first + second)[1..] == first[1..] + second;
      var renamed := Rename(value, first[0].from, first[0].to);
      if renamed.Some? {
        ApplyInTwo(renamed.value, first[1..], second);
      }
    }
  }

  method ApplyFieldMappings(value: Json, mappings: seq<FieldMapping>) returns (result: Option<Json>)
    requires AllProper(mappings)
    ensures result == Apply(value, mappings)
  {
    hide Rename;
    var current := value;
    for i := 0 to |mappings|
      invariant AllProper(mappings[i..]) && Apply(value, mappings) == Apply(current, mappings[i..])
    {
      assert mappings[i..][0] == mappings[i] && mappings[i..][1..] == mappings[i + 1..];
      var failed;
      ghost var before := current;
      current, failed := RenameFieldAtPath(current, mappings[i].from, mappings[i].to);
      if failed {
        return None;
      }
      LeftIsRenamed(before, mappings[i].from, mappings[i].to);
    }
    return Some(current);
  }

  /** Applying mappings fails exactly when one of them, on what those before it have made,
      reaches an object with both its names. */
  lemma ApplyFailsOnConflict(value: Json, mappings: seq<FieldMapping>)
    requires AllProper(mappings)
    ensures Apply(value, mappings).None? <==> exists k | 0 <= k < |mappings| :: ConflictAt(value, mappings, k)
  {
    hide Rename, Conflict;
    if Apply(value, mappings).None? {
      FirstConflict(value, mappings);
    }
    if k :| 0 <= k < |mappings| && ConflictAt(value, mappings, k) {
      var v := Apply(value, mappings[..k]).value;
      RenameFailsOnConflict(v, mappings[k]);
      assert mappings == mappings[..k] + mappings[k..];
      ApplyInTwo(value, mappings[..k], mappings[k..]);
    }
  }

  ghost predicate ConflictAt(value: Json, mappings: seq<FieldMapping>, k: nat)
    requires AllProper(mappings) && k < |mappings|
  {
    var made := Apply(value, mappings[..k]);
    made.Some? && Conflict(made.value, mappings[k])
  }

  lemma {:induction false} FirstConflict(value: Json, mappings: seq<FieldMapping>)
    requires AllProper(mappings) && Apply(value, mappings).None?
    ensures exists k | 0 <= k < |mappings| :: ConflictAt(value, mappings, k)
    decreases |mappings|
  {
    hide Rename, Conflict;
    RenameFailsOnConflict(value, mappings[0]);
    if Conflict(value, mappings[0]) {
      assert mappings[..0] == [];
      assert ConflictAt(value, mappings, 0);
    } else {
      var renamed := Rename(value, mappings[0].from, mappings[0].to).value;
      FirstConflict(renamed, mappings[1..]);
      var k :| 0 <= k < |mappings[1..]| && ConflictAt(renamed, mappings[1..], k);
      assert mappings[..k + 1] == [mappings[0]] + mappings[1..][..k];
      assert mappings[..k + 1][1..] == mappings[1..][..k];
      assert ConflictAt(value, mappings, k + 1);
    }
  }

  /** At every step no object the path reaches has the target name. */
  ghost predicate CleanRun(value: Json, mappings: seq<FieldMapping>)
    requires AllProper(mappings)
    decreases |mappings|
  {
    mappings == [] ||
    (&& !TargetTaken(value, mappings[0])
     && match Rename(value, mappings[0].from, mappings[0].to)
        case None => false
        case Some(renamed) => CleanRun(renamed, mappings[1..]))
  }

  /** The swapped mappings in reverse order. */
  function Undo(mappings: seq<FieldMapping>): (undone: seq<FieldMapping>)
    requires AllProper(mappings)
    ensures AllProper(undone) && |undone| == |mappings|
  {
    if mappings == [] then [] else Undo(mappings[1..]) + [Swapped(mappings[0])]
  }

  /** After a clean run the swapped mappings, applied in reverse order, restore the value. */
  lemma {:induction false} CleanRunUndone(value: Json, mappings: seq<FieldMapping>)
    requires AllProper(mappings) && CleanRun(value, mappings)
    ensures Apply(value, mappings).Some? && Apply(Apply(value, mappings).value, Undo(mappings)) == Some(value)
    decreases |mappings|
  {
    hide Rename, TargetTaken;
    if mappings != [] {
      var m := mappings[0];
      var renamed := Rename(value, m.from, m.to).value;
      CleanRunUndone(renamed, mappings[1..]);
      RenameUndone(value, m);
      var back := [Swapped(m)];
      assert back[1..] == [];
      ApplyInTwo(Apply(value, mappings).value, Undo(mappings[1..]), back);
    }
  }
}
