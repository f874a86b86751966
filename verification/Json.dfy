/** JSON values, the equality the contract engine uses on them, and the result types
    shared by the other modules. */
module Json {

  datatype Option<+T> = None | Some(value: T)

  datatype Result<+T, +E> = Ok(value: T) | Err(error: E)

  /** Numbers are exact reals and strings are sequences of code points. */
  datatype Json =
    | Null
    | Bool(b: bool)
    | Num(n: real)
    | Str(s: string)
    | Arr(items: seq<Json>)
    | Obj(fields: map<string, Json>)

  predicate IsWhole(n: real) {
    n.Floor as real == n
  }

  /** Structural comparison as the engine performs it: an object matches another of the same
      size that holds an equal value under each of its keys. */
  predicate SchemaEqual(left: Json, right: Json) {
    if left.Num? then
      right.Num? && left.n == right.n
    else if left.Obj? then
      && right.Obj? && |left.fields| == |right.fields|
      && forall k | k in left.fields :: k in right.fields && SchemaEqual(left.fields[k], right.fields[k])
    else if left.Arr? then
      && right.Arr? && |left.items| == |right.items|
      && forall i | 0 <= i < |left.items| :: SchemaEqual(left.items[i], right.items[i])
    else
      left == right
  }

  lemma SubsetSize<T>(a: set<T>, b: set<T>)
    requires a <= b
    ensures |a| <= |b| && (|a| == |b| ==> a == b)
  {
    assert b == a + (b - a);
    assert |b| == |a| + |b - a|;
  }

  /** The asymmetric-looking comparison is equality, so it is symmetric and transitive on
      values nested to any depth. */
  lemma {:induction false} SchemaEqualIsEquality(left: Json, right: Json)
    ensures SchemaEqual(left, right) <==> left == right
    decreases left
  {
    if left.Obj? && right.Obj? {
      forall k | k in left.fields && k in right.fields
        ensures SchemaEqual(left.fields[k], right.fields[k]) <==> left.fields[k] == right.fields[k]
      {
        SchemaEqualIsEquality(left.fields[k], right.fields[k]);
      }
      if SchemaEqual(left, right) {
        assert left.fields.Keys <= right.fields.Keys;
        SubsetSize(left.fields.Keys, right.fields.Keys);
        assert left.fields == right.fields;
      }
    } else if left.Arr? && right.Arr? {
      forall i | 0 <= i < |left.items| && i < |right.items|
        ensures SchemaEqual(left.items[i], right.items[i]) <==> left.items[i] == right.items[i]
      {
        SchemaEqualIsEquality(left.items[i], right.items[i]);
      }
      if SchemaEqual(left, right) {
        assert left.items == right.items;
      }
    }
  }

  predicate ContainsSchemaValue(values: seq<Json>, target: Json) {
    exists i | 0 <= i < |values| :: SchemaEqual(values[i], target)
  }

  lemma ContainsIsMembership(values: seq<Json>, target: Json)
    ensures ContainsSchemaValue(values, target) <==> target in values
  {
    forall i | 0 <= i < |values|
      ensures SchemaEqual(values[i], target) <==> values[i] == target
    {
      SchemaEqualIsEquality(values[i], target);
    }
  }

  // -------------------------------------------------------------- taking names one at a time

  /** All names are either done or pending. */
  predicate Remaining(all: set<string>, done: set<string>, pending: set<string>) {
    pending <= all && done == all - pending
  }

  lemma NoneTaken(all: set<string>)
    ensures Remaining(all, {}, all)
  {
  }

  lemma TakeOne(all: set<string>, done: set<string>, pending: set<string>, name: string)
    requires Remaining(all, done, pending) && name in pending
    ensures name in all && name !in done && Remaining(all, done + {name}, pending - {name}) && done <= all
  {
  }

  lemma NoneLeft(all: set<string>, done: set<string>, pending: set<string>)
    requires Remaining(all, done, pending) && pending == {}
    ensures done == all
  {
  }
}
