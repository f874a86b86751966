/** Projecting a handler's output for its caller: every timestamp in its compact form. */
module Projection {
  import opened Json
  import opened Schemas
  import opened Calendar

  /** The date-time, in UTC, that an RFC 3339 text names, if it is one. */
  type TextParser = string -> Option<DateTime>

  ghost predicate Sane(parse: TextParser) {
    forall text :: parse(text).Some? ==> RealSecond(parse(text).value)
  }

  // -------------------------------------------------------------- timestamps

  /** The compact form of a time; years before zero, which a time zone can produce, show as zero. */
  function Stamp(t: DateTime): (text: string)
    requires RealSecond(t)
    ensures ValidTimestamp(text)
  {
    var shown := if t.year < 0 then t.(year := 0) else t;
    CompactIsAccepted(shown);
    Compact(shown)
  }

  /** The fields of a compact text are those of the moment, the year without its century. */
  predicate Shows(text: string, t: DateTime) {
    CompactShape(text) && Parts(text) == [if t.year < 0 then 0 else t.year % 100, t.month, t.day, t.hour, t.minute, t.second]
  }

  lemma StampShows(t: DateTime)
    requires RealSecond(t)
    ensures Shows(Stamp(t), t)
  {
    hide Parts, CompactShape, Compact, ValidTimestamp;
    var shown := if t.year < 0 then t.(year := 0) else t;
    CompactParts(shown);
    assert shown.year % 100 == if t.year < 0 then 0 else t.year % 100;
  }

  function CompactTimestamp(v: Json, parse: TextParser): Option<Json>
    requires Sane(parse)
  {
    if !v.Str? || ValidTimestamp(v.s) then Some(v)
    else
      match parse(v.s)
      case None => None
      case Some(t) => Some(Str(Stamp(t)))
  }

  // -------------------------------------------------------------- projecting

  function Project(s: Schema, v: Json, parse: TextParser, re: Matcher): Option<Json>
    requires Sane(parse)
    decreases s, 2
  {
    if s.jsonValue then Some(v)
    else if s.refName == "Timestamp" then CompactTimestamp(v, parse)
    else
      match ProjectChildren(s, v, parse, re)
      case None => None
      case Some(inner) =>
        match ProjectEach(s.allOf, inner, parse, re)
        case None => None
        case Some(all) =>
          Some(Choose(s.anyOf, s.oneOf == [], Choose(s.oneOf, s.oneOf == [], all, parse, re), parse, re))
  }

  /** A child without a schema is left alone. */
  function ProjectField(s: Schema, key: string, v: Json, parse: TextParser, re: Matcher): Option<Json>
    requires Sane(parse)
    decreases s, 0
  {
    if key in s.properties then Project(s.properties[key], v, parse, re) else Some(v)
  }

  function ProjectChildren(s: Schema, v: Json, parse: TextParser, re: Matcher): Option<Json>
    requires Sane(parse)
    decreases s, 1
  {
    if v.Obj? then
      if forall k | k in v.fields :: ProjectField(s, k, v.fields[k], parse, re).Some?
      then Some(Obj(map k | k in v.fields :: ProjectField(s, k, v.fields[k], parse, re).value))
      else None
    else if v.Arr? && s.items.Some? then
      if forall i | 0 <= i < |v.items| :: Project(s.items.value, v.items[i], parse, re).Some?
      then Some(Arr(seq(|v.items|, i requires 0 <= i < |v.items| => Project(s.items.value, v.items[i], parse, re).value)))
      else None
    else Some(v)
  }

  /** Each branch in turn projects what the one before it has made. */
  function ProjectEach(branches: seq<Schema>, v: Json, parse: TextParser, re: Matcher): Option<Json>
    requires Sane(parse)
    decreases branches, 0
  {
    if branches == [] then Some(v)
    else
      match Project(branches[0], v, parse, re)
      case None => None
      case Some(projected) => ProjectEach(branches[1..], projected, parse, re)
  }

  /** What the branches that accept their own projection make of a value, in order. */
  function Candidates(branches: seq<Schema>, v: Json, parse: TextParser, re: Matcher): seq<Json>
    requires Sane(parse)
    decreases branches, 0
  {
    if branches == [] then []
    else
      var last := |branches| - 1;
      var candidate := Project(branches[last], v, parse, re);
      Candidates(branches[..last], v, parse, re) +
      (if candidate.Some? && Accepts(branches[last], candidate.value, re) then [candidate.value] else [])
  }

  /** The last candidate counts if it is the only one, or if several will do. */
  function Choose(branches: seq<Schema>, several: bool, v: Json, parse: TextParser, re: Matcher): Json
    requires Sane(parse)
    decreases branches, 1
  {
    var candidates := Candidates(branches, v, parse, re);
    if |candidates| == 1 || (several && candidates != []) then candidates[|candidates| - 1] else v
  }

  // -------------------------------------------------------------- the projector

  method CompactedTimestamp(v: Json, parse: TextParser) returns (r: Option<Json>)
    requires Sane(parse)
    ensures r == CompactTimestamp(v, parse)
  {
    hide ValidTimestamp;
    if !v.Str? {
      return Some(v);
    }
    var valid := CheckTimestamp(v.s);
    if valid {
      return Some(v);
    }
    var parsed := parse(v.s);
    if parsed.None? {
      return None;
    }
    var t := parsed.value;
    var year := if t.year < 0 then 0 else t.year;
    var date := Two(year % 100) + "-" + Two(t.month) + "-" + Two(t.day);
    return Some(Str(date + "T" + Two(t.hour) + ":" + Two(t.minute) + ":" + Two(t.second)));
  }

  method ProjectCompiledOutput(s: Schema, v: Json, parse: TextParser, re: Matcher) returns (r: Option<Json>)
    requires Sane(parse)
    ensures r == Project(s, v, parse, re)
    decreases s, 2
  {
    hide Sane, Accepts, CompactTimestamp, ProjectChildren, ProjectEach, Choose;
    if s.jsonValue {
      return Some(v);
    }
    if s.refName == "Timestamp" {
      r := CompactedTimestamp(v, parse);
      return;
    }
    var value := ProjectChildValues(s, v, parse, re);
    if value.None? {
      return None;
    }
    value := ProjectBranches(s.allOf, value.value, parse, re);
    if value.None? {
      return None;
    }
    var chosen := ChooseBranch(s.oneOf, s.oneOf == [], value.value, parse, re);
    chosen := ChooseBranch(s.anyOf, s.oneOf == [], chosen, parse, re);
    return Some(chosen);
  }

  method ProjectChildValues(s: Schema, v: Json, parse: TextParser, re: Matcher) returns (r: Option<Json>)
    requires Sane(parse)
    ensures r == ProjectChildren(s, v, parse, re)
    decreases s, 1, 1
  {
    if v.Obj? {
      r := ProjectFields(s, v.fields, parse, re);
      return;
    }
    if v.Arr? && s.items.Some? {
      r := ProjectItems(s, v.items, parse, re);
      return;
    }
    return Some(v);
  }

  method ProjectFields(s: Schema, fields: map<string, Json>, parse: TextParser, re: Matcher) returns (r: Option<Json>)
    requires Sane(parse)
    ensures r == ProjectChildren(s, Obj(fields), parse, re)
    decreases s, 1, 0
  {
    hide Sane, Project;
    var result: map<string, Json> := map[];
    var keys := fields.Keys;
    while keys != {}
      invariant keys <= fields.Keys && result.Keys == fields.Keys - keys
      invariant forall k | k in result :: ProjectField(s, k, fields[k], parse, re) == Some(result[k])
      decreases |keys|
    {
      var key :| key in keys;
      var projected := Some(fields[key]);
      if key in s.properties {
        projected := ProjectCompiledOutput(s.properties[key], fields[key], parse, re);
      }
      if projected.None? {
        assert ProjectField(s, key, fields[key], parse, re).None?;
        return None;
      }
      result := result[key := projected.value];
      keys := keys - {key};
    }
    assert result == map k | k in fields :: ProjectField(s, k, fields[k], parse, re).value;
    return Some(Obj(result));
  }

  method ProjectItems(s: Schema, items: seq<Json>, parse: TextParser, re: Matcher) returns (r: Option<Json>)
    requires Sane(parse) && s.items.Some?
    ensures r == ProjectChildren(s, Arr(items), parse, re)
    decreases s, 1, 0
  {
    hide Sane, Project;
    var result: seq<Json> := [];
    for i := 0 to |items|
      invariant |result| == i
      invariant forall k | 0 <= k < i :: Project(s.items.value, items[k], parse, re) == Some(result[k])
    {
      var projected := ProjectCompiledOutput(s.items.value, items[i], parse, re);
      if projected.None? {
        return None;
      }
      result := result + [projected.value];
    }
    assert result == seq(|items|, i requires 0 <= i < |items| => Project(s.items.value, items[i], parse, re).value);
    return Some(Arr(result));
  }

  method ProjectBranches(branches: seq<Schema>, v: Json, parse: TextParser, re: Matcher) returns (r: Option<Json>)
    requires Sane(parse)
    ensures r == ProjectEach(branches, v, parse, re)
    decreases branches, 0
  {
    hide Sane, Project;
    var value := v;
    for i := 0 to |branches|
      invariant ProjectEach(branches, v, parse, re) == ProjectEach(branches[i..], value, parse, re)
    {
      assert branches[i..][0] == branches[i] && branches[i..][1..] == branches[i + 1..];
      var projected := ProjectCompiledOutput(branches[i], value, parse, re);
      if projected.None? {
        return None;
      }
      value := projected.value;
    }
    return Some(value);
  }

  method ChooseBranch(branches: seq<Schema>, several: bool, v: Json, parse: TextParser, re: Matcher) returns (r: Json)
    requires Sane(parse)
    ensures r == Choose(branches, several, v, parse, re)
    decreases branches, 1
  {
    hide Sane, Project, Accepts;
    var selected := v;
    var matches := 0;
    for i := 0 to |branches|
      invariant matches == |Candidates(branches[..i], v, parse, re)|
      invariant matches > 0 ==> selected == Candidates(branches[..i], v, parse, re)[matches - 1]
    {
      assert branches[..i + 1][..i] == branches[..i] && branches[..i + 1][i] == branches[i];
      var candidate := ProjectCompiledOutput(branches[i], v, parse, re);
      if candidate.Some? {
        var accepted := Validate(branches[i], candidate.value, re);
        if accepted {
          selected := candidate.value;
          matches := matches + 1;
        }
      }
    }
    assert branches[..|branches|] == branches;
    if matches == 1 || (several && matches > 0) {
      return selected;
    }
    return v;
  }

  // -------------------------------------------------------------- what projecting keeps

  /** The text itself, or, if it is not compact already, a timestamp with the fields of the
      moment it names. */
  predicate CompactsText(before: string, after: string, parse: TextParser)
    requires Sane(parse)
  {
    || before == after
    || (!ValidTimestamp(before) && parse(before).Some? && ValidTimestamp(after) && Shows(after, parse(before).value))
  }

  /** The same value with some of its texts replaced by their compact timestamps. */
  predicate Compacts(v: Json, r: Json, parse: TextParser)
    requires Sane(parse)
    decreases v
  {
    match v
    case Str(text) => r.Str? && CompactsText(text, r.s, parse)
    case Arr(items) => r.Arr? && |r.items| == |items| && forall i | 0 <= i < |items| :: Compacts(items[i], r.items[i], parse)
    case Obj(fields) => r.Obj? && r.fields.Keys == fields.Keys && forall k | k in fields :: Compacts(fields[k], r.fields[k], parse)
    case _ => r == v
  }

  lemma {:induction false} CompactsItself(v: Json, parse: TextParser)
    requires Sane(parse)
    ensures Compacts(v, v, parse)
    decreases v
  {
    hide Sane;
    match v
    case Arr(items) =>
      forall i | 0 <= i < |items|
        ensures Compacts(items[i], items[i], parse)
      {
        CompactsItself(items[i], parse);
      }
    case Obj(fields) =>
      forall k | k in fields
        ensures Compacts(fields[k], fields[k], parse)
      {
        CompactsItself(fields[k], parse);
      }
    case _ =>
  }

  lemma {:induction false} CompactsTransitive(a: Json, b: Json, c: Json, parse: TextParser)
    requires Sane(parse) && Compacts(a, b, parse) && Compacts(b, c, parse)
    ensures Compacts(a, c, parse)
    decreases a
  {
    hide Sane, ValidTimestamp;
    match a
    case Arr(items) =>
      forall i | 0 <= i < |items|
        ensures Compacts(items[i], c.items[i], parse)
      {
        CompactsTransitive(items[i], b.items[i], c.items[i], parse);
      }
    case Obj(fields) =>
      forall k | k in fields
        ensures Compacts(fields[k], c.fields[k], parse)
      {
        CompactsTransitive(fields[k], b.fields[k], c.fields[k], parse);
      }
    case _ =>
  }

  /** A projection keeps every key, every length and every leaf that is not a text, and changes
      a text only to its compact timestamp. */
  lemma {:induction false} ProjectionCompacts(s: Schema, v: Json, parse: TextParser, re: Matcher)
    requires Sane(parse) && Project(s, v, parse, re).Some?
    ensures Compacts(v, Project(s, v, parse, re).value, parse)
    decreases s, 2
  {
    hide Sane, ValidTimestamp, Accepts, Stamp, Compacts, ProjectChildren, ProjectEach, Choose;
    if s.jsonValue {
      CompactsItself(v, parse);
    } else if s.refName == "Timestamp" {
      StampCompacts(v, parse);
    } else {
      ChildrenCompact(s, v, parse, re);
      var inner := ProjectChildren(s, v, parse, re).value;
      EachCompacts(s.allOf, inner, parse, re);
      var all := ProjectEach(s.allOf, inner, parse, re).value;
      ChoiceCompacts(s.oneOf, s.oneOf == [], all, parse, re);
      var one := Choose(s.oneOf, s.oneOf == [], all, parse, re);
      ChoiceCompacts(s.anyOf, s.oneOf == [], one, parse, re);
      CompactsTransitive(v, inner, all, parse);
      CompactsTransitive(v, all, one, parse);
      CompactsTransitive(v, one, Project(s, v, parse, re).value, parse);
    }
  }

  lemma StampCompacts(v: Json, parse: TextParser)
    requires Sane(parse) && CompactTimestamp(v, parse).Some?
    ensures Compacts(v, CompactTimestamp(v, parse).value, parse)
  {
    hide ValidTimestamp, Shows, RealSecond;
    CompactsItself(v, parse);
    if v.Str? && !ValidTimestamp(v.s) {
      StampShows(parse(v.s).value);
    }
  }

  lemma {:induction false} ChildrenCompact(s: Schema, v: Json, parse: TextParser, re: Matcher)
    requires Sane(parse) && ProjectChildren(s, v, parse, re).Some?
    ensures Compacts(v, ProjectChildren(s, v, parse, re).value, parse)
    decreases s, 1
  {
    hide Sane, ValidTimestamp, Accepts, Project;
    if v.Obj? {
      var r := ProjectChildren(s, v, parse, re).value;
      forall k | k in v.fields
        ensures Compacts(v.fields[k], r.fields[k], parse)
      {
        assert ProjectField(s, k, v.fields[k], parse, re) == Some(r.fields[k]);
        if k in s.properties {
          ProjectionCompacts(s.properties[k], v.fields[k], parse, re);
        } else {
          CompactsItself(v.fields[k], parse);
        }
      }
    } else if v.Arr? && s.items.Some? {
      forall i | 0 <= i < |v.items|
        ensures Compacts(v.items[i], ProjectChildren(s, v, parse, re).value.items[i], parse)
      {
        ProjectionCompacts(s.items.value, v.items[i], parse, re);
      }
    } else {
      CompactsItself(v, parse);
    }
  }

  lemma {:induction false} EachCompacts(branches: seq<Schema>, v: Json, parse: TextParser, re: Matcher)
    requires Sane(parse) && ProjectEach(branches, v, parse, re).Some?
    ensures Compacts(v, ProjectEach(branches, v, parse, re).value, parse)
    decreases branches, 0
  {
    hide Sane, ValidTimestamp, Accepts, Project, Compacts;
    if branches == [] {
      CompactsItself(v, parse);
    } else {
      ProjectionCompacts(branches[0], v, parse, re);
      var projected := Project(branches[0], v, parse, re).value;
      EachCompacts(branches[1..], projected, parse, re);
      CompactsTransitive(v, projected, ProjectEach(branches, v, parse, re).value, parse);
    }
  }

  lemma {:induction false} CandidatesCompact(branches: seq<Schema>, v: Json, parse: TextParser, re: Matcher)
    requires Sane(parse)
    ensures forall i | 0 <= i < |Candidates(branches, v, parse, re)| :: Compacts(v, Candidates(branches, v, parse, re)[i], parse)
    decreases branches, 0
  {
    hide Sane, ValidTimestamp, Accepts, Project, Compacts;
    if branches != [] {
      var last := |branches| - 1;
      CandidatesCompact(branches[..last], v, parse, re);
      if Project(branches[last], v, parse, re).Some? {
        ProjectionCompacts(branches[last], v, parse, re);
      }
    }
  }

  lemma {:induction false} ChoiceCompacts(branches: seq<Schema>, several: bool, v: Json, parse: TextParser, re: Matcher)
    requires Sane(parse)
    ensures Compacts(v, Choose(branches, several, v, parse, re), parse)
    decreases branches, 1
  {
    hide Sane, ValidTimestamp, Accepts, Project, Compacts, Candidates;
    CandidatesCompact(branches, v, parse, re);
    CompactsItself(v, parse);
  }

  // -------------------------------------------------------------- which branch is chosen

  /** The branch accepts its own projection of the value. */
  predicate Fits(branch: Schema, v: Json, parse: TextParser, re: Matcher)
    requires Sane(parse)
  {
    Project(branch, v, parse, re).Some? && Accepts(branch, Project(branch, v, parse, re).value, re)
  }

  predicate NoneFits(branches: seq<Schema>, from: nat, upto: nat, v: Json, parse: TextParser, re: Matcher)
    requires Sane(parse) && upto <= |branches|
  {
    forall i | from <= i < upto :: !Fits(branches[i], v, parse, re)
  }

  lemma {:induction false} CandidatesMean(branches: seq<Schema>, v: Json, parse: TextParser, re: Matcher, i: nat)
    requires Sane(parse) && i < |branches| && Fits(branches[i], v, parse, re) && NoneFits(branches, i + 1, |branches|, v, parse, re)
    ensures var candidates := Candidates(branches, v, parse, re);
            && candidates != [] && candidates[|candidates| - 1] == Project(branches[i], v, parse, re).value
            && (|candidates| == 1 <==> NoneFits(branches, 0, i, v, parse, re))
    decreases |branches|
  {
    hide Sane, Project, Accepts;
    var last := |branches| - 1;
    var before := branches[..last];
    if i < last {
      assert branches[last] == branches[|branches| - 1] && !Fits(branches[last], v, parse, re);
      CandidatesMean(before, v, parse, re, i);
      assert NoneFits(before, 0, i, v, parse, re) <==> NoneFits(branches, 0, i, v, parse, re);
    } else {
      NoCandidates(before, v, parse, re);
      assert NoneFits(before, 0, |before|, v, parse, re) <==> NoneFits(branches, 0, i, v, parse, re);
    }
  }

  lemma {:induction false} NoCandidates(branches: seq<Schema>, v: Json, parse: TextParser, re: Matcher)
    requires Sane(parse)
    ensures Candidates(branches, v, parse, re) == [] <==> NoneFits(branches, 0, |branches|, v, parse, re)
    decreases |branches|
  {
    hide Sane, Project, Accepts;
    if branches != [] {
      var last := |branches| - 1;
      NoCandidates(branches[..last], v, parse, re);
      assert NoneFits(branches, 0, |branches|, v, parse, re) <==>
             NoneFits(branches[..last], 0, last, v, parse, re) && !Fits(branches[last], v, parse, re);
    }
  }

  /** Which branch decides: none if none fits; otherwise the last that fits, provided no other
      does or the schema has no one-of branches. */
  lemma ChoiceMeans(branches: seq<Schema>, several: bool, v: Json, parse: TextParser, re: Matcher)
    requires Sane(parse)
    ensures NoneFits(branches, 0, |branches|, v, parse, re) ==> Choose(branches, several, v, parse, re) == v
    ensures forall i | 0 <= i < |branches| && Fits(branches[i], v, parse, re) && NoneFits(branches, i + 1, |branches|, v, parse, re) ::
              Choose(branches, several, v, parse, re) ==
              if several || NoneFits(branches, 0, i, v, parse, re) then Project(branches[i], v, parse, re).value else v
  {
    hide Sane, Project, Accepts, Candidates, NoneFits;
    NoCandidates(branches, v, parse, re);
    forall i | 0 <= i < |branches| && Fits(branches[i], v, parse, re) && NoneFits(branches, i + 1, |branches|, v, parse, re)
      ensures Choose(branches, several, v, parse, re) ==
              if several || NoneFits(branches, 0, i, v, parse, re) then Project(branches[i], v, parse, re).value else v
    {
      CandidatesMean(branches, v, parse, re, i);
    }
  }

  // -------------------------------------------------------------- projecting twice

  /** The projection visits no timestamp. */
  predicate NoTimestamp(s: Schema)
    decreases s, 1
  {
    s.jsonValue ||
    (&& s.refName != "Timestamp" && NoTimestamps(s.oneOf) && NoTimestamps(s.anyOf) && NoTimestamps(s.allOf)
     && (forall k | k in s.properties :: NoTimestamp(s.properties[k]))
     && (s.items.Some? ==> NoTimestamp(s.items.value)))
  }

  predicate NoTimestamps(branches: seq<Schema>)
    decreases branches, 0
  {
    forall i | 0 <= i < |branches| :: NoTimestamp(branches[i])
  }

  /** No node the projection visits offers a choice between branches that reach a timestamp. */
  predicate NoChoice(s: Schema)
    decreases s, 1
  {
    s.jsonValue || s.refName == "Timestamp" ||
    (&& NoTimestamps(s.oneOf) && NoTimestamps(s.anyOf)
     && (forall k | k in s.properties :: NoChoice(s.properties[k]))
     && (s.items.Some? ==> NoChoice(s.items.value))
     && NoChoices(s.allOf))
  }

  predicate NoChoices(branches: seq<Schema>)
    decreases branches, 0
  {
    forall i | 0 <= i < |branches| :: NoChoice(branches[i])
  }

  /** Where there is no timestamp, a projection changes nothing. */
  lemma {:induction false} NothingToCompact(s: Schema, v: Json, parse: TextParser, re: Matcher)
    requires Sane(parse) && NoTimestamp(s)
    ensures Project(s, v, parse, re) == Some(v)
    decreases s, 2
  {
    hide Sane, ValidTimestamp, Accepts, ProjectEach, Choose, NoTimestamps, CompactTimestamp;
    if !s.jsonValue {
      if v.Obj? {
        forall k | k in v.fields
          ensures ProjectField(s, k, v.fields[k], parse, re) == Some(v.fields[k])
        {
          if k in s.properties {
            NothingToCompact(s.properties[k], v.fields[k], parse, re);
          }
        }
        assert ProjectChildren(s, v, parse, re).value.fields == v.fields;
      } else if v.Arr? && s.items.Some? {
        forall i | 0 <= i < |v.items|
          ensures Project(s.items.value, v.items[i], parse, re) == Some(v.items[i])
        {
          NothingToCompact(s.items.value, v.items[i], parse, re);
        }
        assert ProjectChildren(s, v, parse, re).value.items == v.items;
      }
      NothingInEach(s.allOf, v, parse, re);
      NothingToChoose(s.oneOf, s.oneOf == [], v, parse, re);
      NothingToChoose(s.anyOf, s.oneOf == [], v, parse, re);
    }
  }

  lemma {:induction false} NothingInEach(branches: seq<Schema>, v: Json, parse: TextParser, re: Matcher)
    requires Sane(parse) && NoTimestamps(branches)
    ensures ProjectEach(branches, v, parse, re) == Some(v)
    decreases branches, 0
  {
    hide Sane, Project, NoTimestamp;
    if branches != [] {
      NothingToCompact(branches[0], v, parse, re);
      NothingInEach(branches[1..], v, parse, re);
    }
  }

  lemma {:induction false} OnlyTheValue(branches: seq<Schema>, v: Json, parse: TextParser, re: Matcher)
    requires Sane(parse) && NoTimestamps(branches)
    ensures forall i | 0 <= i < |Candidates(branches, v, parse, re)| :: Candidates(branches, v, parse, re)[i] == v
    decreases branches, 0
  {
    hide Sane, Project, NoTimestamp, Accepts;
    if branches != [] {
      var last := |branches| - 1;
      OnlyTheValue(branches[..last], v, parse, re);
      NothingToCompact(branches[last], v, parse, re);
    }
  }

  /** A choice between branches without timestamps keeps the value. */
  lemma {:induction false} NothingToChoose(branches: seq<Schema>, several: bool, v: Json, parse: TextParser, re: Matcher)
    requires Sane(parse) && NoTimestamps(branches)
    ensures Choose(branches, several, v, parse, re) == v
    decreases branches, 1
  {
    hide Sane, Candidates, NoTimestamps;
    OnlyTheValue(branches, v, parse, re);
  }

  /** Every text at a place the schema calls a timestamp is compact. */
  predicate Settled(s: Schema, v: Json)
    decreases s, 1
  {
    s.jsonValue ||
    (if s.refName == "Timestamp" then v.Str? ==> ValidTimestamp(v.s)
     else
       && (v.Obj? ==> forall k | k in v.fields && k in s.properties :: Settled(s.properties[k], v.fields[k]))
       && (v.Arr? && s.items.Some? ==> forall i | 0 <= i < |v.items| :: Settled(s.items.value, v.items[i]))
       && AllSettled(s.allOf, v))
  }

  predicate AllSettled(branches: seq<Schema>, v: Json)
    decreases branches, 0
  {
    forall i | 0 <= i < |branches| :: Settled(branches[i], v)
  }

  /** Compacting more texts unsettles nothing. */
  lemma {:induction false} StaysSettled(s: Schema, v: Json, r: Json, parse: TextParser)
    requires Sane(parse) && Settled(s, v) && Compacts(v, r, parse)
    ensures Settled(s, r)
    decreases s, 1
  {
    hide Sane, ValidTimestamp, AllSettled;
    if !s.jsonValue && s.refName != "Timestamp" {
      if v.Obj? {
        forall k | k in v.fields && k in s.properties
          ensures Settled(s.properties[k], r.fields[k])
        {
          StaysSettled(s.properties[k], v.fields[k], r.fields[k], parse);
        }
      } else if v.Arr? && s.items.Some? {
        forall i | 0 <= i < |v.items|
          ensures Settled(s.items.value, r.items[i])
        {
          StaysSettled(s.items.value, v.items[i], r.items[i], parse);
        }
      }
      AllStaySettled(s.allOf, v, r, parse);
    }
  }

  lemma {:induction false} AllStaySettled(branches: seq<Schema>, v: Json, r: Json, parse: TextParser)
    requires Sane(parse) && AllSettled(branches, v) && Compacts(v, r, parse)
    ensures AllSettled(branches, r)
    decreases branches, 0
  {
    hide Sane, ValidTimestamp, Settled, Compacts;
    forall i | 0 <= i < |branches|
      ensures Settled(branches[i], r)
    {
      StaysSettled(branches[i], v, r, parse);
    }
  }

  /** Without choices that reach a timestamp, a projection settles the value. */
  lemma {:induction false} ProjectionSettles(s: Schema, v: Json, parse: TextParser, re: Matcher)
    requires Sane(parse) && NoChoice(s) && Project(s, v, parse, re).Some?
    ensures Settled(s, Project(s, v, parse, re).value)
    decreases s, 2
  {
    hide Sane, ValidTimestamp, Accepts, ProjectEach, Compacts, AllSettled, NoChoices, NoTimestamps, Choose;
    if !s.jsonValue && s.refName != "Timestamp" {
      var inner := ProjectChildren(s, v, parse, re).value;
      var all := ProjectEach(s.allOf, inner, parse, re).value;
      if v.Obj? {
        forall k | k in v.fields && k in s.properties
          ensures Settled(s.properties[k], inner.fields[k])
        {
          assert ProjectField(s, k, v.fields[k], parse, re).Some?;
          ProjectionSettles(s.properties[k], v.fields[k], parse, re);
        }
      } else if v.Arr? && s.items.Some? {
        forall i | 0 <= i < |v.items|
          ensures Settled(s.items.value, inner.items[i])
        {
          ProjectionSettles(s.items.value, v.items[i], parse, re);
        }
      }
      EachSettles(s.allOf, inner, parse, re);
      EachCompacts(s.allOf, inner, parse, re);
      ChildrenStaySettled(s, inner, all, parse);
      NothingToChoose(s.oneOf, s.oneOf == [], all, parse, re);
      NothingToChoose(s.anyOf, s.oneOf == [], all, parse, re);
    }
  }

  /** The children of a settled value stay so under compacting. */
  lemma ChildrenStaySettled(s: Schema, v: Json, r: Json, parse: TextParser)
    requires Sane(parse) && Compacts(v, r, parse)
    requires v.Obj? ==> forall k | k in v.fields && k in s.properties :: Settled(s.properties[k], v.fields[k])
    requires v.Arr? && s.items.Some? ==> forall i | 0 <= i < |v.items| :: Settled(s.items.value, v.items[i])
    ensures r.Obj? ==> forall k | k in r.fields && k in s.properties :: Settled(s.properties[k], r.fields[k])
    ensures r.Arr? && s.items.Some? ==> forall i | 0 <= i < |r.items| :: Settled(s.items.value, r.items[i])
  {
    hide Sane, ValidTimestamp, Settled;
    if v.Obj? {
      forall k | k in v.fields && k in s.properties
        ensures Settled(s.properties[k], r.fields[k])
      {
        StaysSettled(s.properties[k], v.fields[k], r.fields[k], parse);
      }
    } else if v.Arr? && s.items.Some? {
      forall i | 0 <= i < |v.items|
        ensures Settled(s.items.value, r.items[i])
      {
        StaysSettled(s.items.value, v.items[i], r.items[i], parse);
      }
    }
  }

  lemma {:induction false} EachSettles(branches: seq<Schema>, v: Json, parse: TextParser, re: Matcher)
    requires Sane(parse) && NoChoices(branches) && ProjectEach(branches, v, parse, re).Some?
    ensures AllSettled(branches, ProjectEach(branches, v, parse, re).value)
    decreases branches, 0
  {
    hide Sane, ValidTimestamp, Accepts, Project, Compacts, Settled, NoChoice;
    if branches != [] {
      var projected := Project(branches[0], v, parse, re).value;
      var r := ProjectEach(branches[1..], projected, parse, re).value;
      ProjectionSettles(branches[0], v, parse, re);
      EachSettles(branches[1..], projected, parse, re);
      EachCompacts(branches[1..], projected, parse, re);
      StaysSettled(branches[0], projected, r, parse);
      forall i | 0 <= i < |branches|
        ensures Settled(branches[i], r)
      {
        assert i > 0 ==> branches[i] == branches[1..][i - 1];
      }
    }
  }

  /** A settled value is projected to itself. */
  lemma {:induction false} SettledIsFixed(s: Schema, v: Json, parse: TextParser, re: Matcher)
    requires Sane(parse) && NoChoice(s) && Settled(s, v)
    ensures Project(s, v, parse, re) == Some(v)
    decreases s, 2
  {
    hide Sane, ValidTimestamp, Accepts, ProjectEach, AllSettled, NoChoices, NoTimestamps, Choose;
    if !s.jsonValue && s.refName != "Timestamp" {
      if v.Obj? {
        forall k | k in v.fields
          ensures ProjectField(s, k, v.fields[k], parse, re) == Some(v.fields[k])
        {
          if k in s.properties {
            SettledIsFixed(s.properties[k], v.fields[k], parse, re);
          }
        }
        assert ProjectChildren(s, v, parse, re).value.fields == v.fields;
      } else if v.Arr? && s.items.Some? {
        forall i | 0 <= i < |v.items|
          ensures Project(s.items.value, v.items[i], parse, re) == Some(v.items[i])
        {
          SettledIsFixed(s.items.value, v.items[i], parse, re);
        }
        assert ProjectChildren(s, v, parse, re).value.items == v.items;
      }
      EachIsFixed(s.allOf, v, parse, re);
      NothingToChoose(s.oneOf, s.oneOf == [], v, parse, re);
      NothingToChoose(s.anyOf, s.oneOf == [], v, parse, re);
    }
  }

  lemma {:induction false} EachIsFixed(branches: seq<Schema>, v: Json, parse: TextParser, re: Matcher)
    requires Sane(parse) && NoChoices(branches) && AllSettled(branches, v)
    ensures ProjectEach(branches, v, parse, re) == Some(v)
    decreases branches, 0
  {
    hide Sane, ValidTimestamp, Accepts, Project, Settled, NoChoice;
    if branches != [] {
      SettledIsFixed(branches[0], v, parse, re);
      EachIsFixed(branches[1..], v, parse, re);
    }
  }

  /** Projecting a projection changes nothing, for a schema whose choices reach no
      timestamp. A choice that does may fit differently once another part has been compacted. */
  lemma ProjectionIsIdempotent(s: Schema, v: Json, parse: TextParser, re: Matcher)
    requires Sane(parse) && NoChoice(s) && Project(s, v, parse, re).Some?
    ensures Project(s, Project(s, v, parse, re).value, parse, re) == Project(s, v, parse, re)
  {
    hide Sane, Project, Settled, NoChoice;
    ProjectionSettles(s, v, parse, re);
    SettledIsFixed(s, Project(s, v, parse, re).value, parse, re);
  }

  // -------------------------------------------------------------- a choice projected twice

  const STAMPED := Blank().(kind := "string", refName := "Timestamp", format := FORMAT_TIMESTAMP)
  const SHORT := Blank().(kind := "string", maxLength := Some(17))
  const FIRST := OpenObject(map["x" := STAMPED])
  const SECOND := OpenObject(map["x" := SHORT, "y" := STAMPED])
  const CHOICE := Blank().(anyOf := [FIRST, SECOND])
  const RAW := "2024-01-02T03:04:05Z"

  function OpenObject(properties: map<string, Schema>): Schema {
    Blank().(kind := "object", properties := properties, additionalProperties := Some(true))
  }

  function Pair(x: string, y: string): Json {
    Obj(map["x" := Str(x), "y" := Str(y)])
  }

  lemma OpenObjectComposesNothing(properties: map<string, Schema>)
    ensures var s := OpenObject(properties);
            && s.allOf == [] && s.oneOf == [] && s.anyOf == [] && s.required == [] && !ComposedOnly(s)
            && s.notSchema.None? && s.ifSchema.None? && s.kind == "object" && s.enum == [] && s.constant.None?
            && !s.jsonValue && s.properties == properties
            && s.additionalProperties == Some(true) && s.additionalPropertySchema.None?
  {
  }

  lemma ObjectIsPlain(s: Schema, fields: map<string, Json>, re: Matcher)
    requires s.kind == "object" && s.enum == [] && s.constant.None?
    ensures PlainAccepts(s, Obj(fields), re)
  {
    assert |"object"| == 6 && |"null"| == 4;
    assert TypeMatches("object", Obj(fields));
  }

  lemma OpenObjectAccepts(properties: map<string, Schema>, fields: map<string, Json>, re: Matcher)
    ensures Accepts(OpenObject(properties), Obj(fields), re) <==>
            forall k | k in fields && k in properties :: Accepts(properties[k], fields[k], re)
  {
    hide OpenObject, ComposedOnly, PlainAccepts;
    var s := OpenObject(properties);
    OpenObjectComposesNothing(properties);
    ObjectIsPlain(s, fields, re);
    assert CompositionAccepts(s, Obj(fields), re);
    assert ChildrenAccept(s, Obj(fields), re) <==> forall k | k in fields :: FieldAccepts(s, k, fields[k], re);
    assert Accepts(s, Obj(fields), re) <==> ChildrenAccept(s, Obj(fields), re);
    forall k | k in fields
      ensures FieldAccepts(s, k, fields[k], re) <==> (k in properties ==> Accepts(properties[k], fields[k], re))
    {
    }
  }

  lemma OpenObjectProjects(properties: map<string, Schema>, v: Json, parse: TextParser, re: Matcher)
    requires Sane(parse)
    ensures Project(OpenObject(properties), v, parse, re) == ProjectChildren(OpenObject(properties), v, parse, re)
  {
    hide Sane, Accepts, ProjectChildren;
    var all := ProjectChildren(OpenObject(properties), v, parse, re);
    if all.Some? {
      assert Choose([], true, all.value, parse, re) == all.value;
    }
  }

  lemma StampedText(text: string, re: Matcher)
    ensures Accepts(STAMPED, Str(text), re) <==> ValidTimestamp(text)
    ensures ValidTimestamp(text) ==> |text| == 17
  {
    hide Parts, Normalise;
  }

  lemma ShortText(text: string, parse: TextParser, re: Matcher)
    requires Sane(parse)
    ensures Accepts(SHORT, Str(text), re) <==> |text| <= 17
    ensures Project(SHORT, Str(text), parse, re) == Some(Str(text))
  {
    hide Sane, ValidTimestamp;
    assert Choose([], true, Str(text), parse, re) == Str(text);
  }

  lemma FirstBranch(x: string, y: string, parse: TextParser, re: Matcher)
    requires Sane(parse) && CompactTimestamp(Str(x), parse).Some?
    ensures Accepts(FIRST, Pair(x, y), re) <==> ValidTimestamp(x)
    ensures Project(FIRST, Pair(x, y), parse, re) == Some(Obj(map["x" := CompactTimestamp(Str(x), parse).value, "y" := Str(y)]))
  {
    hide Sane, Accepts, Project, ValidTimestamp, CompactTimestamp;
    OpenObjectAccepts(map["x" := STAMPED], Pair(x, y).fields, re);
    StampedText(x, re);
    OpenObjectProjects(map["x" := STAMPED], Pair(x, y), parse, re);
    StampedProjects(x, parse, re);
    assert ProjectField(FIRST, "x", Str(x), parse, re) == CompactTimestamp(Str(x), parse);
    assert ProjectField(FIRST, "y", Str(y), parse, re) == Some(Str(y));
    assert ProjectChildren(FIRST, Pair(x, y), parse, re).value.fields == map["x" := CompactTimestamp(Str(x), parse).value, "y" := Str(y)];
  }

  lemma SecondBranch(x: string, y: string, parse: TextParser, re: Matcher)
    requires Sane(parse) && CompactTimestamp(Str(y), parse).Some?
    ensures Accepts(SECOND, Pair(x, y), re) <==> |x| <= 17 && ValidTimestamp(y)
    ensures Project(SECOND, Pair(x, y), parse, re) == Some(Obj(map["x" := Str(x), "y" := CompactTimestamp(Str(y), parse).value]))
  {
    hide Sane, Accepts, Project, ValidTimestamp, CompactTimestamp;
    var properties := map["x" := SHORT, "y" := STAMPED];
    OpenObjectAccepts(properties, Pair(x, y).fields, re);
    ShortText(x, parse, re);
    StampedText(y, re);
    OpenObjectProjects(properties, Pair(x, y), parse, re);
    StampedProjects(y, parse, re);
    assert ProjectField(SECOND, "x", Str(x), parse, re) == Some(Str(x));
    assert ProjectField(SECOND, "y", Str(y), parse, re) == CompactTimestamp(Str(y), parse);
    assert ProjectChildren(SECOND, Pair(x, y), parse, re).value.fields == map["x" := Str(x), "y" := CompactTimestamp(Str(y), parse).value];
  }

  lemma StampedProjects(text: string, parse: TextParser, re: Matcher)
    requires Sane(parse)
    ensures Project(STAMPED, Str(text), parse, re) == CompactTimestamp(Str(text), parse)
  {
  }

  /** What the choice makes of a value that both branches project. */
  lemma ChoiceProjects(v: Json, parse: TextParser, re: Matcher)
    requires Sane(parse) && Project(FIRST, v, parse, re).Some? && Project(SECOND, v, parse, re).Some?
    ensures var first, second := Project(FIRST, v, parse, re).value, Project(SECOND, v, parse, re).value;
            Project(CHOICE, v, parse, re) ==
            Some(if Accepts(SECOND, second, re) then second else if Accepts(FIRST, first, re) then first else v)
  {
    hide Sane, Accepts, OpenObject, ProjectChildren;
    ChoiceHasNoChildren(v, parse, re);
    var first, second := Project(FIRST, v, parse, re).value, Project(SECOND, v, parse, re).value;
    var branches := [FIRST, SECOND];
    assert branches[..1] == [FIRST] && [FIRST][..0] == [];
    var one := Candidates([FIRST], v, parse, re);
    assert one == (if Accepts(FIRST, first, re) then [first] else []) by {
      assert Candidates([], v, parse, re) == [];
    }
    assert Candidates(branches, v, parse, re) == one + (if Accepts(SECOND, second, re) then [second] else []);
    assert Choose([], true, v, parse, re) == v && ProjectEach([], v, parse, re) == Some(v);
    assert Project(CHOICE, v, parse, re) == Some(Choose(branches, true, v, parse, re));
  }

  lemma ChoiceHasNoChildren(v: Json, parse: TextParser, re: Matcher)
    requires Sane(parse)
    ensures ProjectChildren(CHOICE, v, parse, re) == Some(v)
  {
    hide Sane, OpenObject;
    if v.Obj? {
      forall k | k in v.fields
        ensures ProjectField(CHOICE, k, v.fields[k], parse, re) == Some(v.fields[k])
      {
      }
      assert ProjectChildren(CHOICE, v, parse, re).value.fields == v.fields;
    }
  }

  /** A branch that only fits once another branch has compacted its text makes the second
      projection differ from the first. */
  lemma ChoiceIsNotIdempotent(parse: TextParser, re: Matcher)
    requires Sane(parse) && parse(RAW).Some?
    ensures RealSecond(parse(RAW).value)
    ensures var stamp := Stamp(parse(RAW).value);
            && Project(CHOICE, Pair(RAW, RAW), parse, re) == Some(Pair(stamp, RAW))
            && Project(CHOICE, Pair(stamp, RAW), parse, re) == Some(Pair(stamp, stamp))
            && stamp != RAW
  {
    hide Accepts, Project, ValidTimestamp, RealSecond;
    var stamp := Stamp(parse(RAW).value);
    StampedText(stamp, re);
    StampedText(RAW, re);
    assert |RAW| == 20;
    assert CompactTimestamp(Str(RAW), parse) == Some(Str(stamp)) && CompactTimestamp(Str(stamp), parse) == Some(Str(stamp));
    FirstBranch(RAW, RAW, parse, re);
    SecondBranch(RAW, RAW, parse, re);
    FirstBranch(stamp, RAW, parse, re);
    SecondBranch(stamp, RAW, parse, re);
    FirstBranch(stamp, stamp, parse, re);
    SecondBranch(RAW, stamp, parse, re);
    SecondBranch(stamp, stamp, parse, re);
    ChoiceProjects(Pair(RAW, RAW), parse, re);
    ChoiceProjects(Pair(stamp, RAW), parse, re);
  }
}
