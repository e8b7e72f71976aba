/**
 * Fast-path pattern builder: a slash path and a scalar type name become a
 * pattern that finds the typed value of that field in a raw serialized record.
 *
 * The pattern is modelled as the sequence of its segments, one per non-empty
 * path part; the joined regex text is what those segments stand for. The value
 * patterns are kept as the source's regex texts so that their capture groups
 * can be counted. Regex compilation and search, and the escaping of keys, are
 * not modelled: a search's outcome is an input to `ExtractFirst`.
 */
module FastRegex {
  import opened Wrappers

  /** A double-quoted JSON string with backslash escapes. */
  const StrPattern: string := "\"(?:(?:[^\"\\\\]|\\\\.)*)\""
  const IntPattern: string := "-?\\d+"
  const FloatPattern: string := "-?(?:\\d+\\.\\d+|\\d+)(?:[eE][+-]?\\d+)?"
  const BoolPattern: string := "(?:true|false)"

  datatype FastRegexError =
    | UnsupportedType(tp: string)   // ValueError from `_val_pattern`
    | NoSuchGroup                   // IndexError from `group(1)` on a pattern without groups

  /** Scalar type names that have a value pattern. */
  const SupportedTypes: set<string> := {"str", "datetime", "int", "float", "bool"}

  /**
   * `_val_pattern`: the regex text of a value of scalar type `tp`. It exists
   * exactly for the supported names; any other name raises ValueError naming it.
   */
  function ValPattern(tp: string): (r: Result<string, FastRegexError>)
    ensures r.Success? <==> tp in SupportedTypes
    ensures r.Failure? ==> r.error == UnsupportedType(tp)
  {
    if tp == "str" || tp == "datetime" then Success(StrPattern)
    else if tp == "int" then Success(IntPattern)
    else if tp == "float" then Success(FloatPattern)
    else if tp == "bool" then Success(BoolPattern)
    else Failure(UnsupportedType(tp))
  }

  /** Strings and datetimes share the quoted-string pattern; the other types each have their own. */
  lemma ValPatternsByType()
    ensures ValPattern("str") == ValPattern("datetime") == Success(StrPattern)
    ensures ValPattern("int") == Success(IntPattern)
    ensures ValPattern("float") == Success(FloatPattern)
    ensures ValPattern("bool") == Success(BoolPattern)
    ensures StrPattern != IntPattern && StrPattern != FloatPattern && StrPattern != BoolPattern
    ensures IntPattern != FloatPattern && IntPattern != BoolPattern && FloatPattern != BoolPattern
  {
    assert StrPattern[0] == '"' && IntPattern[0] == '-' && FloatPattern[0] == '-' && BoolPattern[0] == '(';
    assert |IntPattern| != |FloatPattern|;
  }

  // ---------------------------------------------------------------------------
  // Capture groups of a regex text

  /**
   * Number of capturing groups in regex text `re` from index `i` on: an opening
   * parenthesis that is not escaped, not inside a character class and not
   * followed by `?`.
   */
  function CaptureGroupsFrom(re: string, i: nat): nat
    decreases |re| - i
  {
    if i >= |re| then 0
    else if re[i] == '\\' then CaptureGroupsFrom(re, i + 2)
    else if re[i] == '[' then CaptureGroupsFrom(re, AfterClass(re, i + 1, true))
    else if re[i] == '(' && !(i + 1 < |re| && re[i + 1] == '?') then 1 + CaptureGroupsFrom(re, i + 1)
    else CaptureGroupsFrom(re, i + 1)
  }

  /**
   * The index just past the character class whose body starts at `i`; a `]`
   * first in the class (after an optional `^`) is literal.
   */
  function AfterClass(re: string, i: nat, first: bool): (j: nat)
    ensures j > i || i >= |re|
    decreases |re| - i
  {
    if i >= |re| then i
    else if first && re[i] == '^' then AfterClass(re, i + 1, i + 1 < |re| && re[i + 1] == ']')
    else if first && re[i] == ']' then AfterClass(re, i + 1, false)
    else if re[i] == '\\' then AfterClass(re, i + 2, false)
    else if re[i] == ']' then i + 1
    else AfterClass(re, i + 1, false)
  }

  function CaptureGroups(re: string): nat {
    CaptureGroupsFrom(re, 0)
  }

  lemma StrPatternCapturesNothing()
    ensures CaptureGroups(StrPattern) == 0
  {
    var s := StrPattern;
    assert CaptureGroupsFrom(s, 17) == 0;
    assert CaptureGroupsFrom(s, 13) == 0;
    assert AfterClass(s, 10, false) == 13;
    assert AfterClass(s, 8, true) == 13;
    assert CaptureGroupsFrom(s, 7) == 0;
    assert CaptureGroupsFrom(s, 4) == 0;
  }

  lemma IntPatternCapturesNothing()
    ensures CaptureGroups(IntPattern) == 0
  {
    assert CaptureGroupsFrom(IntPattern, 2) == 0;
  }

  lemma BoolPatternCapturesNothing()
    ensures CaptureGroups(BoolPattern) == 0
  {
    assert CaptureGroupsFrom(BoolPattern, 7) == 0;
  }

  lemma FloatPatternCapturesNothing()
    ensures CaptureGroups(FloatPattern) == 0
  {
    var s := FloatPattern;
    assert |s| == 35;
    assert CaptureGroupsFrom(s, 35) == 0;
    assert CaptureGroupsFrom(s, 34) == 0;
    assert CaptureGroupsFrom(s, 33) == 0;
    assert CaptureGroupsFrom(s, 32) == 0;
    assert CaptureGroupsFrom(s, 30) == 0;
    assert CaptureGroupsFrom(s, 29) == 0;
    assert AfterClass(s, 28, false) == 29;
    assert AfterClass(s, 27, false) == 29;
    assert AfterClass(s, 26, true) == 29;
    assert CaptureGroupsFrom(s, 25) == 0;
    assert AfterClass(s, 24, false) == 25;
    assert AfterClass(s, 23, false) == 25;
    assert AfterClass(s, 22, true) == 25;
    assert CaptureGroupsFrom(s, 21) == 0;
    assert CaptureGroupsFrom(s, 20) == 0;
    assert CaptureGroupsFrom(s, 19) == 0;
    assert CaptureGroupsFrom(s, 18) == 0;
    assert CaptureGroupsFrom(s, 17) == 0;
    assert CaptureGroupsFrom(s, 16) == 0;
    assert CaptureGroupsFrom(s, 14) == 0;
    assert CaptureGroupsFrom(s, 13) == 0;
    assert CaptureGroupsFrom(s, 12) == 0;
    assert CaptureGroupsFrom(s, 10) == 0;
    assert CaptureGroupsFrom(s, 8) == 0;
    assert CaptureGroupsFrom(s, 7) == 0;
    assert CaptureGroupsFrom(s, 5) == 0;
    assert CaptureGroupsFrom(s, 4) == 0;
    assert CaptureGroupsFrom(s, 3) == 0;
    assert CaptureGroupsFrom(s, 2) == 0;
    assert CaptureGroupsFrom(s, 1) == 0;
  }

  /** The value patterns use only non-capturing groups. */
  lemma ValuePatternsCaptureNothing(tp: string)
    requires ValPattern(tp).Success?
    ensures CaptureGroups(ValPattern(tp).value) == 0
  {
    if tp == "str" || tp == "datetime" {
      StrPatternCapturesNothing();
    } else if tp == "int" {
      IntPatternCapturesNothing();
    } else if tp == "float" {
      FloatPatternCapturesNothing();
    } else {
      BoolPatternCapturesNothing();
    }
  }

  // ---------------------------------------------------------------------------
  // Path splitting

  /** Python's `s.split(sep)`: the pieces between separators, empty ones included. */
  function Split(s: string, sep: char): (parts: seq<string>)
    ensures |parts| >= 1
    decreases |s|
  {
    if s == [] then [""]
    else
      var rest := Split(s[1..], sep);
      if s[0] == sep then [""] + rest else [[s[0]] + rest[0]] + rest[1..]
  }

  /** Python's `sep.join(parts)`. */
  function Join(parts: seq<string>, sep: char): string
    decreases |parts|
  {
    if parts == [] then ""
    else if |parts| == 1 then parts[0]
    else parts[0] + [sep] + Join(parts[1..], sep)
  }

  /** The list comprehension keeping the non-empty parts. */
  function NonEmpty(parts: seq<string>): (r: seq<string>)
    ensures forall p | p in r :: p in parts && p != ""
    decreases |parts|
  {
    if parts == [] then []
    else if parts[0] == "" then NonEmpty(parts[1..])
    else [parts[0]] + NonEmpty(parts[1..])
  }

  /** `[p for p in path.split("/") if p]` */
  function PathParts(path: string): (parts: seq<string>)
    ensures forall p | p in parts :: p != "" && '/' !in p
  {
    SplitHasNoSeparator(path, '/');
    NonEmpty(Split(path, '/'))
  }

  lemma {:induction false} SplitHasNoSeparator(s: string, sep: char)
    ensures forall p | p in Split(s, sep) :: sep !in p
    decreases |s|
  {
    if s != [] {
      SplitHasNoSeparator(s[1..], sep);
    }
  }

  /** Splitting and joining again gives back the string. */
  lemma {:induction false} JoinSplit(s: string, sep: char)
    ensures Join(Split(s, sep), sep) == s
    decreases |s|
  {
    if s != [] {
      var rest := Split(s[1..], sep);
      JoinSplit(s[1..], sep);
      if s[0] == sep {
        assert Split(s, sep)[1..] == rest;
        assert Join(Split(s, sep), sep) == "" + [sep] + Join(rest, sep);
        assert s == [s[0]] + s[1..];
      } else {
        var parts := Split(s, sep);
        assert parts[0] == [s[0]] + rest[0];
        assert parts[1..] == rest[1..];
        if |rest| == 1 {
          assert Join(parts, sep) == [s[0]] + rest[0];
        } else {
          assert Join(rest, sep) == rest[0] + [sep] + Join(rest[1..], sep);
        }
        assert s == [s[0]] + s[1..];
      }
    }
  }

  /** A separator splits into the pieces before it followed by the pieces after it. */
  lemma {:induction false} SplitAround(a: string, b: string, sep: char)
    ensures Split(a + [sep] + b, sep) == Split(a, sep) + Split(b, sep)
    decreases |a|
  {
    if a == [] {
      assert a + [sep] + b == [sep] + b;
      assert ([sep] + b)[1..] == b;
    } else {
      assert (a + [sep] + b)[0] == a[0];
      assert (a + [sep] + b)[1..] == a[1..] + [sep] + b;
      SplitAround(a[1..], b, sep);
    }
  }

  lemma {:induction false} NonEmptyAppend(x: seq<string>, y: seq<string>)
    ensures NonEmpty(x + y) == NonEmpty(x) + NonEmpty(y)
    decreases |x|
  {
    if x == [] {
      assert x + y == y;
    } else {
      assert (x + y)[0] == x[0];
      assert (x + y)[1..] == x[1..] + y;
      NonEmptyAppend(x[1..], y);
    }
  }

  /** The parts of `a/b` are the parts of `a` followed by the parts of `b`. */
  lemma PathPartsAround(a: string, b: string)
    ensures PathParts(a + "/" + b) == PathParts(a) + PathParts(b)
  {
    SplitAround(a, b, '/');
    NonEmptyAppend(Split(a, '/'), Split(b, '/'));
  }

  /** Leading, trailing and doubled slashes do not change the parts. */
  lemma ExtraSlashesIgnored(a: string, b: string)
    ensures PathParts("/" + a) == PathParts(a)
    ensures PathParts(a + "/") == PathParts(a)
    ensures PathParts(a + "//" + b) == PathParts(a + "/" + b)
  {
    PathPartsAround("", a);
    assert "" + "/" + a == "/" + a;
    PathPartsAround(a, "");
    assert a + "/" + "" == a + "/";
    PathPartsAround(a, "/" + b);
    assert a + "/" + ("/" + b) == a + "//" + b;
    PathPartsAround("", b);
    assert "" + "/" + b == "/" + b;
    PathPartsAround(a, b);
  }

  /** Joining non-empty, slash-free parts with `/` and splitting again gives them back. */
  lemma {:induction false} PathPartsJoin(parts: seq<string>)
    requires forall p | p in parts :: p != "" && '/' !in p
    ensures PathParts(Join(parts, '/')) == parts
    decreases |parts|
  {
    if parts == [] {
    } else if |parts| == 1 {
      assert parts[0] in parts;
      PathPartsOfPart(parts[0]);
    } else {
      assert parts[0] in parts;
      assert forall p | p in parts[1..] :: p in parts;
      PathPartsAround(parts[0], Join(parts[1..], '/'));
      PathPartsOfPart(parts[0]);
      PathPartsJoin(parts[1..]);
      assert parts == [parts[0]] + parts[1..];
    }
  }

  lemma {:induction false} SplitWithoutSeparator(s: string, sep: char)
    requires sep !in s
    ensures Split(s, sep) == [s]
    decreases |s|
  {
    if s != [] {
      SplitWithoutSeparator(s[1..], sep);
      assert s == [s[0]] + s[1..];
    }
  }

  lemma PathPartsOfPart(p: string)
    requires p != "" && '/' !in p
    ensures PathParts(p) == [p]
  {
    SplitWithoutSeparator(p, '/');
    assert [p][0] == p && [p][1..] == [];
    assert NonEmpty([p]) == [p] + NonEmpty([]);
  }

  // ---------------------------------------------------------------------------
  // Patterns

  /** One piece of the compiled regex. */
  datatype Segment =
    | OpenObject(key: string)                   // "key" \s* : \s* \{ \s*
    | CaptureValue(key: string, value: string)  // "key" \s* : \s* ( value )

  /**
   * Capture groups a segment adds to the joined regex. The key is escaped, so
   * it adds none.
   */
  function SegmentCaptures(seg: Segment): nat {
    match seg
    case OpenObject(_) => 0
    case CaptureValue(_, value) => 1 + CaptureGroups(value)
  }

  function PatternCaptures(pattern: seq<Segment>): nat
    decreases |pattern|
  {
    if pattern == [] then 0
    else PatternCaptures(pattern[..|pattern| - 1]) + SegmentCaptures(pattern[|pattern| - 1])
  }

  /** The segment for part `i` of `parts`: inner parts open an object, the last captures the value. */
  function SegmentFor(parts: seq<string>, i: nat, value: string): Segment
    requires i < |parts|
  {
    if i < |parts| - 1 then OpenObject(parts[i]) else CaptureValue(parts[i], value)
  }

  /**
   * `compile_path_pattern(path, tp)` as a value: one segment per non-empty part;
   * the value pattern is asked for only when there is a last part.
   */
  function PathPattern(path: string, tp: string): Result<seq<Segment>, FastRegexError> {
    var parts := PathParts(path);
    if parts == [] then Success([])
    else
      match ValPattern(tp)
      case Failure(e) => Failure(e)
      case Success(value) => Success(seq(|parts|, i requires 0 <= i < |parts| => SegmentFor(parts, i, value)))
  }

  /**
   * The pattern has one segment per non-empty part, in path order; every part
   * but the last opens a nested object and the last captures the typed value.
   */
  lemma PathPatternShape(path: string, tp: string)
    requires PathPattern(path, tp).Success?
    ensures var parts, pattern := PathParts(path), PathPattern(path, tp).value;
      && |pattern| == |parts|
      && (forall i | 0 <= i < |pattern| :: pattern[i].key == parts[i])
      && (forall i | 0 <= i < |pattern| :: pattern[i].OpenObject? <==> i < |pattern| - 1)
      && (forall i | 0 <= i < |pattern| :: pattern[i].CaptureValue? ==> ValPattern(tp) == Success(pattern[i].value))
  {
  }

  /**
   * The type matters only for the last segment: compiling fails iff the path has
   * a non-empty part and the type is unsupported, and then with ValueError.
   */
  lemma PathPatternFailsIff(path: string, tp: string)
    ensures PathPattern(path, tp).Failure? <==> PathParts(path) != [] && tp !in SupportedTypes
    ensures PathPattern(path, tp).Failure? ==> PathPattern(path, tp).error == UnsupportedType(tp)
  {
  }

  /** Paths that differ only in extra slashes compile to the same pattern. */
  lemma PathPatternIgnoresExtraSlashes(a: string, b: string, tp: string)
    ensures PathPattern("/" + a, tp) == PathPattern(a, tp)
    ensures PathPattern(a + "/", tp) == PathPattern(a, tp)
    ensures PathPattern(a + "//" + b, tp) == PathPattern(a + "/" + b, tp)
  {
    ExtraSlashesIgnored(a, b);
  }

  /** `a//b/`, `/a/b` and `a/b` compile to the same pattern. */
  lemma SlashVariantsCompileAlike(tp: string)
    ensures PathPattern("a//b/", tp) == PathPattern("a/b", tp)
    ensures PathPattern("/a/b", tp) == PathPattern("a/b", tp)
  {
    PathPatternIgnoresExtraSlashes("a", "b/", tp);
    assert "a" + "//" + "b/" == "a//b/";
    assert "a" + "/" + "b/" == "a/b" + "/";
    PathPatternIgnoresExtraSlashes("a/b", "", tp);
    assert "/" + "a/b" == "/a/b";
  }

  lemma {:induction false} OpenSegmentsCaptureNothing(pattern: seq<Segment>)
    requires forall i | 0 <= i < |pattern| :: pattern[i].OpenObject?
    ensures PatternCaptures(pattern) == 0
    decreases |pattern|
  {
    if pattern != [] {
      OpenSegmentsCaptureNothing(pattern[..|pattern| - 1]);
    }
  }

  /** A compiled non-empty path has exactly one capture group, the typed value; an empty one has none. */
  lemma PathPatternCapturesOnce(path: string, tp: string)
    requires PathPattern(path, tp).Success?
    ensures PatternCaptures(PathPattern(path, tp).value) == if PathParts(path) == [] then 0 else 1
  {
    var pattern := PathPattern(path, tp).value;
    if pattern != [] {
      OpenSegmentsCaptureNothing(pattern[..|pattern| - 1]);
      ValuePatternsCaptureNothing(tp);
    }
  }

  /**
   * `compile_path_pattern`: builds the segments in a loop over the parts, asking
   * for the value pattern when it reaches the last one.
   */
  method CompilePathPattern(path: string, tp: string) returns (r: Result<seq<Segment>, FastRegexError>)
    ensures r == PathPattern(path, tp)
  {
    var parts := PathParts(path);
    var segs: seq<Segment> := [];
    var i := 0;
    while i < |parts|
      invariant 0 <= i <= |parts|
      invariant |segs| == i
      invariant forall j | 0 <= j < i && j < |parts| - 1 :: segs[j] == OpenObject(parts[j])
      invariant i == |parts| && i > 0 ==> ValPattern(tp).Success? && segs[i - 1] == CaptureValue(parts[i - 1], ValPattern(tp).value)
    {
      if i < |parts| - 1 {
        segs := segs + [OpenObject(parts[i])];
      } else {
        var value := ValPattern(tp);
        if value.Failure? {
          return Failure(value.error);
        }
        segs := segs + [CaptureValue(parts[i], value.value)];
      }
      i := i + 1;
    }
    r := Success(segs);
    if parts != [] {
      assert segs == seq(|parts|, j requires 0 <= j < |parts| => SegmentFor(parts, j, ValPattern(tp).value));
    }
  }

  // ---------------------------------------------------------------------------
  // Extraction

  /** What a successful search yields: the text of each capture group, in order. */
  datatype Match = Match(groups: seq<string>)

  /** A search result of a pattern: no match, or a match with one text per capture group. */
  predicate IsSearchResultOf(found: Option<Match>, pattern: seq<Segment>) {
    found.Some? ==> |found.value.groups| == PatternCaptures(pattern)
  }

  /**
   * `extract_first`: None when the search found nothing, else the first capture
   * group; a match without groups raises for want of group 1.
   */
  function ExtractFirst(found: Option<Match>): (r: Result<Option<string>, FastRegexError>)
    ensures found.None? ==> r == Success(None)
    ensures found.Some? ==> (r.Failure? <==> found.value.groups == [])
    ensures r.Failure? ==> r.error == NoSuchGroup
    ensures found.Some? && r.Success? ==> r.value == Some(found.value.groups[0])
  {
    match found
    case None => Success(None)
    case Some(m) => if |m.groups| >= 1 then Success(Some(m.groups[0])) else Failure(NoSuchGroup)
  }

  /**
   * On a pattern compiled from a non-empty path, extraction never raises: it is
   * None without a match and the captured typed value with one. On the pattern of
   * an all-slash path, every match raises for want of a group.
   */
  lemma ExtractFirstOnCompiledPattern(path: string, tp: string, found: Option<Match>)
    requires PathPattern(path, tp).Success?
    requires IsSearchResultOf(found, PathPattern(path, tp).value)
    ensures found.None? ==> ExtractFirst(found) == Success(None)
    ensures found.Some? && PathParts(path) != [] ==> ExtractFirst(found) == Success(Some(found.value.groups[0]))
    ensures found.Some? && PathParts(path) == [] ==> ExtractFirst(found) == Failure(NoSuchGroup)
  {
    PathPatternCapturesOnce(path, tp);
  }
}
