/**
 * The properties reader of src/main/java/self/me/matchday/util/ResourceFileReader.java,
 * whose rules the two later copies of the class share.
 *
 * A properties text is read line by line. A line splits at its first '='
 * into a key and a value; the value loses every " \" and is trimmed. A line
 * without '=' right after a stored line is appended to that line's value,
 * which ends the continuation; otherwise it is stored as a key without value.
 * Keys become field names: comment keys are skipped, a "prefix." is removed,
 * and dashed words are joined in camel case. The lines are a parameter: the
 * class loader and the file system are not modelled.
 */
module ResourceFileReader {
  import opened Outcome
  import opened JavaString
  import Regex

  const EQUALS: String := "="
  const CONTINUATION: String := " \\"
  const COMMENT: String := "#"
  const NULL_TEXT: String := "null"
  const DASH: char := '-'
  const NEWLINE: char := '\n'

  /** The properties read so far: keys to values, a key read without '=' holding null. */
  type Properties = map<String, Option<String>>

  // ---------------------------------------------------------------------
  // One line
  // ---------------------------------------------------------------------

  /** A line cut at its first '=': the key, and the rest when there is an '='. */
  datatype KeyValue = KeyValue(key: String, rest: Option<String>)

  /** line.split("=", 2). */
  function SplitKeyValue(line: String): (kv: KeyValue)
    ensures kv.rest.None? ==> kv.key == line
  {
    match IndexOfFrom(line, EQUALS, 0)
    case None => KeyValue(line, None)
    case Some(i) => KeyValue(line[..i], Some(line[i + 1..]))
  }

  /** The key holds no '=', the line is key '=' rest, and a rest exists exactly when the line holds an '='. */
  lemma SplitKeyValueShape(line: String)
    ensures var kv := SplitKeyValue(line);
      && EQUALS[0] !in kv.key
      && (kv.rest.Some? ==> line == kv.key + EQUALS + kv.rest.value)
      && (kv.rest.None? <==> EQUALS[0] !in line)
  {
    var kv := SplitKeyValue(line);
    match IndexOfFrom(line, EQUALS, 0)
    case None =>
      forall k | 0 <= k < |line|
        ensures line[k] != EQUALS[0]
      {
        assert !OccursAt(line, EQUALS, k);
        assert line[k..k + 1] == [line[k]];
      }
    case Some(i) =>
      forall k | 0 <= k < i
        ensures kv.key[k] != EQUALS[0]
      {
        assert !OccursAt(line, EQUALS, k);
        assert line[k..k + 1] == [line[k]];
      }
      assert line[i..i + 1] == EQUALS;
      assert line == line[..i] + EQUALS + line[i + 1..];
  }

  /** SplitKeyValue is String.split("=", 2). */
  lemma SplitKeyValueIsSplit(line: String)
    ensures var kv := SplitKeyValue(line);
      Regex.SplitOnce(Regex.Literal(EQUALS), line) == if kv.rest.None? then [kv.key] else [kv.key, kv.rest.value]
  {
    Regex.FindLiteral(EQUALS, line, 0);
  }

  /** A key without '=' and any rest come back from the line they make. */
  lemma SplitKeyValueOf(key: String, rest: String)
    requires EQUALS[0] !in key
    ensures SplitKeyValue(key + EQUALS + rest) == KeyValue(key, Some(rest))
  {
    var line := key + EQUALS + rest;
    forall k | 0 <= k < |key|
      ensures !OccursAt(line, EQUALS, k)
    {
      assert line[k..k + 1] == [key[k]];
    }
    assert OccursAt(line, EQUALS, |key|);
    assert line[..|key|] == key && line[|key| + 1..] == rest;
  }

  /** The value: every " \" removed, then trimmed. */
  function CleanValue(rest: String): String
  {
    Trim(Replace(rest, CONTINUATION, []))
  }

  /** HashMap.get: null for a missing key. */
  function Get(m: Properties, k: String): Option<String>
  {
    if k in m then m[k] else None
  }

  /** A value as string concatenation prints it. */
  function NullText(v: Option<String>): String
  {
    if v.Some? then v.value else NULL_TEXT
  }

  // ---------------------------------------------------------------------
  // The line loop
  // ---------------------------------------------------------------------

  /** The loop's state: the properties so far and the key a keyless line would continue. */
  datatype Reading = Reading(resources: Properties, lastKey: Option<String>)

  const Start: Reading := Reading(map[], None)

  /** The lines the loop passes over: empty ones, and comment lines where comments are skipped. */
  predicate Skipped(line: String, skipComments: bool)
  {
    line == [] || (skipComments && StartsWith(line, COMMENT))
  }

  /** One turn of the loop. */
  function Step(st: Reading, line: String, skipComments: bool): Reading
  {
    if Skipped(line, skipComments) then st
    else
      var kv := SplitKeyValue(line);
      if kv.rest.None? && st.lastKey.Some? then
        var k := st.lastKey.value;
        Reading(st.resources[k := Some(NullText(Get(st.resources, k)) + kv.key)], None)
      else
        Reading(st.resources[kv.key := if kv.rest.Some? then Some(CleanValue(kv.rest.value)) else None], Some(kv.key))
  }

  /** The state after the loop has read lines in order. */
  function Parse(lines: seq<String>, skipComments: bool): Reading
  {
    if |lines| == 0 then Start
    else Step(Parse(lines[..|lines| - 1], skipComments), lines[|lines| - 1], skipComments)
  }

  /**
   * The line loop of readPropertiesResource / parsePropertiesData: the map
   * it builds is the one the lines determine.
   */
  method ParseProperties(lines: seq<String>, skipComments: bool) returns (resources: Properties)
    ensures resources == Parse(lines, skipComments).resources
  {
    resources := map[];
    var lastKey: Option<String> := None;
    for i := 0 to |lines|
      invariant Reading(resources, lastKey) == Parse(lines[..i], skipComments)
    {
      var line := lines[i];
      assert lines[..i + 1][..i] == lines[..i];
      if !(line == []) && !(skipComments && StartsWith(line, COMMENT)) {
        var kv := SplitKeyValue(line);
        var value := if kv.rest.Some? then Some(CleanValue(kv.rest.value)) else None;
        if value.None? && lastKey.Some? {
          var lastVal := Get(resources, lastKey.value);
          resources := resources[lastKey.value := Some(NullText(lastVal) + kv.key)];
          lastKey := None;
        } else {
          resources := resources[kv.key := value];
          lastKey := Some(kv.key);
        }
      }
    }
    assert lines[..|lines|] == lines;
  }

  /** readPropertiesResource: a missing resource reaches the reader as null and throws NullPointerException. */
  method ReadPropertiesResource(resource: Option<seq<String>>) returns (r: Result<Properties>)
    ensures resource.None? ==> r == Fail(NullPointer)
    ensures resource.Some? ==> r == Ok(Parse(resource.value, false).resources)
  {
    if resource.None? {
      return Fail(NullPointer);
    }
    var resources := ParseProperties(resource.value, false);
    r := Ok(resources);
  }

  // ---------------------------------------------------------------------
  // What the loop promises
  // ---------------------------------------------------------------------

  /** The keys of the lines the loop reads. */
  function LineKeys(lines: seq<String>, skipComments: bool): set<String>
  {
    set i | 0 <= i < |lines| && !Skipped(lines[i], skipComments) :: SplitKeyValue(lines[i]).key
  }

  /** Every key read is the key of a line, and a pending key is already stored. */
  lemma {:induction false} KeysComeFromLines(lines: seq<String>, skipComments: bool)
    ensures Parse(lines, skipComments).resources.Keys <= LineKeys(lines, skipComments)
    ensures Parse(lines, skipComments).lastKey.Some? ==>
      Parse(lines, skipComments).lastKey.value in Parse(lines, skipComments).resources
  {
    if |lines| > 0 {
      var init := lines[..|lines| - 1];
      var line := lines[|lines| - 1];
      KeysComeFromLines(init, skipComments);
      assert forall i :: 0 <= i < |init| ==> init[i] == lines[i];
      assert LineKeys(init, skipComments) <= LineKeys(lines, skipComments);
      if !Skipped(line, skipComments) {
        assert SplitKeyValue(line).key in LineKeys(lines, skipComments);
      }
    }
  }

  /** Every line with an '=' leaves its key stored: keys are never removed. */
  lemma {:induction false} KeyedLinesStored(lines: seq<String>, skipComments: bool, i: nat)
    requires i < |lines| && !Skipped(lines[i], skipComments) && SplitKeyValue(lines[i]).rest.Some?
    ensures SplitKeyValue(lines[i]).key in Parse(lines, skipComments).resources
  {
    var init := lines[..|lines| - 1];
    if i < |lines| - 1 {
      assert init[i] == lines[i];
      KeyedLinesStored(init, skipComments, i);
    }
  }

  /** A line with an '=' sets its key to its cleaned value, whatever an earlier line set. */
  lemma LastAssignmentWins(lines: seq<String>, key: String, rest: String, skipComments: bool)
    requires EQUALS[0] !in key && !Skipped(key + EQUALS + rest, skipComments)
    ensures var st := Parse(lines + [key + EQUALS + rest], skipComments);
      Get(st.resources, key) == Some(CleanValue(rest)) && st.lastKey == Some(key)
  {
    SplitKeyValueOf(key, rest);
    assert (lines + [key + EQUALS + rest])[..|lines|] == lines;
  }

  /**
   * At most one continuation line per key: after "key=rest", a keyless line
   * a is appended to the value, and the next keyless line b is a key of its
   * own with a null value.
   */
  lemma OneContinuation(lines: seq<String>, key: String, rest: String, a: String, b: String, skipComments: bool)
    requires EQUALS[0] !in key && !Skipped(key + EQUALS + rest, skipComments)
    requires EQUALS[0] !in a && !Skipped(a, skipComments)
    requires EQUALS[0] !in b && !Skipped(b, skipComments)
    ensures var st := Parse(lines + [key + EQUALS + rest, a, b], skipComments);
      && Get(st.resources, key) == (if key == b then None else Some(CleanValue(rest) + a))
      && Get(st.resources, b) == None
      && st.lastKey == Some(b)
  {
    var all := lines + [key + EQUALS + rest, a, b];
    LastAssignmentWins(lines, key, rest, skipComments);
    SplitKeyValueShape(a);
    SplitKeyValueShape(b);
    assert all[..|all| - 1] == lines + [key + EQUALS + rest, a];
    assert (lines + [key + EQUALS + rest, a])[..|lines| + 1] == lines + [key + EQUALS + rest];
  }

  /**
   * A keyless line with no line to continue is stored with a null value, and
   * a keyless line after it is appended to "null".
   */
  lemma NullValueContinued(lines: seq<String>, a: String, b: String, skipComments: bool)
    requires Parse(lines, skipComments).lastKey.None?
    requires EQUALS[0] !in a && !Skipped(a, skipComments)
    requires EQUALS[0] !in b && !Skipped(b, skipComments)
    ensures Get(Parse(lines + [a], skipComments).resources, a) == None
    ensures Get(Parse(lines + [a, b], skipComments).resources, a) == Some(NULL_TEXT + b)
  {
    SplitKeyValueShape(a);
    SplitKeyValueShape(b);
    assert (lines + [a])[..|lines|] == lines;
    assert (lines + [a, b])[..|lines| + 1] == lines + [a];
  }

  /** The lines that are not comments. */
  function WithoutComments(lines: seq<String>): (r: seq<String>)
    ensures |r| <= |lines|
  {
    if |lines| == 0 then []
    else
      var init := WithoutComments(lines[..|lines| - 1]);
      if StartsWith(lines[|lines| - 1], COMMENT) then init else init + [lines[|lines| - 1]]
  }

  /** Skipping comment lines is reading the lines with the comments taken out. */
  lemma {:induction false} SkippingIsRemoving(lines: seq<String>)
    ensures Parse(lines, true) == Parse(WithoutComments(lines), false)
  {
    if |lines| > 0 {
      var init := lines[..|lines| - 1];
      var line := lines[|lines| - 1];
      SkippingIsRemoving(init);
      if !StartsWith(line, COMMENT) {
        var w := WithoutComments(init) + [line];
        assert w[..|w| - 1] == WithoutComments(init);
      }
    }
  }

  /** Empty lines at the end change nothing. */
  lemma {:induction false} TrailingEmptyIgnored(lines: seq<String>, skipComments: bool)
    ensures Parse(Regex.StripTrailingEmpty(lines), skipComments) == Parse(lines, skipComments)
  {
    if |lines| > 0 && lines[|lines| - 1] == [] {
      TrailingEmptyIgnored(lines[..|lines| - 1], skipComments);
    }
  }

  // ---------------------------------------------------------------------
  // Field names and values (mapPropertiesToClass)
  // ---------------------------------------------------------------------

  /** The first character of a word upper-cased. */
  function Capitalized(w: String): (r: String)
    ensures |r| == |w|
  {
    if |w| == 0 then [] else [UpperChar(w[0])] + w[1..]
  }

  /** The later words, each capitalised, empty ones contributing nothing. */
  function CamelTail(words: seq<String>): String
  {
    if |words| == 0 then [] else CamelTail(words[..|words| - 1]) + Capitalized(words[|words| - 1])
  }

  /**
   * dashToCamelCase: the words between dashes, the first kept and the others
   * capitalised. A text of dashes only splits into no words, and reading the
   * first word throws.
   */
  function CamelCase(str: String): Result<String>
  {
    var words := Regex.SplitChar(DASH, str);
    if |words| == 0 then Fail(IndexOutOfBounds) else Ok(words[0] + CamelTail(words[1..]))
  }

  lemma {:induction false} JoinEmptySnoc(parts: seq<String>, x: String)
    requires |parts| > 0
    ensures Join(parts + [x], []) == Join(parts, []) + x
  {
    if |parts| > 1 {
      JoinEmptySnoc(parts[1..], x);
      assert (parts + [x])[1..] == parts[1..] + [x];
    }
  }

  /** The camel text of the words up to i + 1 extends the one up to i by the capitalised word i. */
  lemma CamelTailStep(words: seq<String>, i: nat)
    requires 1 <= i < |words|
    ensures words[0] + CamelTail(words[1..i + 1]) == words[0] + CamelTail(words[1..i]) + Capitalized(words[i])
  {
    assert words[1..i + 1][..i - 1] == words[1..i];
    ConcatAssoc(words[0], CamelTail(words[1..i]), Capitalized(words[i]));
  }

  /** dashToCamelCase: its list of camel words, joined. */
  method DashToCamelCase(str: String) returns (r: Result<String>)
    ensures r == CamelCase(str)
  {
    var words := Regex.SplitChar(DASH, str);
    if |words| == 0 {
      return Fail(IndexOutOfBounds);
    }
    var camelWords: seq<String> := [words[0]];
    assert words[1..1] == [];
    for i := 1 to |words|
      invariant |camelWords| > 0
      invariant Join(camelWords, []) == words[0] + CamelTail(words[1..i])
    {
      var word := words[i];
      CamelTailStep(words, i);
      if word != [] {
        var firstLetter := [UpperChar(word[0])];
        JoinEmptySnoc(camelWords, firstLetter + word[1..]);
        camelWords := camelWords + [firstLetter + word[1..]];
      }
    }
    assert words[1..|words|] == words[1..];
    r := Ok(Join(camelWords, []));
  }

  /** A text without dashes is its own field name. */
  lemma CamelCaseNoDash(str: String)
    requires DASH !in str
    ensures CamelCase(str) == Ok(str)
  {
    var words := Regex.SplitChar(DASH, str);
    assert words == [str];
    assert words[1..] == [];
    assert CamelTail(words[1..]) == [];
    assert words[0] + CamelTail(words[1..]) == str;
  }

  /** No piece of a split holds the separator. */
  lemma {:induction false} CharPiecesFree(c: char, s: String)
    ensures forall k :: 0 <= k < |Regex.CharPieces(c, s)| ==> c !in Regex.CharPieces(c, s)[k]
  {
    if |s| > 0 {
      CharPiecesFree(c, s[1..]);
    }
  }

  lemma {:induction false} CamelTailFree(words: seq<String>)
    requires forall k :: 0 <= k < |words| ==> DASH !in words[k]
    ensures DASH !in CamelTail(words)
  {
    if |words| > 0 {
      CamelTailFree(words[..|words| - 1]);
      var w := words[|words| - 1];
      if |w| > 0 {
        assert w[0] != DASH;
      }
    }
  }

  /** A field name holds no dash. */
  lemma CamelCaseDashFree(str: String)
    requires CamelCase(str).Ok?
    ensures DASH !in CamelCase(str).value
  {
    var words := Regex.SplitChar(DASH, str);
    if DASH in str {
      CharPiecesFree(DASH, str);
    }
    CamelTailFree(words[1..]);
  }

  /** Two words: the second one capitalised and glued to the first. */
  lemma CamelCaseTwoWords(x: String, y: String)
    requires DASH !in x && DASH !in y && y != []
    ensures CamelCase(x + [DASH] + y) == Ok(x + Capitalized(y))
  {
    Regex.SplitCharIsSplit(DASH, x + [DASH] + y);
    Regex.SplitAtOnly(DASH, x, y);
    var words := Regex.SplitChar(DASH, x + [DASH] + y);
    assert words == [x, y];
    assert words[1..] == [y];
    assert [y][..0] == [];
    assert CamelTail([y]) == Capitalized(y);
  }

  /** The pieces of a text of dashes only are all empty. */
  lemma {:induction false} DashPiecesEmpty(s: String)
    requires forall i :: 0 <= i < |s| ==> s[i] == DASH
    ensures forall k :: 0 <= k < |Regex.CharPieces(DASH, s)| ==> Regex.CharPieces(DASH, s)[k] == []
  {
    if |s| > 0 {
      DashPiecesEmpty(s[1..]);
    }
  }

  lemma {:induction false} StripAllEmpty(parts: seq<String>)
    requires forall k :: 0 <= k < |parts| ==> parts[k] == []
    ensures Regex.StripTrailingEmpty(parts) == []
  {
    if |parts| > 0 {
      StripAllEmpty(parts[..|parts| - 1]);
    }
  }

  /** A key of dashes only makes dashToCamelCase throw. */
  lemma DashesOnlyThrow(str: String)
    requires |str| > 0 && forall i :: 0 <= i < |str| ==> str[i] == DASH
    ensures CamelCase(str) == Fail(IndexOutOfBounds)
  {
    assert str[0] == DASH;
    DashPiecesEmpty(str);
    StripAllEmpty(Regex.CharPieces(DASH, str));
  }

  /** isLong: the parsed long, or null when the text is null or not a long. */
  function IsLong(str: Option<String>): (r: Option<int>)
    ensures r.Some? ==> LONG_MIN <= r.value <= LONG_MAX
    ensures str.None? ==> r.None?
  {
    if str.None? then None else ParseLong(str.value)
  }

  /** A printed long reads back as itself. */
  lemma IsLongPrinted(n: int)
    requires LONG_MIN <= n <= LONG_MAX
    ensures IsLong(Some(IntToString(n))) == Some(n)
  {
    ParsePrinted(n, LONG_MIN, LONG_MAX);
  }

  /**
   * The field a property names, or none for a comment key. A key that starts
   * with the prefix loses every occurrence of "prefix."; dashToCamelCase may
   * throw.
   */
  function FieldName(prop: String, prefix: Option<String>): Result<Option<String>>
  {
    if StartsWith(prop, COMMENT) then Ok(None)
    else
      var key := if prefix.Some? && StartsWith(prop, prefix.value) then Replace(prop, prefix.value + ".", []) else prop;
      var name :- CamelCase(key);
      Ok(Some(name))
  }

  /** Removing "p." from "p." + name leaves name, when name holds no "p." of its own. */
  lemma StripPrefix(p: String, name: String)
    requires !Contains(name, p + ".")
    ensures Replace(p + "." + name, p + ".", []) == name
  {
    var s := p + "." + name;
    var t := p + ".";
    assert s == t + name;
    assert OccursAt(s, t, 0);
    assert s[|t|..] == name;
    ReplaceAbsent(name, t, []);
  }

  /** A key "prefix.name" names the same field as the bare key name. */
  lemma FieldNameStripsPrefix(p: String, name: String)
    requires !StartsWith(p + "." + name, COMMENT) && !StartsWith(name, COMMENT) && !Contains(name, p + ".")
    ensures FieldName(p + "." + name, Some(p)) == FieldName(name, None)
  {
    assert StartsWith(p + "." + name, p) by {
      assert (p + "." + name)[..|p|] == p;
    }
    StripPrefix(p, name);
  }

  /** A comment key names no field. */
  lemma CommentNamesNoField(prop: String, prefix: Option<String>)
    requires StartsWith(prop, COMMENT)
    ensures FieldName(prop, prefix) == Ok(None)
  {
  }

  /** What a field is set to: a long when the value parses as one, the text otherwise. */
  datatype FieldValue = LongValue(n: int) | TextValue(text: Option<String>)

  /** The value mapPropertiesToClass sets: a null value is set as null. */
  function ValueOf(val: Option<String>): (v: FieldValue)
    ensures v.TextValue? ==> v.text == val
    ensures v.LongValue? <==> IsLong(val).Some?
  {
    match IsLong(val)
    case Some(n) => LongValue(n)
    case None => TextValue(val)
  }

  /**
   * The value the later copies set, through Objects.requireNonNullElse(long,
   * value): a value that is neither a long nor present throws
   * NullPointerException.
   */
  function RequiredValueOf(val: Option<String>): (v: Result<FieldValue>)
    ensures v.Fail? <==> val.None?
    ensures v.Ok? ==> v.value == ValueOf(val)
  {
    match IsLong(val)
    case Some(n) => Ok(LongValue(n))
    case None => if val.None? then Fail(NullPointer) else Ok(TextValue(val))
  }

  // ---------------------------------------------------------------------
  // Lines joined with '\n' and split again (the later copies read the
  // resource as one text)
  // ---------------------------------------------------------------------

  /** A text without c is one piece. */
  lemma {:induction false} CharPiecesWithout(c: char, a: String)
    requires c !in a
    ensures Regex.CharPieces(c, a) == [a]
  {
    if |a| > 0 {
      CharPiecesWithout(c, a[1..]);
      assert [a[0]] + a[1..] == a;
    }
  }

  /** A separator after a c-free text closes that text as the first piece. */
  lemma {:induction false} CharPiecesGlue(c: char, a: String, b: String)
    requires c !in a
    ensures Regex.CharPieces(c, a + [c] + b) == [a] + Regex.CharPieces(c, b)
  {
    var s := a + [c] + b;
    if |a| == 0 {
      assert s == [c] + b;
      assert s[1..] == b;
    } else {
      CharPiecesGlue(c, a[1..], b);
      assert s[1..] == a[1..] + [c] + b;
      assert [a[0]] + a[1..] == a;
    }
  }

  /** Splitting lines joined with c into pieces gives the lines back. */
  lemma {:induction false} CharPiecesOfJoin(c: char, lines: seq<String>)
    requires |lines| >= 1 && forall k :: 0 <= k < |lines| ==> c !in lines[k]
    ensures Regex.CharPieces(c, Join(lines, [c])) == lines
  {
    if |lines| == 1 {
      CharPiecesWithout(c, lines[0]);
    } else {
      CharPiecesOfJoin(c, lines[1..]);
      CharPiecesGlue(c, lines[0], Join(lines[1..], [c]));
      assert [lines[0]] + lines[1..] == lines;
    }
  }

  /**
   * Reading lines joined with '\n' and split again on '\n' reads the lines
   * themselves: only empty lines can be lost, and those are skipped.
   */
  lemma ParseJoinedLines(lines: seq<String>, skipComments: bool)
    requires forall k :: 0 <= k < |lines| ==> NEWLINE !in lines[k]
    ensures Parse(Regex.SplitChar(NEWLINE, Join(lines, [NEWLINE])), skipComments) == Parse(lines, skipComments)
  {
    var text := Join(lines, [NEWLINE]);
    if |lines| == 0 {
      var pieces: seq<String> := [[]];
      assert Regex.SplitChar(NEWLINE, text) == pieces;
      assert pieces[..0] == [];
    } else {
      CharPiecesOfJoin(NEWLINE, lines);
      if |lines| >= 2 {
        assert text[|lines[0]|] == NEWLINE;
      }
      TrailingEmptyIgnored(lines, skipComments);
    }
  }
}
