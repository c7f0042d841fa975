/**
 * The test-side copy of the reader, src/test/java/self/me/matchday/util/ResourceFileReader.java.
 * It reads the resource as one text, its lines joined with '\n'; a missing
 * resource makes readTextResource return null, and parsing that null throws
 * NullPointerException. Comment lines are not skipped while parsing; comment
 * keys are skipped only when fields are named.
 */
module TestResourceFileReader {
  import opened Outcome
  import opened JavaString
  import Regex
  import opened ResourceFileReader

  /** readTextResource: null for a missing resource (the exception is caught), else its lines joined with '\n'. */
  function ReadTextResource(resource: Option<seq<String>>): (r: Option<String>)
    ensures r.None? <==> resource.None?
  {
    if resource.None? then None else Some(Join(resource.value, [NEWLINE]))
  }

  /** parsePropertiesData: the text split on '\n', then the line loop, comment lines kept. */
  method ParsePropertiesData(data: String) returns (resources: Properties)
    ensures resources == Parse(Regex.SplitChar(NEWLINE, data), false).resources
  {
    var lines := Regex.SplitChar(NEWLINE, data);
    resources := ParseProperties(lines, false);
  }

  /** readPropertiesResource: NullPointerException for a missing resource, else the parsed lines. */
  method ReadPropertiesResource(resource: Option<seq<String>>) returns (r: Result<Properties>)
    requires resource.Some? ==> forall k :: 0 <= k < |resource.value| ==> NEWLINE !in resource.value[k]
    ensures r.Fail? <==> resource.None?
    ensures r.Fail? ==> r.error == NullPointer
    ensures r.Ok? ==> r.value == Parse(resource.value, false).resources
  {
    var data := ReadTextResource(resource);
    if data.None? {
      return Fail(NullPointer);
    }
    var resources := ParsePropertiesData(data.value);
    ParseJoinedLines(resource.value, false);
    r := Ok(resources);
  }
}
