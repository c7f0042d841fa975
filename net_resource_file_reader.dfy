/**
 * The later copy of the reader, src/main/java/net/tomasbot/matchday/util/ResourceFileReader.java.
 * It reads the resource as one text, its lines joined with '\n', fails with
 * FileNotFoundException when the resource is missing, and skips comment
 * lines while parsing. Its line rules, dashToCamelCase and isLong are those
 * of the first copy.
 */
module NetResourceFileReader {
  import opened Outcome
  import opened JavaString
  import Regex
  import opened ResourceFileReader

  /** readTextResource: FileNotFoundException for a missing resource, else its lines joined with '\n'. */
  function ReadTextResource(resource: Option<seq<String>>): (r: Result<String>)
    ensures r.Fail? <==> resource.None?
    ensures r.Fail? ==> r.error == FileNotFound
  {
    if resource.None? then Fail(FileNotFound) else Ok(Join(resource.value, [NEWLINE]))
  }

  /** parsePropertiesData: the text split on '\n', then the line loop, comment lines skipped. */
  method ParsePropertiesData(data: String) returns (resources: Properties)
    ensures resources == Parse(Regex.SplitChar(NEWLINE, data), true).resources
  {
    var lines := Regex.SplitChar(NEWLINE, data);
    resources := ParseProperties(lines, true);
  }

  /** readPropertiesResource: read the text, then parse it. */
  method ReadPropertiesResource(resource: Option<seq<String>>) returns (r: Result<Properties>)
    requires resource.Some? ==> forall k :: 0 <= k < |resource.value| ==> NEWLINE !in resource.value[k]
    ensures r.Fail? <==> resource.None?
    ensures r.Fail? ==> r.error == FileNotFound
    ensures r.Ok? ==> r.value == Parse(WithoutComments(resource.value), false).resources
  {
    var text :- ReadTextResource(resource);
    var resources := ParsePropertiesData(text);
    ParseJoinedLines(resource.value, true);
    SkippingIsRemoving(resource.value);
    r := Ok(resources);
  }
}
