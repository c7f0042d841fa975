/**
 * The FileFox page classifier, first copy
 * (src/main/java/self/me/matchday/plugin/fileserver/filefox/PageEvaluator.java),
 * together with the view of a page that both copies read.
 *
 * Jsoup's parse is not modelled: a page is given as what the classifier
 * reads of it (its text, the text of the navigation bar, the texts of the
 * default buttons, its forms with their action and hidden inputs, its links
 * and the text of the traffic bar). The plugin properties are a record; its
 * two patterns are matchers. Whether a text is a valid URI or URL is a
 * parameter. FileFoxPage.java is not part of this model: a page kind
 * carries only the fields the classifier sets, unset ones being None.
 */
module PageEvaluator {
  import opened Outcome
  import opened JavaString
  import opened Regex

  /** An anchor element: its href attribute, when it has one. */
  datatype Link = Link(href: Option<String>)

  /** A hidden input: its name and value attributes, "" when absent, as Element.attr reads them. */
  datatype HiddenInput = HiddenInput(name: String, value: String)

  /** A form: its action attribute ("" when absent) and its hidden inputs in document order. */
  datatype Form = Form(action: String, hiddenInputs: seq<HiddenInput>)

  /** What the classifier reads of a parsed page. */
  datatype PageView = PageView(text: String, navBarText: String, buttonTexts: seq<String>,
                               forms: seq<Form>, links: seq<Link>, trafficBarText: String)

  /** The plugin properties the classifier uses. */
  datatype PluginProperties = PluginProperties(loggedOutText: String, premiumOnlyError: String,
                                               linkButtonText: String, profilePageText: String,
                                               downloadLimitPattern: Matcher, directDownloadUrlPattern: Matcher)

  /** The page kinds, each with the fields the classifier may set. */
  datatype FileFoxPage =
    | Login(text: Option<String>)
    | DownloadLanding(loggedIn: bool, premium: bool, ddlSubmitUri: Option<String>,
                      hiddenQueryParams: Option<seq<HiddenInput>>, text: Option<String>)
    | DirectDownload(ddlUrl: String, text: Option<String>)
    | Invalid(error: Option<String>, text: Option<String>)
    | Profile(premium: bool, trafficAvailable: Option<real>, pageText: String)

  /** The page getFileFoxPage returns when classification throws. */
  const Unclassified: FileFoxPage := Invalid(None, None)

  // ---------------------------------------------------------------------
  // getHiddenQueryParams: the hidden inputs of the first form, put into a LinkedHashMap
  // ---------------------------------------------------------------------

  /** The value a LinkedHashMap, held as its entries in insertion order, has under a key. */
  function Lookup(entries: seq<HiddenInput>, key: String): (r: Option<String>)
    ensures r.Some? ==> exists k :: 0 <= k < |entries| && entries[k].name == key && entries[k].value == r.value
    ensures r.None? <==> forall k :: 0 <= k < |entries| ==> entries[k].name != key
  {
    if entries == [] then None
    else if entries[0].name == key then Some(entries[0].value)
    else
      var r := Lookup(entries[1..], key);
      assert forall k :: 1 <= k < |entries| ==> entries[k] == entries[1..][k - 1];
      r
  }

  /** No two entries share a name: the entries are a map. */
  predicate DistinctNames(entries: seq<HiddenInput>)
  {
    forall i, j :: 0 <= i < j < |entries| ==> entries[i].name != entries[j].name
  }

  /** LinkedHashMap.put: a present key keeps its place and takes the new value; a new key goes last. */
  function Put(entries: seq<HiddenInput>, name: String, value: String): (r: seq<HiddenInput>)
    ensures |r| == if Lookup(entries, name).Some? then |entries| else |entries| + 1
  {
    if entries == [] then [HiddenInput(name, value)]
    else if entries[0].name == name then [HiddenInput(name, value)] + entries[1..]
    else [entries[0]] + Put(entries[1..], name, value)
  }

  /** Put makes the key map to the new value and leaves every other key as it was. */
  lemma {:induction false} PutLookup(entries: seq<HiddenInput>, name: String, value: String, key: String)
    ensures Lookup(Put(entries, name, value), key) == if key == name then Some(value) else Lookup(entries, key)
  {
    if entries != [] && entries[0].name != name {
      PutLookup(entries[1..], name, value, key);
    }
  }

  /** Put keeps the names distinct. */
  lemma {:induction false} PutDistinct(entries: seq<HiddenInput>, name: String, value: String)
    requires DistinctNames(entries)
    ensures DistinctNames(Put(entries, name, value))
  {
    if entries != [] && entries[0].name != name {
      var rest := entries[1..];
      PutDistinct(rest, name, value);
      var r := Put(entries, name, value);
      PutLookup(rest, name, value, entries[0].name);
      assert Lookup(rest, entries[0].name).None?;
      forall j | 0 < j < |r| ensures r[j].name != entries[0].name {
        assert r[j] == Put(rest, name, value)[j - 1];
      }
    }
  }

  /** The map the inputs give when put in order, each entry overwriting an earlier one of the same name. */
  function PutAll(inputs: seq<HiddenInput>): (r: seq<HiddenInput>)
    decreases |inputs|
  {
    if inputs == [] then [] else Put(PutAll(inputs[..|inputs| - 1]), inputs[|inputs| - 1].name, inputs[|inputs| - 1].value)
  }

  /** The value of the last input of a name, scanning from the end. */
  function LastValue(inputs: seq<HiddenInput>, name: String): (r: Option<String>)
    ensures r.None? <==> forall k :: 0 <= k < |inputs| ==> inputs[k].name != name
    decreases |inputs|
  {
    if inputs == [] then None
    else if inputs[|inputs| - 1].name == name then Some(inputs[|inputs| - 1].value)
    else
      var r := LastValue(inputs[..|inputs| - 1], name);
      assert forall k :: 0 <= k < |inputs| - 1 ==> inputs[k] == inputs[..|inputs| - 1][k];
      r
  }

  /** The hidden parameters hold one entry per input name, whose value is the last input of that name. */
  lemma {:induction false} PutAllIsLastValue(inputs: seq<HiddenInput>)
    ensures DistinctNames(PutAll(inputs))
    ensures forall name :: Lookup(PutAll(inputs), name) == LastValue(inputs, name)
    decreases |inputs|
  {
    if inputs != [] {
      var init := inputs[..|inputs| - 1];
      var last := inputs[|inputs| - 1];
      PutAllIsLastValue(init);
      PutDistinct(PutAll(init), last.name, last.value);
      forall name ensures Lookup(PutAll(inputs), name) == LastValue(inputs, name) {
        PutLookup(PutAll(init), last.name, last.value, name);
      }
    }
  }

  /**
   * getHiddenQueryParams: IndexOutOfBoundsException on a page without a
   * form; otherwise the first form's hidden inputs put into the map in
   * order.
   */
  method GetHiddenQueryParams(forms: seq<Form>) returns (r: Result<seq<HiddenInput>>)
    ensures forms == [] <==> r == Fail(IndexOutOfBounds)
    ensures forms != [] ==> r == Ok(PutAll(forms[0].hiddenInputs))
  {
    if forms == [] {
      return Fail(IndexOutOfBounds);
    }
    var inputs := forms[0].hiddenInputs;
    var hiddenValues: seq<HiddenInput> := [];
    var i := 0;
    while i < |inputs|
      invariant i <= |inputs|
      invariant hiddenValues == PutAll(inputs[..i])
    {
      assert inputs[..i + 1][..i] == inputs[..i];
      hiddenValues := Put(hiddenValues, inputs[i].name, inputs[i].value);
      i := i + 1;
    }
    assert inputs[..i] == inputs;
    return Ok(hiddenValues);
  }

  /** The hidden parameters as a function, for the classifier. */
  function HiddenQueryParams(forms: seq<Form>): (r: Result<seq<HiddenInput>>)
    ensures r.Fail? <==> forms == []
    ensures r.Fail? ==> r.error == IndexOutOfBounds
  {
    if forms == [] then Fail(IndexOutOfBounds) else Ok(PutAll(forms[0].hiddenInputs))
  }

  // ---------------------------------------------------------------------
  // getHiddenFormUri and getDirectDownloadUrl
  // ---------------------------------------------------------------------

  /**
   * getHiddenFormUri: the action of the first form as a URI;
   * IllegalArgumentException without a form, URISyntaxException for an
   * action that is not a URI.
   */
  function HiddenFormUri(forms: seq<Form>, validUri: String -> bool): (r: Result<String>)
    ensures forms == [] ==> r == Fail(IllegalArgument)
    ensures forms != [] && !validUri(forms[0].action) ==> r == Fail(UriSyntax)
    ensures forms != [] && validUri(forms[0].action) ==> r == Ok(forms[0].action)
  {
    if forms == [] then Fail(IllegalArgument)
    else if validUri(forms[0].action) then Ok(forms[0].action)
    else Fail(UriSyntax)
  }

  /** isDirectDownloadLink: the link has an href in which the direct-download pattern is found. */
  predicate IsDirectDownloadLink(props: PluginProperties, link: Link)
  {
    link.href.Some? && Found(props.directDownloadUrlPattern, link.href.value)
  }

  /** The first direct-download link. */
  function FirstDirectDownloadLink(props: PluginProperties, links: seq<Link>): (r: Option<nat>)
    ensures r.None? <==> forall k :: 0 <= k < |links| ==> !IsDirectDownloadLink(props, links[k])
    ensures r.Some? ==> r.value < |links| && IsDirectDownloadLink(props, links[r.value])
                        && forall k :: 0 <= k < r.value ==> !IsDirectDownloadLink(props, links[k])
  {
    if links == [] then None
    else if IsDirectDownloadLink(props, links[0]) then Some(0)
    else
      var r := FirstDirectDownloadLink(props, links[1..]);
      assert forall k :: 1 <= k < |links| ==> links[k] == links[1..][k - 1];
      if r.None? then None else Some(r.value + 1)
  }

  /**
   * getDirectDownloadUrl: the href of the first direct-download link as a
   * URL, none without such a link; a malformed URL throws.
   */
  function DirectDownloadUrl(props: PluginProperties, links: seq<Link>, validUrl: String -> bool)
    : (r: Result<Option<String>>)
    ensures r == Ok(None) <==> FirstDirectDownloadLink(props, links).None?
    ensures r.Ok? && r.value.Some? ==>
              r.value.value == links[FirstDirectDownloadLink(props, links).value].href.value && validUrl(r.value.value)
    ensures r.Fail? ==> r.error == MalformedUrl && !validUrl(links[FirstDirectDownloadLink(props, links).value].href.value)
  {
    match FirstDirectDownloadLink(props, links)
    case None => Ok(None)
    case Some(k) =>
      var href := links[k].href.value;
      if validUrl(href) then Ok(Some(href)) else Fail(MalformedUrl)
  }

  /** Some default button reads the link-button text, ignoring case. */
  predicate HasLinkButton(props: PluginProperties, buttonTexts: seq<String>)
  {
    exists k :: 0 <= k < |buttonTexts| && EqualsIgnoreCase(buttonTexts[k], props.linkButtonText)
  }

  /** The text the download-limit pattern first matches in the page text. */
  function DownloadLimitMatch(props: PluginProperties, text: String): (r: Option<String>)
    ensures r.None? <==> !Found(props.downloadLimitPattern, text)
  {
    FoundIff(props.downloadLimitPattern, text);
    match Find(props.downloadLimitPattern, text, 0)
    case None => None
    case Some(sp) => Some(text[sp.start..sp.end])
  }

  // ---------------------------------------------------------------------
  // getPageType / getFileFoxPage
  // ---------------------------------------------------------------------

  /**
   * getPageType: the direct-download URL is looked up first; then, in
   * order, the logged-out text in the navigation bar gives a login page,
   * the premium-only error a landing page for a free account, a download
   * limit an invalid page carrying the limit text, a link button a premium
   * landing page with the first form's hidden parameters and action, a
   * direct-download link a direct-download page, and anything else an
   * invalid page.
   */
  function PageType(props: PluginProperties, page: PageView, validUri: String -> bool, validUrl: String -> bool)
    : (r: Result<FileFoxPage>)
    ensures DirectDownloadUrl(props, page.links, validUrl).Fail? ==> r.Fail?
    ensures r.Ok? ==> !r.value.Profile?
  {
    var ddlUrl :- DirectDownloadUrl(props, page.links, validUrl);
    if Contains(page.navBarText, props.loggedOutText) then Ok(Login(None))
    else if Contains(page.text, props.premiumOnlyError) then Ok(DownloadLanding(true, false, None, None, None))
    else if DownloadLimitMatch(props, page.text).Some? then
      Ok(Invalid(DownloadLimitMatch(props, page.text), None))
    else if HasLinkButton(props, page.buttonTexts) then
      var queryParams :- HiddenQueryParams(page.forms);
      var ddlSubmitUri :- HiddenFormUri(page.forms, validUri);
      Ok(DownloadLanding(true, true, Some(ddlSubmitUri), Some(queryParams), None))
    else if ddlUrl.Some? then Ok(DirectDownload(ddlUrl.value, None))
    else Ok(Unclassified)
  }

  /** getFileFoxPage: the page type, or a bare invalid page when classifying throws. */
  function GetFileFoxPage(props: PluginProperties, page: PageView, validUri: String -> bool, validUrl: String -> bool)
    : (r: FileFoxPage)
    ensures !r.Profile?
  {
    match PageType(props, page, validUri, validUrl)
    case Ok(p) => p
    case Fail(_) => Unclassified
  }

  /** A malformed direct-download link makes every page unclassified, a login page included. */
  lemma MalformedLinkHidesPage(props: PluginProperties, page: PageView, validUri: String -> bool,
                               validUrl: String -> bool)
    requires FirstDirectDownloadLink(props, page.links).Some?
    requires !validUrl(page.links[FirstDirectDownloadLink(props, page.links).value].href.value)
    ensures GetFileFoxPage(props, page, validUri, validUrl) == Unclassified
  {
  }

  /** The logged-out text in the navigation bar wins over every later check. */
  lemma LoginFirst(props: PluginProperties, page: PageView, validUri: String -> bool, validUrl: String -> bool)
    requires DirectDownloadUrl(props, page.links, validUrl).Ok?
    requires Contains(page.navBarText, props.loggedOutText)
    ensures GetFileFoxPage(props, page, validUri, validUrl) == Login(None)
  {
  }

  /**
   * A premium landing page comes only from a page with a link button, no
   * logged-out text, no premium-only error and no download limit; its
   * submit URI is the first form's action and its parameters that form's
   * hidden inputs, the last value of each name.
   */
  lemma PremiumLandingFromFirstForm(props: PluginProperties, page: PageView, validUri: String -> bool,
                                    validUrl: String -> bool)
    requires GetFileFoxPage(props, page, validUri, validUrl).DownloadLanding?
    requires GetFileFoxPage(props, page, validUri, validUrl).premium
    ensures HasLinkButton(props, page.buttonTexts)
    ensures !Contains(page.navBarText, props.loggedOutText) && !Contains(page.text, props.premiumOnlyError)
    ensures !Found(props.downloadLimitPattern, page.text)
    ensures page.forms != [] && validUri(page.forms[0].action)
    ensures GetFileFoxPage(props, page, validUri, validUrl).ddlSubmitUri == Some(page.forms[0].action)
    ensures var params := GetFileFoxPage(props, page, validUri, validUrl).hiddenQueryParams.value;
      DistinctNames(params) && forall name :: Lookup(params, name) == LastValue(page.forms[0].hiddenInputs, name)
  {
    PutAllIsLastValue(page.forms[0].hiddenInputs);
  }

  /** A direct-download page holds the href of the first direct-download link, and only when no earlier rule applied. */
  lemma DirectDownloadIsFirstLink(props: PluginProperties, page: PageView, validUri: String -> bool,
                                  validUrl: String -> bool)
    requires GetFileFoxPage(props, page, validUri, validUrl).DirectDownload?
    ensures FirstDirectDownloadLink(props, page.links).Some?
    ensures GetFileFoxPage(props, page, validUri, validUrl).ddlUrl
            == page.links[FirstDirectDownloadLink(props, page.links).value].href.value
    ensures !HasLinkButton(props, page.buttonTexts) && !Found(props.downloadLimitPattern, page.text)
    ensures !Contains(page.navBarText, props.loggedOutText) && !Contains(page.text, props.premiumOnlyError)
  {
  }
}
