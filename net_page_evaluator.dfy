/**
 * The later FileFox page classifier
 * (src/main/java/net/tomasbot/matchday/plugin/fileserver/filefox/PageEvaluator.java).
 * It reads the same page view as the first copy and follows the same
 * precedence, with two differences: most pages carry the page text, and a
 * page showing the profile text, once every other rule has failed, is
 * parsed as a profile page instead of being invalid. Its default invalid
 * page carries the page text as its error.
 */
module NetPageEvaluator {
  import opened Outcome
  import opened JavaString
  import opened Regex
  import opened PageEvaluator

  /**
   * parseProfilePage: with a digit run in the traffic bar, a premium
   * profile whose available traffic is that number over 100 (an integer
   * that overflows int throws); without one, a free profile.
   */
  function ParseProfilePage(page: PageView): (r: Result<FileFoxPage>)
    ensures r.Fail? <==> FirstDigitRun(page.trafficBarText).Some? && DigitsValue(FirstDigitRun(page.trafficBarText).value) > INT_MAX
    ensures r.Fail? ==> r.error == NumberFormat
    ensures r.Ok? ==> r.value.Profile? && r.value.pageText == page.text
    ensures r.Ok? ==> (r.value.premium <==> FirstDigitRun(page.trafficBarText).Some?)
    ensures r.Ok? && r.value.premium ==>
              r.value.trafficAvailable == Some(DigitsValue(FirstDigitRun(page.trafficBarText).value) as real / 100.0)
    ensures r.Ok? && !r.value.premium ==> r.value.trafficAvailable.None?
  {
    match FirstDigitRun(page.trafficBarText)
    case None => Ok(Profile(false, None, page.text))
    case Some(digits) =>
      var traffic :- ParseIntChecked(digits);
      Ok(Profile(true, Some(traffic as real / 100.0), page.text))
  }

  /**
   * getPageType: the rules of the first copy, each page now carrying the
   * page text, then the profile rule, then an invalid page whose error is
   * the page text.
   */
  function PageType(props: PluginProperties, page: PageView, validUri: String -> bool, validUrl: String -> bool)
    : (r: Result<FileFoxPage>)
    ensures DirectDownloadUrl(props, page.links, validUrl).Fail? ==> r.Fail?
  {
    var ddlUrl :- DirectDownloadUrl(props, page.links, validUrl);
    if Contains(page.navBarText, props.loggedOutText) then Ok(Login(Some(page.text)))
    else if Contains(page.text, props.premiumOnlyError) then Ok(DownloadLanding(true, false, None, None, Some(page.text)))
    else if DownloadLimitMatch(props, page.text).Some? then
      Ok(Invalid(DownloadLimitMatch(props, page.text), Some(page.text)))
    else if HasLinkButton(props, page.buttonTexts) then
      var ddlSubmitUri :- HiddenFormUri(page.forms, validUri);
      var queryParams :- HiddenQueryParams(page.forms);
      Ok(DownloadLanding(true, true, Some(ddlSubmitUri), Some(queryParams), Some(page.text)))
    else if ddlUrl.Some? then Ok(DirectDownload(ddlUrl.value, Some(page.text)))
    else if Contains(page.text, props.profilePageText) then ParseProfilePage(page)
    else Ok(Invalid(Some(page.text), None))
  }

  /** getFileFoxPage: the page type, or a bare invalid page when classifying throws. */
  function GetFileFoxPage(props: PluginProperties, page: PageView, validUri: String -> bool, validUrl: String -> bool)
    : (r: FileFoxPage)
    ensures r.Profile? ==> Contains(page.text, props.profilePageText)
  {
    match PageType(props, page, validUri, validUrl)
    case Ok(p) => p
    case Fail(_) => Unclassified
  }

  /**
   * What the first copy makes of a page the later copy classified: the
   * texts dropped, a profile page and the page-text error of the default
   * page becoming the bare invalid page.
   */
  function Legacy(p: FileFoxPage): (r: FileFoxPage)
    ensures !r.Profile?
  {
    match p
    case Login(_) => Login(None)
    case DownloadLanding(loggedIn, premium, uri, params, _) => DownloadLanding(loggedIn, premium, uri, params, None)
    case DirectDownload(url, _) => DirectDownload(url, None)
    case Invalid(error, text) => if text.Some? then Invalid(error, None) else Unclassified
    case Profile(_, _, _) => Unclassified
  }

  /**
   * The two copies agree on every page: the first copy's page is the later
   * copy's with the texts dropped and a profile page read as invalid.
   */
  lemma AgreesWithFirstCopy(props: PluginProperties, page: PageView, validUri: String -> bool, validUrl: String -> bool)
    ensures Legacy(GetFileFoxPage(props, page, validUri, validUrl))
            == PageEvaluator.GetFileFoxPage(props, page, validUri, validUrl)
  {
  }

  /**
   * A profile page needs the profile text and none of the earlier rules to
   * apply; a page showing both the logged-out text and the profile text is a
   * login page.
   */
  lemma ProfileIsLastResort(props: PluginProperties, page: PageView, validUri: String -> bool, validUrl: String -> bool)
    requires GetFileFoxPage(props, page, validUri, validUrl).Profile?
    ensures Contains(page.text, props.profilePageText)
    ensures !Contains(page.navBarText, props.loggedOutText) && !Contains(page.text, props.premiumOnlyError)
    ensures !Found(props.downloadLimitPattern, page.text) && !HasLinkButton(props, page.buttonTexts)
    ensures DirectDownloadUrl(props, page.links, validUrl) == Ok(None)
  {
  }
}
