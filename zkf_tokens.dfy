/**
 * The elements the ZKFootball post walkers step through: a child of a
 * top-level span, with the metadata elements the selector
 * "span span[style=color: green;]" picks out of it, and the three tests a
 * walker puts to it.
 */
module ZKFTokens {
  import opened JavaString
  import opened EventFile
  import opened TokenScan
  import opened ZKFMetadata

  /** A token of the walk: the element and what the metadata selector finds in it. */
  datatype Token = Token(element: Element, metadata: seq<MetaElement>)

  /** Two underscores: the least text the pattern "___*" finds. */
  const SeparatorText: String := "__"

  /** The source-separator pattern is found in the token's text. */
  predicate IsSeparator(t: Token)
  {
    Contains(t.element.text, SeparatorText)
  }

  /**
   * isVideoLink: the href parses as a URL that the InCloudDrive URL pattern
   * finds, and the tag is exactly "a".
   */
  predicate IsVideoLink(t: Token, validUrl: String -> bool, isIcdUrl: String -> bool)
  {
    validUrl(t.element.href) && isIcdUrl(t.element.href) && t.element.tagName == "a"
  }

  /** isMetadata: a "span" in which the metadata selector finds something. */
  predicate IsMetadata(t: Token)
  {
    t.element.tagName == "span" && t.metadata != []
  }

  /** What a walker does with a token, in the order its tests are made. */
  datatype TokenKind = SeparatorToken | PartToken | LinkToken | MetadataToken | OtherToken

  /**
   * The first test the token passes: the separator ends the inner loop; then
   * a part identifier in its HTML, a video link and a metadata container
   * are tried in turn.
   */
  function KindOf(t: Token, validUrl: String -> bool, isIcdUrl: String -> bool): (k: TokenKind)
    ensures k == SeparatorToken <==> IsSeparator(t)
    ensures k == PartToken <==> !IsSeparator(t) && IsPartIdentifier(t.element.html)
    ensures k == LinkToken ==> IsVideoLink(t, validUrl, isIcdUrl) && validUrl(t.element.href)
    ensures k == MetadataToken ==> IsMetadata(t)
  {
    if IsSeparator(t) then SeparatorToken
    else if IsPartIdentifier(t.element.html) then PartToken
    else if IsVideoLink(t, validUrl, isIcdUrl) then LinkToken
    else if IsMetadata(t) then MetadataToken
    else OtherToken
  }

  /** The number of metadata containers among the tokens. */
  function MetadataCount(ts: seq<Token>, validUrl: String -> bool, isIcdUrl: String -> bool): (n: nat)
    ensures n <= |ts|
  {
    if ts == [] then 0
    else
      MetadataCount(ts[..|ts| - 1], validUrl, isIcdUrl)
      + (if KindOf(ts[|ts| - 1], validUrl, isIcdUrl) == MetadataToken then 1 else 0)
  }
}
