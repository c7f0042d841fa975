/**
 * The forum data-source plugin (plugin/datasource/forum/ForumPlugin.java).
 *
 * It reads a list page, keeps the listed events that name a competition and a
 * date, follows each new one to its own page for its file sources, and then
 * moves to the next list page by rewriting the "page" query parameter, for a
 * bounded number of pages.
 *
 * Everything outside the plugin is a parameter collected in a ForumSite: the
 * list-page reader and list parser together, the event-page reader and parser
 * together, the repository lookup, URL decoding, the iteration order of a
 * HashMap's keys, and the URL constructor's check.
 */
module ForumPlugin {
  import opened Outcome
  import opened JavaString
  import opened Regex
  import opened Domain

  /** PAGE_KEY. */
  const PageKey: String := "page"

  /** The query parameters of a URL: each key with its values in the order they appear. */
  type Params = map<String, seq<String>>

  /** An event as the list parser and the event-page parser produce it; S is the file-source type. */
  datatype ForumEvent<S> = ForumEvent(competition: Option<Competition>, date: Option<DateTime>,
                                      fileSources: set<S>)

  /** One entry of the list parser's map: the event page's URI and the event it describes. */
  datatype Listing<S> = Listing(uri: String, event: ForumEvent<S>)

  datatype ForumSite<!S> = ForumSite(
    listPage: String -> Result<seq<Listing<S>>>,     // readUrlData + EventListParser.getEventsList
    eventPage: String -> Result<Option<ForumEvent<S>>>, // uri.toURL + readUrlData + EventPageParser.getEventFrom
    known: ForumEvent<S> -> bool,                    // EventService.fetchEventLike(event).isPresent()
    decode: String -> Option<String>,                // URLDecoder.decode(_, UTF_8); None: IllegalArgumentException
    order: set<String> -> seq<String>,               // HashMap iteration order of a key set
    isUrl: String -> bool)                           // new URL(s) does not throw

  /**
   * A HashMap's iteration lists every key of the map, and has as many entries
   * as the map has keys, so it lists each key exactly once.
   */
  ghost predicate KeyOrder(order: set<String> -> seq<String>)
  {
    forall keys: set<String> ::
      |order(keys)| == |keys| && forall k :: k in keys ==> k in order(keys)
  }

  /** isValidEvent: the event names a competition and a date. */
  predicate IsValidEvent<S>(event: ForumEvent<S>)
  {
    event.competition.Some? && event.date.Some?
  }

  // ---------------------------------------------------------------------
  // getQueryParams
  // ---------------------------------------------------------------------

  /**
   * A parameter the written step can read: "=" splits it into at least one
   * part, and its key, and its value when it has one, decode.
   */
  predicate Readable(param: String, decode: String -> Option<String>)
  {
    var pair := SplitChar('=', param);
    |pair| > 0 && decode(pair[0]).Some? && (|pair| > 1 ==> decode(pair[1]).Some?)
  }

  /**
   * What the written step throws on a parameter it cannot read: reading the
   * key of a parameter made only of "=" signs is ArrayIndexOutOfBoundsException,
   * and an escape URLDecoder.decode cannot read is IllegalArgumentException.
   */
  function ParamError(param: String): Exception
  {
    if SplitChar('=', param) == [] then IndexOutOfBounds else IllegalArgument
  }

  /**
   * One parameter added to the map as written: split on "=", decode the key and
   * the value ("" without one), skip an empty key that had no "=" part, and
   * otherwise append the value to the key's list. A parameter made only of
   * "=" signs splits into no parts at all, and reading its key throws; a key or
   * value that does not decode throws from URLDecoder.decode.
   */
  function AddParamAsWritten(params: Params, param: String, decode: String -> Option<String>): (r: Result<Params>)
    ensures r.Fail? <==> !Readable(param, decode)
    ensures r.Fail? ==> r.error == ParamError(param)
    ensures r.Fail? && SplitChar('=', param) != [] ==> r.error == IllegalArgument
  {
    var pair := SplitChar('=', param);
    if |pair| == 0 then Fail(IndexOutOfBounds)
    else if decode(pair[0]).None? then Fail(IllegalArgument)
    else if |pair| > 1 && decode(pair[1]).None? then Fail(IllegalArgument)
    else
      var key := decode(pair[0]).value;
      var value := if |pair| > 1 then decode(pair[1]).value else "";
      if key == "" && |pair| == 1 then Ok(params)
      else Ok(params[key := (if key in params then params[key] else []) + [value]])
  }

  /** The parameter "=" throws as written. */
  lemma AddParamAsWrittenThrows(params: Params, decode: String -> Option<String>)
    ensures AddParamAsWritten(params, "=", decode) == Fail(IndexOutOfBounds)
  {
    var m := Literal("=");
    assert MatchEnd(m, "=", 0) == Some(1);
    assert Find(m, "=", 1).None?;
    assert "="[1..] == "";
    assert Pieces(m, "=", 1) == [""];
    assert Pieces(m, "=", 0) == ["", ""];
  }

  /** A value that does not decode, as in "?q=%zz", throws IllegalArgumentException. */
  lemma AddParamMalformedEscape(params: Params, decode: String -> Option<String>)
    requires decode("q") == Some("q") && decode("%zz").None?
    ensures AddParamAsWritten(params, "q=%zz", decode) == Fail(IllegalArgument)
  {
    assert "q=%zz" == "q" + ['='] + "%zz";
    SplitAtOnly('=', "q", "%zz");
    SplitCharIsSplit('=', "q=%zz");
  }

  /**
   * The text a decoder gives, or the text itself when it cannot decode it. The
   * intended step below is only ever compared with the written one where every
   * parameter decodes (AddParamAgrees), since both throw on an undecodable escape.
   */
  function Decoded(decode: String -> Option<String>, s: String): String
  {
    match decode(s)
    case Some(t) => t
    case None => s
  }

  /** The key, and the value or "", of a parameter that is kept; None for a parameter that is skipped. */
  function ParamPair(param: String, decode: String -> Option<String>): Option<(String, String)>
  {
    var pair := SplitChar('=', param);
    if |pair| == 0 then None
    else
      var key := Decoded(decode, pair[0]);
      var value := if |pair| > 1 then Decoded(decode, pair[1]) else "";
      if key == "" && |pair| == 1 then None else Some((key, value))
  }

  /**
   * One parameter added to the map as intended: a parameter that splits into
   * no parts is skipped like the empty one between "&&".
   */
  function AddParam(params: Params, param: String, decode: String -> Option<String>): Params
  {
    match ParamPair(param, decode)
    case None => params
    case Some((key, value)) => params[key := (if key in params then params[key] else []) + [value]]
  }

  /** A skipped parameter leaves the map alone; a kept one appends its value to its key's list only. */
  lemma AddParamEffect(params: Params, param: String, decode: String -> Option<String>)
    ensures ParamPair(param, decode).None? ==> AddParam(params, param, decode) == params
    ensures ParamPair(param, decode).Some? ==>
      var (key, value) := ParamPair(param, decode).value;
      var r := AddParam(params, param, decode);
      r.Keys == params.Keys + {key}
      && r[key] == (if key in params then params[key] else []) + [value]
      && forall k :: k in params && k != key ==> r[k] == params[k]
  {
  }

  /** Wherever the written step does not throw, the intended one gives the same map. */
  lemma AddParamAgrees(params: Params, param: String, decode: String -> Option<String>)
    requires AddParamAsWritten(params, param, decode).Ok?
    ensures AddParamAsWritten(params, param, decode).value == AddParam(params, param, decode)
  {
  }

  /** The values given for key k, in order, by the parameters that are kept. */
  function ValuesOf(ps: seq<String>, k: String, decode: String -> Option<String>): seq<String>
  {
    if |ps| == 0 then []
    else
      var last := ParamPair(ps[|ps| - 1], decode);
      ValuesOf(ps[..|ps| - 1], k, decode) + (if last.Some? && last.value.0 == k then [last.value.1] else [])
  }

  /** The map the loop over the parameters builds. */
  function CollectParams(ps: seq<String>, decode: String -> Option<String>): (r: Params)
  {
    if |ps| == 0 then map[] else AddParam(CollectParams(ps[..|ps| - 1], decode), ps[|ps| - 1], decode)
  }

  /**
   * The map holds, for each key, exactly the values the kept parameters give
   * it, in the order they appear; a key without such a value is absent.
   */
  lemma {:induction false} CollectParamsValues(ps: seq<String>, decode: String -> Option<String>)
    ensures forall k :: (k in CollectParams(ps, decode) <==> ValuesOf(ps, k, decode) != [])
    ensures forall k :: k in CollectParams(ps, decode) ==> CollectParams(ps, decode)[k] == ValuesOf(ps, k, decode)
  {
    if |ps| > 0 {
      CollectParamsValues(ps[..|ps| - 1], decode);
      AddParamEffect(CollectParams(ps[..|ps| - 1], decode), ps[|ps| - 1], decode);
    }
  }

  lemma CollectParamsStep(ps: seq<String>, i: nat, decode: String -> Option<String>)
    requires i < |ps|
    ensures CollectParams(ps[..i + 1], decode) == AddParam(CollectParams(ps[..i], decode), ps[i], decode)
  {
    assert ps[..i + 1][..i] == ps[..i];
  }

  /** The query: the text between the first and the second '?'; none when the URL has no non-empty query. */
  function QueryOf(url: String): (r: Option<String>)
    ensures '?' !in url ==> r.None?
  {
    var parts := SplitChar('?', url);
    if |parts| < 2 then None else Some(parts[1])
  }

  /** The loop over the parameters as written: each added in turn, the first one made only of "=" throwing. */
  function CollectParamsAsWritten(ps: seq<String>, decode: String -> Option<String>): Result<Params>
  {
    if |ps| == 0 then Ok(map[])
    else
      match CollectParamsAsWritten(ps[..|ps| - 1], decode)
      case Fail(e) => Fail(e)
      case Ok(init) => AddParamAsWritten(init, ps[|ps| - 1], decode)
  }

  /**
   * The loop as written throws exactly when some parameter cannot be read, and
   * then with the exception of the first such parameter.
   */
  lemma {:induction false} CollectParamsThrows(ps: seq<String>, decode: String -> Option<String>)
    ensures CollectParamsAsWritten(ps, decode).Ok? <==> forall i :: 0 <= i < |ps| ==> Readable(ps[i], decode)
    ensures CollectParamsAsWritten(ps, decode).Fail? ==>
      exists i :: 0 <= i < |ps| && !Readable(ps[i], decode)
        && (forall j :: 0 <= j < i ==> Readable(ps[j], decode))
        && CollectParamsAsWritten(ps, decode).error == ParamError(ps[i])
  {
    if |ps| > 0 {
      var n := |ps| - 1;
      var init := ps[..n];
      CollectParamsThrows(init, decode);
      assert forall i :: 0 <= i < n ==> init[i] == ps[i];
      if CollectParamsAsWritten(init, decode).Fail? {
        var i :| 0 <= i < n && !Readable(init[i], decode)
          && (forall j :: 0 <= j < i ==> Readable(init[j], decode))
          && CollectParamsAsWritten(init, decode).error == ParamError(init[i]);
        assert ps[i] == init[i];
      } else if CollectParamsAsWritten(ps, decode).Fail? {
        assert !Readable(ps[n], decode);
      }
    }
  }

  /** Where the loop as written does not throw, it builds the map the intended loop builds. */
  lemma {:induction false} CollectParamsAgrees(ps: seq<String>, decode: String -> Option<String>)
    requires CollectParamsAsWritten(ps, decode).Ok?
    ensures CollectParamsAsWritten(ps, decode).value == CollectParams(ps, decode)
  {
    if |ps| > 0 {
      var n := |ps| - 1;
      var init := ps[..n];
      var m := CollectParamsAsWritten(init, decode).value;
      CollectParamsAgrees(init, decode);
      AddParamAgrees(m, ps[n], decode);
    }
  }

  /** getQueryParams as a function of the URL. */
  function QueryParams(url: String, decode: String -> Option<String>): (r: Result<Params>)
    ensures QueryOf(url).None? ==> r == Ok(map[])
  {
    match QueryOf(url)
    case None => Ok(map[])
    case Some(query) => CollectParamsAsWritten(SplitChar('&', query), decode)
  }

  /**
   * The parameters of the query, or, at the first parameter that cannot be
   * read, ArrayIndexOutOfBoundsException for one made only of "=" signs and
   * IllegalArgumentException for an escape that does not decode: each key holds
   * the values the parameters give it, in order, and at least one.
   */
  lemma QueryParamsValues(url: String, decode: String -> Option<String>)
    ensures QueryOf(url).Some? ==>
      var ps := SplitChar('&', QueryOf(url).value);
      (QueryParams(url, decode).Ok? <==> forall i :: 0 <= i < |ps| ==> Readable(ps[i], decode))
      && (QueryParams(url, decode).Fail? ==>
            exists i :: 0 <= i < |ps| && !Readable(ps[i], decode)
              && (forall j :: 0 <= j < i ==> Readable(ps[j], decode))
              && QueryParams(url, decode).error == ParamError(ps[i]))
      && (QueryParams(url, decode).Ok? ==>
            forall k :: (k in QueryParams(url, decode).value <==> ValuesOf(ps, k, decode) != []))
      && (QueryParams(url, decode).Ok? ==>
            forall k :: k in QueryParams(url, decode).value ==> QueryParams(url, decode).value[k] == ValuesOf(ps, k, decode))
    ensures QueryParams(url, decode).Ok? ==>
      forall k :: k in QueryParams(url, decode).value ==> |QueryParams(url, decode).value[k]| > 0
  {
    if QueryOf(url).Some? {
      var ps := SplitChar('&', QueryOf(url).value);
      CollectParamsThrows(ps, decode);
      if QueryParams(url, decode).Ok? {
        CollectParamsAgrees(ps, decode);
      }
      CollectParamsValues(ps, decode);
    }
  }

  /** getQueryParams: the query split on "&", each parameter added in turn. */
  method GetQueryParams(url: String, decode: String -> Option<String>) returns (params: Result<Params>)
    ensures params == QueryParams(url, decode)
  {
    var urlParts := SplitChar('?', url);
    if |urlParts| < 2 {
      return Ok(map[]);
    }
    var query := urlParts[1];
    params := AddParams(SplitChar('&', query), decode);
  }

  lemma CollectParamsAsWrittenStep(ps: seq<String>, i: nat, decode: String -> Option<String>)
    requires i < |ps| && CollectParamsAsWritten(ps[..i], decode).Ok?
    ensures CollectParamsAsWritten(ps[..i + 1], decode)
         == AddParamAsWritten(CollectParamsAsWritten(ps[..i], decode).value, ps[i], decode)
  {
    assert ps[..i + 1][..i] == ps[..i];
  }

  /** Once the parameters up to i throw, all of them do. */
  lemma {:induction false} CollectParamsAsWrittenFails(ps: seq<String>, i: nat, decode: String -> Option<String>)
    requires i <= |ps| && CollectParamsAsWritten(ps[..i], decode).Fail?
    ensures CollectParamsAsWritten(ps, decode) == CollectParamsAsWritten(ps[..i], decode)
    decreases |ps| - i
  {
    if i < |ps| {
      var n := |ps| - 1;
      assert ps[..n][..i] == ps[..i];
      CollectParamsAsWrittenFails(ps[..n], i, decode);
    } else {
      assert ps[..i] == ps;
    }
  }

  /** The loop of getQueryParams over the parameters of the query. */
  method AddParams(ps: seq<String>, decode: String -> Option<String>) returns (r: Result<Params>)
    ensures r == CollectParamsAsWritten(ps, decode)
  {
    var params: Params := map[];
    var i := 0;
    while i < |ps|
      invariant 0 <= i <= |ps|
      invariant CollectParamsAsWritten(ps[..i], decode) == Ok(params)
    {
      CollectParamsAsWrittenStep(ps, i, decode);
      var pair := SplitChar('=', ps[i]);
      if |pair| == 0 {
        CollectParamsAsWrittenFails(ps, i + 1, decode);
        return Fail(IndexOutOfBounds);
      }
      var key := decode(pair[0]);
      if key.None? {
        CollectParamsAsWrittenFails(ps, i + 1, decode);
        return Fail(IllegalArgument);
      }
      var value := if |pair| > 1 then decode(pair[1]) else Some("");
      if value.None? {
        CollectParamsAsWrittenFails(ps, i + 1, decode);
        return Fail(IllegalArgument);
      }
      if !(key.value == "" && |pair| == 1) {
        var values := if key.value in params then params[key.value] else [];
        params := params[key.value := values + [value.value]];
      }
      i := i + 1;
    }
    assert ps[..i] == ps;
    return Ok(params);
  }

  // ---------------------------------------------------------------------
  // getQuery
  // ---------------------------------------------------------------------

  /** "key=value" for each value of one key, in the order of its values. */
  function KeyEntries(params: Params, k: String): (r: seq<String>)
    ensures k !in params ==> r == []
    ensures k in params ==> |r| == |params[k]|
  {
    if k in params then seq(|params[k]|, j requires 0 <= j < |params[k]| => k + "=" + params[k][j]) else []
  }

  /** "key=value" for each value of each key, keys in the given order. */
  function QueryEntries(params: Params, keys: seq<String>): seq<String>
  {
    if |keys| == 0 then [] else KeyEntries(params, keys[0]) + QueryEntries(params, keys[1..])
  }

  lemma {:induction false} QueryEntriesAppend(params: Params, a: seq<String>, b: seq<String>)
    ensures QueryEntries(params, a + b) == QueryEntries(params, a) + QueryEntries(params, b)
  {
    if |a| > 0 {
      assert (a + b)[1..] == a[1..] + b;
      QueryEntriesAppend(params, a[1..], b);
    } else {
      assert a + b == b;
    }
  }

  /** The key and the position of the value that entry i of the query was made from. */
  lemma {:induction false} EntryAt(params: Params, keys: seq<String>, i: nat) returns (k: String, j: nat)
    requires i < |QueryEntries(params, keys)|
    ensures k in keys && k in params && j < |params[k]|
    ensures QueryEntries(params, keys)[i] == k + "=" + params[k][j]
  {
    var here := KeyEntries(params, keys[0]);
    var rest := QueryEntries(params, keys[1..]);
    assert QueryEntries(params, keys) == here + rest;
    if i < |here| {
      k, j := keys[0], i;
    } else {
      k, j := EntryAt(params, keys[1..], i - |here|);
    }
  }

  /** A listed key's value is an entry of the query. */
  lemma {:induction false} EntryOf(params: Params, keys: seq<String>, k: String, j: nat)
    requires k in keys && k in params && j < |params[k]|
    ensures k + "=" + params[k][j] in QueryEntries(params, keys)
  {
    var here := KeyEntries(params, keys[0]);
    var rest := QueryEntries(params, keys[1..]);
    assert QueryEntries(params, keys) == here + rest;
    if k == keys[0] {
      assert here[j] == k + "=" + params[k][j];
    } else {
      EntryOf(params, keys[1..], k, j);
    }
  }

  /** e is k=v for a listed key k and one of its values v. */
  predicate IsEntryOf(params: Params, keys: seq<String>, e: String)
  {
    exists k, j :: k in keys && k in params && 0 <= j < |params[k]| && e == k + "=" + params[k][j]
  }

  /**
   * The entries of the query: every entry is k=v for a listed key k and one of
   * its values v, and every such pair is an entry.
   */
  lemma QueryEntriesArePairs(params: Params, keys: seq<String>)
    ensures forall i :: 0 <= i < |QueryEntries(params, keys)| ==> IsEntryOf(params, keys, QueryEntries(params, keys)[i])
    ensures forall k, j :: k in keys && k in params && 0 <= j < |params[k]| ==> k + "=" + params[k][j] in QueryEntries(params, keys)
  {
    forall i | 0 <= i < |QueryEntries(params, keys)|
      ensures IsEntryOf(params, keys, QueryEntries(params, keys)[i])
    {
      var k, j := EntryAt(params, keys, i);
      assert k in keys && k in params && 0 <= j < |params[k]| && QueryEntries(params, keys)[i] == k + "=" + params[k][j];
    }
    forall k, j | k in keys && k in params && 0 <= j < |params[k]|
      ensures k + "=" + params[k][j] in QueryEntries(params, keys)
    {
      EntryOf(params, keys, k, j);
    }
  }

  /**
   * The entries of key i, one per value in the order of its values, come right
   * after the entries of the keys before it.
   */
  lemma QueryEntriesInKeyOrder(params: Params, keys: seq<String>, i: nat, j: nat)
    requires i < |keys| && keys[i] in params && j < |params[keys[i]]|
    ensures |QueryEntries(params, keys[..i])| + j < |QueryEntries(params, keys)|
    ensures QueryEntries(params, keys)[|QueryEntries(params, keys[..i])| + j] == keys[i] + "=" + params[keys[i]][j]
  {
    QueryEntriesLayout(params, keys, i);
    var front := QueryEntries(params, keys[..i]);
    var here := KeyEntries(params, keys[i]);
    assert (front + here + QueryEntries(params, keys[i + 1..]))[|front| + j] == here[j];
  }

  /** The entries of key i sit after those of the keys before it. */
  lemma QueryEntriesLayout(params: Params, keys: seq<String>, i: nat)
    requires i < |keys|
    ensures QueryEntries(params, keys)
         == QueryEntries(params, keys[..i]) + KeyEntries(params, keys[i]) + QueryEntries(params, keys[i + 1..])
  {
    assert keys == keys[..i] + keys[i..];
    QueryEntriesAppend(params, keys[..i], keys[i..]);
    assert keys[i..][1..] == keys[i + 1..];
  }

  /** getQuery: the entries joined with "&". */
  function GetQuery(params: Params, keys: seq<String>): String
  {
    Join(QueryEntries(params, keys), "&")
  }

  /** A key that is listed and has a value gives at least one entry. */
  lemma {:induction false} QueryEntriesHas(params: Params, keys: seq<String>, k: String)
    requires k in keys && k in params && |params[k]| > 0
    ensures |QueryEntries(params, keys)| > 0
  {
    if keys[0] != k {
      QueryEntriesHas(params, keys[1..], k);
    }
  }

  lemma {:induction false} JoinNonEmpty(parts: seq<String>, sep: String)
    requires |parts| > 0 && |parts[0]| > 0
    ensures |Join(parts, sep)| > 0
  {
  }

  /** The query of a map with a valued key is never empty. */
  lemma GetQueryNonEmpty(params: Params, keys: seq<String>, k: String)
    requires k in keys && k in params && |params[k]| > 0
    ensures |GetQuery(params, keys)| > 0
  {
    QueryEntriesHas(params, keys, k);
    var es := QueryEntries(params, keys);
    var k', j := EntryAt(params, keys, 0);
    assert |es[0]| > 0;
    JoinNonEmpty(es, "&");
  }

  // ---------------------------------------------------------------------
  // getCurrentPage and parseNextLink
  // ---------------------------------------------------------------------

  /** getCurrentPage as written: the first value when it is a single digit (`\d`), else 0. */
  function CurrentPageAsWritten(pages: seq<String>): (r: int)
    ensures 0 <= r <= 9
    ensures |pages| > 0 && |pages[0]| == 1 && IsDigit(pages[0][0]) ==> r == DigitValue(pages[0][0])
    ensures !(|pages| > 0 && |pages[0]| == 1 && IsDigit(pages[0][0])) ==> r == 0
  {
    if |pages| == 0 then 0
    else if |pages[0]| == 1 && IsDigit(pages[0][0]) then DigitValue(pages[0][0])
    else 0
  }

  /** As written, page 12 reads as page 0. */
  lemma CurrentPageAsWrittenDropsTwelve()
    ensures CurrentPageAsWritten(["12"]) == 0
  {
  }

  /** getCurrentPage as intended: the first value when it is a decimal number an int can hold, else 0. */
  function CurrentPage(pages: seq<String>): (r: int)
    ensures 0 <= r <= INT_MAX
    ensures |pages| > 0 && 0 < |pages[0]| <= 9 && AllDigits(pages[0]) ==> r == DigitsValue(pages[0])
    ensures |pages| > 0 && |pages[0]| > 9 && AllDigits(pages[0]) ==>
      r == (if ParseInt(pages[0]).Some? && ParseInt(pages[0]).value >= 0 then ParseInt(pages[0]).value else 0)
    ensures |pages| == 0 || |pages[0]| == 0 || !AllDigits(pages[0]) ==> r == 0
  {
    if |pages| == 0 || |pages[0]| == 0 || !AllDigits(pages[0]) then 0
    else if |pages[0]| <= 9 then
      ParseShortDigits(pages[0]);
      DigitsValue(pages[0])
    else
      match ParseInt(pages[0])
      case Some(v) => if v >= 0 then v else 0
      case None => 0
  }

  /** The two readings agree on every single-digit page. */
  lemma CurrentPageAgrees(pages: seq<String>)
    requires |pages| > 0 && |pages[0]| == 1 && IsDigit(pages[0][0])
    ensures CurrentPage(pages) == CurrentPageAsWritten(pages)
  {
    assert AllDigits(pages[0]);
    assert DigitsValue(pages[0]) == DigitValue(pages[0][0]) by {
      assert pages[0][..0] == [];
    }
  }

  lemma CurrentPageTwelve()
    ensures CurrentPage(["12"]) == 12
  {
    var p := "12";
    assert AllDigits(p);
    assert p[..1] == "1";
    assert DigitsValue(p[..1]) == 1 by {
      assert p[..1][..0] == [];
    }
  }

  lemma OrderLists(order: set<String> -> seq<String>, keys: set<String>, k: String)
    requires KeyOrder(order) && k in keys
    ensures k in order(keys)
  {
  }

  /** The parameters of the next page: the same map with "page" set to the current page, as read, plus one. */
  function NextParams(params: Params): Params
    requires PageKey in params
  {
    params[PageKey := [IntToString(Wrap32(CurrentPageAsWritten(params[PageKey]) + 1))]]
  }

  /** The same keys; the page parameter holds the page after the current one, and nothing else changes. */
  lemma NextParamsEffect(params: Params)
    requires PageKey in params
    ensures NextParams(params).Keys == params.Keys
    ensures NextParams(params)[PageKey] == [IntToString(CurrentPageAsWritten(params[PageKey]) + 1)]
    ensures forall k :: k in params && k != PageKey ==> NextParams(params)[k] == params[k]
  {
  }

  /**
   * parseNextLink: with no "page" parameter there is no next page; otherwise
   * the current query text in the URL is replaced by the query with the page
   * advanced, and the result must be a URL.
   */
  function ParseNextLink<S>(url: String, site: ForumSite<S>): Result<Option<String>>
  {
    var params :- QueryParams(url, site.decode);
    var current := GetQuery(params, site.order(params.Keys));
    if PageKey !in params || |params[PageKey]| == 0 then Ok(None)
    else
      var next := NextParams(params);
      var nextQuery := GetQuery(next, site.order(next.Keys));
      var nextUrl := ReplaceAny(url, current, nextQuery);
      if site.isUrl(nextUrl) then Ok(Some(nextUrl)) else Fail(MalformedUrl)
  }

  /**
   * A parameter getQueryParams cannot read makes parseNextLink throw what it
   * throws, ArrayIndexOutOfBoundsException or IllegalArgumentException;
   * otherwise there is a next link exactly when
   * the URL has a "page" parameter, a link that is built is a URL, and one that
   * is not a URL is MalformedURLException.
   */
  lemma ParseNextLinkSpec<S>(url: String, site: ForumSite<S>)
    ensures QueryParams(url, site.decode).Fail? ==>
      ParseNextLink(url, site) == Fail(QueryParams(url, site.decode).error)
      && QueryParams(url, site.decode).error in {IndexOutOfBounds, IllegalArgument}
    ensures QueryParams(url, site.decode).Ok? ==>
      (ParseNextLink(url, site) == Ok(None) <==> PageKey !in QueryParams(url, site.decode).value)
    ensures QueryParams(url, site.decode).Ok? && ParseNextLink(url, site).Fail? ==>
      ParseNextLink(url, site).error == MalformedUrl
    ensures ParseNextLink(url, site).Ok? && ParseNextLink(url, site).value.Some? ==>
      site.isUrl(ParseNextLink(url, site).value.value)
  {
    QueryParamsValues(url, site.decode);
  }

  /**
   * When there is a page parameter, the current query text is never empty, so
   * the replacement in parseNextLink never takes the empty-target form.
   */
  lemma CurrentQueryNonEmpty<S>(url: String, site: ForumSite<S>)
    requires KeyOrder(site.order)
    requires QueryParams(url, site.decode).Ok? && PageKey in QueryParams(url, site.decode).value
    ensures var params := QueryParams(url, site.decode).value;
      |GetQuery(params, site.order(params.Keys))| > 0
  {
    var params := QueryParams(url, site.decode).value;
    QueryParamsValues(url, site.decode);
    OrderLists(site.order, params.Keys, PageKey);
    GetQueryNonEmpty(params, site.order(params.Keys), PageKey);
  }

  /** A key order for a single key lists just that key. */
  lemma OrderOfOne(order: set<String> -> seq<String>, k: String)
    requires KeyOrder(order)
    ensures order({k}) == [k]
  {
    var ks := order({k});
    assert |{k}| == 1;
    assert k in ks;
  }

  lemma QueryEntriesOne(k: String, v: String)
    ensures QueryEntries(map[k := [v]], [k]) == [k + "=" + v]
  {
    var params := map[k := [v]];
    assert [k][1..] == [];
    assert QueryEntries(params, []) == [];
  }

  /** Replacing the one occurrence that ends the text. */
  lemma ReplaceAtEnd(s: String, t: String, r: String, i: nat)
    requires |t| > 0 && IndexOfFrom(s, t, 0) == Some(i) && i + |t| == |s|
    ensures Replace(s, t, r) == s[..i] + r
  {
    assert s[i + |t|..] == [];
    assert Replace([], t, r) == [];
  }

  lemma ExampleNextUrl(url: String)
    requires url == "http://f/list?page=3"
    ensures url[..14] + "page=4" == "http://f/list?page=4"
  {
    assert url[..14] == "http://f/list?";
  }

  /** The text "page=3" stands at position 14 of the example URL, and nowhere before. */
  lemma ExampleQueryAt(url: String)
    requires url == "http://f/list?page=3"
    ensures IndexOfFrom(url, "page=3", 0) == Some(14)
  {
    assert OccursAt(url, "page=3", 14) by {
      assert url[14..20] == "page=3";
    }
    forall k | 0 <= k < 14 ensures !OccursAt(url, "page=3", k) {
      assert url[k + 4] != '=';
      assert url[k..k + 6][4] == url[k + 4];
    }
  }

  lemma ExampleQuery(url: String)
    requires url == "http://f/list?page=3"
    ensures QueryOf(url) == Some("page=3")
  {
    assert url == "http://f/list" + ['?'] + "page=3";
    SplitAtOnly('?', "http://f/list", "page=3");
    SplitCharIsSplit('?', url);
  }

  lemma ExamplePair(decode: String -> Option<String>)
    requires decode("page") == Some("page") && decode("3") == Some("3")
    ensures ParamPair("page=3", decode) == Some(("page", "3"))
  {
    assert "page=3" == "page" + ['='] + "3";
    SplitAtOnly('=', "page", "3");
    SplitCharIsSplit('=', "page=3");
  }

  /** The parameters of the example URL: "page" with the single value "3". */
  lemma ExampleSingleParam()
    ensures SplitChar('&', "page=3") == ["page=3"]
  {
    assert '&' !in "page=3";
  }

  lemma ExampleParams(url: String, decode: String -> Option<String>)
    requires url == "http://f/list?page=3"
    requires decode("page") == Some("page") && decode("3") == Some("3")
    ensures QueryParams(url, decode) == Ok(map["page" := ["3"]])
  {
    ExampleQuery(url);
    ExamplePair(decode);
    var ps := ["page=3"];
    assert ps[..0] == [];
    ExampleSingleParam();
    var m := CollectParamsAsWritten(ps, decode);
    assert m == AddParamAsWritten(map[], "page=3", decode);
    AddParamAgrees(map[], "page=3", decode);
    assert QueryParams(url, decode) == m;
    assert [] + ["3"] == ["3"];
    assert m == Ok(map["page" := ["3"]]);
  }

  /** As written, the page after "page=12" is "page=1": twelve reads as page 0. */
  lemma NextParamsAfterTwelve()
    ensures NextParams(map[PageKey := ["12"]]) == map[PageKey := ["1"]]
  {
    CurrentPageAsWrittenDropsTwelve();
    assert IntToString(1) == "1";
  }

  /**
   * The next link of ".../list?page=3" is ".../list?page=4": the page number
   * goes up by one and the rest of the URL is kept.
   */
  lemma NextLinkAdvancesPage<S>(site: ForumSite<S>)
    requires KeyOrder(site.order)
    requires site.decode("page") == Some("page") && site.decode("3") == Some("3")
    requires site.isUrl("http://f/list?page=4")
    ensures ParseNextLink("http://f/list?page=3", site) == Ok(Some("http://f/list?page=4"))
  {
    var url := "http://f/list?page=3";
    ExampleParams(url, site.decode);
    ExampleQueries(site.order);
    ExampleReplace(url);
    ParseNextLinkOf(url, site, map["page" := ["3"]], "page=3", "page=4");
  }

  /** parseNextLink once the parameters and both query texts are known. */
  lemma ParseNextLinkOf<S>(url: String, site: ForumSite<S>, params: Params, current: String, nextQuery: String)
    requires QueryParams(url, site.decode) == Ok(params) && PageKey in params && |params[PageKey]| > 0
    requires GetQuery(params, site.order(params.Keys)) == current
    requires GetQuery(NextParams(params), site.order(NextParams(params).Keys)) == nextQuery
    ensures ParseNextLink(url, site) ==
      if site.isUrl(ReplaceAny(url, current, nextQuery)) then Ok(Some(ReplaceAny(url, current, nextQuery)))
      else Fail(MalformedUrl)
  {
  }

  /** The current and the next query of the example. */
  lemma ExampleQueries(order: set<String> -> seq<String>)
    requires KeyOrder(order)
    ensures var params := map["page" := ["3"]];
      GetQuery(params, order(params.Keys)) == "page=3"
      && GetQuery(NextParams(params), order(NextParams(params).Keys)) == "page=4"
  {
    var params := map["page" := ["3"]];
    assert params.Keys == {"page"};
    OrderOfOne(order, "page");
    QueryEntriesOne("page", "3");
    assert CurrentPageAsWritten(["3"]) == 3;
    NextParamsEffect(params);
    var next := NextParams(params);
    assert next == map["page" := ["4"]];
    QueryEntriesOne("page", "4");
  }

  lemma ExampleReplace(url: String)
    requires url == "http://f/list?page=3"
    ensures ReplaceAny(url, "page=3", "page=4") == "http://f/list?page=4"
  {
    ExampleQueryAt(url);
    ReplaceAtEnd(url, "page=3", "page=4", 14);
    ExampleNextUrl(url);
  }

  // ---------------------------------------------------------------------
  // readEventStream, readListEvent and getSnapshot
  // ---------------------------------------------------------------------

  /** An IOException, MalformedURLException and FileNotFoundException included. */
  predicate IsIOException(e: Exception)
  {
    e.IO? || e.MalformedUrl? || e.FileNotFound?
  }

  /**
   * What leaves readListEvent's try block: an IOException is caught and
   * rethrown as UncheckedIOException; any other exception (a RuntimeException
   * of the event-page parser, the IllegalArgumentException of URI.toURL for a
   * relative URI) passes through unchanged.
   */
  function Rethrown(e: Exception): (r: Exception)
    ensures IsIOException(e) ==> r == Wrapped(e)
    ensures !IsIOException(e) ==> r == e
  {
    if IsIOException(e) then Wrapped(e) else e
  }

  /**
   * readListEvent: an event the repository already has is dropped; a new one
   * gets the file sources of its own page added, unless that page yields no
   * event; an IOException is rethrown as UncheckedIOException, and any other
   * exception passes through.
   */
  function ReadListEvent<S>(listing: Listing<S>, site: ForumSite<S>): (r: Result<Option<ForumEvent<S>>>)
    ensures site.known(listing.event) ==> r == Ok(None)
    ensures r.Ok? && r.value.Some? ==>
      !site.known(listing.event)
      && site.eventPage(listing.uri).Ok? && site.eventPage(listing.uri).value.Some?
      && r.value.value == listing.event.(fileSources := listing.event.fileSources
                                            + site.eventPage(listing.uri).value.value.fileSources)
    ensures r.Fail? ==> site.eventPage(listing.uri).Fail? && r.error == Rethrown(site.eventPage(listing.uri).error)
    ensures r.Fail? && IsIOException(site.eventPage(listing.uri).error) ==> r.error.Wrapped?
    ensures r.Fail? && !IsIOException(site.eventPage(listing.uri).error) ==> r.error == site.eventPage(listing.uri).error
    ensures !site.known(listing.event) && site.eventPage(listing.uri).Fail? ==> r.Fail?
    ensures !site.known(listing.event) && site.eventPage(listing.uri) == Ok(None) ==> r == Ok(None)
    ensures !site.known(listing.event) && site.eventPage(listing.uri).Ok? && site.eventPage(listing.uri).value.Some? ==> r.Ok? && r.value.Some?
  {
    if site.known(listing.event) then Ok(None)
    else
      match site.eventPage(listing.uri)
      case Fail(e) => Fail(Rethrown(e))
      case Ok(None) => Ok(None)
      case Ok(Some(metadata)) =>
        Ok(Some(listing.event.(fileSources := listing.event.fileSources + metadata.fileSources)))
  }

  /** readEventStream: the valid listed events, each read by readListEvent, the dropped ones left out. */
  function ReadEventStream<S>(listings: seq<Listing<S>>, site: ForumSite<S>): (r: Result<seq<ForumEvent<S>>>)
    ensures r.Ok? ==> |r.value| <= |listings|
  {
    if |listings| == 0 then Ok([])
    else
      var first := listings[0];
      if !IsValidEvent(first.event) then ReadEventStream(listings[1..], site)
      else
        match ReadListEvent(first, site)
        case Fail(e) => Fail(e)
        case Ok(e) =>
          var rest :- ReadEventStream(listings[1..], site);
          if e.Some? then Ok([e.value] + rest) else Ok(rest)
  }

  /**
   * The stream fails with the failure of the first valid listing whose read
   * fails; when none fails it holds, in listing order, the events read from
   * the valid listings that yield one.
   */
  lemma {:induction false} ReadEventStreamFirstFailure<S>(listings: seq<Listing<S>>, site: ForumSite<S>, i: nat)
    requires i < |listings| && IsValidEvent(listings[i].event) && ReadListEvent(listings[i], site).Fail?
    requires forall k :: 0 <= k < i && IsValidEvent(listings[k].event) ==> ReadListEvent(listings[k], site).Ok?
    ensures ReadEventStream(listings, site) == Fail(ReadListEvent(listings[i], site).error)
  {
    if i > 0 {
      var rest := listings[1..];
      assert forall k :: 0 <= k < i - 1 ==> rest[k] == listings[k + 1];
      ReadEventStreamFirstFailure(rest, site, i - 1);
    }
  }

  /** The events read from the valid listings, in listing order, when every read succeeds. */
  function StreamEvents<S>(listings: seq<Listing<S>>, site: ForumSite<S>): seq<ForumEvent<S>>
  {
    if |listings| == 0 then []
    else
      var rest := StreamEvents(listings[1..], site);
      var e := ReadListEvent(listings[0], site);
      if IsValidEvent(listings[0].event) && e.Ok? && e.value.Some? then [e.value.value] + rest else rest
  }

  lemma {:induction false} ReadEventStreamEvents<S>(listings: seq<Listing<S>>, site: ForumSite<S>)
    requires forall k :: 0 <= k < |listings| && IsValidEvent(listings[k].event) ==> ReadListEvent(listings[k], site).Ok?
    ensures ReadEventStream(listings, site) == Ok(StreamEvents(listings, site))
  {
    if |listings| > 0 {
      var rest := listings[1..];
      assert forall k :: 0 <= k < |rest| ==> rest[k] == listings[k + 1];
      ReadEventStreamEvents(rest, site);
    }
  }

  /** Every event of the stream is valid, and a page of invalid listings gives no events and reads no event page. */
  lemma {:induction false} ReadEventStreamValid<S>(listings: seq<Listing<S>>, site: ForumSite<S>)
    ensures ReadEventStream(listings, site).Ok? ==>
      forall i :: 0 <= i < |ReadEventStream(listings, site).value| ==> IsValidEvent(ReadEventStream(listings, site).value[i])
    ensures (forall i :: 0 <= i < |listings| ==> !IsValidEvent(listings[i].event)) ==> ReadEventStream(listings, site) == Ok([])
  {
    if |listings| > 0 {
      ReadEventStreamValid(listings[1..], site);
      if forall i :: 0 <= i < |listings| ==> !IsValidEvent(listings[i].event) {
        assert forall i :: 0 <= i < |listings[1..]| ==> !IsValidEvent(listings[1..][i].event);
      }
    }
  }

  /** getEventStream: the events read from one list page. */
  function PageEvents<S>(url: String, site: ForumSite<S>): (r: Result<seq<ForumEvent<S>>>)
  {
    var listings :- site.listPage(url);
    ReadEventStream(listings, site)
  }

  /** A turn of a do-while scrape at a URL: the page's events and its next link, or why it failed. */
  type Turn<E> = String -> Result<(seq<E>, Option<String>)>

  /** One turn of getSnapshot's do-while: getEventStream, then parseNextLink. */
  function PageTurn<S>(site: ForumSite<S>): Turn<ForumEvent<S>>
  {
    url =>
      var events :- PageEvents(url, site);
      var next :- ParseNextLink(url, site);
      Ok((events, next))
  }

  /**
   * The pages a do-while scrape reads, as the events of each: the page at url,
   * and then, while that page gave events, the step counter was still positive
   * and there is a next link, the pages from the next link.
   */
  function ScrapePages<E>(url: String, steps: int, turn: Turn<E>): (r: Result<seq<seq<E>>>)
    decreases if steps > 0 then steps else 0
    ensures r.Ok? ==> 1 <= |r.value| <= (if steps > 0 then steps + 1 else 1)
  {
    var page :- turn(url);
    var (events, next) := page;
    if |events| > 0 && steps > 0 && next.Some? then
      var rest :- ScrapePages(next.value, steps - 1, turn);
      Ok([events] + rest)
    else Ok([events])
  }

  /** The first page read is the one at url, and every page but the last gave events. */
  lemma {:induction false} ScrapePagesShape<E>(url: String, steps: int, turn: Turn<E>)
    decreases if steps > 0 then steps else 0
    ensures ScrapePages(url, steps, turn).Ok? ==>
      turn(url).Ok? && turn(url).value.0 == ScrapePages(url, steps, turn).value[0]
    ensures ScrapePages(url, steps, turn).Ok? ==>
      forall i :: 0 <= i < |ScrapePages(url, steps, turn).value| - 1 ==> |ScrapePages(url, steps, turn).value[i]| > 0
  {
    var r := ScrapePages(url, steps, turn);
    if r.Ok? {
      var (events, next) := turn(url).value;
      if |events| > 0 && steps > 0 && next.Some? {
        ScrapePagesShape(next.value, steps - 1, turn);
        var rest := ScrapePages(next.value, steps - 1, turn).value;
        assert r.value == [events] + rest;
        forall i | 0 <= i < |r.value| - 1 ensures |r.value[i]| > 0 {
          if i > 0 {
            assert r.value[i] == rest[i - 1];
          }
        }
      }
    }
  }

  /**
   * Whenever scrapeSteps is above Integer.MIN_VALUE, at most max(1, scrapeSteps)
   * list pages are read (at MIN_VALUE, subtracting one wraps round to MAX_VALUE).
   */
  lemma ScrapeBound<S>(baseUrl: String, scrapeSteps: int, site: ForumSite<S>)
    requires INT_MIN < scrapeSteps <= INT_MAX
    ensures ScrapePages(baseUrl, Wrap32(scrapeSteps - 1), PageTurn(site)).Ok? ==>
      |ScrapePages(baseUrl, Wrap32(scrapeSteps - 1), PageTurn(site)).value| <= (if scrapeSteps > 1 then scrapeSteps else 1)
  {
  }

  function Flatten<T>(pages: seq<seq<T>>): seq<T>
  {
    if |pages| == 0 then [] else pages[0] + Flatten(pages[1..])
  }

  /** The events of a sequence of pages, in page order; a failure passes through. */
  function Snapshot<E>(pages: Result<seq<seq<E>>>): Result<seq<E>>
  {
    if pages.Ok? then Ok(Flatten(pages.value)) else Fail(pages.error)
  }

  /** The events already gathered in front of the events still to come. */
  function Prepend<T>(done: seq<T>, rest: Result<seq<T>>): Result<seq<T>>
  {
    if rest.Ok? then Ok(done + rest.value) else rest
  }

  /** A turn of the do-while that goes on: this page's events come before those of the pages after it. */
  lemma ScrapeContinues<E>(url: String, steps: int, turn: Turn<E>, events: seq<E>, next: String)
    requires turn(url) == Ok((events, Some(next)))
    requires |events| > 0 && steps > 0
    ensures Snapshot(ScrapePages(url, steps, turn)) == Prepend(events, Snapshot(ScrapePages(next, steps - 1, turn)))
  {
    var rest := ScrapePages(next, steps - 1, turn);
    if rest.Ok? {
      assert ([events] + rest.value)[1..] == rest.value;
    }
  }

  /** The last turn of the do-while: only this page's events. */
  lemma ScrapeStops<E>(url: String, steps: int, turn: Turn<E>, events: seq<E>, next: Option<String>)
    requires turn(url) == Ok((events, next))
    requires !(|events| > 0 && steps > 0 && next.Some?)
    ensures Snapshot(ScrapePages(url, steps, turn)) == Ok(events)
  {
    assert ScrapePages(url, steps, turn) == Ok([events]);
    assert Flatten([events]) == events by {
      assert [events][1..] == [];
      assert events + [] == events;
    }
  }

  /** A page that cannot be read, or whose next link cannot be built, ends the snapshot with that error. */
  lemma ScrapeFails<E>(url: String, steps: int, turn: Turn<E>)
    requires turn(url).Fail?
    ensures Snapshot(ScrapePages(url, steps, turn)) == Fail(turn(url).error)
  {
  }

  lemma PrependNothing<T>(rest: Result<seq<T>>)
    ensures Prepend([], rest) == rest
  {
    if rest.Ok? {
      assert [] + rest.value == rest.value;
    }
  }

  lemma PrependPrepend<T>(a: seq<T>, b: seq<T>, rest: Result<seq<T>>)
    ensures Prepend(a, Prepend(b, rest)) == Prepend(a + b, rest)
  {
    if rest.Ok? {
      assert a + (b + rest.value) == (a + b) + rest.value;
    }
  }

  /**
   * The do-while of getSnapshot from url with the step counter at steps: the
   * events of every page read, in page order, or the first failure.
   */
  method Scrape<E>(baseUrl: String, scrapeSteps: int, turn: Turn<E>) returns (r: Result<seq<E>>)
    ensures r == Snapshot(ScrapePages(baseUrl, scrapeSteps, turn))
  {
    var url := baseUrl;
    var events: seq<E> := [];
    var steps := scrapeSteps;
    var more := true;
    ghost var total := Snapshot(ScrapePages(baseUrl, steps, turn));
    PrependNothing(total);
    while more
      invariant more ==> total == Prepend(events, Snapshot(ScrapePages(url, steps, turn)))
      invariant !more ==> total == Ok(events)
      decreases (if more then 1 else 0) + (if steps > 0 then steps else 0)
    {
      var page := turn(url);
      if page.Fail? {
        ScrapeFails(url, steps, turn);
        return Fail(page.error);
      }
      var (newEvents, next) := page.value;
      var newEventCount := |newEvents|;
      // getAndDecrement is only reached when the page gave events
      more := newEventCount > 0 && steps > 0 && next.Some?;
      if more {
        ScrapeContinues(url, steps, turn, newEvents, next.value);
        PrependPrepend(events, newEvents, Snapshot(ScrapePages(next.value, steps - 1, turn)));
        url, steps, events := next.value, steps - 1, events + newEvents;
      } else {
        ScrapeStops(url, steps, turn, newEvents, next);
        events := events + newEvents;
        if newEventCount > 0 {
          steps := steps - 1;
        }
      }
    }
    r := Ok(events);
  }

  /**
   * getSnapshot for a forum data source whose base URI is baseUrl: at most
   * max(1, scrapeSteps) list pages are read, and their events are returned in
   * page order.
   */
  method GetSnapshot<S>(baseUrl: String, scrapeSteps: int, site: ForumSite<S>)
    returns (r: Result<seq<ForumEvent<S>>>)
    requires INT_MIN <= scrapeSteps <= INT_MAX
    ensures r == Snapshot(ScrapePages(baseUrl, Wrap32(scrapeSteps - 1), PageTurn(site)))
  {
    r := Scrape(baseUrl, Wrap32(scrapeSteps - 1), PageTurn(site));
  }

  /** getUrlSnapshot: a snapshot of the single event read from one page, which may be null. */
  function GetUrlSnapshot<S>(url: String, site: ForumSite<S>): (r: Result<seq<Option<ForumEvent<S>>>>)
    ensures r.Ok? <==> site.eventPage(url).Ok?
    ensures r.Ok? ==> r.value == [site.eventPage(url).value]
  {
    var event :- site.eventPage(url);
    Ok([event])
  }
}
