/**
 * The salon API client's pure parts: the base URL, the list URL with its
 * query string, and the error a failed response turns into. The HTTP exchange
 * itself is an input: a response is its `ok` flag, its status and what its
 * body parses to.
 */
module SalonApi {
  import opened Js

  /** `API_URL`: the configured value, or the local server when it is unset or empty. */
  function ApiUrl(configured: Option<string>): (url: string)
    ensures configured.Some? && configured.value != "" ==> url == configured.value
    ensures configured.None? || configured.value == "" ==> url == "http://localhost:8000/api/"
  {
    if configured.Some? && configured.value != "" then configured.value else "http://localhost:8000/api/"
  }

  /** The optional parameters of `getSalons`. */
  datatype ListParams = ListParams(page: Option<int>, pageSize: Option<int>, search: Option<string>)

  /** A number parameter is appended when present and truthy, i.e. not 0. */
  function NumberParam(n: Option<int>): (v: Option<string>)
    ensures v.Some? <==> n.Some? && n.value != 0
  {
    if n.Some? && n.value != 0 then Some(IntToString(n.value)) else None
  }

  /** A text parameter is appended when present and not empty. */
  function TextParam(t: Option<string>): (v: Option<string>)
    ensures v.Some? <==> t.Some? && t.value != ""
  {
    if t.Some? && t.value != "" then t else None
  }

  type Pair = (string, string)

  /** The three candidate parameters in their fixed order, each with its value if it is sent. */
  function Candidates(params: Option<ListParams>): seq<(string, Option<string>)> {
    match params
    case None => [("page", None), ("page_size", None), ("search", None)]
    case Some(p) => [("page", NumberParam(p.page)), ("page_size", NumberParam(p.pageSize)), ("search", TextParam(p.search))]
  }

  lemma CandidateValues(params: Option<ListParams>)
    ensures var cs := Candidates(params);
      |cs| == 3 && cs[0].0 == "page" && cs[1].0 == "page_size" && cs[2].0 == "search"
      && (params.None? ==> cs[0].1.None? && cs[1].1.None? && cs[2].1.None?)
      && (params.Some? ==> cs[0].1 == NumberParam(params.value.page) && cs[1].1 == NumberParam(params.value.pageSize)
                           && cs[2].1 == TextParam(params.value.search))
  {
  }

  /** One candidate as the pairs it contributes: itself when sent, nothing otherwise. */
  function Sent(c: (string, Option<string>)): seq<Pair> {
    if c.1.Some? then [(c.0, c.1.value)] else []
  }

  /** The candidates that are sent, in order. */
  function Present(cs: seq<(string, Option<string>)>): (ps: seq<Pair>)
    ensures |ps| <= |cs|
    decreases |cs|
  {
    if cs == [] then [] else Sent(cs[0]) + Present(cs[1..])
  }

  lemma PresentOfThree(cs: seq<(string, Option<string>)>)
    requires |cs| == 3
    ensures Present(cs) == Sent(cs[0]) + Sent(cs[1]) + Sent(cs[2])
  {
    var rest := cs[1..];
    var last := rest[1..];
    assert last[1..] == [];
    assert Present(last) == Sent(cs[2]);
    assert Present(rest) == Sent(cs[1]) + Sent(cs[2]);
  }

  /** The pairs `getSalons` appends to its `URLSearchParams`. */
  function QueryPairs(params: Option<ListParams>): seq<Pair> {
    Present(Candidates(params))
  }

  /** `name=value`, both form-encoded. */
  function EncodePair(p: Pair): (r: string)
    ensures '&' !in r && '=' in r
  {
    var r := FormEncode(p.0) + "=" + FormEncode(p.1);
    assert r[|FormEncode(p.0)|] == '=';
    r
  }

  function EncodePairs(ps: seq<Pair>): (r: seq<string>)
    ensures |r| == |ps| && forall i :: 0 <= i < |ps| ==> r[i] == EncodePair(ps[i])
    decreases |ps|
  {
    if ps == [] then [] else [EncodePair(ps[0])] + EncodePairs(ps[1..])
  }

  /** `URLSearchParams.toString()`. */
  function Serialize(ps: seq<Pair>): string {
    Join(EncodePairs(ps), "&")
  }

  /** The query string is empty exactly when nothing was appended. */
  lemma SerializeEmptyIff(ps: seq<Pair>)
    ensures Serialize(ps) == "" <==> ps == []
  {
    if ps != [] {
      var parts := EncodePairs(ps);
      assert '=' in parts[0];
      if |parts| > 1 {
        assert Serialize(ps) == parts[0] + "&" + Join(parts[1..], "&");
      }
    }
  }

  /** The query string splits at '&' back into the encoded pairs. */
  lemma SerializeSplits(ps: seq<Pair>)
    requires ps != []
    ensures Split(Serialize(ps), '&') == EncodePairs(ps)
  {
    assert "&" == ['&'];
    JoinSplit(EncodePairs(ps), '&');
  }

  /** Each encoded pair splits at '=' back into its encoded name and value. */
  lemma EncodedPairSplits(p: Pair)
    ensures Split(EncodePair(p), '=') == [FormEncode(p.0), FormEncode(p.1)]
  {
    assert EncodePair(p) == FormEncode(p.0) + ['='] + FormEncode(p.1);
    SplitTwo(FormEncode(p.0), FormEncode(p.1), '=');
  }

  /** The list URL: `salons/`, then `?` and the query string when it is not empty. */
  function SalonsUrl(apiUrl: string, ps: seq<Pair>): string {
    var qs := Serialize(ps);
    apiUrl + "salons/" + (if qs != "" then "?" + qs else "")
  }

  /** What each candidate contributes, spelled out on the parameters. */
  lemma SentValues(params: Option<ListParams>)
    ensures var cs := Candidates(params);
      QueryPairs(params) == Sent(cs[0]) + Sent(cs[1]) + Sent(cs[2])
      && Sent(cs[0]) == (if params.Some? && params.value.page.Some? && params.value.page.value != 0
                         then [("page", IntToString(params.value.page.value))] else [])
      && Sent(cs[1]) == (if params.Some? && params.value.pageSize.Some? && params.value.pageSize.value != 0
                         then [("page_size", IntToString(params.value.pageSize.value))] else [])
      && Sent(cs[2]) == (if params.Some? && params.value.search.Some? && params.value.search.value != ""
                         then [("search", params.value.search.value)] else [])
  {
    CandidateValues(params);
    PresentOfThree(Candidates(params));
  }

  /** `getSalons`' URL, built by appending the truthy parameters one at a time. */
  method GetSalonsUrl(apiUrl: string, params: Option<ListParams>) returns (url: string)
    ensures url == SalonsUrl(apiUrl, QueryPairs(params))
  {
    ghost var cs := Candidates(params);
    SentValues(params);
    var query: seq<Pair> := [];
    if params.Some? && params.value.page.Some? && params.value.page.value != 0 {
      query := query + [("page", IntToString(params.value.page.value))];
    }
    assert query == Sent(cs[0]);
    if params.Some? && params.value.pageSize.Some? && params.value.pageSize.value != 0 {
      query := query + [("page_size", IntToString(params.value.pageSize.value))];
    }
    assert query == Sent(cs[0]) + Sent(cs[1]);
    if params.Some? && params.value.search.Some? && params.value.search.value != "" {
      query := query + [("search", params.value.search.value)];
    }
    assert query == QueryPairs(params);
    url := SalonsUrl(apiUrl, query);
  }

  /** The names of a list of pairs. */
  function Names(ps: seq<Pair>): (ns: seq<string>)
    ensures |ns| == |ps| && forall i :: 0 <= i < |ps| ==> ns[i] == ps[i].0
    decreases |ps|
  {
    if ps == [] then [] else [ps[0].0] + Names(ps[1..])
  }

  /** Pairs' names distribute over concatenation. */
  lemma {:induction false} NamesConcat(a: seq<Pair>, b: seq<Pair>)
    ensures Names(a + b) == Names(a) + Names(b)
    decreases |a|
  {
    if a != [] {
      assert (a + b)[1..] == a[1..] + b;
      NamesConcat(a[1..], b);
    } else {
      assert a + b == b;
    }
  }

  /** A name when its parameter is sent. */
  function NameIf(sent: bool, name: string): seq<string> {
    if sent then [name] else []
  }

  /** The names sent: each of the three, in order, exactly when its value is truthy. */
  lemma SentNames(params: Option<ListParams>)
    ensures Names(QueryPairs(params)) ==
      NameIf(params.Some? && NumberParam(params.value.page).Some?, "page")
      + NameIf(params.Some? && NumberParam(params.value.pageSize).Some?, "page_size")
      + NameIf(params.Some? && TextParam(params.value.search).Some?, "search")
  {
    var cs := Candidates(params);
    CandidateValues(params);
    PresentOfThree(cs);
    NamesConcat(Sent(cs[0]) + Sent(cs[1]), Sent(cs[2]));
    NamesConcat(Sent(cs[0]), Sent(cs[1]));
  }

  /** Any choice of the three names, kept in order, is a subsequence of the fixed order. */
  lemma NamesInOrder(a: bool, b: bool, c: bool)
    ensures IsSubsequence(NameIf(a, "page") + NameIf(b, "page_size") + NameIf(c, "search"), ["page", "page_size", "search"])
  {
    var full := ["page", "page_size", "search"];
    assert full[1..] == ["page_size", "search"] && full[1..][1..] == ["search"];
    assert "page" != "page_size" && "page" != "search" && "page_size" != "search";
  }

  /** Each of the three names is in the chosen list exactly when it was chosen. */
  lemma NamesPresent(a: bool, b: bool, c: bool)
    ensures var ns := NameIf(a, "page") + NameIf(b, "page_size") + NameIf(c, "search");
      ("page" in ns <==> a) && ("page_size" in ns <==> b) && ("search" in ns <==> c)
  {
    assert "page" != "page_size" && "page" != "search" && "page_size" != "search";
  }

  /** Parameters appear in the order page, page_size, search, each only when truthy. */
  lemma ParameterOrder(params: Option<ListParams>)
    ensures IsSubsequence(Names(QueryPairs(params)), ["page", "page_size", "search"])
    ensures "page" in Names(QueryPairs(params)) <==> params.Some? && NumberParam(params.value.page).Some?
    ensures "page_size" in Names(QueryPairs(params)) <==> params.Some? && NumberParam(params.value.pageSize).Some?
    ensures "search" in Names(QueryPairs(params)) <==> params.Some? && TextParam(params.value.search).Some?
  {
    SentNames(params);
    var a := params.Some? && NumberParam(params.value.page).Some?;
    var b := params.Some? && NumberParam(params.value.pageSize).Some?;
    var c := params.Some? && TextParam(params.value.search).Some?;
    NamesInOrder(a, b, c);
    NamesPresent(a, b, c);
  }

  /** Without any truthy parameter the URL is exactly `API_URL + "salons/"`. */
  lemma NoParamsNoQuery(apiUrl: string, params: Option<ListParams>)
    requires params.None? || (NumberParam(params.value.page).None? && NumberParam(params.value.pageSize).None?
      && TextParam(params.value.search).None?)
    ensures SalonsUrl(apiUrl, QueryPairs(params)) == apiUrl + "salons/"
  {
    PresentOfThree(Candidates(params));
    SerializeEmptyIff([]);
  }

  /** In a list URL a '?' follows `salons/` exactly when there are pairs to send. */
  lemma QuestionMarkIff(apiUrl: string, ps: seq<Pair>)
    ensures var url := SalonsUrl(apiUrl, ps);
      ps != [] <==> |url| > |apiUrl| + 7 && url[|apiUrl| + 7] == '?'
  {
    SerializeEmptyIff(ps);
    var url := SalonsUrl(apiUrl, ps);
    if ps != [] {
      assert url == (apiUrl + "salons/") + "?" + Serialize(ps);
      assert url[|apiUrl + "salons/"|] == '?';
    } else {
      assert url == apiUrl + "salons/";
    }
  }

  /** A '?' follows `salons/` exactly when some parameter was appended. */
  lemma QuestionMarkIffParams(apiUrl: string, params: Option<ListParams>)
    ensures var url := SalonsUrl(apiUrl, QueryPairs(params));
      QueryPairs(params) != [] <==> |url| > |apiUrl| + 7 && url[|apiUrl| + 7] == '?'
  {
    QuestionMarkIff(apiUrl, QueryPairs(params));
  }

  /** A positive page number is sent first, in decimal. */
  lemma PageSentFirst(params: Option<ListParams>, n: nat)
    requires params.Some? && params.value.page == Some(n) && n != 0
    ensures Split(Serialize(QueryPairs(params)), '&')[0] == "page=" + NatToString(n)
  {
    var ps := QueryPairs(params);
    PageIsFirstPair(params, n);
    SerializeSplits(ps);
    PageEncoding(n);
  }

  lemma PageIsFirstPair(params: Option<ListParams>, n: nat)
    requires params.Some? && params.value.page == Some(n) && n != 0
    ensures QueryPairs(params) != [] && QueryPairs(params)[0] == ("page", NatToString(n))
  {
    PresentOfThree(Candidates(params));
  }

  lemma PageEncoding(n: nat)
    ensures EncodePair(("page", NatToString(n))) == "page=" + NatToString(n)
  {
    FormEncodeSafe(NatToString(n));
    FormEncodeSafe("page");
  }

  /** A JSON value found under `message`; numbers are integers. */
  datatype JsonValue = JStr(s: string) | JNum(n: int) | JBool(b: bool) | JNull | JObject | JUndefined

  /** `Boolean(v)`. */
  predicate Truthy(v: JsonValue) {
    match v
    case JStr(s) => s != ""
    case JNum(n) => n != 0
    case JBool(b) => b
    case JNull => false
    case JObject => true
    case JUndefined => false
  }

  /** `String(v)`, which `new Error(v)` applies to its argument. */
  function ToText(v: JsonValue): string {
    match v
    case JStr(s) => s
    case JNum(n) => IntToString(n)
    case JBool(b) => if b then "true" else "false"
    case JNull => "null"
    case JObject => "[object Object]"
    case JUndefined => "undefined"
  }

  /**
   * What `response.json()` makes of a body: it rejects (`NotJson`, which
   * includes the empty body of a 204), or yields `null`, an object with
   * this `message` property (`JUndefined` when it has none), or any other
   * JSON value, whose `message` property is `undefined`.
   */
  datatype Body = NotJson | JsonNull | JsonObject(message: JsonValue) | JsonOther

  datatype Response = Response(ok: bool, status: int, body: Body)

  /**
   * How a call ends: it returns, it throws an `Error` with this message, it
   * throws the `TypeError` of reading `message` from `null`, or the promise
   * of `response.json()` rejects with its `SyntaxError`.
   */
  datatype Outcome = Returned | Thrown(message: string) | NullTypeError | JsonSyntaxError

  /** The error branch shared by `handleResponse` and `deleteSalon`. */
  function ErrorOutcome(r: Response): (o: Outcome)
    ensures o.Thrown? || o.NullTypeError?
    ensures o.NullTypeError? <==> r.body.JsonNull?
  {
    match r.body
    case NotJson => Thrown("Unknown error")
    case JsonNull => NullTypeError
    case JsonObject(m) => Thrown(if Truthy(m) then ToText(m) else "HTTP error! status: " + IntToString(r.status))
    case JsonOther => Thrown("HTTP error! status: " + IntToString(r.status))
  }

  /** `handleResponse`: a non-ok response throws; an ok one returns its parsed body. */
  function HandleResponse(r: Response): (o: Outcome)
    ensures !r.ok ==> o == ErrorOutcome(r)
    ensures r.ok ==> (o.Returned? <==> !r.body.NotJson?) && (o.JsonSyntaxError? <==> r.body.NotJson?)
  {
    if !r.ok then ErrorOutcome(r)
    else if r.body.NotJson? then JsonSyntaxError
    else Returned
  }

  /** `deleteSalon`'s own copy of the error check; on success it reads no body. */
  function DeleteSalon(r: Response): (o: Outcome)
    ensures o.Returned? <==> r.ok
  {
    if !r.ok then
      match r.body
      case NotJson => Thrown("Unknown error")
      case JsonNull => NullTypeError
      case JsonObject(m) => Thrown(if Truthy(m) then ToText(m) else "HTTP error! status: " + IntToString(r.status))
      case JsonOther => Thrown("HTTP error! status: " + IntToString(r.status))
    else Returned
  }

  /** A failed delete fails exactly like every other call. */
  lemma DeleteAgreesOnFailure(r: Response)
    requires !r.ok
    ensures DeleteSalon(r) == HandleResponse(r)
  {
  }

  /** An ok delete with an empty body (204 No Content) returns, where `handleResponse` would reject. */
  lemma DeleteToleratesEmptyBody(status: int)
    ensures DeleteSalon(Response(true, status, NotJson)) == Returned
    ensures HandleResponse(Response(true, status, NotJson)) == JsonSyntaxError
  {
  }

  /**
   * The thrown message: "Unknown error" for an unreadable body, the body's
   * truthy `message` written as text, and otherwise the status; it is never
   * empty. A `null` body makes reading `message` itself throw.
   */
  lemma ErrorMessageCases(r: Response)
    requires !r.ok
    ensures HandleResponse(r).Thrown? ==> HandleResponse(r).message != ""
    ensures r.body.NotJson? ==> HandleResponse(r) == Thrown("Unknown error")
    ensures r.body.JsonNull? <==> HandleResponse(r) == NullTypeError
    ensures r.body.JsonObject? && Truthy(r.body.message) ==> HandleResponse(r) == Thrown(ToText(r.body.message))
  {
    if HandleResponse(r).Thrown? && r.body.JsonObject? && Truthy(r.body.message) {
      TruthyTextNonEmpty(r.body.message);
    }
  }

  lemma TruthyTextNonEmpty(v: JsonValue)
    requires Truthy(v)
    ensures ToText(v) != ""
  {
    if v.JNum? {
      assert |IntToString(v.n)| > 0 by {
        if v.n < 0 {
          assert IntToString(v.n)[0] == '-';
        }
      }
    }
  }

  /** A truthy non-string `message`, such as 42, is thrown as its text rather than replaced by the status. */
  lemma NumericMessageUsed(status: int)
    ensures HandleResponse(Response(false, status, JsonObject(JNum(42)))) == Thrown("42")
  {
    assert IntToString(42) == "42";
  }

  /** Without a usable message the status is reported, and reads back from the message. */
  lemma StatusReported(r: Response)
    requires !r.ok && (r.body.JsonOther? || (r.body.JsonObject? && !Truthy(r.body.message)))
    ensures HandleResponse(r).Thrown?
    ensures var m := HandleResponse(r).message;
      |m| > 20 && m[..20] == "HTTP error! status: " && ParseInt(m[20..]) == Fin(r.status)
  {
    var m := HandleResponse(r).message;
    assert m == "HTTP error! status: " + IntToString(r.status);
    assert m[20..] == IntToString(r.status);
    ParseIntOfIntToString(r.status);
    assert |IntToString(r.status)| > 0 by {
      if r.status < 0 {
        assert IntToString(r.status)[0] == '-';
      }
    }
  }
}
