/** RxHttpClient.fullEndpointUrl: the string handed to HttpUrl.parse, built from a base URL,
    an endpoint path and query parameters (the query component of section 3.4 of RFC 3986,
    written without percent-encoding). */
module Endpoint {
  import opened Base
  import opened JavaStrings

  datatype QueryParameter = QueryParameter(param: string, value: string)

  /** The IllegalArgumentException the validation throws, with its message. */
  datatype IllegalArgument = IllegalArgument(message: string)

  const BaseUrlMessage: string := "baseApiUrl can't be null or empty"
  const EndpointMessage: string := "endpoint can't be null or empty"

  /** The filter `e.trim().length() > 0`. */
  predicate HasText(s: string) {
    |Trim(s)| > 0
  }

  /** `e.endsWith("/") ? e.substring(0, e.lastIndexOf("/")) : e`. */
  function StripTrailingSlash(base: string): (r: string)
    ensures EndsWith(base, "/") ==> r + "/" == base
    ensures !EndsWith(base, "/") ==> r == base
  {
    if EndsWith(base, "/") then
      var cut := LastIndexOf(base, '/');
      assert cut == |base| - 1 by {
        assert base[|base| - 1] == "/"[0];
      }
      assert base[..cut] + "/" == base;
      base[..cut]
    else
      base
  }

  /** Validation and normalisation of the base URL. */
  function BaseApiUrl(baseApiUrl: Option<string>): (r: Result<string, IllegalArgument>)
    ensures r.Failure? <==> baseApiUrl.None? || IsBlank(baseApiUrl.value)
    ensures r.Failure? ==> r.error == IllegalArgument(BaseUrlMessage)
    ensures r.Success? && EndsWith(baseApiUrl.value, "/") ==> r.value + "/" == baseApiUrl.value
    ensures r.Success? && !EndsWith(baseApiUrl.value, "/") ==> r.value == baseApiUrl.value
  {
    if baseApiUrl.None? || !HasText(baseApiUrl.value) then Failure(IllegalArgument(BaseUrlMessage))
    else Success(StripTrailingSlash(baseApiUrl.value))
  }

  /** Validation and normalisation of the endpoint: a leading "/" is added only when missing. */
  function EndpointPath(endpoint: Option<string>): (r: Result<string, IllegalArgument>)
    ensures r.Failure? <==> endpoint.None? || IsBlank(endpoint.value)
    ensures r.Failure? ==> r.error == IllegalArgument(EndpointMessage)
    ensures r.Success? ==> StartsWith(r.value, "/")
    ensures r.Success? && StartsWith(endpoint.value, "/") ==> r.value == endpoint.value
    ensures r.Success? && !StartsWith(endpoint.value, "/") ==> r.value == "/" + endpoint.value
  {
    if endpoint.None? || !HasText(endpoint.value) then Failure(IllegalArgument(EndpointMessage))
    else if StartsWith(endpoint.value, "/") then Success(endpoint.value)
    else Success("/" + endpoint.value)
  }

  /** `String.format("%s=%s", qp.param(), qp.value())`. */
  function Pair(qp: QueryParameter): string {
    qp.param + "=" + qp.value
  }

  function Pairs(qps: seq<QueryParameter>): (ps: seq<string>)
    ensures |ps| == |qps|
  {
    seq(|qps|, i requires 0 <= i < |qps| => Pair(qps[i]))
  }

  /** Collectors.joining(separator): the parts in order, the separator between neighbours. */
  function Join(parts: seq<string>, separator: string): string
    decreases |parts|
  {
    if |parts| == 0 then ""
    else if |parts| == 1 then parts[0]
    else parts[0] + separator + Join(parts[1..], separator)
  }

  /** The query component exactly as the source computes it: "?" followed by the joined
      pairs, replaced by "" whenever that string ends in "?". */
  function QueryStringAsWritten(qps: Option<seq<QueryParameter>>): string {
    var joined := if qps.None? then "" else "?" + Join(Pairs(qps.value), "&");
    if EndsWith(joined, "?") then "" else joined
  }

  /** The query component as intended: absent exactly when there is no parameter. */
  function QueryString(qps: Option<seq<QueryParameter>>): (q: string)
    ensures q == "" <==> qps.None? || |qps.value| == 0
    ensures q != "" ==> q[0] == '?'
  {
    if qps.None? || |qps.value| == 0 then "" else "?" + Join(Pairs(qps.value), "&")
  }

  /** The one input on which the two query builders part: the last value ends in "?". */
  predicate LastValueEndsWithQuestionMark(qps: Option<seq<QueryParameter>>) {
    qps.Some? && |qps.value| > 0 && EndsWith(qps.value[|qps.value| - 1].value, "?")
  }

  /** The resolved URL string: base without one trailing "/", endpoint with a leading "/",
      then the query component. */
  function FullEndpointUrl(baseApiUrl: Option<string>, endpoint: Option<string>,
                           queryParameters: Option<seq<QueryParameter>>): (r: Result<string, IllegalArgument>)
    ensures r.Failure? <==>
      baseApiUrl.None? || IsBlank(baseApiUrl.value) || endpoint.None? || IsBlank(endpoint.value)
    ensures r.Failure? ==>
      r.error == IllegalArgument(if baseApiUrl.None? || IsBlank(baseApiUrl.value) then BaseUrlMessage else EndpointMessage)
  {
    var base :- BaseApiUrl(baseApiUrl);
    var path :- EndpointPath(endpoint);
    Success(base + path + QueryString(queryParameters))
  }

  /** fullEndpointUrl with the query component the source actually builds. */
  function FullEndpointUrlAsWritten(baseApiUrl: Option<string>, endpoint: Option<string>,
                                    queryParameters: Option<seq<QueryParameter>>): (r: Result<string, IllegalArgument>)
    ensures r.Failure? <==>
      baseApiUrl.None? || IsBlank(baseApiUrl.value) || endpoint.None? || IsBlank(endpoint.value)
    ensures r.Failure? ==>
      r.error == IllegalArgument(if baseApiUrl.None? || IsBlank(baseApiUrl.value) then BaseUrlMessage else EndpointMessage)
  {
    var base :- BaseApiUrl(baseApiUrl);
    var path :- EndpointPath(endpoint);
    Success(base + path + QueryStringAsWritten(queryParameters))
  }

  lemma {:induction false} JoinEndsWithLastPart(parts: seq<string>, separator: string)
    requires |parts| > 0
    ensures EndsWith(Join(parts, separator), parts[|parts| - 1])
    decreases |parts|
  {
    if |parts| > 1 {
      JoinEndsWithLastPart(parts[1..], separator);
      var tail := Join(parts[1..], separator);
      var last := parts[|parts| - 1];
      var whole := parts[0] + separator + tail;
      assert whole[|whole| - |last|..] == tail[|tail| - |last|..];
    }
  }

  lemma EndsWithQuestionMarkThroughSuffix(whole: string, part: string)
    requires EndsWith(whole, part) && |part| > 0
    ensures EndsWith(whole, "?") <==> EndsWith(part, "?")
  {
    assert whole[|whole| - 1] == part[|part| - 1];
  }

  /** The source's query component agrees with the intended one exactly when the last value
      does not end in "?". */
  lemma QueryStringAsWrittenAgrees(qps: Option<seq<QueryParameter>>)
    ensures QueryStringAsWritten(qps) == QueryString(qps) <==> !LastValueEndsWithQuestionMark(qps)
  {
    if qps.Some? && |qps.value| > 0 {
      var ps := Pairs(qps.value);
      var last := qps.value[|qps.value| - 1];
      JoinEndsWithLastPart(ps, "&");
      var joined := "?" + Join(ps, "&");
      assert EndsWith(joined, ps[|ps| - 1]) by {
        var j := Join(ps, "&");
        var p := ps[|ps| - 1];
        assert joined[|joined| - |p|..] == j[|j| - |p|..];
      }
      EndsWithQuestionMarkThroughSuffix(joined, ps[|ps| - 1]);
      var p := ps[|ps| - 1];
      assert p == last.param + "=" + last.value;
      if |last.value| > 0 {
        assert p[|p| - |last.value|..] == last.value;
        EndsWithQuestionMarkThroughSuffix(p, last.value);
      } else {
        assert p[|p| - 1] == '=';
      }
    }
  }

  /** Without parameters, the code's builder gives no query component either. */
  lemma NoQueryAsWritten()
    ensures QueryStringAsWritten(None) == ""
    ensures QueryStringAsWritten(Some([])) == ""
  {
    assert Join(Pairs([]), "&") == "";
    assert EndsWith("?" + "", "?") by { assert "?" + "" == "?"; }
  }

  /** Both builders on any input: the resolved URLs agree unless the last value ends in "?". */
  lemma FullEndpointUrlAsWrittenAgrees(baseApiUrl: Option<string>, endpoint: Option<string>,
                                       queryParameters: Option<seq<QueryParameter>>)
    requires !LastValueEndsWithQuestionMark(queryParameters)
    ensures FullEndpointUrlAsWritten(baseApiUrl, endpoint, queryParameters)
         == FullEndpointUrl(baseApiUrl, endpoint, queryParameters)
  {
    QueryStringAsWrittenAgrees(queryParameters);
  }

  /** The source drops the whole query when the last value ends in "?"; the intended
      builder keeps it. */
  lemma QuestionMarkValueDropsQuery()
    ensures FullEndpointUrlAsWritten(Some("http://x.com"), Some("a"), Some([QueryParameter("q", "why?")]))
         == Success("http://x.com" + "/" + "a")
    ensures FullEndpointUrl(Some("http://x.com"), Some("a"), Some([QueryParameter("q", "why?")]))
         == Success("http://x.com" + "/" + "a" + "?q=why?")
  {
    var qps := Some([QueryParameter("q", "why?")]);
    QuestionMarkQuery();
    PlainParts("http://x.com", "a", qps);
    var b := ResolvedBase("http://x.com");
    var e := ResolvedEndpoint("a");
    ResolvedAsWritten("http://x.com", "a", qps);
    assert b + e + "" == "http://x.com" + "/" + "a";
  }

  /** The two query builders on a single value ending in "?". */
  lemma QuestionMarkQuery()
    ensures QueryString(Some([QueryParameter("q", "why?")])) == "?q=why?"
    ensures QueryStringAsWritten(Some([QueryParameter("q", "why?")])) == ""
  {
    var qp := QueryParameter("q", "why?");
    var q := "?q=why?";
    OneParameter(qp);
    assert QueryString(Some([qp])) == q;
    assert EndsWith(q, "?") by { assert q[|q| - 1..] == "?"; }
    assert "?" + Join(Pairs([qp]), "&") == q;
  }

  /** With both parts valid, the URL is the three components in order. */
  lemma Resolved(base: string, endpoint: string, qps: Option<seq<QueryParameter>>)
    requires !IsBlank(base) && !IsBlank(endpoint)
    ensures FullEndpointUrl(Some(base), Some(endpoint), qps)
         == Success(BaseApiUrl(Some(base)).value + EndpointPath(Some(endpoint)).value + QueryString(qps))
  {
  }

  lemma ResolvedAsWritten(base: string, endpoint: string, qps: Option<seq<QueryParameter>>)
    requires !IsBlank(base) && !IsBlank(endpoint)
    ensures FullEndpointUrlAsWritten(Some(base), Some(endpoint), qps)
         == Success(BaseApiUrl(Some(base)).value + EndpointPath(Some(endpoint)).value + QueryStringAsWritten(qps))
  {
  }

  /** The base component of a base that starts with a visible character (helper for the
      worked examples below). */
  function ResolvedBase(base: string): (b: string)
    requires |base| > 0 && base[0] > ' '
    ensures !IsBlank(base) && BaseApiUrl(Some(base)) == Success(b)
    ensures base[|base| - 1] == '/' ==> b == base[..|base| - 1]
    ensures base[|base| - 1] != '/' ==> b == base
  {
    assert EndsWith(base, "/") <==> base[|base| - 1] == '/' by {
      assert EndsWith(base, "/") ==> base[|base| - 1..][0] == '/';
      assert base[|base| - 1] == '/' ==> base[|base| - 1..] == "/";
    }
    StripTrailingSlash(base)
  }

  /** The path component of an endpoint that starts with a visible character other than "/"
      (helper for the worked examples below). */
  function ResolvedEndpoint(endpoint: string): (e: string)
    requires |endpoint| > 0 && endpoint[0] > ' ' && endpoint[0] != '/'
    ensures !IsBlank(endpoint) && EndpointPath(Some(endpoint)) == Success(e)
    ensures e == "/" + endpoint
  {
    "/" + endpoint
  }

  /** Adding one trailing "/" to a base that has none does not change the resolved URL. */
  lemma TrailingSlashInsensitive(base: string, endpoint: Option<string>,
                                 queryParameters: Option<seq<QueryParameter>>)
    requires !IsBlank(base) && !EndsWith(base, "/")
    ensures FullEndpointUrl(Some(base + "/"), endpoint, queryParameters)
         == FullEndpointUrl(Some(base), endpoint, queryParameters)
    ensures FullEndpointUrlAsWritten(Some(base + "/"), endpoint, queryParameters)
         == FullEndpointUrlAsWritten(Some(base), endpoint, queryParameters)
  {
    var slashed := base + "/";
    assert !IsBlank(slashed) by { assert slashed[|slashed| - 1] > ' '; }
    assert EndsWith(slashed, "/") by { assert slashed[|slashed| - 1..] == "/"; }
    assert StripTrailingSlash(slashed) == base by {
      assert StripTrailingSlash(slashed) + "/" == base + "/";
      assert StripTrailingSlash(slashed) == (base + "/")[..|base|];
    }
  }

  /** Only one trailing "/" is removed: a doubled slash survives into the URL. */
  lemma OnlyOneSlashStripped()
    ensures FullEndpointUrl(Some("http://x.com//"), Some("a"), None) == Success("http://x.com//a")
  {
    var base := "http://x.com//";
    var b := ResolvedBase(base);
    assert b == "http://x.com/";
    var e := ResolvedEndpoint("a");
    assert e == "/a";
    Resolved(base, "a", None);
    assert b + e + "" == "http://x.com//a";
  }

  /** The repository's fullEndpointUrl test: a trailing "/" on the base and one parameter. */
  lemma ResolverTestOneParameter()
    ensures FullEndpointUrl(Some("http://example.com" + "/"), Some("about-me"),
                            Some([QueryParameter("msg", "hello")]))
         == Success("http://example.com" + "/" + "about-me" + "?msg=hello")
    ensures FullEndpointUrlAsWritten(Some("http://example.com" + "/"), Some("about-me"),
                                     Some([QueryParameter("msg", "hello")]))
         == Success("http://example.com" + "/" + "about-me" + "?msg=hello")
  {
    assert !EndsWith("hello", "?") by { assert "hello"[4] != '?'; }
    FullEndpointUrlAsWrittenAgrees(Some("http://example.com" + "/"), Some("about-me"),
                                   Some([QueryParameter("msg", "hello")]));
    OneParameterQuery();
    SlashedParts("http://example.com", "about-me", Some([QueryParameter("msg", "hello")]));
  }

  /** A base with one trailing "/" joins an endpoint without a leading one through that
      single "/". */
  lemma SlashedParts(stem: string, endpoint: string, qps: Option<seq<QueryParameter>>)
    requires |stem| > 0 && stem[0] > ' ' && stem[|stem| - 1] != '/'
    requires |endpoint| > 0 && endpoint[0] > ' ' && endpoint[0] != '/'
    ensures FullEndpointUrl(Some(stem + "/"), Some(endpoint), qps) == Success(stem + "/" + endpoint + QueryString(qps))
  {
    var b := ResolvedBase(stem);
    TrailingSlashInsensitive(stem, Some(endpoint), qps);
    PlainParts(stem, endpoint, qps);
  }

  /** The repository's fullEndpointUrl test with several parameters, joined in caller order. */
  lemma ResolverTestThreeParameters()
    ensures FullEndpointUrl(Some("http://example.com"), Some("about-me"),
                            Some([QueryParameter("msg", "hello"), QueryParameter("date", "today"),
                                  QueryParameter("sortBy", "name")]))
         == Success("http://example.com" + "/" + "about-me" + ("?msg=hello" + "&date=today" + "&sortBy=name"))
    ensures FullEndpointUrlAsWritten(Some("http://example.com"), Some("about-me"),
                                     Some([QueryParameter("msg", "hello"), QueryParameter("date", "today"),
                                           QueryParameter("sortBy", "name")]))
         == Success("http://example.com" + "/" + "about-me" + ("?msg=hello" + "&date=today" + "&sortBy=name"))
  {
    var three := [QueryParameter("msg", "hello"), QueryParameter("date", "today"),
                  QueryParameter("sortBy", "name")];
    assert !EndsWith("name", "?") by { assert "name"[3] != '?'; }
    FullEndpointUrlAsWrittenAgrees(Some("http://example.com"), Some("about-me"), Some(three));
    ThreeParameterQuery();
    PlainParts("http://example.com", "about-me", Some(three));
  }

  lemma ThreeParameterQuery()
    ensures QueryString(Some([QueryParameter("msg", "hello"), QueryParameter("date", "today"),
                              QueryParameter("sortBy", "name")]))
         == "?msg=hello" + "&date=today" + "&sortBy=name"
  {
    var a, b, c := QueryParameter("msg", "hello"), QueryParameter("date", "today"), QueryParameter("sortBy", "name");
    ThreeParametersInOrder(a, b, c);
    Regroup("?", Pair(a), "&", Pair(b), "&", Pair(c));
    assert "?" + Pair(a) == "?msg=hello";
    assert "&" + Pair(b) == "&date=today";
    assert "&" + Pair(c) == "&sortBy=name";
  }

  lemma Regroup(a: string, b: string, c: string, d: string, e: string, f: string)
    ensures a + b + c + d + e + f == (a + b) + (c + d) + (e + f)
  {
  }

  /** A base without a trailing "/" and an endpoint without a leading one are joined by one
      "/". */
  lemma PlainParts(base: string, endpoint: string, qps: Option<seq<QueryParameter>>)
    requires |base| > 0 && base[0] > ' ' && base[|base| - 1] != '/'
    requires |endpoint| > 0 && endpoint[0] > ' ' && endpoint[0] != '/'
    ensures FullEndpointUrl(Some(base), Some(endpoint), qps) == Success(base + "/" + endpoint + QueryString(qps))
  {
    var b := ResolvedBase(base);
    var e := ResolvedEndpoint(endpoint);
    Resolved(base, endpoint, qps);
    assert b == base && e == "/" + endpoint;
    assert b + e == base + "/" + endpoint;
  }

  lemma OneParameterQuery()
    ensures QueryString(Some([QueryParameter("msg", "hello")])) == "?msg=hello"
  {
    OneParameter(QueryParameter("msg", "hello"));
    assert "?" + "msg" + "=" + "hello" == "?msg=hello";
  }

  /** A single parameter becomes "?param=value". */
  lemma OneParameter(qp: QueryParameter)
    ensures QueryString(Some([qp])) == "?" + qp.param + "=" + qp.value
  {
    assert Pairs([qp]) == [Pair(qp)];
  }

  /** A base without a trailing "/" and an endpoint that already starts with one are joined
      as they are. */
  lemma LeadingSlashParts(base: string, endpoint: string, qps: Option<seq<QueryParameter>>)
    requires |base| > 0 && base[0] > ' ' && base[|base| - 1] != '/'
    requires |endpoint| > 0 && endpoint[0] == '/'
    ensures FullEndpointUrl(Some(base), Some(endpoint), qps) == Success(base + endpoint + QueryString(qps))
  {
    var b := ResolvedBase(base);
    assert !IsBlank(endpoint) by { assert endpoint[0] > ' '; }
    assert StartsWith(endpoint, "/") by { assert endpoint[..1] == "/"; }
    Resolved(base, endpoint, qps);
  }

  /** Three parameters are joined in the order the caller gave them. */
  lemma ThreeParametersInOrder(a: QueryParameter, b: QueryParameter, c: QueryParameter)
    ensures QueryString(Some([a, b, c])) == "?" + Pair(a) + "&" + Pair(b) + "&" + Pair(c)
  {
    var ps := Pairs([a, b, c]);
    assert ps == [Pair(a), Pair(b), Pair(c)] by {
      assert ps[0] == Pair(a) && ps[1] == Pair(b) && ps[2] == Pair(c);
    }
    JoinThree(Pair(a), Pair(b), Pair(c), "&");
    var j := Join(ps, "&");
    assert QueryString(Some([a, b, c])) == "?" + j;
    assert "?" + j == "?" + Pair(a) + "&" + Pair(b) + "&" + Pair(c);
  }

  lemma JoinThree(x: string, y: string, z: string, separator: string)
    ensures Join([x, y, z], separator) == x + separator + y + separator + z
  {
    JoinStep(x, [y, z], separator);
    assert [x] + [y, z] == [x, y, z];
    JoinStep(y, [z], separator);
    assert [y] + [z] == [y, z];
  }

  lemma JoinStep(first: string, rest: seq<string>, separator: string)
    requires |rest| > 0
    ensures Join([first] + rest, separator) == first + separator + Join(rest, separator)
  {
    assert ([first] + rest)[1..] == rest;
  }

  /** The repository's fullEndpointUrl tests without parameters: no "?" at all. */
  lemma ResolverTestNoParameters()
    ensures FullEndpointUrl(Some("http://example.com"), Some("about-me"), None)
         == Success("http://example.com" + "/" + "about-me")
    ensures FullEndpointUrl(Some("http://example.com"), Some("about-me"), Some([]))
         == Success("http://example.com" + "/" + "about-me")
    ensures FullEndpointUrlAsWritten(Some("http://example.com"), Some("about-me"), None)
         == Success("http://example.com" + "/" + "about-me")
    ensures FullEndpointUrlAsWritten(Some("http://example.com"), Some("about-me"), Some([]))
         == Success("http://example.com" + "/" + "about-me")
  {
    FullEndpointUrlAsWrittenAgrees(Some("http://example.com"), Some("about-me"), None);
    FullEndpointUrlAsWrittenAgrees(Some("http://example.com"), Some("about-me"), Some([]));
    PlainParts("http://example.com", "about-me", None);
    PlainParts("http://example.com", "about-me", Some([]));
    assert "http://example.com" + "/" + "about-me" + "" == "http://example.com" + "/" + "about-me";
  }

  // A reader of the query component, used as the inverse of the builder.

  /** Splits at every occurrence of `separator`, keeping empty pieces. */
  function SplitOn(s: string, separator: char): (parts: seq<string>)
    ensures |parts| >= 1
    decreases |s|
  {
    if |s| == 0 then [""]
    else
      var rest := SplitOn(s[1..], separator);
      if s[0] == separator then [""] + rest else [[s[0]] + rest[0]] + rest[1..]
  }

  /** Reads "name=value", cutting at the first "=". */
  function ParsePair(s: string): QueryParameter {
    var i := IndexOf(s, "=");
    if i < 0 then QueryParameter(s, "") else QueryParameter(s[..i], s[i + 1..])
  }

  /** Reads a query component "?n1=v1&n2=v2" back into its parameters. */
  function ParseQuery(query: string): seq<QueryParameter> {
    if |query| == 0 then []
    else
      var pieces := SplitOn(query[1..], '&');
      seq(|pieces|, i requires 0 <= i < |pieces| => ParsePair(pieces[i]))
  }

  /** Names free of "=" and "&", values free of "&": the parameters the unescaped format
      can carry. */
  predicate Unambiguous(qps: seq<QueryParameter>) {
    forall i :: 0 <= i < |qps| ==>
      '=' !in qps[i].param && '&' !in qps[i].param && '&' !in qps[i].value
  }

  lemma {:induction false} SplitWithoutSeparator(p: string, separator: char)
    requires separator !in p
    ensures SplitOn(p, separator) == [p]
    decreases |p|
  {
    if |p| > 0 {
      SplitWithoutSeparator(p[1..], separator);
      assert [p[0]] + p[1..] == p;
    }
  }

  lemma {:induction false} SplitAfterPiece(p: string, rest: string, separator: char)
    requires separator !in p
    ensures SplitOn(p + [separator] + rest, separator) == [p] + SplitOn(rest, separator)
    decreases |p|
  {
    var s := p + [separator] + rest;
    if |p| == 0 {
      assert s[1..] == rest;
    } else {
      assert s[1..] == p[1..] + [separator] + rest;
      SplitAfterPiece(p[1..], rest, separator);
      assert [p[0]] + p[1..] == p;
    }
  }

  lemma {:induction false} SplitJoin(parts: seq<string>, separator: char)
    requires |parts| >= 1
    requires forall i :: 0 <= i < |parts| ==> separator !in parts[i]
    ensures SplitOn(Join(parts, [separator]), separator) == parts
    decreases |parts|
  {
    if |parts| == 1 {
      SplitWithoutSeparator(parts[0], separator);
    } else {
      SplitJoin(parts[1..], separator);
      SplitAfterPiece(parts[0], Join(parts[1..], [separator]), separator);
      assert [parts[0]] + parts[1..] == parts;
    }
  }

  lemma ParsePairOfPair(qp: QueryParameter)
    requires '=' !in qp.param
    ensures ParsePair(Pair(qp)) == qp
  {
    var s := Pair(qp);
    var k := |qp.param|;
    assert OccursAt(s, "=", k) by { assert s[k..k + 1] == "="; }
    forall j | 0 <= j < k ensures !OccursAt(s, "=", j) {
      assert s[j..j + 1] == [qp.param[j]];
    }
    var i := IndexOf(s, "=");
    assert i == k;
    assert s[..k] == qp.param;
    assert s[k + 1..] == qp.value;
  }

  /** Without "&" in names and values and "=" in names, reading the built query component
      gives back the parameters in caller order. */
  lemma QueryRoundTrip(qps: seq<QueryParameter>)
    requires Unambiguous(qps)
    ensures ParseQuery(QueryString(Some(qps))) == qps
  {
    if |qps| > 0 {
      var ps := Pairs(qps);
      forall i | 0 <= i < |ps| ensures '&' !in ps[i] {
        assert ps[i] == qps[i].param + "=" + qps[i].value;
      }
      SplitJoin(ps, '&');
      var q := QueryString(Some(qps));
      assert q[1..] == Join(ps, "&");
      forall i | 0 <= i < |qps| ensures ParsePair(ps[i]) == qps[i] {
        ParsePairOfPair(qps[i]);
      }
    }
  }
}
