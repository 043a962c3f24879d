/**
  The class-level helpers of the Inbox client: the OAuth authorization-code
  request URI and the choice of a namespace by e-mail address.
 */
module Client {
  import opened Records
  import opened Query

  /** The provider's authorization endpoint. */
  const AUTHORIZE_ENDPOINT: string := "https://beta.inboxapp.com/oauth/authorize"

  /**
    The query parameters of an authorization-code request in the order the
    client writes them (section 4.1.1 of RFC 6749, plus the provider's
    `login_hint`).
   */
  function AuthParams(appId: string, hint: string, redirectUri: string): seq<Param>
  {
    [("client_id", appId), ("response_type", "code"), ("scope", "email"),
     ("login_hint", hint), ("redirect_uri", redirectUri)]
  }

  /**
    `request_code`: the authorization URI, the endpoint followed by the fixed
    query template with the three arguments inserted as they are, without
    percent-encoding.
   */
  function RequestCode(appId: string, hint: string, redirectUri: string): string
  {
    AUTHORIZE_ENDPOINT + "?client_id=" + appId
      + "&response_type=code&scope=email&login_hint=" + hint
      + "&redirect_uri=" + redirectUri
  }

  /** The fixed pieces of the template, cut at the parameter boundaries. */
  lemma TemplateHead()
    ensures "?client_id=" == "?" + "client_id" + "="
  {
  }

  lemma TemplateMiddle()
    ensures "&response_type=code&scope=email&login_hint="
            == "&" + ("response_type" + "=" + "code") + "&" + ("scope" + "=" + "email") + "&" + "login_hint" + "="
  {
    assert "&response_type=code&scope=email&login_hint="
           == "&response_type=code" + "&scope=email" + "&login_hint=";
    assert "&response_type=code" == "&" + ("response_type" + "=" + "code");
    assert "&scope=email" == "&" + ("scope" + "=" + "email");
    assert "&login_hint=" == "&" + "login_hint" + "=";
  }

  lemma TemplateLast()
    ensures "&redirect_uri=" == "&" + "redirect_uri" + "="
  {
  }

  /** Regrouping the template: literal-free, so that only the layout of the pieces matters. */
  lemma Regroup(e: string, q: string, k0: string, a: string, m: string, p1: string, p2: string,
                k3: string, h: string, rr: string, k4: string, r: string)
    requires q == "?" + k0 + "="
    requires m == "&" + p1 + "&" + p2 + "&" + k3 + "="
    requires rr == "&" + k4 + "="
    ensures e + q + a + m + h + rr + r
            == e + "?" + (k0 + "=" + a) + "&" + Join([p1, p2, k3 + "=" + h, k4 + "=" + r], '&')
  {
    var p3, p4 := k3 + "=" + h, k4 + "=" + r;
    JoinCons(p3, [p4], '&');
    JoinCons(p2, [p3, p4], '&');
    assert [p2] + [p3, p4] == [p2, p3, p4];
    JoinCons(p1, [p2, p3, p4], '&');
    assert [p1] + [p2, p3, p4] == [p1, p2, p3, p4];
  }

  /** The URI, for any text `first` after `client_id=`: the endpoint, '?', and the fields joined with '&'. */
  lemma RequestCodeFields(first: string, hint: string, redirectUri: string)
    ensures RequestCode(first, hint, redirectUri)
            == AUTHORIZE_ENDPOINT + "?" + Render(("client_id", first)) + "&"
               + Join(Renders(AuthParams(first, hint, redirectUri))[1..], '&')
  {
    var rs := Renders(AuthParams(first, hint, redirectUri));
    TemplateHead();
    TemplateMiddle();
    TemplateLast();
    Regroup(AUTHORIZE_ENDPOINT, "?client_id=", "client_id", first,
            "&response_type=code&scope=email&login_hint=", rs[1], rs[2],
            "login_hint", hint, "&redirect_uri=", "redirect_uri", redirectUri);
    assert rs[1..] == [rs[1], rs[2], "login_hint" + "=" + hint, "redirect_uri" + "=" + redirectUri];
  }

  /** The URI is the endpoint, '?', and the five parameters of the request rendered and joined with '&'. */
  lemma RequestCodeIsJoin(appId: string, hint: string, redirectUri: string)
    ensures RequestCode(appId, hint, redirectUri)
            == AUTHORIZE_ENDPOINT + "?" + Join(Renders(AuthParams(appId, hint, redirectUri)), '&')
  {
    var rs := Renders(AuthParams(appId, hint, redirectUri));
    RequestCodeFields(appId, hint, redirectUri);
    JoinCons(rs[0], rs[1..], '&');
    assert [rs[0]] + rs[1..] == rs;
  }

  /** When no argument holds '&', the query of the URI reads back as exactly the five parameters. */
  lemma RequestCodeParses(appId: string, hint: string, redirectUri: string)
    requires '&' !in appId && '&' !in hint && '&' !in redirectUri
    ensures var uri := RequestCode(appId, hint, redirectUri);
            |uri| > |AUTHORIZE_ENDPOINT| && uri[..|AUTHORIZE_ENDPOINT| + 1] == AUTHORIZE_ENDPOINT + "?"
            && ParseQuery(uri[|AUTHORIZE_ENDPOINT| + 1..]) == AuthParams(appId, hint, redirectUri)
  {
    var ps := AuthParams(appId, hint, redirectUri);
    RequestCodeIsJoin(appId, hint, redirectUri);
    var uri := RequestCode(appId, hint, redirectUri);
    assert uri[|AUTHORIZE_ENDPOINT| + 1..] == Join(Renders(ps), '&');
    ParseJoin(ps);
  }

  /** The query of the URI for an application id `a + "&" + b`: the field for `a`, then `b`, then the other four fields. */
  lemma UnencodedQuery(a: string, b: string, hint: string, redirectUri: string)
    ensures var uri := RequestCode(a + "&" + b, hint, redirectUri);
            |uri| > |AUTHORIZE_ENDPOINT|
            && uri[|AUTHORIZE_ENDPOINT| + 1..]
               == Render(("client_id", a)) + "&" + (b + "&" + Join(Renders(AuthParams(a, hint, redirectUri))[1..], '&'))
  {
    var rs := Renders(AuthParams(a, hint, redirectUri));
    var t := Join(rs[1..], '&');
    var uri := RequestCode(a + "&" + b, hint, redirectUri);
    assert uri == AUTHORIZE_ENDPOINT + "?" + Render(("client_id", a + "&" + b)) + "&" + t by {
      RequestCodeFields(a + "&" + b, hint, redirectUri);
      assert Renders(AuthParams(a + "&" + b, hint, redirectUri))[1..] == rs[1..];
    }
    StrayField(AUTHORIZE_ENDPOINT, "client_id", a, b, t);
    AfterPrefix(AUTHORIZE_ENDPOINT, Render(("client_id", a)) + "&" + (b + "&" + t));
  }

  /**
    Without percent-encoding, an application id `a + "&" + b` is read back
    as the id `a` followed by a stray field `b`, ahead of the other four
    parameters.
   */
  lemma RequestCodeUnencoded(a: string, b: string, hint: string, redirectUri: string)
    requires '&' !in a && '&' !in b && '&' !in hint && '&' !in redirectUri
    ensures var uri := RequestCode(a + "&" + b, hint, redirectUri);
            |uri| > |AUTHORIZE_ENDPOINT|
            && ParseQuery(uri[|AUTHORIZE_ENDPOINT| + 1..])
               == [("client_id", a), Field(b)] + AuthParams(a, hint, redirectUri)[1..]
  {
    UnencodedQuery(a, b, hint, redirectUri);
    UnencodedFields(a, b, hint, redirectUri);
  }

  /** The fields read back from the query that `UnencodedQuery` describes. */
  lemma UnencodedFields(a: string, b: string, hint: string, redirectUri: string)
    requires '&' !in a && '&' !in b && '&' !in hint && '&' !in redirectUri
    ensures var ps := AuthParams(a, hint, redirectUri);
            ParseQuery(Render(("client_id", a)) + "&" + (b + "&" + Join(Renders(ps)[1..], '&')))
            == [("client_id", a), Field(b)] + ps[1..]
  {
    AuthParamsPlain(a, hint, redirectUri);
    StrayPlain(AuthParams(a, hint, redirectUri), b);
  }

  /** A plain first parameter, a stray field, then the remaining plain parameters joined with '&'. */
  lemma StrayPlain(ps: seq<Param>, b: string)
    requires |ps| > 1 && Plain(ps) && '&' !in b
    ensures ParseQuery(Render(ps[0]) + "&" + (b + "&" + Join(Renders(ps)[1..], '&')))
            == [ps[0], Field(b)] + ps[1..]
  {
    var t := Join(Renders(ps)[1..], '&');
    assert ParseQuery(t) == ps[1..] by {
      assert Renders(ps)[1..] == Renders(ps[1..]);
      ParseJoin(ps[1..]);
    }
    StrayParse(ps[0], b, t, ps[1..]);
  }

  /** A plain parameter, '&', a stray field, '&', and a query: read off one field at a time. */
  lemma StrayParse(p0: Param, b: string, t: string, rest: seq<Param>)
    requires '&' !in p0.0 && '=' !in p0.0 && '&' !in p0.1 && '&' !in b
    requires ParseQuery(t) == rest
    ensures ParseQuery(Render(p0) + "&" + (b + "&" + t)) == [p0, Field(b)] + rest
  {
    ParseCons(b, t);
    RenderWithoutAmp(p0);
    FieldRender(p0);
    ParseCons(Render(p0), b + "&" + t);
  }

  /** An id holding '&' renders as the intended field, '&', and the rest. */
  lemma StrayField(e: string, k: string, a: string, b: string, t: string)
    ensures e + "?" + Render((k, a + "&" + b)) + "&" + t == e + "?" + (Render((k, a)) + "&" + (b + "&" + t))
  {
  }

  /** What follows the endpoint and its '?'. */
  lemma AfterPrefix(e: string, q: string)
    ensures |e + "?" + q| > |e| && (e + "?" + q)[|e| + 1..] == q
  {
    assert (e + "?" + q)[|e| + 1..] == q;
  }

  /** The request's parameters have no '&' in them when its arguments have none. */
  lemma AuthParamsPlain(appId: string, hint: string, redirectUri: string)
    requires '&' !in appId && '&' !in hint && '&' !in redirectUri
    ensures Plain(AuthParams(appId, hint, redirectUri))
  {
  }

  /** The outcome of `from_email`: a matching namespace's id, no match, or the KeyError of a missing key. */
  datatype Selection<V> = Found(id: V) | NotFound | MissingKey(key: string)

  const EMAIL_KEY: string := "email_address"
  const ID_KEY: string := "id"

  /** The scan moves past `ns`: it has an e-mail address, and not the one sought. */
  predicate Passes<V(==)>(ns: Record<V>, email: V)
  {
    EMAIL_KEY in ns.fields && ns.fields[EMAIL_KEY] != email
  }

  /** What the scan returns at the first namespace it does not move past. */
  function Outcome<V>(ns: Record<V>): Selection<V>
  {
    if EMAIL_KEY !in ns.fields then MissingKey(EMAIL_KEY)
    else if ID_KEY !in ns.fields then MissingKey(ID_KEY)
    else Found(ns.fields[ID_KEY])
  }

  /**
    `from_email` over a given list of namespace records: the id of the first
    namespace whose e-mail address equals `email`, or `NotFound`. A namespace
    reached without an e-mail address, or a match without an id, raises.
   */
  method FromEmail<V(==)>(namespaces: seq<Record<V>>, email: V) returns (r: Selection<V>)
    ensures r == NotFound <==> forall i :: 0 <= i < |namespaces| ==> Passes(namespaces[i], email)
    ensures r != NotFound ==>
              exists i :: 0 <= i < |namespaces| && !Passes(namespaces[i], email)
                          && (forall j :: 0 <= j < i ==> Passes(namespaces[j], email))
                          && r == Outcome(namespaces[i])
    ensures r.Found? ==> exists i :: 0 <= i < |namespaces|
                          && EMAIL_KEY in namespaces[i].fields && namespaces[i].fields[EMAIL_KEY] == email
                          && ID_KEY in namespaces[i].fields && r.id == namespaces[i].fields[ID_KEY]
  {
    for i := 0 to |namespaces|
      invariant forall j :: 0 <= j < i ==> Passes(namespaces[j], email)
    {
      var ns := namespaces[i];
      if EMAIL_KEY !in ns.fields {
        return MissingKey(EMAIL_KEY);
      }
      if ns.fields[EMAIL_KEY] == email {
        if ID_KEY !in ns.fields {
          return MissingKey(ID_KEY);
        }
        return Found(ns.fields[ID_KEY]);
      }
    }
    return NotFound;
  }
}
