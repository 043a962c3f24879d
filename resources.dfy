/**
  The generic resource accessor of the Inbox client: namespace selection,
  the list and get-by-id URLs, and the decoding of a response body into
  typed records. The HTTP exchange itself is not modelled: the decoded
  response body is a parameter of the accessors.
 */
module Resources {
  import opened Records
  import opened Query

  /** The client configuration the accessors read: API base URL and default namespace. */
  datatype Config = Config(apiBase: string, defaultNamespace: string)

  /** The default `apiBase` of `__init__`, `from_token` and `from_namespace`. */
  const API_BASE: string := "https://api.inboxapp.com/n/"

  /** The keyword argument that overrides the default namespace. */
  const NAMESPACE_KEY: string := "namespace"

  /** Keyword arguments have distinct names. */
  predicate DistinctKeys(ps: seq<Param>)
  {
    forall i, j :: 0 <= i < j < |ps| ==> ps[i].0 != ps[j].0
  }

  /** The position of the first parameter named `key`, or `|ps|` when there is none. */
  function KeyIndex(ps: seq<Param>, key: string): (i: nat)
    ensures i <= |ps|
    ensures i < |ps| ==> ps[i].0 == key
    ensures forall j :: 0 <= j < i ==> ps[j].0 != key
  {
    if ps == [] then 0
    else if ps[0].0 == key then 0
    else 1 + KeyIndex(ps[1..], key)
  }

  /**
    Namespace selection: a `namespace` keyword argument wins over the default
    and is popped from the arguments; otherwise the default is used and the
    arguments are left as they are.
   */
  function SelectNamespace(defaultNs: string, kwargs: seq<Param>): (sel: (string, seq<Param>))
    ensures (forall j :: 0 <= j < |kwargs| ==> kwargs[j].0 != NAMESPACE_KEY) ==>
              sel == (defaultNs, kwargs)
    ensures forall i :: 0 <= i < |kwargs| && kwargs[i].0 == NAMESPACE_KEY
                        && (forall j :: 0 <= j < i ==> kwargs[j].0 != NAMESPACE_KEY) ==>
              sel == (kwargs[i].1, kwargs[..i] + kwargs[i + 1..])
  {
    var i := KeyIndex(kwargs, NAMESPACE_KEY);
    if i < |kwargs| then (kwargs[i].1, kwargs[..i] + kwargs[i + 1..])
    else (defaultNs, kwargs)
  }

  /** With distinct argument names, no `namespace` argument reaches the query string. */
  lemma NamespaceNotInQuery(defaultNs: string, kwargs: seq<Param>)
    requires DistinctKeys(kwargs)
    ensures var rest := SelectNamespace(defaultNs, kwargs).1;
            forall j :: 0 <= j < |rest| ==> rest[j].0 != NAMESPACE_KEY
  {
    var i := KeyIndex(kwargs, NAMESPACE_KEY);
    var rest := SelectNamespace(defaultNs, kwargs).1;
    if i < |kwargs| {
      forall j | 0 <= j < |rest| ensures rest[j].0 != NAMESPACE_KEY {
        if j < i {
          assert rest[j] == kwargs[j];
        } else {
          assert rest[j] == kwargs[j + 1];
        }
      }
    }
  }

  /** The `name=value&` text appended for one parameter. */
  function Entry(p: Param): string
  {
    Render(p) + "&"
  }

  /** The text appended after the '?' by the URL loop, parameter by parameter in order. */
  function QueryTail(ps: seq<Param>): (q: string)
    ensures q == "" <==> ps == []
    ensures ps != [] ==> q[|q| - 1] == '&'
  {
    if ps == [] then "" else QueryTail(ps[..|ps| - 1]) + Entry(ps[|ps| - 1])
  }

  /** The loop's text is the '&'-joined parameters followed by one dangling '&'. */
  lemma {:induction false} QueryTailJoin(ps: seq<Param>)
    requires ps != []
    ensures QueryTail(ps) == Join(Renders(ps), '&') + "&"
  {
    var n := |ps|;
    var init := ps[..n - 1];
    var rs := Renders(ps);
    assert QueryTail(ps) == QueryTail(init) + Render(ps[n - 1]) + "&";
    if n > 1 {
      assert rs[..n - 1] == Renders(init);
      assert Join(rs, '&') == Join(Renders(init), '&') + "&" + Render(ps[n - 1]);
      QueryTailJoin(init);
    } else {
      assert Join(rs, '&') == Render(ps[0]);
    }
  }

  /** Read back, the list query gives the parameters and one empty field left by the dangling '&'. */
  lemma QueryTailParses(ps: seq<Param>)
    requires Plain(ps)
    ensures ParseQuery(QueryTail(ps)) == ps + [("", "")]
  {
    if ps == [] {
      assert Split("", '&') == [""];
    } else {
      var rs := Renders(ps);
      QueryTailJoin(ps);
      forall i | 0 <= i < |rs| ensures '&' !in rs[i] {
        RenderWithoutAmp(ps[i]);
      }
      SplitJoin(rs, '&');
      SplitAppend(Join(rs, '&'), "", '&');
      assert Join(rs, '&') + "&" == Join(rs, '&') + ['&'] + "";
      forall i | 0 <= i < |ps| ensures Field(rs[i]) == ps[i] {
        FieldRender(ps[i]);
      }
    }
  }

  /** The URL loop: append `name=value&` for each parameter in order. */
  method AppendQuery(head: string, ps: seq<Param>) returns (url: string)
    ensures url == head + QueryTail(ps)
  {
    url := head;
    for i := 0 to |ps|
      invariant url == head + QueryTail(ps[..i])
    {
      assert ps[..i + 1][..i] == ps[..i];
      url := url + Entry(ps[i]);
    }
    assert ps[..|ps|] == ps;
  }

  /**
    The list URL of `_get_resources`: `apiBase + ns + "/" + resource + "?"`,
    then `name=value&` for each remaining argument, in order.
   */
  method ListUrl(c: Config, resource: string, kwargs: seq<Param>) returns (url: string)
    ensures var (ns, rest) := SelectNamespace(c.defaultNamespace, kwargs);
            url == c.apiBase + ns + "/" + resource + "?" + QueryTail(rest)
    ensures var rest := SelectNamespace(c.defaultNamespace, kwargs).1;
            url[|url| - 1] == if rest == [] then '?' else '&'
  {
    var sel := SelectNamespace(c.defaultNamespace, kwargs);
    url := AppendQuery(c.apiBase + sel.0 + "/" + resource + "?", sel.1);
  }

  /**
    The get-by-id URL of `_get_resource`: the same construction with
    `"/" + id` after the resource, with its last character dropped. Without
    arguments it ends at the id; otherwise the arguments are '&'-joined with
    no dangling separator.
   */
  method ItemUrl(c: Config, resource: string, resourceId: string, kwargs: seq<Param>)
    returns (url: string)
    ensures var (ns, rest) := SelectNamespace(c.defaultNamespace, kwargs);
            var full := c.apiBase + ns + "/" + resource + "/" + resourceId + "?" + QueryTail(rest);
            url == full[..|full| - 1]
    ensures var (ns, rest) := SelectNamespace(c.defaultNamespace, kwargs);
            var head := c.apiBase + ns + "/" + resource + "/" + resourceId;
            url == if rest == [] then head else head + "?" + Join(Renders(rest), '&')
  {
    var sel := SelectNamespace(c.defaultNamespace, kwargs);
    var head := c.apiBase + sel.0 + "/" + resource + "/" + resourceId;
    url := AppendQuery(head + "?", sel.1);
    TrimmedQuery(head, sel.1);
    url := url[..|url| - 1];
  }

  /** Dropping the last character of `head + "?" + QueryTail(ps)`: the bare head, or the '&'-joined query. */
  lemma TrimmedQuery(head: string, ps: seq<Param>)
    ensures var full := head + "?" + QueryTail(ps);
            full[..|full| - 1] == if ps == [] then head else head + "?" + Join(Renders(ps), '&')
  {
    var full := head + "?" + QueryTail(ps);
    if ps == [] {
      assert full == head + "?";
    } else {
      QueryTailJoin(ps);
      assert full == (head + "?" + Join(Renders(ps), '&')) + "&";
    }
  }

  /** The list decoding loop: build a record from each entry and append it. */
  method FromDictList<V>(kind: Kind, result: seq<map<string, V>>) returns (ret: seq<Record<V>>)
    ensures |ret| == |result|
    ensures forall i :: 0 <= i < |result| ==> ret[i] == FromDictSpec(kind, result[i])
    ensures forall i :: 0 <= i < |result| ==> AllowListed(ret[i]) && ret[i].kind == kind
  {
    ret := [];
    for i := 0 to |result|
      invariant |ret| == i
      invariant forall j :: 0 <= j < i ==> ret[j] == FromDictSpec(kind, result[j])
    {
      var obj := FromDict(kind, result[i]);
      ret := ret + [obj];
    }
  }

  /**
    `_get_resources` with the response abstracted: the URL it requests and
    the records it decodes from the response's array `body`.
   */
  method GetResources<V>(c: Config, resource: string, kind: Kind, kwargs: seq<Param>,
                         body: seq<map<string, V>>)
    returns (url: string, records: seq<Record<V>>)
    ensures var (ns, rest) := SelectNamespace(c.defaultNamespace, kwargs);
            url == c.apiBase + ns + "/" + resource + "?" + QueryTail(rest)
    ensures |records| == |body|
    ensures forall i :: 0 <= i < |body| ==> records[i] == FromDictSpec(kind, body[i])
  {
    url := ListUrl(c, resource, kwargs);
    records := FromDictList(kind, body);
  }

  /**
    `_get_resource` with the response abstracted: the URL it requests and
    the record it decodes from the response's object `body`.
   */
  method GetResource<V>(c: Config, resource: string, kind: Kind, resourceId: string,
                        kwargs: seq<Param>, body: map<string, V>)
    returns (url: string, r: Record<V>)
    ensures var (ns, rest) := SelectNamespace(c.defaultNamespace, kwargs);
            var head := c.apiBase + ns + "/" + resource + "/" + resourceId;
            url == if rest == [] then head else head + "?" + Join(Renders(rest), '&')
    ensures r == FromDictSpec(kind, body)
  {
    url := ItemUrl(c, resource, resourceId, kwargs);
    r := FromDict(kind, body);
  }

  /**
    `get_namespaces` with the response abstracted: it requests the API base
    itself and decodes every entry as a namespace record.
   */
  method GetNamespaces<V>(c: Config, body: seq<map<string, V>>)
    returns (url: string, records: seq<Record<V>>)
    ensures url == c.apiBase
    ensures |records| == |body|
    ensures forall i :: 0 <= i < |body| ==> records[i] == FromDictSpec(Namespace, body[i])
  {
    url := c.apiBase;
    records := FromDictList(Namespace, body);
  }
}
