/**
  A reference reading of URL query strings, used to state what the client's
  URL builders produce: a query is split on '&' into fields, and each field
  is split at its first '=' into a name and a value. No percent-decoding is
  done, matching the client, which does no percent-encoding.
 */
module Query {

  /** One query parameter: name and (already rendered) value. */
  type Param = (string, string)

  /** `parts` joined with `sep` between neighbours. */
  function Join(parts: seq<string>, sep: char): string
  {
    if |parts| == 0 then ""
    else if |parts| == 1 then parts[0]
    else Join(parts[..|parts| - 1], sep) + [sep] + parts[|parts| - 1]
  }

  /** Joining a leading part in front of at least one more part. */
  lemma {:induction false} JoinCons(p: string, ps: seq<string>, sep: char)
    requires |ps| > 0
    ensures Join([p] + ps, sep) == p + [sep] + Join(ps, sep)
  {
    var all := [p] + ps;
    if |ps| > 1 {
      assert all[..|all| - 1] == [p] + ps[..|ps| - 1];
      JoinCons(p, ps[..|ps| - 1], sep);
    } else {
      assert all[..|all| - 1] == [p];
    }
  }

  /** `s` cut at every occurrence of `sep`; always at least one (possibly empty) piece. */
  function Split(s: string, sep: char): (parts: seq<string>)
    ensures |parts| >= 1
  {
    if |s| == 0 then [""]
    else if s[0] == sep then [""] + Split(s[1..], sep)
    else
      var rest := Split(s[1..], sep);
      [[s[0]] + rest[0]] + rest[1..]
  }

  /** Splitting at a separator splits the two sides independently. */
  lemma {:induction false} SplitAppend(x: string, y: string, sep: char)
    ensures Split(x + [sep] + y, sep) == Split(x, sep) + Split(y, sep)
  {
    if |x| == 0 {
      assert x + [sep] + y == [sep] + y;
      assert ([sep] + y)[1..] == y;
    } else {
      assert (x + [sep] + y)[0] == x[0];
      assert (x + [sep] + y)[1..] == x[1..] + [sep] + y;
      SplitAppend(x[1..], y, sep);
    }
  }

  /** A piece without the separator is not cut. */
  lemma {:induction false} SplitWithoutSep(p: string, sep: char)
    requires sep !in p
    ensures Split(p, sep) == [p]
  {
    if |p| > 0 {
      assert sep !in p[1..] by {
        forall k | 0 <= k < |p[1..]| ensures p[1..][k] != sep {
          assert p[1..][k] == p[k + 1];
        }
      }
      SplitWithoutSep(p[1..], sep);
      assert [p[0]] + p[1..] == p;
    }
  }

  /** Splitting undoes joining, as long as no part holds the separator. */
  lemma {:induction false} SplitJoin(parts: seq<string>, sep: char)
    requires |parts| > 0
    requires forall i :: 0 <= i < |parts| ==> sep !in parts[i]
    ensures Split(Join(parts, sep), sep) == parts
  {
    var n := |parts|;
    if n == 1 {
      SplitWithoutSep(parts[0], sep);
    } else {
      var init := parts[..n - 1];
      SplitJoin(init, sep);
      SplitAppend(Join(init, sep), parts[n - 1], sep);
      SplitWithoutSep(parts[n - 1], sep);
      assert init + [parts[n - 1]] == parts;
    }
  }

  /** A field split at its first '='; a field without '=' is a name with an empty value. */
  function Field(s: string): Param
  {
    if |s| == 0 then ("", "")
    else if s[0] == '=' then ("", s[1..])
    else
      var kv := Field(s[1..]);
      ([s[0]] + kv.0, kv.1)
  }

  /** The `name=value` text of one parameter. */
  function Render(p: Param): string
  {
    p.0 + "=" + p.1
  }

  /** Reading a rendered field gives the parameter back when its name holds no '='. */
  lemma {:induction false} FieldRender(p: Param)
    requires '=' !in p.0
    ensures Field(Render(p)) == p
    decreases |p.0|
  {
    if |p.0| == 0 {
      assert Render(p) == "=" + p.1;
      assert ("=" + p.1)[1..] == p.1;
    } else {
      var k := p.0;
      assert '=' !in k[1..] by {
        forall j | 0 <= j < |k[1..]| ensures k[1..][j] != '=' {
          assert k[1..][j] == k[j + 1];
        }
      }
      FieldRender((k[1..], p.1));
      assert Render(p)[1..] == Render((k[1..], p.1));
      assert [k[0]] + k[1..] == k;
    }
  }

  function Renders(ps: seq<Param>): seq<string>
  {
    seq(|ps|, i requires 0 <= i < |ps| => Render(ps[i]))
  }

  /** The parameters of a query string, in order. */
  function ParseQuery(q: string): seq<Param>
  {
    var fields := Split(q, '&');
    seq(|fields|, i requires 0 <= i < |fields| => Field(fields[i]))
  }

  /** A leading field without '&' is read off on its own. */
  lemma ParseCons(x: string, q: string)
    requires '&' !in x
    ensures ParseQuery(x + "&" + q) == [Field(x)] + ParseQuery(q)
  {
    SplitAppend(x, q, '&');
    SplitWithoutSep(x, '&');
    assert x + "&" + q == x + ['&'] + q;
  }

  /** Parameters that survive the client's unencoded rendering: no '&' anywhere, no '=' in a name. */
  predicate Plain(ps: seq<Param>)
  {
    forall i :: 0 <= i < |ps| ==> '&' !in ps[i].0 && '=' !in ps[i].0 && '&' !in ps[i].1
  }

  /** A rendered parameter holds no '&' when neither its name nor its value does. */
  lemma RenderWithoutAmp(p: Param)
    requires '&' !in p.0 && '&' !in p.1
    ensures '&' !in Render(p)
  {
    var r := Render(p);
    forall j | 0 <= j < |r| ensures r[j] != '&' {
      if j < |p.0| {
        assert r[j] == p.0[j];
      } else if j > |p.0| {
        assert r[j] == p.1[j - |p.0| - 1];
      }
    }
  }

  /** Rendering plain parameters and joining them with '&' is read back exactly. */
  lemma ParseJoin(ps: seq<Param>)
    requires |ps| > 0 && Plain(ps)
    ensures ParseQuery(Join(Renders(ps), '&')) == ps
  {
    var rs := Renders(ps);
    forall i | 0 <= i < |rs| ensures '&' !in rs[i] {
      RenderWithoutAmp(ps[i]);
    }
    SplitJoin(rs, '&');
    forall i | 0 <= i < |ps| ensures Field(rs[i]) == ps[i] {
      FieldRender(ps[i]);
    }
  }
}
