/** The part of the browser's URL handling the pages use: `location.search` and
    `new URLSearchParams(search).get(name)` (percent-decoding is not modelled). */
module Url {
  import opened Js

  /** The prefix of `s` before the first `c`; all of `s` when `c` does not occur. */
  function Before(s: string, c: char): (r: string)
    ensures |r| <= |s| && r == s[..|r|] && c !in r
    ensures |r| < |s| ==> s[|r|] == c
  {
    if s == [] || s[0] == c then [] else [s[0]] + Before(s[1..], c)
  }

  /** The suffix of `s` from the first `c` on, `c` included; None when `c` does not occur. */
  function From(s: string, c: char): (r: Option<string>)
    ensures r.None? <==> c !in s
    ensures r.Some? ==> |r.value| > 0 && r.value[0] == c
  {
    if s == [] then None else if s[0] == c then Some(s) else From(s[1..], c)
  }

  /** `location.search`: the query of `href` with its leading `?` and without the fragment;
      the empty string when the query is absent or empty. */
  function SearchOf(href: string): string {
    match From(Before(href, '#'), '?')
    case None => ""
    case Some(q) => if q == "?" then "" else q
  }

  /** `s.split(c)`: the pieces between the occurrences of `c`. */
  function Split(s: string, c: char): (r: seq<string>)
    ensures |r| > 0
    decreases |s|
  {
    if c !in s then [s]
    else
      var head := Before(s, c);
      [head] + Split(s[|head| + 1..], c)
  }

  /** `+` stands for a space in a query. */
  function Unplus(s: string): (r: string)
    ensures |r| == |s|
    ensures forall i :: 0 <= i < |s| ==> r[i] == (if s[i] == '+' then ' ' else s[i])
  {
    if s == [] then [] else [if s[0] == '+' then ' ' else s[0]] + Unplus(s[1..])
  }

  datatype Param = Param(name: string, value: string)

  /** One `name=value` piece; a piece without `=` has an empty value. */
  function ParamOf(piece: string): Param {
    var name := Before(piece, '=');
    var value := if |name| < |piece| then piece[|name| + 1..] else "";
    Param(Unplus(name), Unplus(value))
  }

  function ParamsOf(pieces: seq<string>): seq<Param> {
    if pieces == [] then []
    else (if pieces[0] == "" then [] else [ParamOf(pieces[0])]) + ParamsOf(pieces[1..])
  }

  /** The name-value list `new URLSearchParams(search)` holds: a leading `?` is dropped, the rest
      is split at `&`, and empty pieces are skipped. */
  function Params(search: string): seq<Param> {
    var body := if search != [] && search[0] == '?' then search[1..] else search;
    ParamsOf(Split(body, '&'))
  }

  /** The value of the first parameter called `name`. */
  function Lookup(ps: seq<Param>, name: string): (r: Option<string>)
    ensures r.Some? <==> exists i :: 0 <= i < |ps| && ps[i].name == name
  {
    if ps == [] then None
    else if ps[0].name == name then Some(ps[0].value)
    else
      var r := Lookup(ps[1..], name);
      assert forall i :: 1 <= i < |ps| ==> ps[i] == ps[1..][i - 1];
      r
  }

  /** `new URLSearchParams(search).get(name)`. */
  function GetParam(search: string, name: string): Option<string> {
    Lookup(Params(search), name)
  }

  lemma {:induction false} BeforeAbsent(s: string, c: char)
    requires c !in s
    ensures Before(s, c) == s
  {
    if s != [] {
      assert c !in s[1..];
      BeforeAbsent(s[1..], c);
    }
  }

  lemma {:induction false} FromSkips(a: string, b: string, c: char)
    requires c !in a
    ensures From(a + b, c) == From(b, c)
  {
    if a == [] {
      assert a + b == b;
    } else {
      assert (a + b)[1..] == a[1..] + b;
      FromSkips(a[1..], b, c);
    }
  }

  lemma {:induction false} UnplusIdentity(s: string)
    requires '+' !in s
    ensures Unplus(s) == s
  {
  }

  /** The query of `base + "?" + query` is `"?" + query`, when `base` holds no `?` and neither
      part holds a `#`. */
  lemma SearchOfQuery(base: string, query: string)
    requires '?' !in base && '#' !in base && '#' !in query
    ensures SearchOf(base + "?" + query) == (if query == "" then "" else "?" + query)
  {
    var href := base + "?" + query;
    assert '#' !in href;
    BeforeAbsent(href, '#');
    assert href == base + ("?" + query);
    FromSkips(base, "?" + query, '?');
  }

  /** A parameter written as `name=value`, alone in its query, is read back unchanged. */
  lemma GetSingleParam(name: string, value: string)
    requires '=' !in name && '&' !in name && '+' !in name
    requires '&' !in value && '+' !in value
    ensures GetParam("?" + name + "=" + value, name) == Some(value)
  {
    var body := name + "=" + value;
    assert ("?" + name + "=" + value)[1..] == body;
    assert '&' !in body;
    assert Split(body, '&') == [body];
    ParamOfPair(name, value);
    assert ParamsOf([body]) == [Param(name, value)] + ParamsOf([]);
  }

  lemma ParamOfPair(name: string, value: string)
    requires '=' !in name && '+' !in name && '+' !in value
    ensures ParamOf(name + "=" + value) == Param(name, value)
  {
    var piece := name + "=" + value;
    assert piece == name + ("=" + value);
    BeforeOfConcat(name, "=" + value, '=');
    assert piece[|name| + 1..] == value;
    UnplusIdentity(name);
    UnplusIdentity(value);
  }

  lemma {:induction false} BeforeOfConcat(a: string, b: string, c: char)
    requires c !in a && |b| > 0 && b[0] == c
    ensures Before(a + b, c) == a
  {
    if a == [] {
      assert a + b == b;
    } else {
      assert (a + b)[1..] == a[1..] + b;
      BeforeOfConcat(a[1..], b, c);
    }
  }
}
