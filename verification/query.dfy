/** The query strings of the OAuth2 URLs in src/auth.js and
    src/dropbox-base.js. The source builds them by appending `&name=value`
    to a base URL and does not percent-encode names or values. This module
    gives the appending step, the list-of-parameters view it amounts to, and a
    reader that recovers the list from the URL whenever no value contains `&`. */
module Query {
  import opened Wrappers

  datatype Param = Param(name: string, value: string)

  /** `name=value` */
  function Pair(p: Param): string {
    p.name + "=" + p.value
  }

  /** `xs.join(sep)` for a one-character separator. */
  function Join(xs: seq<string>, sep: char): string
    decreases |xs|
  {
    if |xs| == 0 then ""
    else if |xs| == 1 then xs[0]
    else xs[0] + [sep] + Join(xs[1..], sep)
  }

  /** The `name=value` items of a parameter list. */
  function Pairs(ps: seq<Param>): (r: seq<string>)
    ensures |r| == |ps|
    ensures forall i :: 0 <= i < |ps| ==> r[i] == Pair(ps[i])
  {
    seq(|ps|, i requires 0 <= i < |ps| => Pair(ps[i]))
  }

  /** `n1=v1&n2=v2&…` */
  function Render(ps: seq<Param>): string {
    Join(Pairs(ps), '&')
  }

  /** The URL a parameter list stands for. */
  function Url(base: string, ps: seq<Param>): string {
    base + "?" + Render(ps)
  }

  /** The source's first step `base + '?name=value'`. */
  function Start(base: string, name: string, value: string): string {
    base + "?" + name + "=" + value
  }

  /** The source's step `url += '&name=value'`. */
  function AddParam(url: string, name: string, value: string): string {
    url + "&" + name + "=" + value
  }

  /** `AddParam` when `cond` holds, the URL unchanged otherwise. */
  function AddParamIf(cond: bool, url: string, name: string, value: string): string {
    if cond then AddParam(url, name, value) else url
  }

  /** On a URL that already has a query, the appending step adds exactly one
      parameter at the end of the list, or none when its condition is false. */
  lemma AddParamIfExtends(cond: bool, base: string, ps: seq<Param>, p: Param)
    requires |ps| > 0
    ensures AddParamIf(cond, Url(base, ps), p.name, p.value)
         == Url(base, ps + (if cond then [p] else []))
  {
    if cond {
      RenderSnoc(ps, p);
    } else {
      assert ps + [] == ps;
    }
  }

  /** A URL with a single parameter is the first step alone. */
  lemma UrlStart(base: string, p: Param)
    ensures Url(base, [p]) == Start(base, p.name, p.value)
  {
    assert Pairs([p]) == [Pair(p)];
  }

  /** Appending parameters never changes what the URL already holds. */
  lemma AddParamIfKeepsPrefix(cond: bool, url: string, name: string, value: string)
    ensures url <= AddParamIf(cond, url, name, value)
  {
    if cond {
      var rest := "&" + name + "=" + value;
      assert AddParam(url, name, value) == url + rest;
    }
  }

  lemma RenderSnoc(ps: seq<Param>, p: Param)
    requires |ps| > 0
    ensures Render(ps + [p]) == Render(ps) + "&" + Pair(p)
  {
    assert Pairs(ps + [p]) == Pairs(ps) + [Pair(p)];
    JoinSnoc(Pairs(ps), Pair(p), '&');
  }

  lemma {:induction false} JoinSnoc(xs: seq<string>, x: string, sep: char)
    requires |xs| > 0
    ensures Join(xs + [x], sep) == Join(xs, sep) + [sep] + x
    decreases |xs|
  {
    if |xs| == 1 {
      assert (xs + [x])[1..] == [x];
    } else {
      assert (xs + [x])[1..] == xs[1..] + [x];
      JoinSnoc(xs[1..], x, sep);
    }
  }

  /** One `if (cond) url += '&name=value'` of the source. */
  datatype Step = Step(cond: bool, name: string, value: string)

  /** The steps, taken in order. */
  function Apply(url: string, steps: seq<Step>): string
    decreases |steps|
  {
    if |steps| == 0 then url
    else Apply(AddParamIf(steps[0].cond, url, steps[0].name, steps[0].value), steps[1..])
  }

  /** The parameters the steps add: those whose condition holds, in order. */
  function Taken(steps: seq<Step>): seq<Param>
    decreases |steps|
  {
    if |steps| == 0 then []
    else Optional(steps[0].cond, steps[0].name, steps[0].value) + Taken(steps[1..])
  }

  /** No two steps set the same name, and none sets a name already in `ps`. */
  predicate FreshNames(ps: seq<Param>, steps: seq<Step>) {
    && (forall i, j :: 0 <= i < j < |steps| ==> steps[i].name != steps[j].name)
    && (forall i, k :: 0 <= i < |steps| && 0 <= k < |ps| ==> steps[i].name != ps[k].name)
  }

  /** Taking the steps one by one on a URL with a query renders the list
      extended by the parameters they add. */
  lemma {:induction false} ApplyIsRendered(base: string, ps: seq<Param>, steps: seq<Step>)
    requires |ps| > 0
    ensures Apply(Url(base, ps), steps) == Url(base, ps + Taken(steps))
    decreases |steps|
  {
    if |steps| > 0 {
      var s := steps[0];
      var opt := Optional(s.cond, s.name, s.value);
      var ps' := ps + opt;
      assert Apply(Url(base, ps), steps) == Apply(AddParamIf(s.cond, Url(base, ps), s.name, s.value), steps[1..]);
      AddParamIfExtends(s.cond, base, ps, Param(s.name, s.value));
      ApplyIsRendered(base, ps', steps[1..]);
      assert Taken(steps) == opt + Taken(steps[1..]);
      assert ps' + Taken(steps[1..]) == ps + Taken(steps);
    } else {
      assert ps + [] == ps;
    }
  }

  /** Taking two runs of steps is taking their concatenation. */
  lemma {:induction false} ApplyAppend(url: string, s1: seq<Step>, s2: seq<Step>)
    ensures Apply(url, s1 + s2) == Apply(Apply(url, s1), s2)
    decreases |s1|
  {
    if |s1| > 0 {
      assert (s1 + s2)[1..] == s1[1..] + s2;
      ApplyAppend(AddParamIf(s1[0].cond, url, s1[0].name, s1[0].value), s1[1..], s2);
    } else {
      assert s1 + s2 == s2;
    }
  }

  /** Steps whose conditions are all false leave the URL alone. */
  lemma {:induction false} SkippedSteps(url: string, steps: seq<Step>)
    requires forall i :: 0 <= i < |steps| ==> !steps[i].cond
    ensures Apply(url, steps) == url
    decreases |steps|
  {
    if |steps| > 0 {
      SkippedSteps(url, steps[1..]);
    }
  }

  /** Taking steps never changes what the URL already holds. */
  lemma {:induction false} ApplyKeepsPrefix(prefix: string, url: string, steps: seq<Step>)
    requires prefix <= url
    ensures prefix <= Apply(url, steps)
    decreases |steps|
  {
    if |steps| > 0 {
      var s := steps[0];
      AddParamIfKeepsPrefix(s.cond, url, s.name, s.value);
      ApplyKeepsPrefix(prefix, AddParamIf(s.cond, url, s.name, s.value), steps[1..]);
    }
  }

  /** A name no step sets is not among the parameters they add. */
  lemma {:induction false} TakenNames(steps: seq<Step>, name: string)
    requires forall i :: 0 <= i < |steps| ==> steps[i].name != name
    ensures Get(Taken(steps), name).None?
    decreases |steps|
  {
    if |steps| > 0 {
      TakenNames(steps[1..], name);
      GetAppend(Optional(steps[0].cond, steps[0].name, steps[0].value), Taken(steps[1..]));
    }
  }

  /** Each step's parameter is present, with its value, exactly when the
      step's condition holds. */
  lemma {:induction false} GetTaken(ps: seq<Param>, steps: seq<Step>)
    requires FreshNames(ps, steps)
    ensures forall i :: 0 <= i < |steps| ==>
      Get(ps + Taken(steps), steps[i].name) == if steps[i].cond then Some(steps[i].value) else None
    decreases |steps|
  {
    if |steps| > 0 {
      var s := steps[0];
      var head := Optional(s.cond, s.name, s.value);
      GetAppend(ps, Taken(steps));
      GetAppend(head, Taken(steps[1..]));
      GetTaken([], steps[1..]);
      assert [] + Taken(steps[1..]) == Taken(steps[1..]);
      TakenNames(steps[1..], s.name);
      forall i | 0 <= i < |steps|
        ensures Get(ps + Taken(steps), steps[i].name) == if steps[i].cond then Some(steps[i].value) else None
      {
        GetAbsent(ps, steps[i].name);
        if i > 0 {
          assert steps[i] == steps[1..][i - 1];
        }
      }
    }
  }

  // ---------------------------------------------------------------------
  // Reading a query back

  /** The part of `s` before the first `c` (all of `s` when there is none). */
  function Before(s: string, c: char): string
    decreases |s|
  {
    if |s| == 0 || s[0] == c then "" else [s[0]] + Before(s[1..], c)
  }

  /** The part of `s` after the first `c` (empty when there is none). */
  function After(s: string, c: char): string
    decreases |s|
  {
    if |s| == 0 then "" else if s[0] == c then s[1..] else After(s[1..], c)
  }

  /** `s.split(c)` */
  function Split(s: string, c: char): (r: seq<string>)
    ensures |r| >= 1
    decreases |s|
  {
    if |s| == 0 then [""]
    else if s[0] == c then [""] + Split(s[1..], c)
    else var rest := Split(s[1..], c); [[s[0]] + rest[0]] + rest[1..]
  }

  /** One `name=value` item; an item without `=` is a name with an empty value. */
  function ParsePair(s: string): Param {
    Param(Before(s, '='), After(s, '='))
  }

  /** The parameters a URL carries, in order. */
  function ParseQuery(url: string): (ps: seq<Param>)
    ensures |ps| >= 1
  {
    var items := Split(After(url, '?'), '&');
    seq(|items|, i requires 0 <= i < |items| => ParsePair(items[i]))
  }

  /** A parameter list the unencoded URL can carry faithfully: no `&` anywhere
      and no `=` in a name. */
  predicate Carriable(ps: seq<Param>) {
    forall i :: 0 <= i < |ps| ==>
      '&' !in ps[i].name && '&' !in ps[i].value && '=' !in ps[i].name
  }

  /** The value of the first parameter called `name`. */
  function Get(ps: seq<Param>, name: string): Option<string> {
    if |ps| == 0 then None
    else if ps[0].name == name then Some(ps[0].value)
    else Get(ps[1..], name)
  }

  /** `[Param(name, value)]` when `cond` holds, nothing otherwise: a
      parameter the URL carries only when it is set. */
  function Optional(cond: bool, name: string, value: string): seq<Param> {
    if cond then [Param(name, value)] else []
  }

  /** A name no parameter has is not found. */
  lemma {:induction false} GetAbsent(ps: seq<Param>, name: string)
    requires forall i :: 0 <= i < |ps| ==> ps[i].name != name
    ensures Get(ps, name).None?
    decreases |ps|
  {
    if |ps| > 0 {
      GetAbsent(ps[1..], name);
    }
  }

  /** The first parameter with a name is the one `Get` finds. */
  lemma {:induction false} GetFirst(ps: seq<Param>, i: nat)
    requires i < |ps|
    requires forall j :: 0 <= j < i ==> ps[j].name != ps[i].name
    ensures Get(ps, ps[i].name) == Some(ps[i].value)
    decreases i
  {
    if i > 0 {
      GetFirst(ps[1..], i - 1);
    }
  }

  /** Looking a name up in a concatenation looks in the first part first. */
  lemma {:induction false} GetAppend(a: seq<Param>, b: seq<Param>)
    ensures forall name {:trigger Get(a + b, name)} ::
      Get(a + b, name) == if Get(a, name).Some? then Get(a, name) else Get(b, name)
    decreases |a|
  {
    if |a| > 0 {
      GetAppend(a[1..], b);
      assert (a + b)[1..] == a[1..] + b;
    } else {
      assert a + b == b;
    }
  }

  lemma {:induction false} SplitAt(a: string, c: char, b: string)
    requires c !in a
    ensures Before(a + [c] + b, c) == a
    ensures After(a + [c] + b, c) == b
    ensures Split(a + [c] + b, c) == [a] + Split(b, c)
    decreases |a|
  {
    if |a| == 0 {
      assert a + [c] + b == [c] + b;
      assert ([c] + b)[1..] == b;
    } else {
      assert (a + [c] + b)[1..] == a[1..] + [c] + b;
      SplitAt(a[1..], c, b);
      assert [a[0]] + a[1..] == a;
    }
  }

  lemma {:induction false} SplitNone(a: string, c: char)
    requires c !in a
    ensures Before(a, c) == a
    ensures After(a, c) == ""
    ensures Split(a, c) == [a]
    decreases |a|
  {
    if |a| > 0 {
      SplitNone(a[1..], c);
      assert [a[0]] + a[1..] == a;
    }
  }

  lemma PairRoundTrip(p: Param)
    requires '=' !in p.name
    ensures ParsePair(Pair(p)) == p
  {
    SplitAt(p.name, '=', p.value);
  }

  /** Splitting a joined list gives the list back when no item contains the
      separator. */
  lemma {:induction false} SplitJoin(xs: seq<string>, sep: char)
    requires |xs| > 0
    requires forall i :: 0 <= i < |xs| ==> sep !in xs[i]
    ensures Split(Join(xs, sep), sep) == xs
    decreases |xs|
  {
    if |xs| == 1 {
      SplitNone(xs[0], sep);
    } else {
      SplitJoin(xs[1..], sep);
      SplitAt(xs[0], sep, Join(xs[1..], sep));
    }
  }

  /** Reading the URL back gives exactly the parameters it was built from,
      in order, provided the unencoded values cannot be misread. */
  lemma UrlRoundTrip(base: string, ps: seq<Param>)
    requires '?' !in base
    requires |ps| > 0 && Carriable(ps)
    ensures ParseQuery(Url(base, ps)) == ps
  {
    SplitAt(base, '?', Render(ps));
    SplitJoin(Pairs(ps), '&');
    var items := Split(Render(ps), '&');
    forall i | 0 <= i < |ps|
      ensures ParsePair(items[i]) == ps[i]
    {
      PairRoundTrip(ps[i]);
    }
  }
}
