/**
 * Redirect paths: '/node/' . $id, optionally followed by '/latest', and the
 * reading of such a path back into the node route it names.
 */
module Paths {
  import opened Wrappers

  predicate IsDigit(c: char) {
    '0' <= c <= '9'
  }

  function DigitChar(d: nat): (c: char)
    requires d < 10
    ensures IsDigit(c) && c as int - '0' as int == d
  {
    ('0' as int + d) as char
  }

  /** An integer id in decimal, as PHP's string concatenation writes it:
      digits only, and no leading zero. */
  function NatToString(n: nat): (s: string)
    ensures 1 <= |s|
    ensures forall i :: 0 <= i < |s| ==> IsDigit(s[i])
    ensures s[0] == '0' ==> n == 0 && |s| == 1
  {
    if n < 10 then [DigitChar(n)] else NatToString(n / 10) + [DigitChar(n % 10)]
  }

  /** The number a non-empty string of decimal digits denotes. */
  function ParseDecimal(s: string): Option<nat> {
    if |s| == 0 || !IsDigit(s[|s| - 1]) then None
    else
      var d := s[|s| - 1] as int - '0' as int;
      if |s| == 1 then Some(d)
      else match ParseDecimal(s[..|s| - 1])
        case None => None
        case Some(v) => Some(v * 10 + d)
  }

  lemma {:induction false} ParseNatToString(n: nat)
    ensures ParseDecimal(NatToString(n)) == Some(n)
  {
    if n >= 10 {
      var s := NatToString(n);
      assert s[..|s| - 1] == NatToString(n / 10);
      ParseNatToString(n / 10);
    }
  }

  /** The two routes the forms redirect to: a node's canonical page and
      its latest revision. */
  datatype Route = Canonical(id: nat) | Latest(id: nat)

  const NodePrefix := "/node/"
  const LatestSuffix := "/latest"

  function RoutePath(r: Route): (p: string)
    ensures |NodePrefix| < |p| && p[..|NodePrefix|] == NodePrefix
    ensures r.Latest? <==> |p| >= |LatestSuffix| && p[|p| - |LatestSuffix|..] == LatestSuffix
  {
    match r
    case Canonical(id) =>
      var digits := NatToString(id);
      var p := NodePrefix + digits;
      assert p[|p| - 1] == digits[|digits| - 1];
      assert |p| >= |LatestSuffix| ==> p[|p| - |LatestSuffix|..][|LatestSuffix| - 1] == p[|p| - 1];
      p
    case Latest(id) => NodePrefix + NatToString(id) + LatestSuffix
  }

  /** The route a path names, or None for a path of another shape. */
  function ParseRoute(p: string): Option<Route> {
    if |p| < |NodePrefix| || p[..|NodePrefix|] != NodePrefix then None
    else
      var rest := p[|NodePrefix|..];
      if |rest| >= |LatestSuffix| && rest[|rest| - |LatestSuffix|..] == LatestSuffix then
        match ParseDecimal(rest[..|rest| - |LatestSuffix|])
        case None => None
        case Some(id) => Some(Latest(id))
      else
        match ParseDecimal(rest)
        case None => None
        case Some(id) => Some(Canonical(id))
  }

  /** Every redirect path the forms build reads back as the route it was
      built from. */
  lemma RoutePathRoundTrip(r: Route)
    ensures ParseRoute(RoutePath(r)) == Some(r)
  {
    var digits := NatToString(r.id);
    ParseNatToString(r.id);
    var p := RoutePath(r);
    assert p[..|NodePrefix|] == NodePrefix;
    var rest := p[|NodePrefix|..];
    match r
    case Canonical(id) =>
      assert rest == digits;
      if |rest| >= |LatestSuffix| {
        assert rest[|rest| - 1] == digits[|digits| - 1];
        assert rest[|rest| - |LatestSuffix|..][|LatestSuffix| - 1] == rest[|rest| - 1];
      }
    case Latest(id) =>
      assert rest == digits + LatestSuffix;
      assert rest[|rest| - |LatestSuffix|..] == LatestSuffix;
      assert rest[..|rest| - |LatestSuffix|] == digits;
  }

  /** Distinct routes never share a path: in particular two nodes never
      redirect to the same page, and a latest-revision page is never a
      canonical one. */
  lemma RoutePathInjective(r1: Route, r2: Route)
    ensures RoutePath(r1) == RoutePath(r2) <==> r1 == r2
  {
    if RoutePath(r1) == RoutePath(r2) {
      RoutePathRoundTrip(r1);
      RoutePathRoundTrip(r2);
    }
  }
}
