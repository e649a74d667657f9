/** REST request paths: the route matcher of the store and the parameters that the invoke handler reads. */
module Paths {
  import opened Wrappers
  import opened GoStrings

  // ---------------------------------------------------------------- segments

  predicate AllSlashes(s: string) {
    forall i | 0 <= i < |s| :: s[i] == '/'
  }

  function TrimSlashesLeft(s: string): (r: string)
    ensures |r| <= |s| && (r != "" ==> r[0] != '/')
  {
    if s != "" && s[0] == '/' then TrimSlashesLeft(s[1..]) else s
  }

  function TrimSlashesRight(s: string): (r: string)
    ensures |r| <= |s| && (r != "" ==> r[|r| - 1] != '/')
  {
    if s != "" && s[|s| - 1] == '/' then TrimSlashesRight(s[..|s| - 1]) else s
  }

  lemma {:induction false} LeftParts(s: string) returns (a: string)
    ensures s == a + TrimSlashesLeft(s) && AllSlashes(a)
  {
    if s != "" && s[0] == '/' {
      a := LeftParts(s[1..]);
      a := "/" + a;
    } else {
      a := "";
    }
  }

  lemma {:induction false} RightParts(s: string) returns (b: string)
    ensures s == TrimSlashesRight(s) + b && AllSlashes(b)
  {
    if s != "" && s[|s| - 1] == '/' {
      b := RightParts(s[..|s| - 1]);
      assert s == s[..|s| - 1] + "/" == TrimSlashesRight(s) + (b + "/");
      b := b + "/";
    } else {
      b := "";
    }
  }

  /** strings.Trim(s, "/"). */
  function TrimSlashes(s: string): string {
    TrimSlashesRight(TrimSlashesLeft(s))
  }

  predicate Bare(s: string) {
    s == "" || (s[0] != '/' && s[|s| - 1] != '/')
  }

  lemma TrimSlashesParts(p: string) returns (a: string, b: string)
    ensures p == a + TrimSlashes(p) + b && AllSlashes(a) && AllSlashes(b) && Bare(TrimSlashes(p))
  {
    a := LeftParts(p);
    b := RightParts(TrimSlashesLeft(p));
    var l, r := TrimSlashesLeft(p), TrimSlashes(p);
    assert l == r + b;
    assert a + l == a + r + b;
    if r != "" { assert r[0] == l[0]; }
  }

  /** splitPathParts and splitRestPath. */
  function SplitPathParts(p: string): seq<string> {
    var t := TrimSlashes(p);
    if t == "" then [] else Split(t, '/')
  }

  lemma {:induction false} LastPart(s: string)
    requires s == "" || s[|s| - 1] != '/'
    ensures s != "" ==> var parts := Split(s, '/'); parts[|parts| - 1] != ""
    decreases |s|
  {
    var i := IndexOf(s, '/');
    if i < |s| {
      LastOfSuffix(s, i + 1);
      LastPart(s[i + 1..]);
      LastOfCons(s[..i], Split(s[i + 1..], '/'));
    }
  }

  lemma LastOfSuffix(s: string, i: nat)
    requires i <= |s|
    ensures i < |s| ==> s[i..] != "" && s[i..][|s| - i - 1] == s[|s| - 1]
  {
  }

  lemma LastOfCons(a: string, parts: seq<string>)
    requires parts != []
    ensures ([a] + parts)[|[a] + parts| - 1] == parts[|parts| - 1]
  {
  }

  /** Inner segments may be empty; the last one is not, and none has a slash. */
  ghost predicate Segments(qs: seq<string>) {
    FreeOf(qs, '/') && (qs != [] ==> qs[|qs| - 1] != "")
  }

  lemma PathPartsAreSegments(p: string)
    ensures Segments(SplitPathParts(p)) && Join(SplitPathParts(p), '/') == TrimSlashes(p)
  {
    var t := TrimSlashes(p);
    var a, b := TrimSlashesParts(p);
    if t != "" {
      LastPart(t);
      JoinSplit(t, '/');
    }
  }

  // ---------------------------------------------------------------- matching

  const PROXY := "{proxy+}"

  predicate IsProxy(rp: string) {
    rp == PROXY
  }

  predicate IsPlaceholder(rp: string) {
    HasPrefix(rp, "{") && HasSuffix(rp, "}")
  }

  function NameOf(rp: string): string {
    TrimSuffix(TrimPrefix(rp, "{"), "}")
  }

  /** A template takes a request: literal segments are equal, a placeholder takes one segment, the proxy
      takes all that are left, none included. */
  predicate Matches(rs: seq<string>, qs: seq<string>) {
    if rs == [] then qs == []
    else if IsProxy(rs[0]) then true
    else qs != [] && (IsPlaceholder(rs[0]) || rs[0] == qs[0]) && Matches(rs[1..], qs[1..])
  }

  /** Ten for a literal segment, one for a placeholder or the proxy. */
  function Score(rs: seq<string>): nat {
    if rs == [] then 0
    else if IsProxy(rs[0]) then 1
    else (if IsPlaceholder(rs[0]) then 1 else 10) + Score(rs[1..])
  }

  function NormalizePath(p: string): string {
    var t := TrimSpace(p);
    if t == "" || t == "/" then "/"
    else TrimSuffix(if HasPrefix(t, "/") then t else "/" + t, "/")
  }

  /** restResourceMatchScore. */
  method MatchScore(resourcePath: string, requestPath: string) returns (score: nat, ok: bool)
    ensures var rs := SplitPathParts(NormalizePath(resourcePath));
            var qs := SplitPathParts(NormalizePath(requestPath));
            ok == Matches(rs, qs) && score == if ok then Score(rs) else 0
  {
    score, ok := ScoreParts(SplitPathParts(NormalizePath(resourcePath)), SplitPathParts(NormalizePath(requestPath)));
  }

  method ScoreParts(rs: seq<string>, qs: seq<string>) returns (score: nat, ok: bool)
    ensures ok == Matches(rs, qs) && score == if ok then Score(rs) else 0
  {
    score := 0;
    var ri, qi := 0, 0;
    while ri < |rs|
      invariant 0 <= ri <= |rs| && 0 <= qi <= |qs|
      invariant Matches(rs, qs) == Matches(rs[ri..], qs[qi..])
      invariant Score(rs) == score + Score(rs[ri..])
    {
      var rp := rs[ri];
      assert rs[ri..][1..] == rs[ri + 1..];
      assert qi < |qs| ==> qs[qi..][1..] == qs[qi + 1..];
      if IsProxy(rp) {
        return score + 1, true;
      }
      if qi >= |qs| {
        return 0, false;
      }
      if IsPlaceholder(rp) {
        score := score + 1;
      } else if rp == qs[qi] {
        score := score + 10;
      } else {
        return 0, false;
      }
      ri, qi := ri + 1, qi + 1;
    }
    return if qi == |qs| then score else 0, qi == |qs|;
  }

  lemma {:induction false} LeftOf(a: string, s: string)
    requires AllSlashes(a) && (s == "" || s[0] != '/')
    ensures TrimSlashesLeft(a + s) == s
  {
    if a == "" {
      assert a + s == s;
    } else {
      assert (a + s)[0] == a[0] && (a + s)[1..] == a[1..] + s;
      LeftOf(a[1..], s);
    }
  }

  lemma {:induction false} RightOf(s: string, b: string)
    requires AllSlashes(b) && (s == "" || s[|s| - 1] != '/')
    ensures TrimSlashesRight(s + b) == s
  {
    if b == "" {
      assert s + b == s;
    } else {
      var n := |b| - 1;
      assert (s + b)[|s + b| - 1] == b[n] && (s + b)[..|s + b| - 1] == s + b[..n];
      RightOf(s, b[..n]);
    }
  }

  lemma TrimSlashesOf(a: string, s: string, b: string)
    requires AllSlashes(a) && AllSlashes(b) && Bare(s)
    ensures TrimSlashes(a + s + b) == s
  {
    if s == "" {
      assert a + s + b == (a + b) + "";
      LeftOf(a + b, "");
    } else {
      assert a + s + b == a + (s + b);
      assert (s + b)[0] == s[0];
      LeftOf(a, s + b);
      RightOf(s, b);
    }
  }

  /** The store's matcher normalizes both paths first; on paths without white space around them this changes
      no segment, so it agrees with the reader of the parameters. */
  lemma NormalizeKeepsParts(p: string)
    requires Trimmed(p)
    ensures SplitPathParts(NormalizePath(p)) == SplitPathParts(p)
  {
    TrimmedIsFixed(p);
    if p == "" {
      NoParts();
    } else if p != "/" {
      var p' := if HasPrefix(p, "/") then p else "/" + p;
      LeadingSlash(p);
      TrailingSlash(p');
    }
  }

  lemma NoParts()
    ensures TrimSlashes("/") == TrimSlashes("")
  {
    LeftOf("/", "");
  }

  lemma LeadingSlash(p: string)
    ensures TrimSlashes("/" + p) == TrimSlashes(p)
  {
    var a, b := TrimSlashesParts(p);
    assert "/" + p == ("/" + a) + TrimSlashes(p) + b;
    TrimSlashesOf("/" + a, TrimSlashes(p), b);
  }

  lemma TrailingSlash(p: string)
    ensures TrimSlashes(TrimSuffix(p, "/")) == TrimSlashes(p)
  {
    if HasSuffix(p, "/") {
      var q := p[..|p| - 1];
      var a, b := TrimSlashesParts(q);
      assert p == q + "/" == a + TrimSlashes(q) + (b + "/");
      TrimSlashesOf(a, TrimSlashes(q), b + "/");
    }
  }

  // ---------------------------------------------------------------- parameters

  /** The assignments that a template makes on a request, in order. */
  function Entries(rs: seq<string>, qs: seq<string>): seq<(string, string)> {
    if rs == [] then []
    else if IsProxy(rs[0]) then [("proxy", Join(qs, '/'))]
    else if qs == [] then Entries(rs[1..], [])
    else (if IsPlaceholder(rs[0]) then [(NameOf(rs[0]), qs[0])] else []) + Entries(rs[1..], qs[1..])
  }

  /** Later assignments overwrite earlier ones. */
  function Assigned(es: seq<(string, string)>): map<string, string> {
    if es == [] then map[] else Assigned(es[..|es| - 1])[es[|es| - 1].0 := es[|es| - 1].1]
  }

  /** restPathParameters; None is the nil map. */
  method RestPathParameters(resourcePath: string, requestPath: string) returns (params: Option<map<string, string>>)
    ensures var m := Assigned(Entries(SplitPathParts(resourcePath), SplitPathParts(requestPath)));
            params == if m == map[] then None else Some(m)
  {
    var out := AssignParts(SplitPathParts(resourcePath), SplitPathParts(requestPath));
    return if |out| == 0 then None else Some(out);
  }

  /** The segments from an index on, none when there are fewer. */
  function From(qs: seq<string>, i: nat): seq<string> {
    if i < |qs| then qs[i..] else []
  }

  lemma EntriesStep(rs: seq<string>, qs: seq<string>, i: nat)
    requires i < |rs|
    ensures Entries(rs[i..], From(qs, i))
         == if IsProxy(rs[i]) then [("proxy", Join(From(qs, i), '/'))]
            else (if IsPlaceholder(rs[i]) && i < |qs| then [(NameOf(rs[i]), qs[i])] else [])
                 + Entries(rs[i + 1..], From(qs, i + 1))
  {
    assert rs[i..][0] == rs[i] && rs[i..][1..] == rs[i + 1..];
    if i < |qs| { assert From(qs, i)[0] == qs[i] && From(qs, i)[1..] == From(qs, i + 1); }
  }

  lemma AssignedSnoc(es: seq<(string, string)>, k: string, v: string)
    ensures Assigned(es + [(k, v)]) == Assigned(es)[k := v]
  {
    assert (es + [(k, v)])[..|es|] == es;
  }

  lemma AppendOne(es: seq<(string, string)>, e: (string, string), rest: seq<(string, string)>)
    ensures es + ([e] + rest) == (es + [e]) + rest
  {
  }

  /** The remaining entries of a template and a request, told by the next segment. */
  lemma EntriesFrom(rs: seq<string>, qs: seq<string>, i: nat, es: seq<(string, string)>)
    requires i < |rs| && Entries(rs, qs) == es + Entries(rs[i..], From(qs, i))
    ensures IsProxy(rs[i]) ==>
              Entries(rs, qs) == es + [("proxy", if i < |qs| then Join(qs[i..], '/') else "")]
    ensures !IsProxy(rs[i]) ==>
              Entries(rs, qs) == (if IsPlaceholder(rs[i]) && i < |qs| then es + [(NameOf(rs[i]), qs[i])] else es)
                                 + Entries(rs[i + 1..], From(qs, i + 1))
  {
    EntriesStep(rs, qs, i);
    var rest := Entries(rs[i + 1..], From(qs, i + 1));
    if i < |qs| {
      AppendOne(es, (NameOf(rs[i]), qs[i]), rest);
    }
    assert [] + rest == rest;
  }

  method AssignParts(rs: seq<string>, qs: seq<string>) returns (out: map<string, string>)
    ensures out == Assigned(Entries(rs, qs))
  {
    out := map[];
    ghost var es: seq<(string, string)> := [];
    assert From(qs, 0) == qs && rs[0..] == rs;
    for i := 0 to |rs|
      invariant out == Assigned(es)
      invariant Entries(rs, qs) == es + Entries(rs[i..], From(qs, i))
    {
      var rp := rs[i];
      EntriesFrom(rs, qs, i, es);
      if IsProxy(rp) {
        var rest := if i < |qs| then Join(qs[i..], '/') else "";
        AssignedSnoc(es, "proxy", rest);
        out := out["proxy" := rest];
        assert out == Assigned(es + [("proxy", rest)]);
        return;
      }
      if IsPlaceholder(rp) && i < |qs| {
        AssignedSnoc(es, NameOf(rp), qs[i]);
        out := out[NameOf(rp) := qs[i]];
        es := es + [(NameOf(rp), qs[i])];
      }
    }
    assert Entries(rs, qs) == es;
  }

  /** The template with the values of a map in place of its placeholders, the segments of the proxy included. */
  function Substitute(rs: seq<string>, m: map<string, string>): Option<seq<string>> {
    if rs == [] then Some([])
    else if IsProxy(rs[0]) then
      if "proxy" !in m then None
      else Some(if m["proxy"] == "" then [] else Split(m["proxy"], '/'))
    else if IsPlaceholder(rs[0]) && NameOf(rs[0]) !in m then None
    else
      var rest := Substitute(rs[1..], m);
      if rest.None? then None else Some([if IsPlaceholder(rs[0]) then m[NameOf(rs[0])] else rs[0]] + rest.value)
  }

  ghost predicate Agrees(es: seq<(string, string)>, m: map<string, string>) {
    forall e | e in es :: e.0 in m && m[e.0] == e.1
  }

  lemma {:induction false} SubstituteAgrees(rs: seq<string>, qs: seq<string>, m: map<string, string>)
    requires Matches(rs, qs) && Segments(qs)
    ensures Substitute(rs, m) == Some(qs) <==> Agrees(Entries(rs, qs), m)
  {
    if rs != [] {
      if IsProxy(rs[0]) {
        assert ("proxy", Join(qs, '/')) in Entries(rs, qs);
        if "proxy" in m { ProxyValue(m["proxy"], qs); }
      } else {
        assert forall q | q in qs[1..] :: q in qs;
        SubstituteAgrees(rs[1..], qs[1..], m);
        var e := (NameOf(rs[0]), qs[0]);
        var rest := Substitute(rs[1..], m);
        if IsPlaceholder(rs[0]) {
          assert Entries(rs, qs) == [e] + Entries(rs[1..], qs[1..]);
          AgreesCons(e, Entries(rs[1..], qs[1..]), m);
          if e.0 in m && rest.Some? { ConsInjective(m[e.0], rest.value, qs); }
        } else {
          assert Entries(rs, qs) == Entries(rs[1..], qs[1..]);
          if rest.Some? { ConsInjective(rs[0], rest.value, qs); }
        }
      }
    }
  }

  lemma ConsInjective(a: string, rest: seq<string>, qs: seq<string>)
    requires qs != []
    ensures [a] + rest == qs <==> a == qs[0] && rest == qs[1..]
  {
    if [a] + rest == qs { assert qs[0] == a && ([a] + rest)[1..] == rest; }
  }

  lemma AgreesCons(e: (string, string), es: seq<(string, string)>, m: map<string, string>)
    ensures Agrees([e] + es, m) <==> e.0 in m && m[e.0] == e.1 && Agrees(es, m)
  {
    if Agrees([e] + es, m) {
      assert e in [e] + es;
      assert forall x | x in es :: x in [e] + es;
    }
  }

  /** The joined rest determines the segments, as the last of them is not empty. */
  lemma ProxyValue(v: string, qs: seq<string>)
    requires Segments(qs)
    ensures (if v == "" then [] else Split(v, '/')) == qs <==> v == Join(qs, '/')
  {
    JoinSplit(v, '/');
    if qs != [] {
      SplitJoin(qs, '/');
      assert Join(qs, '/') != "" by { LastNotEmpty(qs); }
    }
  }

  lemma {:induction false} LastNotEmpty(qs: seq<string>)
    requires qs != [] && qs[|qs| - 1] != ""
    ensures Join(qs, '/') != ""
  {
    if |qs| == 1 { assert Join(qs, '/') == qs[0]; }
  }

  /** One name, one value. */
  ghost predicate NoConflict(es: seq<(string, string)>) {
    forall e, e' | e in es && e' in es && e.0 == e'.0 :: e.1 == e'.1
  }

  lemma {:induction false} AssignedDomain(es: seq<(string, string)>, k: string)
    ensures k in Assigned(es) ==> (k, Assigned(es)[k]) in es
    ensures (exists e | e in es :: e.0 == k) ==> k in Assigned(es)
  {
    if es != [] {
      var n := |es| - 1;
      AssignedDomain(es[..n], k);
      assert es == es[..n] + [es[n]];
    }
  }

  lemma AssignedAgrees(es: seq<(string, string)>)
    ensures Agrees(es, Assigned(es)) <==> NoConflict(es)
  {
    if NoConflict(es) {
      forall e | e in es ensures e.0 in Assigned(es) && Assigned(es)[e.0] == e.1 {
        AssignedDomain(es, e.0);
      }
    }
  }

  lemma {:induction false} SubstituteMatches(rs: seq<string>, qs: seq<string>, m: map<string, string>)
    requires Substitute(rs, m) == Some(qs)
    ensures Matches(rs, qs)
  {
    if rs != [] && !IsProxy(rs[0]) {
      var rest := Substitute(rs[1..], m).value;
      ConsInjective(qs[0], rest, qs);
      SubstituteMatches(rs[1..], qs[1..], m);
    }
  }

  /** Main result: for every template and request, the parameters rebuild the request's segments exactly when the
      template fits them and asks for no name with two different values. */
  lemma ParametersRebuild(resourcePath: string, requestPath: string)
    ensures var rs, qs := SplitPathParts(resourcePath), SplitPathParts(requestPath);
            Substitute(rs, Assigned(Entries(rs, qs))) == Some(qs) <==> Matches(rs, qs) && NoConflict(Entries(rs, qs))
  {
    var rs, qs := SplitPathParts(resourcePath), SplitPathParts(requestPath);
    var m := Assigned(Entries(rs, qs));
    PathPartsAreSegments(requestPath);
    AssignedAgrees(Entries(rs, qs));
    if Matches(rs, qs) {
      SubstituteAgrees(rs, qs, m);
    }
    if Substitute(rs, m) == Some(qs) {
      SubstituteMatches(rs, qs, m);
    }
  }

  /** The names of a template, the proxy's among them. */
  function Names(rs: seq<string>): seq<string> {
    if rs == [] then []
    else if IsProxy(rs[0]) then ["proxy"]
    else (if IsPlaceholder(rs[0]) then [NameOf(rs[0])] else []) + Names(rs[1..])
  }

  ghost predicate Distinct(ns: seq<string>) {
    forall i, j | 0 <= i < j < |ns| :: ns[i] != ns[j]
  }

  lemma {:induction false} EntriesNames(rs: seq<string>, qs: seq<string>)
    requires Matches(rs, qs)
    ensures |Entries(rs, qs)| == |Names(rs)|
    ensures forall i | 0 <= i < |Names(rs)| :: Entries(rs, qs)[i].0 == Names(rs)[i]
  {
    if rs != [] && !IsProxy(rs[0]) {
      EntriesNames(rs[1..], qs[1..]);
      var es, ns := Entries(rs[1..], qs[1..]), Names(rs[1..]);
      if IsPlaceholder(rs[0]) {
        assert Entries(rs, qs) == [(NameOf(rs[0]), qs[0])] + es && Names(rs) == [NameOf(rs[0])] + ns;
      } else {
        assert Entries(rs, qs) == es && Names(rs) == ns;
      }
    }
  }

  lemma DistinctNoConflict(rs: seq<string>, qs: seq<string>)
    requires Matches(rs, qs) && Distinct(Names(rs))
    ensures NoConflict(Entries(rs, qs))
  {
    EntriesNames(rs, qs);
    var es := Entries(rs, qs);
    forall e, e' | e in es && e' in es && e.0 == e'.0 ensures e.1 == e'.1 {
      var i: nat :| i < |es| && es[i] == e;
      var j: nat :| j < |es| && es[j] == e';
      assert Names(rs)[i] == Names(rs)[j];
      assert i == j;
    }
  }

  /** With distinct names, the parameters of a request that the store's matcher accepts rebuild it exactly when
      the template also fits the segments as they are, before the matcher trims the paths; trimmed paths do. */
  lemma DistinctNamesRebuild(resourcePath: string, requestPath: string)
    requires Matches(SplitPathParts(NormalizePath(resourcePath)), SplitPathParts(NormalizePath(requestPath)))
    requires Distinct(Names(SplitPathParts(resourcePath)))
    ensures var rs, qs := SplitPathParts(resourcePath), SplitPathParts(requestPath);
            && (Substitute(rs, Assigned(Entries(rs, qs))) == Some(qs) <==> Matches(rs, qs))
            && (Trimmed(resourcePath) && Trimmed(requestPath) ==> Matches(rs, qs))
            && Join(qs, '/') == TrimSlashes(requestPath)
  {
    var rs, qs := SplitPathParts(resourcePath), SplitPathParts(requestPath);
    if Trimmed(resourcePath) && Trimmed(requestPath) {
      NormalizeKeepsParts(resourcePath);
      NormalizeKeepsParts(requestPath);
    }
    ParametersRebuild(resourcePath, requestPath);
    if Matches(rs, qs) {
      DistinctNoConflict(rs, qs);
    }
    PathPartsAreSegments(requestPath);
  }

  /** An instance: one name asked for two values. */
  lemma RepeatedNameLost()
    ensures var rs, qs := ["{id}", "{id}"], ["1", "2"];
            Matches(rs, qs) && Substitute(rs, Assigned(Entries(rs, qs))) != Some(qs)
  {
    var rs, qs := ["{id}", "{id}"], ["1", "2"];
    assert rs[1..] == ["{id}"] && qs[1..] == ["2"] && rs[1..][1..] == [] && qs[1..][1..] == [];
    var es := Entries(rs, qs);
    assert es == [(NameOf("{id}"), "1"), (NameOf("{id}"), "2")];
    assert es[0] in es && es[1] in es;
    SubstituteAgrees(rs, qs, Assigned(es));
    AssignedAgrees(es);
  }

  // ---------------------------------------------------------------- placeholders and scores

  /** A placeholder is a name in braces. */
  lemma PlaceholderIff(rp: string)
    ensures IsPlaceholder(rp) <==> rp == "{" + NameOf(rp) + "}"
  {
    if IsPlaceholder(rp) {
      assert rp[0] == '{' && rp[|rp| - 1] == '}' && |rp| > 1;
      var tail := rp[1..];
      assert TrimPrefix(rp, "{") == tail && tail[|tail| - 1..] == "}";
    }
  }

  lemma NameInBraces(n: string)
    ensures IsPlaceholder("{" + n + "}") && NameOf("{" + n + "}") == n
  {
    var rp := "{" + n + "}";
    assert rp[1..] == n + "}" && rp[|rp| - 1..] == "}";
    assert (n + "}")[|n|..] == "}";
  }

  function Placeholders(rs: seq<string>): nat {
    if rs == [] then 0 else Placeholders(rs[1..]) + if IsPlaceholder(rs[0]) then 1 else 0
  }

  /** A template without a proxy scores ten for each segment less nine for each placeholder; a final proxy adds one. */
  lemma {:induction false} ScoreCounts(rs: seq<string>)
    requires forall r | r in rs :: !IsProxy(r)
    ensures Score(rs) == 10 * |rs| - 9 * Placeholders(rs)
    ensures Score(rs + [PROXY]) == Score(rs) + 1
  {
    if rs == [] {
      assert rs + [PROXY] == [PROXY];
    } else {
      assert rs[0] in rs && forall r | r in rs[1..] :: r in rs;
      assert (rs + [PROXY])[1..] == rs[1..] + [PROXY];
      ScoreCounts(rs[1..]);
    }
  }
}
