/** Image references: which may be pulled, and how lab registry references are rewritten for the nested engine. */
module LabRegistry {
  import opened Wrappers
  import opened GoStrings

  const LAB_HOST := "127.0.0.1:4566"
  const DIND_HOST := "host.docker.internal:"

  // ---------------------------------------------------------------- listen addresses

  /** The index of the last occurrence, or -1. */
  function LastIndexOf(s: string, c: char): (i: int)
    ensures -1 <= i < |s| && (i >= 0 ==> s[i] == c)
    ensures forall k | i < k < |s| :: s[k] != c
  {
    if s == "" then -1
    else if s[|s| - 1] == c then |s| - 1
    else LastIndexOf(s[..|s| - 1], c)
  }

  /** net.SplitHostPort, of which only the port is asked for. */
  function PortOf(hostport: string): Option<string> {
    var i := LastIndexOf(hostport, ':');
    if i < 0 then None
    else if hostport[0] == '[' then
      var end := IndexOf(hostport, ']');
      if end == |hostport| || end + 1 != i || '[' in hostport[1..] || ']' in hostport[end + 1..] then None
      else Some(hostport[i + 1..])
    else if ':' in hostport[..i] || '[' in hostport || ']' in hostport then None
    else Some(hostport[i + 1..])
  }

  function DinDPullHost(listenAddr: string): string {
    var port := PortOf(TrimSpace(listenAddr));
    if port.Some? && port.value != "" then DIND_HOST + port.value
    else
      var fallback := PortOf(LAB_HOST);
      if fallback.Some? && fallback.value != "" then DIND_HOST + fallback.value else DIND_HOST + "4566"
  }

  // ---------------------------------------------------------------- the allow check

  predicate IsLabAccountID(s: string) {
    |s| == 12 && forall i | 0 <= i < |s| :: '0' <= s[i] <= '9'
  }

  /** The text before the first '@' or ':'. */
  function NameOf(repo: string): string {
    var i, j := IndexOf(repo, '@'), IndexOf(repo, ':');
    repo[..if i < j then i else j]
  }

  predicate IsLabECRPath(path: string) {
    var p := TrimSpace(path);
    var i := IndexOf(p, '/');
    && p != "" && !Contains(p, "..")
    && i < |p| && i > 0 && i + 1 < |p|
    && IsLabAccountID(p[..i])
    && NameOf(p[i + 1..]) != "" && '/' !in NameOf(p[i + 1..])
  }

  predicate Blank(s: string) {
    TrimSpace(s) == ""
  }

  /** A lab path under a registry host. */
  predicate UnderHost(ref: string, host: string) {
    HasPrefix(ref, host + "/") && IsLabECRPath(TrimPrefix(ref, host + "/"))
  }

  predicate IsLabRegistryRef(ref: string, listenAddr: string) {
    IsLabRef(ref, LAB_HOST, DinDPullHost(listenAddr), !Blank(listenAddr))
  }

  predicate IsLabRef(ref: string, lab: string, dind: string, live: bool) {
    if HasPrefix(ref, lab + "/") then UnderHost(ref, lab) else live && UnderHost(ref, dind)
  }

  const LAMBDA := "public.ecr.aws/lambda/"

  const PINNED_BASES: set<string> := {
    "public.ecr.aws/lambda/python:3.12", "public.ecr.aws/lambda/python:3.11", "public.ecr.aws/lambda/python:3.13",
    "public.ecr.aws/lambda/python:3.14", "public.ecr.aws/lambda/nodejs:20", "public.ecr.aws/lambda/nodejs:22",
    "public.ecr.aws/lambda/nodejs:24", "public.ecr.aws/lambda/java:21", "public.ecr.aws/lambda/java:25",
    "python:3.12-slim", "python:3.11-slim", "python:3.13-slim", "python:3.14-slim",
    "node:20-slim", "node:22-slim", "node:24-slim"
  }

  const PINNED_SYSTEMS: set<string> := {
    "eclipse-temurin:21-jdk", "eclipse-temurin:25-jdk", "eclipse-temurin:21-jre", "eclipse-temurin:25-jre",
    "alpine:3.20", "alpine:3.23", "public.ecr.aws/docker/library/alpine:3.20",
    "public.ecr.aws/docker/library/alpine:3.23", "public.ecr.aws/amazonlinux/amazonlinux:2023",
    "public.ecr.aws/docker/library/ubuntu:22.04"
  }

  const PINNED_SERVICES: set<string> := {
    "postgres:16-alpine", "mysql:8.0", "mariadb:11", "valkey/valkey:8-alpine", "mongo:7", "rabbitmq:3.13-alpine",
    "apache/activemq-classic:5.18.3", "opensearchproject/opensearch:2.11.1", "tinkerpop/gremlin-server:3.7.3",
    "neo4j:5-community", "redpandadata/redpanda:v24.2.4", "eclipse-mosquitto:2.0.20", "floci/floci-duck:0.3.0"
  }

  predicate IsPinnedLabImage(ref: string) {
    var lower := ToLower(ref);
    if HasPrefix(lower, LAMBDA) && Contains(lower, "@sha256:") then
      lower[|LAMBDA|..] != "" && !Contains(lower[|LAMBDA|..], "..")
    else lower in PINNED_BASES || lower in PINNED_SYSTEMS || lower in PINNED_SERVICES
  }

  datatype Verdict = Allowed | Empty | NeedsDigest | NotListed

  /** The index of the first '/' or '@'. */
  function HostEnd(prefix: string): (i: nat)
    ensures i <= |prefix|
  {
    var i, j := IndexOf(prefix, '/'), IndexOf(prefix, '@');
    if i < j then i else j
  }

  predicate PrefixNeedsDigest(prefix: string) {
    var host := prefix[..HostEnd(prefix)];
    '.' in host || ':' in host
  }

  predicate Listed(ref: string, prefix: string) {
    prefix != "" && HasPrefix(ref, prefix)
  }

  /** The first prefix of the allowlist that fits decides. */
  function Scan(ref: string, extra: seq<string>): Verdict {
    if extra == [] then NotListed
    else if Listed(ref, extra[0]) then
      if PrefixNeedsDigest(extra[0]) && !Contains(ref, "@sha256:") then NeedsDigest else Allowed
    else Scan(ref, extra[1..])
  }

  predicate BuiltIn(ref: string, listenAddr: string) {
    IsLabRegistryRef(ref, listenAddr) || IsPinnedLabImage(ref)
  }

  function AllowanceOf(imageRef: string, listenAddr: string, extra: seq<string>): Verdict {
    var ref := TrimSpace(imageRef);
    if ref == "" then Empty
    else if BuiltIn(ref, listenAddr) then Allowed
    else Scan(ref, extra)
  }

  /** AllowImagePull; extra is the allowlist of the environment. */
  method AllowImagePull(imageRef: string, listenAddr: string, extra: seq<string>) returns (v: Verdict)
    ensures v == AllowanceOf(imageRef, listenAddr, extra)
  {
    var ref := TrimSpace(imageRef);
    if ref == "" {
      return Empty;
    }
    if IsLabRegistryRef(ref, listenAddr) {
      return Allowed;
    }
    if IsPinnedLabImage(ref) {
      return Allowed;
    }
    v := ScanPrefixes(ref, extra);
  }

  method ScanPrefixes(ref: string, extra: seq<string>) returns (v: Verdict)
    ensures v == Scan(ref, extra)
  {
    for i := 0 to |extra|
      invariant Scan(ref, extra) == Scan(ref, extra[i..])
    {
      assert extra[i..][1..] == extra[i + 1..];
      var prefix := extra[i];
      if prefix == "" {
        continue;
      }
      if HasPrefix(ref, prefix) {
        if PrefixNeedsDigest(prefix) && !Contains(ref, "@sha256:") {
          return NeedsDigest;
        }
        return Allowed;
      }
    }
    return NotListed;
  }

  /** The first prefix of the allowlist that fits. */
  ghost predicate FirstFit(ref: string, extra: seq<string>, i: nat) {
    i < |extra| && Listed(ref, extra[i]) && forall j | 0 <= j < i :: !Listed(ref, extra[j])
  }

  predicate Pinned(ref: string, prefix: string) {
    !PrefixNeedsDigest(prefix) || Contains(ref, "@sha256:")
  }

  lemma {:induction false} ScanIff(ref: string, extra: seq<string>)
    ensures Scan(ref, extra) == Allowed <==> exists i: nat :: FirstFit(ref, extra, i) && Pinned(ref, extra[i])
    ensures Scan(ref, extra) == NeedsDigest <==> exists i: nat :: FirstFit(ref, extra, i) && !Pinned(ref, extra[i])
    ensures Scan(ref, extra) != Empty
  {
    if extra != [] {
      var rest := extra[1..];
      if Listed(ref, extra[0]) {
        assert FirstFit(ref, extra, 0);
      } else {
        ScanIff(ref, rest);
        forall i: nat | FirstFit(ref, rest, i) ensures FirstFit(ref, extra, i + 1) {
          assert forall j | 0 < j <= i :: extra[j] == rest[j - 1];
        }
        forall i: nat | FirstFit(ref, extra, i) ensures i > 0 && FirstFit(ref, rest, i - 1) {
          assert forall j | 0 <= j < i - 1 :: rest[j] == extra[j + 1];
        }
      }
    }
  }

  /** Main result: a reference is allowed exactly when it is not blank and built in, or the first prefix of the
      allowlist that fits it needs no digest or it has one; and it is refused for want of a digest exactly when
      that prefix needs one. */
  lemma AllowedIff(imageRef: string, listenAddr: string, extra: seq<string>)
    ensures var ref := TrimSpace(imageRef);
            var v := AllowanceOf(imageRef, listenAddr, extra);
            && (v == Allowed <==>
                  ref != "" && (BuiltIn(ref, listenAddr)
                                || exists i: nat :: FirstFit(ref, extra, i) && Pinned(ref, extra[i])))
            && (v == NeedsDigest <==>
                  ref != "" && !BuiltIn(ref, listenAddr)
                  && exists i: nat :: FirstFit(ref, extra, i) && !Pinned(ref, extra[i]))
            && (v == Empty <==> ref == "")
  {
    ScanIff(TrimSpace(imageRef), extra);
  }

  // ---------------------------------------------------------------- rewriting

  /** A reference, and whether it is one of the lab registry's, so that credentials go with it. */
  datatype Pull = Pull(ref: string, lab: bool)

  /** LabImageForDinD, for the lab host and the host that the engine reaches it by. */
  function LabImageForDinD(imageURI: string, lab: string, dind: string): Pull {
    var uri := TrimSpace(imageURI);
    var prefix := lab + "/";
    if HasPrefix(uri, prefix) then Pull(dind + "/" + TrimPrefix(uri, prefix), true) else Pull(uri, false)
  }

  /** The reference to pull and whether credentials go with it. */
  function ResolveLabImagePull(imageURI: string, listenAddr: string): Pull {
    ResolveFor(imageURI, LAB_HOST, DinDPullHost(listenAddr), !Blank(listenAddr))
  }

  function ResolveFor(imageURI: string, lab: string, dind: string, live: bool): Pull {
    var uri := TrimSpace(imageURI);
    var image := LabImageForDinD(uri, lab, dind);
    if image.lab then image
    else if !live then Pull(uri, false)
    else Pull(uri, UnderHost(uri, dind))
  }

  // ---------------------------------------------------------------- results

  /** What resolving does with trimmed text. */
  function Rewrite(uri: string, lab: string, dind: string, live: bool): Pull {
    if HasPrefix(uri, lab + "/") then Pull(dind + "/" + TrimPrefix(uri, lab + "/"), true)
    else Pull(uri, live && UnderHost(uri, dind))
  }

  lemma Resolved(imageURI: string, lab: string, dind: string, live: bool)
    ensures ResolveFor(imageURI, lab, dind, live) == Rewrite(TrimSpace(imageURI), lab, dind, live)
  {
    TrimTwice(imageURI);
    ImageOf(TrimSpace(imageURI), lab, dind);
  }

  lemma ImageOf(uri: string, lab: string, dind: string)
    requires TrimSpace(uri) == uri
    ensures LabImageForDinD(uri, lab, dind)
         == if HasPrefix(uri, lab + "/") then Pull(dind + "/" + TrimPrefix(uri, lab + "/"), true) else Pull(uri, false)
  {
  }

  lemma TrimTwice(s: string)
    ensures TrimSpace(TrimSpace(s)) == TrimSpace(s)
  {
    TrimSpaceTrims(s);
    TrimmedIsFixed(TrimSpace(s));
  }

  lemma PinnedFirst(lower: string)
    requires lower in PINNED_BASES || lower in PINNED_SYSTEMS || lower in PINNED_SERVICES
    ensures lower != "" && lower[0] != 'h' && lower[0] != '1'
  {
  }

  lemma PinnedIsPublic(ref: string, p: string)
    requires IsPinnedLabImage(ref) && p != "" && (p[0] == 'h' || p[0] == '1')
    ensures !HasPrefix(ref, p)
  {
    var lower := ToLower(ref);
    if HasPrefix(ref, p) {
      assert lower[0] == LowerChar(ref[0]) && ref[0] == p[0];
      assert LAMBDA[0] == 'p';
      if !HasPrefix(lower, LAMBDA) {
        PinnedFirst(lower);
      } else if lower in PINNED_BASES || lower in PINNED_SYSTEMS || lower in PINNED_SERVICES {
        PinnedFirst(lower);
      }
    }
  }

  /** Texts that no text starts with both of. */
  predicate Apart(lab: string, dind: string) {
    lab != "" && dind != "" && lab[0] == '1' && dind[0] == 'h'
  }

  lemma Hosts(listenAddr: string)
    ensures Apart(LAB_HOST, DinDPullHost(listenAddr))
  {
    assert LAB_HOST[0] == '1' && DIND_HOST[0] == 'h';
    assert DIND_HOST <= DinDPullHost(listenAddr);
  }

  lemma UnderOneHost(ref: string, host: string, rest: string)
    requires ref == host + "/" + rest
    ensures HasPrefix(ref, host + "/") && TrimPrefix(ref, host + "/") == rest
    ensures UnderHost(ref, host) <==> IsLabECRPath(rest)
  {
    assert ref[|host + "/"|..] == rest;
  }

  lemma NotUnder(ref: string, host: string)
    requires ref != "" && host != "" && ref[0] != host[0]
    ensures !HasPrefix(ref, host + "/")
  {
  }

  lemma RewrittenIsTrimmed(lab: string, dind: string, rest: string)
    requires Trimmed(lab + "/" + rest) && dind != "" && !IsSpace(dind[0])
    ensures TrimSpace(dind + "/" + rest) == dind + "/" + rest
  {
    var uri, r := lab + "/" + rest, dind + "/" + rest;
    assert r[0] == dind[0] && r[|r| - 1] == uri[|uri| - 1];
    TrimmedIsFixed(r);
  }

  /** Main result: on every input, credentials go with a reference exactly when it has the lab prefix or is a
      lab registry reference; on one that the allow check takes, exactly when it is a lab registry reference. */
  lemma CredentialsIff(imageURI: string, listenAddr: string)
    ensures var uri := TrimSpace(imageURI);
            ResolveLabImagePull(imageURI, listenAddr).lab <==>
              HasPrefix(uri, LAB_HOST + "/") || IsLabRegistryRef(uri, listenAddr)
    ensures var uri := TrimSpace(imageURI);
            BuiltIn(uri, listenAddr) ==>
              (ResolveLabImagePull(imageURI, listenAddr).lab <==> IsLabRegistryRef(uri, listenAddr))
  {
    var uri := TrimSpace(imageURI);
    Hosts(listenAddr);
    Resolved(imageURI, LAB_HOST, DinDPullHost(listenAddr), !Blank(listenAddr));
    if HasPrefix(uri, LAB_HOST + "/") {
      if IsPinnedLabImage(uri) { PinnedUnderNoHost(listenAddr, uri); }
    }
  }

  lemma PinnedUnderNoHost(listenAddr: string, ref: string)
    requires IsPinnedLabImage(ref)
    ensures !HasPrefix(ref, LAB_HOST + "/") && !HasPrefix(ref, DinDPullHost(listenAddr) + "/")
  {
    Hosts(listenAddr);
    PinnedIsPublic(ref, LAB_HOST + "/");
    PinnedIsPublic(ref, DinDPullHost(listenAddr) + "/");
  }

  lemma RewriteLab(uri: string, lab: string, dind: string, live: bool, rest: string)
    requires uri == lab + "/" + rest && Apart(lab, dind)
    ensures var p := dind + "/" + rest;
            && Rewrite(uri, lab, dind, live) == Pull(p, true)
            && Rewrite(p, lab, dind, live) == Pull(p, live && IsLabECRPath(rest))
  {
    var p := dind + "/" + rest;
    assert p[0] == dind[0];
    UnderOneHost(uri, lab, rest);
    UnderOneHost(p, dind, rest);
    NotUnder(p, lab);
  }

  lemma RewrittenRef(p: string, lab: string, dind: string, live: bool, rest: string)
    requires p == dind + "/" + rest && Apart(lab, dind)
    ensures IsLabRef(p, lab, dind, live) == (live && IsLabECRPath(rest)) && HasPrefix(p, dind + "/")
  {
    assert p[0] == dind[0];
    NotUnder(p, lab);
    UnderOneHost(p, dind, rest);
  }

  /** What resolving a lab host reference gives, once and twice. */
  lemma LabReference(imageURI: string, lab: string, dind: string, live: bool, rest: string)
    requires TrimSpace(imageURI) == lab + "/" + rest && Apart(lab, dind)
    ensures var p := dind + "/" + rest;
            && ResolveFor(imageURI, lab, dind, live) == Pull(p, true) && TrimSpace(p) == p
            && ResolveFor(p, lab, dind, live) == Pull(p, live && IsLabECRPath(rest))
  {
    TrimSpaceTrims(imageURI);
    RewrittenIsTrimmed(lab, dind, rest);
    RewriteLab(TrimSpace(imageURI), lab, dind, live, rest);
    Resolved(imageURI, lab, dind, live);
    Resolved(dind + "/" + rest, lab, dind, live);
  }

  lemma OtherReference(imageURI: string, lab: string, dind: string, live: bool)
    requires !HasPrefix(TrimSpace(imageURI), lab + "/")
    ensures var once := ResolveFor(imageURI, lab, dind, live);
            && once.ref == TrimSpace(imageURI) && TrimSpace(once.ref) == once.ref
            && ResolveFor(once.ref, lab, dind, live) == once
  {
    TrimTwice(imageURI);
    Resolved(imageURI, lab, dind, live);
    Resolved(TrimSpace(imageURI), lab, dind, live);
  }

  lemma LabPrefixed(uri: string, lab: string) returns (rest: string)
    requires HasPrefix(uri, lab)
    ensures uri == lab + rest && TrimPrefix(uri, lab) == rest
  {
    rest := uri[|lab|..];
  }

  lemma StaysAllowed(imageURI: string, lab: string, dind: string, live: bool, pinned: string -> bool)
    requires Apart(lab, dind)
    requires forall r :: pinned(r) ==> !HasPrefix(r, lab + "/") && !HasPrefix(r, dind + "/")
    requires IsLabRef(TrimSpace(imageURI), lab, dind, live) || pinned(TrimSpace(imageURI))
    ensures var p := TrimSpace(ResolveFor(imageURI, lab, dind, live).ref);
            (IsLabRef(p, lab, dind, live) || pinned(p)) == (live || !HasPrefix(TrimSpace(imageURI), lab + "/"))
  {
    if HasPrefix(TrimSpace(imageURI), lab + "/") {
      var rest := LabPrefixed(TrimSpace(imageURI), lab + "/");
      LabReference(imageURI, lab, dind, live, rest);
      RewrittenRef(dind + "/" + rest, lab, dind, live, rest);
    } else {
      OtherReference(imageURI, lab, dind, live);
    }
  }

  /** Main result: what a built-in rule allows stays allowed when it is resolved, except that without a listen
      address a reference to the lab host is turned into one that is refused. */
  lemma ResolvedStaysAllowed(imageURI: string, listenAddr: string)
    requires BuiltIn(TrimSpace(imageURI), listenAddr)
    ensures var p := ResolveLabImagePull(imageURI, listenAddr).ref;
            BuiltIn(TrimSpace(p), listenAddr) == (!Blank(listenAddr) || !HasPrefix(TrimSpace(imageURI), LAB_HOST + "/"))
  {
    Hosts(listenAddr);
    forall r | IsPinnedLabImage(r)
      ensures !HasPrefix(r, LAB_HOST + "/") && !HasPrefix(r, DinDPullHost(listenAddr) + "/")
    {
      PinnedUnderNoHost(listenAddr, r);
    }
    StaysAllowed(imageURI, LAB_HOST, DinDPullHost(listenAddr), !Blank(listenAddr), IsPinnedLabImage);
  }

  /** Main result: resolving again changes neither answer, except for a lab host reference whose path is not
      one of the lab's or that comes without a listen address. */
  lemma ResolvedTwice(imageURI: string, listenAddr: string)
    ensures var uri, lab := TrimSpace(imageURI), LAB_HOST + "/";
            var once := ResolveLabImagePull(imageURI, listenAddr);
            (ResolveLabImagePull(once.ref, listenAddr) == once) ==
              (!HasPrefix(uri, lab) || (!Blank(listenAddr) && IsLabECRPath(TrimPrefix(uri, lab))))
  {
    Hosts(listenAddr);
    TwiceFor(imageURI, LAB_HOST, DinDPullHost(listenAddr), !Blank(listenAddr));
  }

  lemma TwiceFor(imageURI: string, lab: string, dind: string, live: bool)
    requires Apart(lab, dind)
    ensures var uri, once := TrimSpace(imageURI), ResolveFor(imageURI, lab, dind, live);
            (ResolveFor(once.ref, lab, dind, live) == once) ==
              (!HasPrefix(uri, lab + "/") || (live && IsLabECRPath(TrimPrefix(uri, lab + "/"))))
  {
    if HasPrefix(TrimSpace(imageURI), lab + "/") {
      var rest := LabPrefixed(TrimSpace(imageURI), lab + "/");
      LabReference(imageURI, lab, dind, live, rest);
    } else {
      OtherReference(imageURI, lab, dind, live);
    }
  }

  /** Instances: without a listen address every lab host reference that is allowed is resolved into one that is
      refused, and for which a second resolve no longer asks for credentials. */
  lemma BlankListenAddress(imageURI: string)
    requires HasPrefix(TrimSpace(imageURI), LAB_HOST + "/") && BuiltIn(TrimSpace(imageURI), "")
    ensures var p := ResolveLabImagePull(imageURI, "");
            p.lab && !BuiltIn(TrimSpace(p.ref), "") && !ResolveLabImagePull(p.ref, "").lab
  {
    assert Blank("");
    ResolvedStaysAllowed(imageURI, "");
    CredentialsIff(imageURI, "");
    var lab, dind := LAB_HOST, DinDPullHost("");
    Hosts("");
    var rest := LabPrefixed(TrimSpace(imageURI), lab + "/");
    LabReference(imageURI, lab, dind, false, rest);
  }

  // ---------------------------------------------------------------- the shape of accepted paths

  predicate PlainName(name: string) {
    name != "" && '/' !in name && '@' !in name && ':' !in name
  }

  /** An account of twelve digits, a repository name and an optional tag or digest. */
  predicate HasForm(p: string, account: string, name: string, tail: string) {
    && p == account + "/" + name + tail && IsLabAccountID(account) && PlainName(name)
    && (tail == "" || tail[0] == '@' || tail[0] == ':')
  }

  lemma ECRPathForm(path: string)
    ensures IsLabECRPath(path) <==>
              && !Contains(TrimSpace(path), "..")
              && exists account, name, tail :: HasForm(TrimSpace(path), account, name, tail)
  {
    var p := TrimSpace(path);
    if IsLabECRPath(path) {
      var i := IndexOf(p, '/');
      FormOfPath(p, i);
    }
    if !Contains(p, "..") {
      if account, name, tail :| HasForm(p, account, name, tail) {
        PathOfForm(path, account, name, tail);
      }
    }
  }

  lemma FormOfPath(p: string, i: nat)
    requires i + 1 < |p| && p[i] == '/' && IsLabAccountID(p[..i])
    requires NameOf(p[i + 1..]) != "" && '/' !in NameOf(p[i + 1..])
    ensures exists account, name, tail :: HasForm(p, account, name, tail)
  {
    var repo := p[i + 1..];
    NameIsPlain(repo);
    var name := NameOf(repo);
    var tail := repo[|name|..];
    Pieces(p, i, |name|);
    assert HasForm(p, p[..i], name, tail);
  }

  lemma Pieces(p: string, i: nat, n: nat)
    requires i < |p| && p[i] == '/' && i + 1 + n <= |p|
    ensures p == p[..i] + "/" + p[i + 1..][..n] + p[i + 1..][n..]
  {
  }

  lemma NameIsPlain(repo: string)
    ensures var n := |NameOf(repo)|;
            && '@' !in NameOf(repo) && ':' !in NameOf(repo) && n <= |repo| && NameOf(repo) == repo[..n]
            && (n < |repo| ==> repo[n] == '@' || repo[n] == ':')
  {
    var a, b := IndexOf(repo, '@'), IndexOf(repo, ':');
    if a < b {
      assert repo[..a] == repo[..b][..a];
    } else {
      assert repo[..b] == repo[..a][..b];
    }
  }

  lemma PathOfForm(path: string, account: string, name: string, tail: string)
    requires HasForm(TrimSpace(path), account, name, tail) && !Contains(TrimSpace(path), "..")
    ensures IsLabECRPath(path)
  {
    PartsOfForm(TrimSpace(path), account, name, tail);
    NameBefore(name, tail);
  }

  lemma PartsOfForm(p: string, account: string, name: string, tail: string)
    requires HasForm(p, account, name, tail)
    ensures IndexOf(p, '/') == |account| && |account| + 1 < |p|
    ensures p[..|account|] == account && p[|account| + 1..] == name + tail
  {
    var rest := name + tail;
    assert p == account + ['/'] + rest;
    IndexAfter(account, '/', rest);
  }

  lemma NameBefore(name: string, tail: string)
    requires PlainName(name) && (tail == "" || tail[0] == '@' || tail[0] == ':')
    ensures NameOf(name + tail) == name
  {
    var s := name + tail;
    var i, j := IndexOf(s, '@'), IndexOf(s, ':');
    assert forall k | 0 <= k < |name| :: s[k] == name[k];
    assert i >= |name| && j >= |name|;
    if tail != "" {
      assert s[|name|] == tail[0];
    }
  }

  lemma DotsHaveDot(s: string)
    requires Contains(s, "..")
    ensures '.' in s
  {
    var i :| 0 <= i <= |s| && ".." <= s[i..];
    assert s[i..][0] == s[i];
  }

  lemma NoDots(s: string)
    requires '.' !in s
    ensures !Contains(s, "..")
  {
    if Contains(s, "..") { DotsHaveDot(s); }
  }

  lemma AccountHasNoDot(account: string)
    requires IsLabAccountID(account)
    ensures '.' !in account && account != "" && !IsSpace(account[0])
  {
  }

  lemma EndsTrimmed(a: string, b: string, c: string)
    requires a != "" && !IsSpace(a[0]) && c != "" && !IsSpace(c[|c| - 1])
    ensures TrimSpace(a + b + c) == a + b + c
  {
    var p := a + b + c;
    assert p[0] == a[0] && p[|p| - 1] == c[|c| - 1];
    TrimmedIsFixed(p);
  }

  lemma UntaggedPath(account: string, name: string)
    requires IsLabAccountID(account) && PlainName(name) && '.' !in name && !IsSpace(name[|name| - 1])
    ensures IsLabECRPath(account + "/" + name)
  {
    var p := account + "/" + name;
    AccountHasNoDot(account);
    EndsTrimmed(account, "/", name);
    assert '.' !in "/";
    NoDots(p);
    assert p + "" == p;
    assert HasForm(p, account, name, "");
    PathOfForm(p, account, name, "");
  }

  lemma LabRefOf(uri: string, lab: string, dind: string, live: bool, rest: string)
    requires uri == lab + "/" + rest && lab != "" && !IsSpace(lab[0]) && rest != "" && !IsSpace(rest[|rest| - 1])
    requires IsLabECRPath(rest)
    ensures TrimSpace(uri) == uri && IsLabRef(uri, lab, dind, live) && HasPrefix(uri, lab + "/")
  {
    EndsTrimmed(lab, "/", rest);
    UnderOneHost(uri, lab, rest);
  }

  /** An instance: without a listen address an allowed lab image is resolved into a refused one, and resolving
      that one no longer asks for credentials. */
  lemma BlankListenRefuses()
    ensures var uri := LAB_HOST + "/" + ("000000000001" + "/" + "repo");
            var p := ResolveLabImagePull(uri, "");
            && BuiltIn(TrimSpace(uri), "") && p.lab
            && !BuiltIn(TrimSpace(p.ref), "") && !ResolveLabImagePull(p.ref, "").lab
  {
    var rest := "000000000001" + "/" + "repo";
    UntaggedPath("000000000001", "repo");
    assert LAB_HOST[0] == '1' && rest[|rest| - 1] == 'o';
    AllowedLab(LAB_HOST + "/" + rest, rest);
  }

  lemma AllowedBlank(uri: string, rest: string)
    requires uri == LAB_HOST + "/" + rest && IsLabECRPath(rest) && rest != "" && !IsSpace(rest[|rest| - 1])
    ensures TrimSpace(uri) == uri && BuiltIn(uri, "") && HasPrefix(uri, LAB_HOST + "/")
  {
    Hosts("");
    LabRefOf(uri, LAB_HOST, DinDPullHost(""), !Blank(""), rest);
    assert IsLabRegistryRef(uri, "");
  }

  lemma AllowedLab(uri: string, rest: string)
    requires uri == LAB_HOST + "/" + rest && IsLabECRPath(rest) && rest != "" && !IsSpace(rest[|rest| - 1])
    ensures var p := ResolveLabImagePull(uri, "");
            && BuiltIn(TrimSpace(uri), "") && p.lab
            && !BuiltIn(TrimSpace(p.ref), "") && !ResolveLabImagePull(p.ref, "").lab
  {
    AllowedBlank(uri, rest);
    BlankListenAddress(uri);
  }

  // ---------------------------------------------------------------- the port of a listen address

  lemma LastIndexAfter(a: string, c: char, b: string)
    requires c !in b
    ensures LastIndexOf(a + [c] + b, c) == |a|
  {
    var s := a + [c] + b;
    assert s[|a|] == c && s[|a| + 1..] == b;
    assert forall k | |a| < k < |s| :: s[k] == b[k - |a| - 1];
  }

  predicate PlainPart(s: string) {
    ':' !in s && '[' !in s && ']' !in s
  }

  /** The port of host:port, and of [host]:port for a host with colons. */
  lemma PortOfAddress(host: string, port: string)
    requires PlainPart(port)
    ensures PlainPart(host) ==> PortOf(host + ":" + port) == Some(port)
    ensures '[' !in host && ']' !in host ==> PortOf("[" + host + "]:" + port) == Some(port)
  {
    if PlainPart(host) {
      var s := host + [':'] + port;
      assert s == host + ":" + port;
      LastIndexAfter(host, ':', port);
      assert s[|host| + 1..] == port && s[..|host|] == host;
      assert '[' !in s && ']' !in s;
    }
    if '[' !in host && ']' !in host {
      Bracketed(host, port);
    }
  }

  lemma Bracketed(host: string, port: string)
    requires PlainPart(port) && '[' !in host && ']' !in host
    ensures PortOf("[" + host + "]:" + port) == Some(port)
  {
    var front := "[" + host + "]";
    var s := front + [':'] + port;
    assert s == "[" + host + "]:" + port;
    LastIndexAfter(front, ':', port);
    var open := "[" + host;
    assert s == open + [']'] + (":" + port);
    IndexAfter(open, ']', ":" + port);
    assert s[1..] == host + "]:" + port && s[|open| + 1..] == ":" + port;
    assert s[|front| + 1..] == port;
  }

  /** The engine reaches the lab under the port of the listen address, and under the port of the lab host when the
      address has none. */
  lemma DinDHostIff(listenAddr: string)
    ensures var port := PortOf(TrimSpace(listenAddr));
            && PortOf(LAB_HOST).Some?
            && DinDPullHost(listenAddr)
               == DIND_HOST + if port.Some? && port.value != "" then port.value else PortOf(LAB_HOST).value
  {
    LabHasPort();
  }

  lemma LabHasPort()
    ensures PortOf(LAB_HOST).Some? && PortOf(LAB_HOST).value != ""
  {
    LabPort();
  }

  lemma LabPort()
    ensures PortOf(LAB_HOST) == Some("4566") && |PortOf(LAB_HOST).value| == 4
  {
    assert LAB_HOST[9] == ':' && LAB_HOST[10..] == "4566";
    LastIndexAfter(LAB_HOST[..9], ':', LAB_HOST[10..]);
    assert LAB_HOST == LAB_HOST[..9] + [':'] + LAB_HOST[10..];
  }

  lemma NotBefore(s: string, c: char, i: nat)
    requires i <= |s| && c !in s[..i]
    ensures i <= IndexOf(s, c)
  {
    var a := IndexOf(s, c);
    assert a < |s| ==> s[a] in s[..a + 1];
    assert s[..i] + s[i..] == s;
  }

  /** A prefix needs a digest exactly when a dot or a colon comes before any slash or at sign. */
  lemma NeedsDigestIff(prefix: string)
    ensures PrefixNeedsDigest(prefix) <==>
              exists i :: && 0 <= i < |prefix| && (prefix[i] == '.' || prefix[i] == ':')
                          && '/' !in prefix[..i] && '@' !in prefix[..i]
  {
    var n := HostEnd(prefix);
    var a, b := IndexOf(prefix, '/'), IndexOf(prefix, '@');
    assert prefix[..n] <= prefix[..a] && prefix[..n] <= prefix[..b];
    if PrefixNeedsDigest(prefix) {
      var i :| 0 <= i < n && (prefix[..n][i] == '.' || prefix[..n][i] == ':');
      assert prefix[..i] <= prefix[..a] && prefix[..i] <= prefix[..b];
    }
    forall i | && 0 <= i < |prefix| && (prefix[i] == '.' || prefix[i] == ':')
               && '/' !in prefix[..i] && '@' !in prefix[..i]
      ensures prefix[i] in prefix[..n]
    {
      NotBefore(prefix, '/', i);
      NotBefore(prefix, '@', i);
      assert i < n;
      assert prefix[..n][i] == prefix[i];
    }
  }
}
