/** Credential ids: the UUID text in environment variables and request paths, as the client and the sidecar
    read it. */
module Credentials {
  import opened Wrappers
  import opened GoStrings

  const RELATIVE_URI := "AWS_CONTAINER_CREDENTIALS_RELATIVE_URI"
  const FULL_URI := "AWS_CONTAINER_CREDENTIALS_FULL_URI"
  const RELATIVE_PREFIX := "/v2/credentials/"
  const SIDECAR_BASE := "http://169.254.170.2:9254"
  const NIL_UUID := "00000000-0000-0000-0000-000000000000"

  // ---------------------------------------------------------------- UUID text, section 3 of RFC 4122

  predicate IsHex(c: char) {
    '0' <= c <= '9' || 'a' <= c <= 'f' || 'A' <= c <= 'F'
  }

  predicate IsDashIndex(i: int) {
    i == 8 || i == 13 || i == 18 || i == 23
  }

  /** Hexadecimal digits in either case, in groups of 8, 4, 4, 4 and 12. */
  predicate Hyphenated(s: string) {
    |s| == 36 && forall i | 0 <= i < 36 :: if IsDashIndex(i) then s[i] == '-' else IsHex(s[i])
  }

  predicate Canonical(s: string) {
    Hyphenated(s) && ToLower(s) == s
  }

  function Hyphens(hex: string): string
    requires |hex| == 32
  {
    hex[..8] + "-" + hex[8..12] + "-" + hex[12..16] + "-" + hex[16..20] + "-" + hex[20..]
  }

  /** One byte for each character, so that lengths in characters are lengths in bytes. */
  predicate Ascii(s: string) {
    forall i | 0 <= i < |s| :: s[i] < '\U{80}'
  }

  /** uuid.Parse followed by String: hyphenated text, also behind urn:uuid: or between two characters, which
      should be braces, or 32 bare digits. */
  function ParseUUID(s: string): Option<string> {
    if |s| == 36 && Hyphenated(s) then Some(ToLower(s))
    else if !Ascii(s) then None
    else if |s| == 45 && ToLower(s[..9]) == "urn:uuid:" && Hyphenated(s[9..]) then Some(ToLower(s[9..]))
    else if |s| == 38 && Hyphenated(s[1..37]) then Some(ToLower(s[1..37]))
    else if |s| == 32 && (forall c | c in s :: IsHex(c)) then Some(ToLower(Hyphens(s)))
    else None
  }

  function NormalizeCredID(id: string): Option<string> {
    NotNil(ParseUUID(TrimSpace(id)))
  }

  function NotNil(u: Option<string>): Option<string> {
    if u == Some(NIL_UUID) then None else u
  }

  // ---------------------------------------------------------------- paths

  function WithoutQuery(raw: string): string {
    raw[..IndexOf(raw, '?')]
  }

  /** matchECSIMDSCredPath. */
  function MatchCredPath(raw: string): Option<string> {
    var path := WithoutQuery(raw);
    if HasPrefix(path, RELATIVE_PREFIX) then NormalizeCredID(path[|RELATIVE_PREFIX|..]) else None
  }

  /** The id of the file that the sidecar's do_GET serves: its regular expression admits hyphenated text only. */
  function SidecarPath(raw: string): Option<string> {
    var path := WithoutQuery(raw);
    if HasPrefix(path, RELATIVE_PREFIX) && Hyphenated(path[|RELATIVE_PREFIX|..])
    then Some(ToLower(path[|RELATIVE_PREFIX|..])) else None
  }

  lemma LowerHex(c: char)
    requires IsHex(c)
    ensures IsHex(LowerChar(c)) && LowerChar(LowerChar(c)) == LowerChar(c)
  {
  }

  lemma LowerIsCanonical(s: string)
    requires Hyphenated(s)
    ensures Canonical(ToLower(s))
  {
    forall i | 0 <= i < 36
      ensures var l := ToLower(s); LowerChar(l[i]) == l[i] && if IsDashIndex(i) then l[i] == '-' else IsHex(l[i])
    {
      if !IsDashIndex(i) { LowerHex(s[i]); }
    }
  }

  lemma HyphenatedTrimmed(s: string)
    requires Hyphenated(s)
    ensures TrimSpace(s) == s
  {
    assert !IsDashIndex(0) && !IsDashIndex(35);
    assert IsHex(s[0]) && IsHex(s[35]);
    TrimmedIsFixed(s);
  }

  lemma ParseHyphenated(s: string)
    requires Hyphenated(s)
    ensures ParseUUID(s) == Some(ToLower(s))
  {
  }

  lemma NormalizeHyphenated(s: string)
    requires Hyphenated(s)
    ensures NormalizeCredID(s) == NotNil(Some(ToLower(s)))
  {
    HyphenatedTrimmed(s);
    ParseHyphenated(s);
  }

  /** Main result: apart from the nil UUID, the sidecar serves a path exactly when the client's matcher accepts
      it and its tail is plain hyphenated text, and both read the same id. */
  lemma SidecarAgrees(raw: string)
    ensures var path := WithoutQuery(raw);
            SidecarPath(raw).Some? && SidecarPath(raw) != Some(NIL_UUID) <==>
              HasPrefix(path, RELATIVE_PREFIX) && Hyphenated(path[|RELATIVE_PREFIX|..]) && MatchCredPath(raw).Some?
    ensures SidecarPath(raw).Some? && SidecarPath(raw) != Some(NIL_UUID) ==>
              MatchCredPath(raw) == SidecarPath(raw) && Canonical(SidecarPath(raw).value)
  {
    var path := WithoutQuery(raw);
    if HasPrefix(path, RELATIVE_PREFIX) {
      var tail := path[|RELATIVE_PREFIX|..];
      assert MatchCredPath(raw) == NormalizeCredID(tail);
      if Hyphenated(tail) {
        NormalizeHyphenated(tail);
        LowerIsCanonical(tail);
      }
    }
  }

  // ---------------------------------------------------------------- environment

  function ContainerCredentialsEnv(credID: string): map<string, string> {
    var id := TrimSpace(credID);
    if id == "" then map[]
    else
      var rel := RELATIVE_PREFIX + id;
      map[RELATIVE_URI := rel, FULL_URI := SIDECAR_BASE + rel]
  }

  /** strings.Cut at the first '='. */
  function Cut(e: string): Option<(string, string)> {
    var i := IndexOf(e, '=');
    if i < |e| then Some((e[..i], e[i + 1..])) else None
  }

  /** The value of the last entry for a key, empty when there is none. */
  function LastValue(env: seq<string>, key: string): string {
    if env == [] then ""
    else
      var kv := Cut(env[|env| - 1]);
      if kv.Some? && kv.value.0 == key then kv.value.1 else LastValue(env[..|env| - 1], key)
  }

  /** urlPath stands for url.Parse and its Path, None on an error. */
  function CredIDOf(rel: string, full: string, urlPath: string -> Option<string>): string {
    if MatchCredPath(rel).Some? then MatchCredPath(rel).value
    else if full == "" || urlPath(full).None? || MatchCredPath(urlPath(full).value).None? then ""
    else MatchCredPath(urlPath(full).value).value
  }

  /** ecsIMDSCredIDFromEnvList: later entries overwrite earlier ones. */
  method CredIDFromEnvList(env: seq<string>, urlPath: string -> Option<string>) returns (id: string)
    ensures id == CredIDOf(LastValue(env, RELATIVE_URI), LastValue(env, FULL_URI), urlPath)
  {
    var rel, full := "", "";
    for i := 0 to |env|
      invariant rel == LastValue(env[..i], RELATIVE_URI) && full == LastValue(env[..i], FULL_URI)
    {
      assert env[..i + 1][..i] == env[..i];
      var kv := Cut(env[i]);
      if kv.None? {
        continue;
      }
      if kv.value.0 == RELATIVE_URI {
        rel := kv.value.1;
      } else if kv.value.0 == FULL_URI {
        full := kv.value.1;
      }
    }
    assert env[..|env|] == env;
    var found := MatchCredPath(rel);
    if found.Some? {
      return found.value;
    }
    if full == "" {
      return "";
    }
    var path := urlPath(full);
    if path.None? {
      return "";
    }
    found := MatchCredPath(path.value);
    return if found.Some? then found.value else "";
  }

  lemma CutEntry(key: string, value: string)
    requires '=' !in key
    ensures Cut(key + "=" + value) == Some((key, value))
  {
    IndexAfter(key, '=', value);
    var e := key + "=" + value;
    assert e == key + ['='] + value;
    assert e[..|key|] == key && e[|key| + 1..] == value;
  }

  predicate IsFor(e: string, key: string) {
    Cut(e).Some? && Cut(e).value.0 == key
  }

  /** The entry is in the list and none for its key comes later. */
  ghost predicate HasEntry(env: seq<string>, key: string, value: string) {
    exists i :: 0 <= i < |env| && env[i] == key + "=" + value && forall j | i < j < |env| :: !IsFor(env[j], key)
  }

  lemma {:induction false} EntryIsLast(env: seq<string>, key: string, value: string)
    requires '=' !in key && HasEntry(env, key, value)
    ensures LastValue(env, key) == value
  {
    CutEntry(key, value);
    var n := |env| - 1;
    var i :| 0 <= i < |env| && env[i] == key + "=" + value && forall j | i < j < |env| :: !IsFor(env[j], key);
    if i < n {
      var init := env[..n];
      assert init[i] == env[i] && forall j | i < j < n :: init[j] == env[j];
      EntryIsLast(init, key, value);
      assert !IsFor(env[n], key);
    }
  }

  lemma {:induction false} NoEntry(env: seq<string>, key: string)
    requires forall e | e in env :: !IsFor(e, key)
    ensures LastValue(env, key) == ""
  {
    if env != [] {
      assert env[|env| - 1] in env;
      NoEntry(env[..|env| - 1], key);
    }
  }

  lemma NoQuery(raw: string)
    requires '?' !in raw
    ensures WithoutQuery(raw) == raw
  {
  }

  lemma CanonicalHasNoQuery(id: string)
    requires Canonical(id)
    ensures '?' !in id
  {
    forall c | c in id ensures c != '?' {
      var i :| 0 <= i < |id| && id[i] == c;
      assert if IsDashIndex(i) then id[i] == '-' else IsHex(id[i]);
    }
  }

  lemma MatchesTail(raw: string, prefix: string, id: string)
    requires prefix == RELATIVE_PREFIX && raw == prefix + id && '?' !in raw
    ensures MatchCredPath(raw) == NormalizeCredID(id)
  {
    NoQuery(raw);
    assert raw[|prefix|..] == id;
  }

  lemma PathOfCanonical(id: string)
    requires Canonical(id) && id != NIL_UUID
    ensures MatchCredPath(RELATIVE_PREFIX + id) == Some(id)
  {
    CanonicalHasNoQuery(id);
    assert '?' !in RELATIVE_PREFIX;
    MatchesTail(RELATIVE_PREFIX + id, RELATIVE_PREFIX, id);
    NormalizeHyphenated(id);
  }

  lemma RecoveredFromEntries(
    env: seq<string>, relKey: string, fullKey: string, rel: string, full: string, id: string,
    urlPath: string -> Option<string>)
    requires '=' !in relKey && '=' !in fullKey && full != ""
    requires MatchCredPath(rel) == Some(id) && MatchCredPath("").None? && urlPath(full) == Some(rel)
    requires HasEntry(env, fullKey, full)
    requires HasEntry(env, relKey, rel) || forall e | e in env :: !IsFor(e, relKey)
    ensures CredIDOf(LastValue(env, relKey), LastValue(env, fullKey), urlPath) == id
  {
    EntryIsLast(env, fullKey, full);
    if HasEntry(env, relKey, rel) {
      EntryIsLast(env, relKey, rel);
    } else {
      NoEntry(env, relKey);
    }
  }

  /** Main result: the id recovered from an environment list, in any order and among any other entries, is the
      one whose variables the list carries; the full URI alone serves as well. */
  lemma CredIDRoundTrip(env: seq<string>, id: string, urlPath: string -> Option<string>)
    requires Canonical(id) && id != NIL_UUID
    requires urlPath(SIDECAR_BASE + RELATIVE_PREFIX + id) == Some(RELATIVE_PREFIX + id)
    requires HasEntry(env, FULL_URI, SIDECAR_BASE + RELATIVE_PREFIX + id)
    requires || HasEntry(env, RELATIVE_URI, RELATIVE_PREFIX + id)
             || forall e | e in env :: !IsFor(e, RELATIVE_URI)
    ensures CredIDOf(LastValue(env, RELATIVE_URI), LastValue(env, FULL_URI), urlPath) == id
  {
    var path, uri := RELATIVE_PREFIX + id, SIDECAR_BASE + RELATIVE_PREFIX + id;
    PathOfCanonical(id);
    PlainKeys();
    EmptyPath();
    assert |uri| >= |id| > 0;
    RecoveredFromEntries(env, RELATIVE_URI, FULL_URI, path, uri, id, urlPath);
  }

  lemma PlainKeys()
    ensures '=' !in RELATIVE_URI && '=' !in FULL_URI
  {
  }

  lemma EmptyPath()
    ensures MatchCredPath("").None?
  {
    NoQuery("");
  }

  /** The two variables are what ContainerCredentialsEnv sets. */
  lemma EnvOfCanonical(id: string)
    requires Canonical(id)
    ensures ContainerCredentialsEnv(id)
         == map[RELATIVE_URI := RELATIVE_PREFIX + id, FULL_URI := SIDECAR_BASE + RELATIVE_PREFIX + id]
  {
    HyphenatedTrimmed(id);
    Associate(SIDECAR_BASE, RELATIVE_PREFIX, id);
  }

  // ---------------------------------------------------------------- what is accepted

  /** A matched path is a credential path, and its id a canonical UUID that is not nil. */
  lemma MatchIsCanonical(raw: string)
    ensures MatchCredPath(raw).Some? ==>
              && HasPrefix(WithoutQuery(raw), RELATIVE_PREFIX)
              && Canonical(MatchCredPath(raw).value) && MatchCredPath(raw).value != NIL_UUID
  {
    var path := WithoutQuery(raw);
    if HasPrefix(path, RELATIVE_PREFIX) {
      ParseIsCanonical(TrimSpace(path[|RELATIVE_PREFIX|..]));
    }
  }

  lemma ParseIsCanonical(s: string)
    ensures ParseUUID(s).Some? ==> Canonical(ParseUUID(s).value)
  {
    if Hyphenated(s) {
      LowerIsCanonical(s);
    } else if |s| == 45 && Hyphenated(s[9..]) {
      LowerIsCanonical(s[9..]);
    } else if |s| == 38 && Hyphenated(s[1..37]) {
      LowerIsCanonical(s[1..37]);
    } else if |s| == 32 && forall c | c in s :: IsHex(c) {
      HyphensHyphenated(s);
      LowerIsCanonical(Hyphens(s));
    }
  }

  lemma HyphensHyphenated(hex: string)
    requires |hex| == 32 && forall c | c in hex :: IsHex(c)
    ensures Hyphenated(Hyphens(hex))
  {
    var s := Hyphens(hex);
    forall i | 0 <= i < 36 ensures if IsDashIndex(i) then s[i] == '-' else IsHex(s[i]) {
      if !IsDashIndex(i) {
        var dashes := if i < 8 then 0 else if i < 13 then 1 else if i < 18 then 2 else if i < 23 then 3 else 4;
        var j := i - dashes;
        assert s[i] == hex[j] && hex[j] in hex;
      }
    }
  }

  /** The other texts of an id: in braces, as a URN, without its hyphens. */
  lemma OtherForms(id: string, hex: string)
    requires Canonical(id)
    ensures ParseUUID("{" + id + "}") == Some(id)
    ensures ParseUUID("urn:uuid:" + id) == Some(id)
    ensures |hex| == 32 && id == Hyphens(hex) && (forall c | c in hex :: IsHex(c)) ==> ParseUUID(hex) == Some(id)
  {
    CanonicalIsAscii(id);
    BracedForm(id);
    UrnForm("urn:uuid:", id);
    if |hex| == 32 && id == Hyphens(hex) && forall c | c in hex :: IsHex(c) {
      assert forall i | 0 <= i < |hex| :: hex[i] in hex;
      assert Ascii(hex);
    }
  }

  lemma CanonicalIsAscii(id: string)
    requires Canonical(id)
    ensures Ascii(id)
  {
    forall i | 0 <= i < |id| ensures id[i] < '\U{80}' {
      assert if IsDashIndex(i) then id[i] == '-' else IsHex(id[i]);
    }
  }

  lemma BracedForm(id: string)
    requires Canonical(id) && Ascii(id)
    ensures ParseUUID("{" + id + "}") == Some(id)
  {
    var s := "{" + id + "}";
    assert s[1..37] == id;
  }

  lemma UrnForm(urn: string, id: string)
    requires urn == "urn:uuid:" && Canonical(id) && Ascii(id)
    ensures ParseUUID(urn + id) == Some(id)
  {
    var s := urn + id;
    assert s[..9] == urn && s[9..] == id;
    assert ToLower(urn) == urn;
  }

  /** The relative URI decides; the full one serves only when that is no credential path. */
  lemma RelativeDecides(rel: string, full: string, urlPath: string -> Option<string>)
    ensures MatchCredPath(rel).Some? ==> CredIDOf(rel, full, urlPath) == MatchCredPath(rel).value
    ensures && MatchCredPath(rel).None? && full != "" && urlPath(full).Some?
            && MatchCredPath(urlPath(full).value).Some? ==>
              CredIDOf(rel, full, urlPath) == MatchCredPath(urlPath(full).value).value
    ensures CredIDOf(rel, full, urlPath) != "" ==>
              || MatchCredPath(rel) == Some(CredIDOf(rel, full, urlPath))
              || (full != "" && urlPath(full).Some?
                  && MatchCredPath(urlPath(full).value) == Some(CredIDOf(rel, full, urlPath)))
  {
  }
}
