/**
  Publish authentication: the verification config a channel's Source carries,
  the header `publish` derives from it, and the case-insensitive comparison of
  verification types used when an existing Source is reconciled.
 */
module Auth {
  import opened Errors
  import opened Base64

  /** The configuration object of a verification; its shape depends on the type. */
  datatype Configs =
    | ApiKeyConfigs(headerKey: string, apiKey: string)
    | BasicAuthConfigs(username: string, password: string)
      /** Configs of any other verification type; `publish` reads none of their fields. */
    | OtherConfigs

  /**
    A Source verification config, also used as the publish auth policy. `kind`
    is the `type` tag as a free string, since the backend may report any case
    or any other type.
   */
  datatype Verification = Verification(kind: string, configs: Option<Configs>)

  /** `toLowerCase` on one character, for the ASCII range. */
  function LowerChar(c: char): char {
    if 'A' <= c <= 'Z' then (c as int + 32) as char else c
  }

  /** `toLowerCase` on a string, for the ASCII range. */
  function Lower(s: string): (r: string)
    ensures |r| == |s|
    ensures forall i :: 0 <= i < |s| ==> r[i] == LowerChar(s[i])
    decreases |s|
  {
    if |s| == 0 then [] else [LowerChar(s[0])] + Lower(s[1..])
  }

  /** Lower-casing twice is lower-casing once. */
  lemma LowerIdempotent(s: string)
    ensures Lower(Lower(s)) == Lower(s)
  {
    assert forall i :: 0 <= i < |s| ==> LowerChar(LowerChar(s[i])) == LowerChar(s[i]);
  }

  /**
    The reconciliation test: two verifications match when their type tags are
    equal ignoring case. Configs are never compared.
   */
  predicate KindsMatch(found: Verification, expected: Verification) {
    Lower(found.kind) == Lower(expected.kind)
  }

  /**
    Matching is an equivalence that ignores configs entirely: an API key with
    another header name or key still matches, and so does a tag written in
    another case.
   */
  lemma KindsMatchIgnoresConfigs(v: Verification, c1: Option<Configs>, c2: Option<Configs>, w: Verification, x: Verification)
    ensures KindsMatch(v, v)
    ensures KindsMatch(v, w) ==> KindsMatch(w, v)
    ensures KindsMatch(v, w) && KindsMatch(w, x) ==> KindsMatch(v, x)
    ensures KindsMatch(Verification(v.kind, c1), Verification(v.kind, c2))
    ensures KindsMatch(Verification(Lower(v.kind), c1), v)
  {
    LowerIdempotent(v.kind);
  }

  /** `configs?.headerKey`. */
  function HeaderKeyField(c: Option<Configs>): Option<string> {
    if c.Some? && c.value.ApiKeyConfigs? then Some(c.value.headerKey) else None
  }

  /** `configs?.apiKey`. */
  function ApiKeyField(c: Option<Configs>): Option<string> {
    if c.Some? && c.value.ApiKeyConfigs? then Some(c.value.apiKey) else None
  }

  /** `configs?.username`. */
  function UsernameField(c: Option<Configs>): Option<string> {
    if c.Some? && c.value.BasicAuthConfigs? then Some(c.value.username) else None
  }

  /** `configs?.password`. */
  function PasswordField(c: Option<Configs>): Option<string> {
    if c.Some? && c.value.BasicAuthConfigs? then Some(c.value.password) else None
  }

  /** A header name and value. */
  datatype Header = Header(name: string, value: string)

  /** The header name for an API key: `headerKey`, or `Authorization` when it is absent or empty. */
  function ApiKeyHeaderName(c: Option<Configs>): (n: string)
    ensures n != ""
    ensures HeaderKeyField(c).Some? && HeaderKeyField(c).value != "" ==> n == HeaderKeyField(c).value
    ensures HeaderKeyField(c).None? || HeaderKeyField(c).value == "" ==> n == "Authorization"
  {
    match HeaderKeyField(c)
    case Some(k) => if k != "" then k else "Authorization"
    case None => "Authorization"
  }

  /** The credentials text Basic authentication encodes: `username:password`. */
  function BasicCredentials(c: Option<Configs>): string {
    Show(UsernameField(c)) + ":" + Show(PasswordField(c))
  }

  /**
    The header `publish` adds for a publish auth policy, or `None` when it adds
    none. Only the exact tags `api_key` and `basic_auth` add a header; Basic
    authentication fails where `btoa` throws.
   */
  function AuthHeader(auth: Option<Verification>): (r: Result<Option<Header>>)
    ensures r.Err? <==> auth.Some? && auth.value.kind == "basic_auth" && Btoa(BasicCredentials(auth.value.configs)).Err?
    ensures r.Err? ==> r.error == InvalidCharacter
    ensures r.Ok? && r.value.Some? <==> auth.Some? && (auth.value.kind == "api_key" || auth.value.kind == "basic_auth") && r.Ok?
    ensures r.Ok? && r.value.Some? && auth.value.kind == "api_key" ==>
      r.value.value == Header(ApiKeyHeaderName(auth.value.configs), Show(ApiKeyField(auth.value.configs)))
    ensures r.Ok? && r.value.Some? && auth.value.kind == "basic_auth" ==>
      var h := r.value.value;
      && h.name == "Authorization"
      && |h.value| >= 6 && h.value[..6] == "Basic "
      && Decode(h.value[6..]) == Some(Latin1(BasicCredentials(auth.value.configs)).value)
  {
    if auth.None? then Ok(None)
    else if auth.value.kind == "api_key" then
      Ok(Some(Header(ApiKeyHeaderName(auth.value.configs), Show(ApiKeyField(auth.value.configs)))))
    else if auth.value.kind == "basic_auth" then
      match Btoa(BasicCredentials(auth.value.configs))
      case Err(e) => Err(e)
      case Ok(token) =>
        var v := "Basic " + token;
        assert v[6..] == token;
        Ok(Some(Header("Authorization", v)))
    else Ok(None)
  }

  /**
    For Basic authentication with explicit credentials, the header value
    decodes back to exactly `username:password` (section 2 of RFC 7617).
   */
  lemma BasicAuthRoundTrip(username: string, password: string)
    requires Btoa(username + ":" + password).Ok?
    ensures var r := AuthHeader(Some(Verification("basic_auth", Some(BasicAuthConfigs(username, password)))));
      && r.Ok? && r.value.Some?
      && r.value.value.name == "Authorization"
      && Decode(r.value.value.value[6..]) == Some(Latin1(username + ":" + password).value)
  {
  }
}
