/**
 * The decision logic of the security middleware
 * (backend/src/middleware/securityHeaders.js): the null-byte stripper run over
 * request bodies, queries and parameters, the CORS origin decision, and the
 * audit of the security headers a response carries.
 */
module Security {
  import opened Wrappers
  import opened Text
  import opened Seqs

  // ----- input sanitisation -----

  /** A parsed JSON value; object members keep their order. */
  datatype Json =
    | JNull
    | JBool(b: bool)
    | JNum(n: real)
    | JStr(s: string)
    | JArr(items: seq<Json>)
    | JObj(members: seq<Member>)

  datatype Member = Member(key: string, value: Json)

  const Nul: char := 0 as char

  /**
   * `sanitize(obj)`: strings lose every `\0`; arrays and objects have each
   * value sanitised under its own index or key; anything else is returned
   * as it is. Keys themselves are not sanitised.
   */
  function Sanitize(j: Json): (r: Json)
    ensures j.JNull? || j.JBool? || j.JNum? ==> r == j
    ensures j.JStr? ==> r.JStr? && |r.s| <= |j.s| && Nul !in r.s && IsSubseq(r.s, j.s)
    ensures j.JStr? ==> forall x :: x != Nul ==> Count(r.s, x) == Count(j.s, x)
    ensures j.JArr? ==> r.JArr? && |r.items| == |j.items|
    ensures j.JObj? ==> r.JObj? && |r.members| == |j.members|
    ensures j.JObj? ==> forall i :: 0 <= i < |j.members| ==> r.members[i].key == j.members[i].key
    decreases j
  {
    match j
    case JStr(s) => StripFilters(s, Nul); JStr(Strip(s, Nul))
    case JArr(items) => JArr(SanitizeItems(items))
    case JObj(members) => JObj(SanitizeMembers(members))
    case _ => j
  }

  function SanitizeItems(items: seq<Json>): (r: seq<Json>)
    ensures |r| == |items|
    ensures forall i :: 0 <= i < |items| ==> r[i] == Sanitize(items[i])
    decreases items
  {
    if |items| == 0 then [] else [Sanitize(items[0])] + SanitizeItems(items[1..])
  }

  function SanitizeMembers(members: seq<Member>): (r: seq<Member>)
    ensures |r| == |members|
    ensures forall i :: 0 <= i < |members| ==> r[i] == Member(members[i].key, Sanitize(members[i].value))
    decreases members
  {
    if |members| == 0 then []
    else [Member(members[0].key, Sanitize(members[0].value))] + SanitizeMembers(members[1..])
  }

  /** No string value at any depth holds a `\0`. */
  predicate Clean(j: Json)
    decreases j
  {
    match j
    case JStr(s) => Nul !in s
    case JArr(items) => forall i :: 0 <= i < |items| ==> Clean(items[i])
    case JObj(members) => forall i :: 0 <= i < |members| ==> Clean(members[i].value)
    case _ => true
  }

  /** After sanitising, no string at any depth contains a null byte. */
  lemma {:induction false} SanitizeClean(j: Json)
    ensures Clean(Sanitize(j))
    decreases j
  {
    match j
    case JArr(items) =>
      forall i | 0 <= i < |items|
        ensures Clean(Sanitize(j).items[i])
      {
        SanitizeClean(items[i]);
      }
    case JObj(members) =>
      forall i | 0 <= i < |members|
        ensures Clean(Sanitize(j).members[i].value)
      {
        SanitizeClean(members[i].value);
      }
    case _ =>
  }

  /** A value without null bytes passes through unchanged. */
  lemma {:induction false} SanitizeNoop(j: Json)
    requires Clean(j)
    ensures Sanitize(j) == j
    decreases j
  {
    match j
    case JStr(s) =>
      StripNoop(s, Nul);
    case JArr(items) =>
      forall i | 0 <= i < |items|
        ensures Sanitize(items[i]) == items[i]
      {
        SanitizeNoop(items[i]);
      }
      assert SanitizeItems(items) == items;
    case JObj(members) =>
      forall i | 0 <= i < |members|
        ensures Sanitize(members[i].value) == members[i].value
      {
        SanitizeNoop(members[i].value);
      }
      assert SanitizeMembers(members) == members;
    case _ =>
  }

  /** Sanitising twice is sanitising once. */
  lemma SanitizeIdempotent(j: Json)
    ensures Sanitize(Sanitize(j)) == Sanitize(j)
  {
    SanitizeClean(j);
    SanitizeNoop(Sanitize(j));
  }

  /** `"test\x00string"` becomes `"teststring"`. */
  lemma SanitizeExample()
    ensures Sanitize(JStr("test" + [Nul] + "string")) == JStr("teststring")
  {
    var s := "test" + [Nul] + "string";
    assert Nul !in "string";
    StripNoop("string", Nul);
    StripAt(s, 4);
  }

  /** Removing `Nul` around one occurrence at `i` of a string whose tail is clean. */
  lemma {:induction false} StripAt(s: string, i: nat)
    requires i < |s| && s[i] == Nul && Nul !in s[..i] && Nul !in s[i + 1..]
    ensures Strip(s, Nul) == s[..i] + s[i + 1..]
    decreases i
  {
    if i == 0 {
      StripNoop(s[1..], Nul);
    } else {
      assert s[1..][..i - 1] == s[1..i];
      assert s[1..][i - 1 + 1..] == s[i + 1..];
      StripAt(s[1..], i - 1);
      assert s[..i] == [s[0]] + s[1..i];
    }
  }

  // ----- CORS -----

  /**
   * The allow-list: the comma-separated `ALLOWED_ORIGINS` when set and
   * non-empty, else the production domain in production, else the two
   * local development origins.
   */
  function AllowedOrigins(env: Option<string>, production: bool): (r: seq<string>)
    ensures |r| >= 1
  {
    if env.Some? && env.value != "" then Split(env.value, ',')
    else if production then ["https://your-domain.com"]
    else ["http://localhost:3000", "http://localhost:3001"]
  }

  /** A request without an origin, or with an empty one. */
  predicate NoOrigin(origin: Option<string>)
  {
    origin.None? || origin.value == ""
  }

  /** The `origin` callback: `Ok(true)` admits the request, `Err` carries the CORS error. */
  function CorsDecision(allowed: seq<string>, origin: Option<string>): (r: Result<bool, string>)
    ensures r.Ok? ==> r.value
    ensures r.Ok? <==> NoOrigin(origin) || origin.value in allowed
    ensures r.Err? ==> r.error == "Not allowed by CORS"
  {
    if NoOrigin(origin) then Ok(true)
    else if origin.value in allowed then Ok(true)
    else Err("Not allowed by CORS")
  }

  /** Every origin listed in `ALLOWED_ORIGINS` is admitted, and the listed text is all there is. */
  lemma ListedOriginsAllowed(env: string, production: bool)
    requires env != ""
    ensures Join(AllowedOrigins(Some(env), production), ',') == env
    ensures forall k :: 0 <= k < |AllowedOrigins(Some(env), production)| ==>
      ',' !in AllowedOrigins(Some(env), production)[k] &&
      CorsDecision(AllowedOrigins(Some(env), production), Some(AllowedOrigins(Some(env), production)[k])).Ok?
  {
    SplitJoin(env, ',');
    SplitPiecesHaveNoSep(env, ',');
  }

  /** Outside production, without a list, only the two local origins get in. */
  lemma DevelopmentOrigins(origin: string)
    requires origin != ""
    ensures CorsDecision(AllowedOrigins(None, false), Some(origin)).Ok? <==>
      origin == "http://localhost:3000" || origin == "http://localhost:3001"
  {
  }

  // ----- header audit -----

  /** The headers `validateSecurityHeaders` reads, in its order. */
  const AuditedHeaders: seq<string> := [
    "Content-Security-Policy", "Strict-Transport-Security", "X-Frame-Options",
    "X-Content-Type-Options", "X-XSS-Protection", "Referrer-Policy",
    "Permissions-Policy", "Cross-Origin-Embedder-Policy",
    "Cross-Origin-Opener-Policy", "Cross-Origin-Resource-Policy"]

  /** `res.getHeader(name)` is truthy: set, and not the empty string. */
  predicate HeaderSet(response: map<string, string>, name: string)
  {
    name in response && response[name] != ""
  }

  datatype Audit = Audit(missingHeaders: seq<string>, score: string)

  /** `missingHeaders` and `score`. */
  function AuditHeaders(response: map<string, string>): (a: Audit)
    ensures forall h :: h in a.missingHeaders <==> h in AuditedHeaders && !HeaderSet(response, h)
    ensures a.score == "A+" <==> a.missingHeaders == []
    ensures a.score != "A+" ==> a.score == "Needs Improvement"
  {
    var missing := Filter(AuditedHeaders, h => !HeaderSet(response, h));
    Audit(missing, if |missing| == 0 then "A+" else "Needs Improvement")
  }

  /** Missing headers are reported in the audit's own order, each once. */
  lemma MissingInOrder(response: map<string, string>)
    ensures IsSubseq(AuditHeaders(response).missingHeaders, AuditedHeaders)
    ensures |AuditHeaders(response).missingHeaders| <= 10
  {
    FilterIsSubseq(AuditedHeaders, h => !HeaderSet(response, h));
  }

  /** The score is "A+" exactly when every audited header is set. */
  lemma FullMarks(response: map<string, string>)
    ensures AuditHeaders(response).score == "A+" <==>
      forall i :: 0 <= i < |AuditedHeaders| ==> HeaderSet(response, AuditedHeaders[i])
  {
    FilterEmpty(AuditedHeaders, h => !HeaderSet(response, h));
  }
}
