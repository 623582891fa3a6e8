/** `ParseDSN` of oci8.go: a connection string
    `[oracle://][user/[password]@]host[:port][/service][?k=v&...]`
    becomes a configuration record or an error, never a partial record. */
module DsnParser {
  import opened Wrappers
  import opened Decimal

  /** `time.Local` or a zone returned by `time.LoadLocation`. */
  datatype Location = Local | Zone(name: string)

  /** `TransUnset` is Go's zero value: no `isolation` key leaves the mode at 0,
      which differs from the `OCI_TRANS_READWRITE` that `isolation=DEFAULT` selects. */
  datatype TransactionMode = TransUnset | TransReadOnly | TransSerializable | TransReadWrite

  /** `OCI_DEFAULT` or one of the privileged connection modes. */
  datatype OperationMode = OciDefault | SysDba | SysAsm | SysOper

  /** The value list of one query key. The query parser is assumed never to
      yield a key with an empty list. */
  type Values = vs: seq<string> | |vs| > 0 witness [""]

  type Query = map<string, Values>

  datatype Dsn = Dsn(
    username: string,
    password: string,
    connect: string,
    location: Location,
    transactionMode: TransactionMode,
    enableQMPlaceholders: bool,
    prefetchRows: Uint32,
    prefetchMemory: Uint32,
    operationMode: OperationMode,
    externalAuthentication: bool)

  datatype DsnError =
    | EmptyDsn
    | BadAuthority(cause: string)
    | BadHost(cause: string)
    | InvalidLoc(value: string, cause: string)
    | InvalidIsolation(value: string)
    | InvalidQuestionph(value: string)
    | InvalidPrefetchRows(value: string)
    | InvalidPrefetchMemory(value: string)
    | InvalidAs(value: string)

  /** The helpers ParseDSN calls whose bodies are not part of this model:
      `splitRight`, `parseAuthority`, `unescape(_, encodeHost)`, `ParseQuery`
      (values plus an error) and `time.LoadLocation`. */
  datatype UrlHelpers = UrlHelpers(
    splitRight: (string, string) -> (string, string),
    parseAuthority: string -> Result<(string, string), string>,
    unescapeHost: string -> Result<string, string>,
    parseQuery: string -> (Query, Option<string>),
    loadLocation: string -> Result<Location, string>)

  const Scheme: string := "oracle://"

  /** The optional scheme marker is dropped, and only that. */
  function StripScheme(s: string): (r: string)
    ensures Scheme <= s ==> Scheme + r == s
    ensures !(Scheme <= s) ==> r == s
  {
    if Scheme <= s then s[|Scheme|..] else s
  }

  /** The record before any query parameter is applied: the safe defaults. */
  function Defaults(username: string, password: string, connect: string): Dsn {
    Dsn(username, password, connect, Local, TransUnset, false, 10, 0, OciDefault, false)
  }

  datatype Prepared = Prepared(base: Dsn, query: Query)

  /** Everything ParseDSN does before it walks the query parameters. The error
      half of `ParseQuery`'s result is dropped, as the source never looks at it. */
  function Prepare(s: string, h: UrlHelpers): (r: Result<Prepared, DsnError>)
    ensures r == Failure(EmptyDsn) <==> s == []
    ensures s != [] ==>
      var (authority, rest) := h.splitRight(StripScheme(s), "@");
      var (host, params) := h.splitRight(rest, "?");
      var authorityOk := authority == [] || h.parseAuthority(authority).Success?;
      && (authority != [] && h.parseAuthority(authority).Failure? <==> r.Failure? && r.error.BadAuthority?)
      && (r.Failure? && r.error.BadAuthority? ==> r.error.cause == h.parseAuthority(authority).error)
      && (authorityOk && h.unescapeHost(host).Failure? <==> r.Failure? && r.error.BadHost?)
      && (r.Failure? && r.error.BadHost? ==> r.error.cause == h.unescapeHost(host).error)
      && (r.Success? <==> authorityOk && h.unescapeHost(host).Success?)
      && (r.Success? ==>
            && r.value.base.username == (if authority == [] then "" else h.parseAuthority(authority).value.0)
            && r.value.base.password == (if authority == [] then "" else h.parseAuthority(authority).value.1)
            && r.value.base.connect == h.unescapeHost(host).value
            && r.value.query == h.parseQuery(params).0
            && r.value.base == Defaults(r.value.base.username, r.value.base.password, r.value.base.connect))
  {
    if s == [] then Failure(EmptyDsn)
    else
      var (authority, rest) := h.splitRight(StripScheme(s), "@");
      var cred := if authority == [] then Success(("", "")) else h.parseAuthority(authority);
      if cred.Failure? then Failure(BadAuthority(cred.error))
      else
        var (host, params) := h.splitRight(rest, "?");
        var connect := h.unescapeHost(host);
        if connect.Failure? then Failure(BadHost(connect.error))
        else Success(Prepared(Defaults(cred.value.0, cred.value.1, connect.value), h.parseQuery(params).0))
  }

  /** The `isolation` switch. */
  function IsolationOf(v: string): (r: Option<TransactionMode>)
    ensures r.Some? <==> v in {"READONLY", "SERIALIZABLE", "DEFAULT"}
    ensures r == Some(TransReadOnly) <==> v == "READONLY"
    ensures r == Some(TransSerializable) <==> v == "SERIALIZABLE"
    ensures r == Some(TransReadWrite) <==> v == "DEFAULT"
    ensures r != Some(TransUnset)
  {
    if v == "READONLY" then Some(TransReadOnly)
    else if v == "SERIALIZABLE" then Some(TransSerializable)
    else if v == "DEFAULT" then Some(TransReadWrite)
    else None
  }

  /** The `questionph` switch. */
  function QuestionPhOf(v: string): (r: Option<bool>)
    ensures r.Some? <==> v in {"YES", "TRUE", "NO", "FALSE"}
    ensures r == Some(true) <==> v in {"YES", "TRUE"}
  {
    if v == "YES" || v == "TRUE" then Some(true)
    else if v == "NO" || v == "FALSE" then Some(false)
    else None
  }

  /** The `as` switch: each mode in all upper or all lower case, no other spelling. */
  function PrivilegeOf(v: string): (r: Option<OperationMode>)
    ensures r.Some? <==> v in {"SYSDBA", "sysdba", "SYSASM", "sysasm", "SYSOPER", "sysoper"}
    ensures r == Some(SysDba) <==> v in {"SYSDBA", "sysdba"}
    ensures r == Some(SysAsm) <==> v in {"SYSASM", "sysasm"}
    ensures r == Some(SysOper) <==> v in {"SYSOPER", "sysoper"}
    ensures r != Some(OciDefault)
  {
    if v == "SYSDBA" || v == "sysdba" then Some(SysDba)
    else if v == "SYSASM" || v == "sysasm" then Some(SysAsm)
    else if v == "SYSOPER" || v == "sysoper" then Some(SysOper)
    else None
  }

  predicate Recognised(k: string) {
    k in {"loc", "isolation", "questionph", "prefetch_rows", "prefetch_memory", "as"}
  }

  /** Whether the first value of key `k` is one the parser accepts; unknown keys accept anything. */
  predicate KeyValid(k: string, vs: Values, loadLocation: string -> Result<Location, string>) {
    var v := vs[0];
    if k == "loc" then loadLocation(v).Success?
    else if k == "isolation" then IsolationOf(v).Some?
    else if k == "questionph" then QuestionPhOf(v).Some?
    else if k == "prefetch_rows" || k == "prefetch_memory" then ParseUint32(v).Some?
    else if k == "as" then PrivilegeOf(v).Some?
    else true
  }

  predicate QueryValidOn(q: Query, keys: set<string>, loadLocation: string -> Result<Location, string>) {
    forall k :: k in keys && k in q ==> KeyValid(k, q[k], loadLocation)
  }

  /** The error reported for an invalid value of a recognised key. */
  function Rejection(k: string, v: string, loadLocation: string -> Result<Location, string>): DsnError {
    if k == "loc" then
      var loaded := loadLocation(v);
      InvalidLoc(v, if loaded.Failure? then loaded.error else "")
    else if k == "isolation" then InvalidIsolation(v)
    else if k == "questionph" then InvalidQuestionph(v)
    else if k == "prefetch_rows" then InvalidPrefetchRows(v)
    else if k == "prefetch_memory" then InvalidPrefetchMemory(v)
    else InvalidAs(v)
  }

  /** Reference definition: `d` with the settings of those keys of `q` that lie in
      `keys`, each field taken from the first value of the one key that governs it. */
  function ConfiguredBy(d: Dsn, q: Query, keys: set<string>, loadLocation: string -> Result<Location, string>): Dsn
    requires QueryValidOn(q, keys, loadLocation)
  {
    var has := (k: string) => k in keys && k in q;
    d.(
      location := if has("loc") then loadLocation(q["loc"][0]).value else d.location,
      transactionMode := if has("isolation") then IsolationOf(q["isolation"][0]).value else d.transactionMode,
      enableQMPlaceholders := if has("questionph") then QuestionPhOf(q["questionph"][0]).value else d.enableQMPlaceholders,
      prefetchRows := if has("prefetch_rows") then ParseUint32(q["prefetch_rows"][0]).value else d.prefetchRows,
      prefetchMemory := if has("prefetch_memory") then ParseUint32(q["prefetch_memory"][0]).value else d.prefetchMemory,
      operationMode := if has("as") then PrivilegeOf(q["as"][0]).value else d.operationMode)
  }

  /** One turn of the parameter loop: the switch on key `k`. */
  function ApplyParam(d: Dsn, q: Query, k: string, loadLocation: string -> Result<Location, string>): (r: Result<Dsn, DsnError>)
    requires k in q
    ensures r.Success? <==> KeyValid(k, q[k], loadLocation)
    ensures r.Success? ==> r.value == ConfiguredBy(d, q, {k}, loadLocation)
    ensures r.Failure? ==> r.error == Rejection(k, q[k][0], loadLocation)
    ensures !Recognised(k) ==> r == Success(d)
  {
    var v := q[k][0];
    if k == "loc" then
      var loaded := loadLocation(v);
      if loaded.Failure? then Failure(InvalidLoc(v, loaded.error)) else Success(d.(location := loaded.value))
    else if k == "isolation" then
      var mode := IsolationOf(v);
      if mode.None? then Failure(InvalidIsolation(v)) else Success(d.(transactionMode := mode.value))
    else if k == "questionph" then
      var enable := QuestionPhOf(v);
      if enable.None? then Failure(InvalidQuestionph(v)) else Success(d.(enableQMPlaceholders := enable.value))
    else if k == "prefetch_rows" then
      var z := ParseUint32(v);
      if z.None? then Failure(InvalidPrefetchRows(v)) else Success(d.(prefetchRows := z.value))
    else if k == "prefetch_memory" then
      var z := ParseUint32(v);
      if z.None? then Failure(InvalidPrefetchMemory(v)) else Success(d.(prefetchMemory := z.value))
    else if k == "as" then
      var mode := PrivilegeOf(v);
      if mode.None? then Failure(InvalidAs(v)) else Success(d.(operationMode := mode.value))
    else Success(d)
  }

  /** The external-authentication rule applied after the loop. */
  function Finish(d: Dsn): (r: Dsn)
    requires !d.externalAuthentication
    ensures r.externalAuthentication <==> d.username == [] && d.password == [] && d.connect == []
    ensures r.(externalAuthentication := false) == d
  {
    if |d.username| + |d.password| + |d.connect| == 0 then d.(externalAuthentication := true) else d
  }

  /** Reference definition of a successful parse: `None` exactly when ParseDSN fails. */
  function ParseDsnSpec(s: string, h: UrlHelpers): Option<Dsn> {
    var p := Prepare(s, h);
    if p.Failure? then None
    else if !QueryValidOn(p.value.query, p.value.query.Keys, h.loadLocation) then None
    else Some(Finish(ConfiguredBy(p.value.base, p.value.query, p.value.query.Keys, h.loadLocation)))
  }

  /** The errors ParseDSN may report for `s`; with several invalid keys the
      one reported depends on Go's unspecified map order. */
  function ParseErrors(s: string, h: UrlHelpers): set<DsnError> {
    var p := Prepare(s, h);
    if p.Failure? then {p.error}
    else
      var q := p.value.query;
      set k | k in q && !KeyValid(k, q[k], h.loadLocation) :: Rejection(k, q[k][0], h.loadLocation)
  }

  /** ParseDSN. The query map is walked in an arbitrary order (`:|`), as a Go
      map range is; the first invalid value met aborts the whole parse. */
  method ParseDSN(s: string, h: UrlHelpers) returns (r: Result<Dsn, DsnError>)
    ensures r.Success? <==> ParseDsnSpec(s, h).Some?
    ensures r.Success? ==> r.value == ParseDsnSpec(s, h).value
    ensures r.Failure? ==> r.error in ParseErrors(s, h)
  {
    var p := Prepare(s, h);
    if p.Failure? {
      return Failure(p.error);
    }
    var q := p.value.query;
    var d := p.value.base;
    var remaining := q.Keys;
    while remaining != {}
      invariant remaining <= q.Keys
      invariant QueryValidOn(q, q.Keys - remaining, h.loadLocation)
      invariant d == ConfiguredBy(p.value.base, q, q.Keys - remaining, h.loadLocation)
      decreases remaining
    {
      var k :| k in remaining;
      var step := ApplyParam(d, q, k, h.loadLocation);
      if step.Failure? {
        return Failure(step.error);
      }
      d := step.value;
      remaining := remaining - {k};
    }
    return Success(Finish(d));
  }

  /** An empty connection string is refused before anything else is looked at. */
  lemma EmptyDsnRefused(h: UrlHelpers)
    ensures ParseDsnSpec("", h) == None
    ensures ParseErrors("", h) == {EmptyDsn}
  {
  }

  /** The parse succeeds exactly when the text before the query is accepted and
      every recognised key carries a valid first value. */
  lemma ParseSucceedsIff(s: string, h: UrlHelpers)
    ensures ParseDsnSpec(s, h).Some? <==>
      && Prepare(s, h).Success?
      && forall k :: k in Prepare(s, h).value.query && Recognised(k) ==>
           KeyValid(k, Prepare(s, h).value.query[k], h.loadLocation)
  {
  }

  /** One invalid value of a recognised key makes the whole parse fail, and the
      error it reports is among those ParseDSN may return. */
  lemma InvalidValueFailsParse(s: string, h: UrlHelpers, k: string)
    requires Prepare(s, h).Success?
    requires k in Prepare(s, h).value.query
    requires !KeyValid(k, Prepare(s, h).value.query[k], h.loadLocation)
    ensures ParseDsnSpec(s, h) == None
    ensures Rejection(k, Prepare(s, h).value.query[k][0], h.loadLocation) in ParseErrors(s, h)
  {
  }

  /** Each field of a parsed record comes from the first value of its key when the
      key is present and is the safe default otherwise; user, password and
      connect string come from the text before the query. */
  lemma ParsedFields(s: string, h: UrlHelpers)
    requires ParseDsnSpec(s, h).Some?
    ensures
      var p := Prepare(s, h).value;
      var q := p.query;
      var d := ParseDsnSpec(s, h).value;
      && d.username == p.base.username && d.password == p.base.password && d.connect == p.base.connect
      && d.location == (if "loc" in q then h.loadLocation(q["loc"][0]).value else Local)
      && d.transactionMode == (if "isolation" in q then IsolationOf(q["isolation"][0]).value else TransUnset)
      && d.enableQMPlaceholders == ("questionph" in q && q["questionph"][0] in {"YES", "TRUE"})
      && d.prefetchRows == (if "prefetch_rows" in q then Value(q["prefetch_rows"][0]) else 10)
      && d.prefetchMemory == (if "prefetch_memory" in q then Value(q["prefetch_memory"][0]) else 0)
      && d.operationMode == (if "as" in q then PrivilegeOf(q["as"][0]).value else OciDefault)
  {
  }

  /** Without recognised keys the record carries the safe defaults. */
  lemma DefaultsWithoutRecognisedKeys(s: string, h: UrlHelpers)
    requires Prepare(s, h).Success?
    requires forall k :: k in Prepare(s, h).value.query ==> !Recognised(k)
    ensures ParseDsnSpec(s, h).Some?
    ensures
      var d := ParseDsnSpec(s, h).value;
      && d.prefetchRows == 10 && d.prefetchMemory == 0
      && d.operationMode == OciDefault && d.location == Local
      && d.transactionMode == TransUnset && !d.enableQMPlaceholders
  {
    ParsedFields(s, h);
  }

  /** A key outside the six recognised ones changes nothing, whatever its value. */
  lemma UnknownKeyIgnored(s1: string, s2: string, h: UrlHelpers, k: string, vs: Values)
    requires !Recognised(k)
    requires Prepare(s1, h).Success? && Prepare(s2, h).Success?
    requires Prepare(s1, h).value.base == Prepare(s2, h).value.base
    requires Prepare(s2, h).value.query == Prepare(s1, h).value.query[k := vs]
    ensures ParseDsnSpec(s2, h) == ParseDsnSpec(s1, h)
  {
    var q1 := Prepare(s1, h).value.query;
    var q2 := Prepare(s2, h).value.query;
    assert QueryValidOn(q1, q1.Keys, h.loadLocation) <==> QueryValidOn(q2, q2.Keys, h.loadLocation) by {
      forall j | j in q1 && j != k
        ensures q2[j] == q1[j]
      {
      }
    }
  }

  /** External authentication is chosen exactly when user, password and connect
      string are all empty. */
  lemma ExternalAuthenticationRule(s: string, h: UrlHelpers)
    requires ParseDsnSpec(s, h).Some?
    ensures
      var d := ParseDsnSpec(s, h).value;
      d.externalAuthentication <==> d.username == [] && d.password == [] && d.connect == []
  {
  }

  /** The error `ParseQuery` may return is never consulted: helpers that differ
      only in that error give the same parse. */
  lemma QueryErrorIgnored(s: string, h1: UrlHelpers, h2: UrlHelpers)
    requires forall a, b :: h1.splitRight(a, b) == h2.splitRight(a, b)
    requires forall a :: h1.parseAuthority(a) == h2.parseAuthority(a)
    requires forall a :: h1.unescapeHost(a) == h2.unescapeHost(a)
    requires forall a :: h1.parseQuery(a).0 == h2.parseQuery(a).0
    requires forall a :: h1.loadLocation(a) == h2.loadLocation(a)
    ensures ParseDsnSpec(s, h1) == ParseDsnSpec(s, h2)
  {
  }
}
