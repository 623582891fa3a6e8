# go-oci8 connection core, modelled in Dafny

This project models three pieces of `oci8.go` from go-oci8, the Go driver for Oracle over OCI:

- **`ParseDSN`** turns a string of the form `[oracle://][username/[password]@]host[:port][/instance_name][?param1=value1&...]` into a connection configuration.
  - It applies safe defaults: 10 prefetched rows, no prefetch memory, the default operation mode and the local time zone.
  - It validates the six recognised query keys: `loc`, `isolation`, `questionph`, `prefetch_rows`, `prefetch_memory` and `as`. Any invalid value fails the whole parse, and any other key is ignored.
  - It turns on external authentication when user, password and connect string are all empty.
- **`OCI8DriverStruct.Open`** parses the configuration, then climbs the handle-acquisition ladder. It first creates the environment and the error handle. Then it takes one of two branches:
  - the session protocol: server handle, attach, service context, server attribute, session handle, credentials, session begin, session attribute;
  - a single logon call.

  A rejected status frees every handle acquired so far, newest first, and returns no connection.
- **`OCI8Tx.Commit` / `OCI8Tx.Rollback`** leave the transaction and issue the native call. The call's status decides only the error returned.

Modules:

| file | module | contents |
|---|---|---|
| `wrappers.dfy` | `Wrappers` | `Option` and `Result` |
| `decimal.dfy` | `Decimal` | `strconv.ParseUint(s, 10, 32)` and its inverse, the canonical decimal spelling |
| `dsn.dfy` | `DsnParser` | the configuration record, the parameter switch, `ParseDSN` and a reference definition of its result |
| `native.dfy` | `Native` | native calls, the status oracle, the trace of calls and frees, and the predicates over traces |
| `driver.dfy` | `Driver` | the two ladders as tables of rungs, their free-list property, the interpreter `Climb`, and `Open` |
| `transaction.dfy` | `Transaction` | `Commit` and `Rollback` |

Modelling choices:

- **The ladder is a table.** Each rung of the ladder is a native call together with the free list the Go code runs when that call is rejected. The free lists are transcribed from the source, one `OCIHandleFree` at a time.
  - `LadderUnwindsInReverse` proves of both tables that every tested rung frees exactly the handles acquired before it, newest first, and that no handle is acquired twice.
  - `Open` then shows that a failure exit releases exactly what was acquired, each handle once and in reverse order, and that a success releases nothing.
- **Foreign calls come from an oracle.** A native call's outcome is the value of a status oracle `status: NativeCall -> Sword` passed to `Open`. The trace `t` records every call issued (`Called`) and every handle freed (`Freed`).
- **The query loop order is arbitrary.** The query map is iterated in an arbitrary order (`:|`), as Go's `range` over a map is. Results are stated order-independently: which error is reported with several invalid keys is only known to be one of `ParseErrors`.
- **Helpers from outside this file are parameters.** `splitRight`, `parseAuthority`, `unescape`, the package's own `ParseQuery` and `time.LoadLocation` are defined outside `oci8.go`. They are function-valued fields of a `UrlHelpers` record, so every result is stated for all helper behaviours.

Where a plain reading of the driver's documentation and the code disagree, the model follows the code:

- With no `isolation` key, the transaction mode is Go's zero value. The model calls it `TransUnset`, distinct from `TransReadWrite`, which only `isolation=DEFAULT` gives (`oci8.go:74-84`).
- `as` accepts each privilege only in all upper case or all lower case (`oci8.go:106-116`). It is not case-insensitive: `PrivilegeOf` accepts exactly those six spellings, so every other spelling is rejected.
- The error returned by `ParseQuery` is never checked (`oci8.go:65`, `QueryErrorIgnored`).
- The statuses of server attach and session begin are never tested (`oci8.go:213-227`, `oci8.go:315-328`). Such a call is always accepted (`Native.Checked`, `UncheckedStatusIgnored`).
- Environment creation and logon accept `OCI_SUCCESS_WITH_INFO` as well as `OCI_SUCCESS`. Allocations and attribute sets accept only `OCI_SUCCESS`. `Commit` and `Rollback` report `OCI_SUCCESS_WITH_INFO` as an error (`SuccessWithInfoIsError`).

## Model

| member | source | states |
|---|---|---|
| DsnParser.StripScheme | oci8.go:38-42 | the `oracle://` prefix is removed when present and the string is otherwise unchanged |
| DsnParser.Prepare | oci8.go:32-65 | fails with the empty-DSN error iff the string is empty; fails with the authority error iff a non-empty authority is rejected by `parseAuthority`, and with the host error iff the host is then rejected by `unescape`, each carrying the helper's cause; otherwise username and password come from `parseAuthority` (empty without an authority), the connect string is the unescaped host, the query is `ParseQuery`'s value part and every other field has its safe default |
| DsnParser.ParseDSN | oci8.go:30-125 | succeeds exactly when the reference parse does, and then returns the same record; on failure the error is one of the rejections of an invalid key (or the prefix error), whatever the map order |
| DsnParser.ApplyParam | oci8.go:66-118 | one turn of the switch succeeds iff the key's first value is valid for it, then updates exactly that key's field; an unrecognised key leaves the record unchanged |
| DsnParser.IsolationOf | oci8.go:74-84 | `isolation` accepts exactly READONLY, SERIALIZABLE and DEFAULT, selecting read-only, serializable and read-write respectively; it never yields the unset mode |
| DsnParser.QuestionPhOf | oci8.go:85-93 | `questionph` accepts exactly YES, TRUE, NO and FALSE, and enables placeholders exactly for YES and TRUE |
| DsnParser.PrivilegeOf | oci8.go:106-116 | `as` accepts exactly SYSDBA, SYSASM and SYSOPER in all upper or all lower case, each spelling selecting its own privilege; it never yields the default mode |
| DsnParser.Finish | oci8.go:121-123 | external authentication is set exactly when user, password and connect string are empty; no other field changes |
| DsnParser.EmptyDsnRefused | oci8.go:34-36 | the empty string is refused with the empty-DSN error and no record |
| DsnParser.ParseSucceedsIff | oci8.go:43-118 | a parse succeeds iff the part before the query is prepared without error (which `Prepare` ties to the helpers) and every recognised key present has a valid first value |
| DsnParser.InvalidValueFailsParse | oci8.go:74-116 | any single invalid value of a recognised key fails the whole parse, and its rejection is a possible error |
| DsnParser.ParsedFields | oci8.go:32-118 | every field of a parsed record is its key's first value when present and the safe default otherwise |
| DsnParser.DefaultsWithoutRecognisedKeys | oci8.go:32-63 | without recognised keys the record has 10 prefetch rows, 0 prefetch memory, the default mode, the local zone, no isolation and no placeholders |
| DsnParser.UnknownKeyIgnored | oci8.go:66-118 | adding or changing a key outside the six recognised ones does not change the parse |
| DsnParser.ExternalAuthenticationRule | oci8.go:121-123 | a parsed record uses external authentication iff user, password and connect string are all empty |
| DsnParser.QueryErrorIgnored | oci8.go:65 | two query parsers that differ only in the error they return give the same parse |
| Decimal.ParseFormatRoundTrip | oci8.go:94-105 | parsing the canonical spelling of n gives n when it fits in 32 bits and fails otherwise |
| Decimal.LeadingZeroIgnored | oci8.go:94-105 | a leading zero does not change the decimal value |
| Decimal.NonDigitRejected | oci8.go:94-105 | any non-digit character makes the prefetch value unparsable |
| Native.Accepted | oci8.go:166-172 | plain success is always accepted; success with information is also accepted from environment creation and logon; attach and session begin are accepted whatever their status; no other status is accepted from a tested call (the tests at oci8.go:169, 182, 203, 233, 251, 265, 286, 304, 339, 359) |
| Native.Issue | oci8.go:166-172 | issuing a call appends it to the trace, returns the oracle's status for it, and frees nothing |
| Native.ReleaseAll | oci8.go:183-184 | running a free list appends exactly its handles, in order, to the released handles and issues no call |
| Driver.RejectedRungUnwinds | oci8.go:204-345 | when a tested rung is rejected after all earlier calls were accepted, running its free list leaves a trace that freed exactly the acquired handles, each once, newest first, after the last call |
| Native.UncheckedStatusIgnored | oci8.go:213-227 | the statuses of attach (oci8.go:213-227) and of session begin (oci8.go:315-328) never affect whether a run of calls is accepted |
| Driver.SessionRungs | oci8.go:166-347 | the session ladder has 9 rungs with external authentication and 11 without; it starts with environment creation, which frees nothing, and ends with the session attribute, which frees all five handles; the untested attach and session begin free nothing |
| Driver.LogonRungs | oci8.go:350-367 | the logon ladder has 3 rungs, all tested: environment creation and the error handle (shared with the session ladder, oci8.go:166-189), then the logon with the configured user, password and connect string, which frees the error handle and then the environment |
| Driver.Report | oci8.go:166-362 | a rejected environment creation and a rejected allocation give their fixed errors; every other rejected call gives the native error built from its status (oci8.go:171, 183, 204, 234, 252, 266, 287, 305, 340, 360) |
| Driver.LadderUnwindsInReverse | oci8.go:166-367 | in both ladders, each tested call's free list is exactly the handles acquired before it, newest first, all distinct; a completed ladder holds env, err, srv, svc, session (session protocol) or env, err, svc (logon) |
| Driver.SessionPlanShape | oci8.go:213-329 | username and password are set and the session begins with database credentials iff authentication is not external; otherwise it attaches with no connect string and begins with external credentials |
| Driver.Climb | oci8.go:166-367 | running a ladder stops at the first rejected call and runs that rung's free list; otherwise every call is accepted, nothing is freed and the acquired handles are those the plan yields |
| Driver.Open | oci8.go:152-380 | a parse failure makes no call; otherwise it succeeds iff every call is accepted, then holds exactly the branch's handles, frees nothing and copies location, transaction mode, prefetch settings, placeholder flag and mode; a failure stops at the first rejected call and frees exactly the handles acquired, each once, newest first; a rejected environment frees nothing |
| Transaction.Commit | oci8.go:127-137 | the connection leaves its transaction whatever the status, keeps everything else, and returns an error iff the commit status is not plain success |
| Transaction.Rollback | oci8.go:139-149 | the connection leaves its transaction whatever the status, keeps everything else, and returns an error iff the rollback status is not plain success |
| Transaction.EndStateIndependent | oci8.go:127-149 | commit and rollback leave the same connection, whatever either status |
| Transaction.EndIdempotent | oci8.go:127-149 | ending a transaction twice leaves the connection as ending it once |
| Transaction.SuccessWithInfoIsError | oci8.go:132-135 | a success-with-information status is reported as an error |

## Left out

- `placeholders` (`oci8.go:398-404`): it depends on a regular expression defined outside `oci8.go`, whose pattern is not part of this model.
- `GetLastInsertId`, `LastInsertId` and `RowsAffected`: they are pointer reinterpretation or field pass-through, and carry no contract.
- Logger set-up (`oci8.go:157-164`) and C string allocation and release (`oci8.go:191-196`): these are I/O and memory plumbing. The `C.free` of the C strings is not part of the handle trace.
- What each native call does inside OCI, and the time-zone database: these are foreign code. Their outcomes are the status oracle and the `loadLocation` helper.
- The bodies of `splitRight`, `parseAuthority`, `unescape` and `ParseQuery`: these are defined outside `oci8.go`, so they stay uninterpreted.
- The package's `ParseQuery` (`oci8.go:65`) is assumed never to yield a key with an empty value list; its body is outside `oci8.go`, so this is an assumption, not a fact of the code. The model types values as non-empty sequences. This makes the `len(v) > 0` test of `loc` (`oci8.go:69`) always true, and leaves out the index panic that `v[0]` would raise for the other keys on an empty list.
- `Conn` keeps only the fields the ladder and transactions set. The C pointers themselves are represented by the handle kinds held. The logger is not represented.
- `getError`'s text (`oci8.go:134`) is represented by the status it was built from (`NativeError(rv)`). The fixed error texts of `Open` are represented as `CannotCreateEnv` and `CannotAllocate(kind)`.
- Transaction.Commit, Transaction.Rollback: the source clears `inTransaction` through the shared `tx.conn` pointer (`oci8.go:129`, `oci8.go:141`). The model returns the updated connection as a new record, so aliasing through that pointer is not represented.
- Go strings are byte strings; the model uses Dafny `string`. The core only tests strings for emptiness (`oci8.go:34`, `oci8.go:121`) and compares them with ASCII literals, so no decision changes. The byte lengths passed with user, password and connect string (`oci8.go:225`, `oci8.go:283`, `oci8.go:301`, `oci8.go:354-358`) are represented by the strings themselves.
