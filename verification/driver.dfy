/** `OCI8DriverStruct.Open`: parse the connection string, then climb the
    handle-acquisition ladder (environment, error handle, then either the
    session protocol or a single logon). Every failure exit frees what was
    acquired so far, newest first, and returns no connection. */
module Driver {
  import opened Wrappers
  import opened Decimal
  import opened DsnParser
  import opened Native

  datatype DriverError =
    | ParseFailed(cause: DsnError)
    | CannotCreateEnv
    | CannotAllocate(kind: HandleKind)
    | NativeError(rv: Sword)

  /** A live connection: the handles it owns, in acquisition order, and the
      settings copied from the configuration. */
  datatype Conn = Conn(
    held: seq<HandleKind>,
    location: Location,
    transactionMode: TransactionMode,
    prefetchRows: Uint32,
    prefetchMemory: Uint32,
    enableQMPlaceholders: bool,
    operationMode: OperationMode,
    inTransaction: bool)

  /** One rung of the ladder: a native call and the handles the source frees,
      in the order it frees them, when that call's status is rejected. */
  datatype Rung = Rung(call: NativeCall, onReject: seq<HandleKind>)

  /** The session protocol as written in the source: environment (lines 166-176),
      error handle (178-189), server handle (199-211), attach (213-227, status not
      tested), service context (229-242), server attribute (244-258), session handle
      (261-275), username and password attributes only without external
      authentication (277-312), session begin with the matching credential kind
      (315-329, status not tested), session attribute (332-347). */
  function SessionRungs(d: Dsn): (r: seq<Rung>)
    ensures |r| == (if d.externalAuthentication then 9 else 11)
    ensures r[0] == Rung(EnvCreate, [])
    ensures r[|r| - 1] == Rung(AttrSet(ServiceContext, AttrSession),
                               [UserSession, ServiceContext, ServerHandle, ErrorHandle, EnvHandle])
    ensures forall i :: 0 <= i < |r| && !Checked(r[i].call) ==> r[i].onReject == []
  {
    var env := Rung(EnvCreate, []);
    var err := Rung(HandleAlloc(ErrorHandle), [EnvHandle]);
    var srv := Rung(HandleAlloc(ServerHandle), [ErrorHandle, EnvHandle]);
    var svc := Rung(HandleAlloc(ServiceContext), [ServerHandle, ErrorHandle, EnvHandle]);
    var bindServer := Rung(AttrSet(ServiceContext, AttrServer), [ServiceContext, ServerHandle, ErrorHandle, EnvHandle]);
    var session := Rung(HandleAlloc(UserSession), [ServiceContext, ServerHandle, ErrorHandle, EnvHandle]);
    var all := [UserSession, ServiceContext, ServerHandle, ErrorHandle, EnvHandle];
    var bindSession := Rung(AttrSet(ServiceContext, AttrSession), all);
    if d.externalAuthentication then
      [ env, err, srv, Rung(ServerAttach(None), []), svc, bindServer, session,
        Rung(SessionBegin(CredExt, d.operationMode), []), bindSession ]
    else
      [ env, err, srv, Rung(ServerAttach(Some(d.connect)), []), svc, bindServer, session,
        Rung(AttrSet(UserSession, AttrUsername(d.username)), all),
        Rung(AttrSet(UserSession, AttrPassword(d.password)), all),
        Rung(SessionBegin(CredRdbms, d.operationMode), []), bindSession ]
  }

  /** The direct-logon protocol as written in the source: environment, error
      handle, then one logon call that yields the service context (350-367). */
  function LogonRungs(d: Dsn): (r: seq<Rung>)
    ensures |r| == 3 && r[0] == Rung(EnvCreate, [])
    ensures r[2] == Rung(Logon(d.username, d.password, d.connect), [ErrorHandle, EnvHandle])
    ensures forall i :: 0 <= i < |r| ==> Checked(r[i].call)
  {
    [ Rung(EnvCreate, []),
      Rung(HandleAlloc(ErrorHandle), [EnvHandle]),
      Rung(Logon(d.username, d.password, d.connect), [ErrorHandle, EnvHandle]) ]
  }

  function Ladder(d: Dsn, useSessionBegin: bool): seq<Rung> {
    if useSessionBegin then SessionRungs(d) else LogonRungs(d)
  }

  /** The calls of a ladder, in order. */
  function Plan(rungs: seq<Rung>): (cs: seq<NativeCall>)
    ensures |cs| == |rungs|
    ensures forall i :: 0 <= i < |rungs| ==> cs[i] == rungs[i].call
  {
    seq(|rungs|, i requires 0 <= i < |rungs| => rungs[i].call)
  }

  /** The central invariant of the source's unwinding, as a property of its free
      lists: a rung whose status is tested frees exactly the handles the rungs
      before it acquired, newest first, and no handle is acquired twice. */
  predicate UnwindsInReverse(rungs: seq<Rung>) {
    && NoDuplicates(Yielded(Plan(rungs)))
    && forall i :: 0 <= i < |rungs| && Checked(rungs[i].call) ==>
         rungs[i].onReject == Reverse(Yielded(Plan(rungs)[..i]))
  }

  /** The same property computed rung by rung from rung `k` on: `held` is the
      stack of handles acquired by the rungs before `k`, and `final` the stack
      once every rung has been accepted. */
  predicate FreeListsUnwind(rungs: seq<Rung>, k: nat, held: seq<HandleKind>, final: seq<HandleKind>)
    decreases |rungs| - k
  {
    if k < |rungs| then
      && (Checked(rungs[k].call) ==> rungs[k].onReject == Reverse(held))
      && FreeListsUnwind(rungs, k + 1, held + YieldOf(rungs[k].call), final)
    else held == final
  }

  /** The rung-by-rung predicate `FreeListsUnwind` gives the property at every later rung. */
  lemma {:induction false} FreeListAt(rungs: seq<Rung>, k: nat, held: seq<HandleKind>, final: seq<HandleKind>, i: nat)
    requires FreeListsUnwind(rungs, k, held, final) && k <= i < |rungs| && Checked(rungs[i].call)
    ensures rungs[i].onReject == Reverse(held + YieldedFrom(Plan(rungs)[..i], k))
    decreases i - k
  {
    var before := Plan(rungs)[..i];
    if i == k {
      assert held + YieldedFrom(before, k) == held;
      FreeListsStep(rungs, k, held, final);
    } else {
      var step := YieldOf(rungs[k].call);
      FreeListsStep(rungs, k, held, final);
      FreeListAt(rungs, k + 1, held + step, final, i);
      assert held + step + YieldedFrom(before, k + 1) == held + YieldedFrom(before, k) by {
        assert before[k] == rungs[k].call;
        YieldedFromStep(before, k);
      }
    }
  }

  /** `FreeListsUnwind` also fixes the handles a completed ladder holds. */
  lemma {:induction false} FinalStack(rungs: seq<Rung>, k: nat, held: seq<HandleKind>, final: seq<HandleKind>)
    requires FreeListsUnwind(rungs, k, held, final) && k <= |rungs|
    ensures final == held + YieldedFrom(Plan(rungs), k)
    decreases |rungs| - k
  {
    var plan := Plan(rungs);
    if k == |rungs| {
      assert held + YieldedFrom(plan, k) == held;
    } else {
      var step := YieldOf(rungs[k].call);
      FreeListsStep(rungs, k, held, final);
      FinalStack(rungs, k + 1, held + step, final);
      assert held + step + YieldedFrom(plan, k + 1) == held + YieldedFrom(plan, k) by {
        YieldedFromStep(plan, k);
      }
    }
  }

  /** One unfolding of `FreeListsUnwind`. */
  lemma FreeListsStep(rungs: seq<Rung>, k: nat, held: seq<HandleKind>, final: seq<HandleKind>)
    requires FreeListsUnwind(rungs, k, held, final) && k < |rungs|
    ensures Checked(rungs[k].call) ==> rungs[k].onReject == Reverse(held)
    ensures FreeListsUnwind(rungs, k + 1, held + YieldOf(rungs[k].call), final)
  {
  }

  /** The handles a successful ladder leaves the connection owning. */
  function HeldOnSuccess(useSessionBegin: bool): seq<HandleKind> {
    if useSessionBegin then [EnvHandle, ErrorHandle, ServerHandle, ServiceContext, UserSession]
    else [EnvHandle, ErrorHandle, ServiceContext]
  }

  /** The error a rejected call is reported with: fixed texts before an error
      handle exists and for allocations, the native diagnostic (by status) otherwise. */
  function Report(c: NativeCall, rv: Sword): (e: DriverError)
    ensures e.NativeError? <==> !c.EnvCreate? && !c.HandleAlloc?
    ensures e.NativeError? ==> e.rv == rv
    ensures c.EnvCreate? ==> e == CannotCreateEnv
    ensures c.HandleAlloc? ==> e == CannotAllocate(c.kind)
  {
    match c
    case EnvCreate => CannotCreateEnv
    case HandleAlloc(kind) => CannotAllocate(kind)
    case _ => NativeError(rv)
  }

  /** The connection built from a configuration and the handles it owns. */
  function Connected(d: Dsn, held: seq<HandleKind>): Conn {
    Conn(held, d.location, d.transactionMode, d.prefetchRows, d.prefetchMemory,
         d.enableQMPlaceholders, d.operationMode, false)
  }

  /** A failure exit: the calls issued are a prefix of the plan ending at its
      first rejected call, and the handles acquired were all freed, each once,
      newest first, after the last call. */
  predicate Unwound(plan: seq<NativeCall>, status: NativeCall -> Sword, t: seq<Event>) {
    && Calls(t) <= plan
    && RejectedLast(Calls(t), status)
    && FreesLast(t)
    && NoDuplicates(Acquired(t, status))
    && Released(t) == Reverse(Acquired(t, status))
  }

  /** A success exit: the whole plan ran, every call accepted, nothing freed. */
  predicate Completed(plan: seq<NativeCall>, held: seq<HandleKind>, status: NativeCall -> Sword, t: seq<Event>) {
    && Calls(t) == plan
    && AllAccepted(plan, status)
    && Released(t) == []
    && Acquired(t, status) == held
    && NoDuplicates(held)
  }

  /** A failure exit never has the whole plan accepted. */
  lemma UnwoundIsRejection(plan: seq<NativeCall>, status: NativeCall -> Sword, t: seq<Event>)
    requires Unwound(plan, status, t)
    ensures !AllAccepted(plan, status)
  {
    var cs := Calls(t);
    assert cs[|cs| - 1] == plan[|cs| - 1];
  }

  /** The free lists of the direct-logon ladder, checked rung by rung. */
  lemma LogonFreeLists(d: Dsn)
    ensures FreeListsUnwind(LogonRungs(d), 0, [], [EnvHandle, ErrorHandle, ServiceContext])
  {
    var rungs := LogonRungs(d);
    assert FreeListsUnwind(rungs, 3, [EnvHandle, ErrorHandle, ServiceContext], [EnvHandle, ErrorHandle, ServiceContext]);
    assert [EnvHandle, ErrorHandle] + YieldOf(rungs[2].call) == [EnvHandle, ErrorHandle, ServiceContext];
    assert FreeListsUnwind(rungs, 2, [EnvHandle, ErrorHandle], [EnvHandle, ErrorHandle, ServiceContext]);
    assert [EnvHandle] + YieldOf(rungs[1].call) == [EnvHandle, ErrorHandle];
    assert FreeListsUnwind(rungs, 1, [EnvHandle], [EnvHandle, ErrorHandle, ServiceContext]);
    assert [] + YieldOf(rungs[0].call) == [EnvHandle];
    assert FreeListsUnwind(rungs, 0, [], [EnvHandle, ErrorHandle, ServiceContext]);
  }

  /** The free lists of the later rungs of the session ladder with external authentication. */
  lemma SessionExtTailFreeLists(d: Dsn)
    requires d.externalAuthentication
    ensures FreeListsUnwind(SessionRungs(d), 5, [EnvHandle, ErrorHandle, ServerHandle, ServiceContext], [EnvHandle, ErrorHandle, ServerHandle, ServiceContext, UserSession])
  {
    var rungs := SessionRungs(d);
    assert FreeListsUnwind(rungs, 9, [EnvHandle, ErrorHandle, ServerHandle, ServiceContext, UserSession], [EnvHandle, ErrorHandle, ServerHandle, ServiceContext, UserSession]);
    assert [EnvHandle, ErrorHandle, ServerHandle, ServiceContext, UserSession] + YieldOf(rungs[8].call) == [EnvHandle, ErrorHandle, ServerHandle, ServiceContext, UserSession];
    assert FreeListsUnwind(rungs, 8, [EnvHandle, ErrorHandle, ServerHandle, ServiceContext, UserSession], [EnvHandle, ErrorHandle, ServerHandle, ServiceContext, UserSession]);
    assert [EnvHandle, ErrorHandle, ServerHandle, ServiceContext, UserSession] + YieldOf(rungs[7].call) == [EnvHandle, ErrorHandle, ServerHandle, ServiceContext, UserSession];
    assert FreeListsUnwind(rungs, 7, [EnvHandle, ErrorHandle, ServerHandle, ServiceContext, UserSession], [EnvHandle, ErrorHandle, ServerHandle, ServiceContext, UserSession]);
    assert [EnvHandle, ErrorHandle, ServerHandle, ServiceContext] + YieldOf(rungs[6].call) == [EnvHandle, ErrorHandle, ServerHandle, ServiceContext, UserSession];
    assert FreeListsUnwind(rungs, 6, [EnvHandle, ErrorHandle, ServerHandle, ServiceContext], [EnvHandle, ErrorHandle, ServerHandle, ServiceContext, UserSession]);
    assert [EnvHandle, ErrorHandle, ServerHandle, ServiceContext] + YieldOf(rungs[5].call) == [EnvHandle, ErrorHandle, ServerHandle, ServiceContext];
    assert FreeListsUnwind(rungs, 5, [EnvHandle, ErrorHandle, ServerHandle, ServiceContext], [EnvHandle, ErrorHandle, ServerHandle, ServiceContext, UserSession]);
  }

  /** The free lists of the session ladder with external authentication, checked rung by rung. */
  lemma SessionExtFreeLists(d: Dsn)
    requires d.externalAuthentication
    ensures FreeListsUnwind(SessionRungs(d), 0, [], [EnvHandle, ErrorHandle, ServerHandle, ServiceContext, UserSession])
  {
    var rungs := SessionRungs(d);
    SessionExtTailFreeLists(d);
    assert [EnvHandle, ErrorHandle, ServerHandle] + YieldOf(rungs[4].call) == [EnvHandle, ErrorHandle, ServerHandle, ServiceContext];
    assert FreeListsUnwind(rungs, 4, [EnvHandle, ErrorHandle, ServerHandle], [EnvHandle, ErrorHandle, ServerHandle, ServiceContext, UserSession]);
    assert [EnvHandle, ErrorHandle, ServerHandle] + YieldOf(rungs[3].call) == [EnvHandle, ErrorHandle, ServerHandle];
    assert FreeListsUnwind(rungs, 3, [EnvHandle, ErrorHandle, ServerHandle], [EnvHandle, ErrorHandle, ServerHandle, ServiceContext, UserSession]);
    assert [EnvHandle, ErrorHandle] + YieldOf(rungs[2].call) == [EnvHandle, ErrorHandle, ServerHandle];
    assert FreeListsUnwind(rungs, 2, [EnvHandle, ErrorHandle], [EnvHandle, ErrorHandle, ServerHandle, ServiceContext, UserSession]);
    assert [EnvHandle] + YieldOf(rungs[1].call) == [EnvHandle, ErrorHandle];
    assert FreeListsUnwind(rungs, 1, [EnvHandle], [EnvHandle, ErrorHandle, ServerHandle, ServiceContext, UserSession]);
    assert [] + YieldOf(rungs[0].call) == [EnvHandle];
    assert FreeListsUnwind(rungs, 0, [], [EnvHandle, ErrorHandle, ServerHandle, ServiceContext, UserSession]);
  }

  /** The free lists of the later rungs of the session ladder with a username and password. */
  lemma SessionRdbmsTailFreeLists(d: Dsn)
    requires !d.externalAuthentication
    ensures FreeListsUnwind(SessionRungs(d), 6, [EnvHandle, ErrorHandle, ServerHandle, ServiceContext], [EnvHandle, ErrorHandle, ServerHandle, ServiceContext, UserSession])
  {
    var rungs := SessionRungs(d);
    assert FreeListsUnwind(rungs, 11, [EnvHandle, ErrorHandle, ServerHandle, ServiceContext, UserSession], [EnvHandle, ErrorHandle, ServerHandle, ServiceContext, UserSession]);
    assert [EnvHandle, ErrorHandle, ServerHandle, ServiceContext, UserSession] + YieldOf(rungs[10].call) == [EnvHandle, ErrorHandle, ServerHandle, ServiceContext, UserSession];
    assert FreeListsUnwind(rungs, 10, [EnvHandle, ErrorHandle, ServerHandle, ServiceContext, UserSession], [EnvHandle, ErrorHandle, ServerHandle, ServiceContext, UserSession]);
    assert [EnvHandle, ErrorHandle, ServerHandle, ServiceContext, UserSession] + YieldOf(rungs[9].call) == [EnvHandle, ErrorHandle, ServerHandle, ServiceContext, UserSession];
    assert FreeListsUnwind(rungs, 9, [EnvHandle, ErrorHandle, ServerHandle, ServiceContext, UserSession], [EnvHandle, ErrorHandle, ServerHandle, ServiceContext, UserSession]);
    assert [EnvHandle, ErrorHandle, ServerHandle, ServiceContext, UserSession] + YieldOf(rungs[8].call) == [EnvHandle, ErrorHandle, ServerHandle, ServiceContext, UserSession];
    assert FreeListsUnwind(rungs, 8, [EnvHandle, ErrorHandle, ServerHandle, ServiceContext, UserSession], [EnvHandle, ErrorHandle, ServerHandle, ServiceContext, UserSession]);
    assert [EnvHandle, ErrorHandle, ServerHandle, ServiceContext, UserSession] + YieldOf(rungs[7].call) == [EnvHandle, ErrorHandle, ServerHandle, ServiceContext, UserSession];
    assert FreeListsUnwind(rungs, 7, [EnvHandle, ErrorHandle, ServerHandle, ServiceContext, UserSession], [EnvHandle, ErrorHandle, ServerHandle, ServiceContext, UserSession]);
    assert [EnvHandle, ErrorHandle, ServerHandle, ServiceContext] + YieldOf(rungs[6].call) == [EnvHandle, ErrorHandle, ServerHandle, ServiceContext, UserSession];
    assert FreeListsUnwind(rungs, 6, [EnvHandle, ErrorHandle, ServerHandle, ServiceContext], [EnvHandle, ErrorHandle, ServerHandle, ServiceContext, UserSession]);
  }

  /** The free lists of the session ladder with a username and password, checked rung by rung. */
  lemma SessionRdbmsFreeLists(d: Dsn)
    requires !d.externalAuthentication
    ensures FreeListsUnwind(SessionRungs(d), 0, [], [EnvHandle, ErrorHandle, ServerHandle, ServiceContext, UserSession])
  {
    var rungs := SessionRungs(d);
    SessionRdbmsTailFreeLists(d);
    assert [EnvHandle, ErrorHandle, ServerHandle, ServiceContext] + YieldOf(rungs[5].call) == [EnvHandle, ErrorHandle, ServerHandle, ServiceContext];
    assert FreeListsUnwind(rungs, 5, [EnvHandle, ErrorHandle, ServerHandle, ServiceContext], [EnvHandle, ErrorHandle, ServerHandle, ServiceContext, UserSession]);
    assert [EnvHandle, ErrorHandle, ServerHandle] + YieldOf(rungs[4].call) == [EnvHandle, ErrorHandle, ServerHandle, ServiceContext];
    assert FreeListsUnwind(rungs, 4, [EnvHandle, ErrorHandle, ServerHandle], [EnvHandle, ErrorHandle, ServerHandle, ServiceContext, UserSession]);
    assert [EnvHandle, ErrorHandle, ServerHandle] + YieldOf(rungs[3].call) == [EnvHandle, ErrorHandle, ServerHandle];
    assert FreeListsUnwind(rungs, 3, [EnvHandle, ErrorHandle, ServerHandle], [EnvHandle, ErrorHandle, ServerHandle, ServiceContext, UserSession]);
    assert [EnvHandle, ErrorHandle] + YieldOf(rungs[2].call) == [EnvHandle, ErrorHandle, ServerHandle];
    assert FreeListsUnwind(rungs, 2, [EnvHandle, ErrorHandle], [EnvHandle, ErrorHandle, ServerHandle, ServiceContext, UserSession]);
    assert [EnvHandle] + YieldOf(rungs[1].call) == [EnvHandle, ErrorHandle];
    assert FreeListsUnwind(rungs, 1, [EnvHandle], [EnvHandle, ErrorHandle, ServerHandle, ServiceContext, UserSession]);
    assert [] + YieldOf(rungs[0].call) == [EnvHandle];
    assert FreeListsUnwind(rungs, 0, [], [EnvHandle, ErrorHandle, ServerHandle, ServiceContext, UserSession]);
  }

  /** A table that satisfies `FreeListsUnwind` and whose final stack has no
      repeated handle unwinds in reverse and completes holding that stack. */
  lemma TableUnwinds(rungs: seq<Rung>, final: seq<HandleKind>)
    requires FreeListsUnwind(rungs, 0, [], final)
    requires NoDuplicates(final)
    ensures UnwindsInReverse(rungs)
    ensures Yielded(Plan(rungs)) == final
  {
    var plan := Plan(rungs);
    FinalStack(rungs, 0, [], final);
    YieldedFromSuffix(plan, 0);
    assert plan[0..] == plan;
    assert [] + YieldedFrom(plan, 0) == YieldedFrom(plan, 0);
    forall i | 0 <= i < |rungs| && Checked(rungs[i].call)
      ensures rungs[i].onReject == Reverse(Yielded(plan[..i]))
    {
      FreeListAt(rungs, 0, [], final, i);
      YieldedFromSuffix(plan[..i], 0);
      assert plan[..i][0..] == plan[..i];
      assert [] + Yielded(plan[..i]) == Yielded(plan[..i]);
    }
  }

  /** Both ladders of the source unwind in reverse, and a completed ladder holds
      exactly the handles the connection keeps. */
  lemma LadderUnwindsInReverse(d: Dsn, useSessionBegin: bool)
    ensures UnwindsInReverse(Ladder(d, useSessionBegin))
    ensures Yielded(Plan(Ladder(d, useSessionBegin))) == HeldOnSuccess(useSessionBegin)
  {
    if !useSessionBegin {
      LogonFreeLists(d);
    } else if d.externalAuthentication {
      SessionExtFreeLists(d);
    } else {
      SessionRdbmsFreeLists(d);
    }
    assert NoDuplicates(HeldOnSuccess(useSessionBegin));
    TableUnwinds(Ladder(d, useSessionBegin), HeldOnSuccess(useSessionBegin));
  }

  /** In the session ladder, the username and password attributes are set and
      the session begins with database credentials exactly when authentication
      is not external; otherwise the server is attached without a connect
      string and the session begins with external credentials. */
  lemma SessionPlanShape(d: Dsn)
    ensures AttrSet(UserSession, AttrUsername(d.username)) in Plan(SessionRungs(d)) <==> !d.externalAuthentication
    ensures AttrSet(UserSession, AttrPassword(d.password)) in Plan(SessionRungs(d)) <==> !d.externalAuthentication
    ensures SessionBegin(CredRdbms, d.operationMode) in Plan(SessionRungs(d)) <==> !d.externalAuthentication
    ensures SessionBegin(CredExt, d.operationMode) in Plan(SessionRungs(d)) <==> d.externalAuthentication
    ensures ServerAttach(None) in Plan(SessionRungs(d)) <==> d.externalAuthentication
  {
    if d.externalAuthentication {
      SessionExtShape(d);
    } else {
      SessionRdbmsShape(d);
    }
  }

  lemma SessionExtShape(d: Dsn)
    requires d.externalAuthentication
    ensures AttrSet(UserSession, AttrUsername(d.username)) !in Plan(SessionRungs(d))
    ensures AttrSet(UserSession, AttrPassword(d.password)) !in Plan(SessionRungs(d))
    ensures SessionBegin(CredRdbms, d.operationMode) !in Plan(SessionRungs(d))
    ensures SessionBegin(CredExt, d.operationMode) in Plan(SessionRungs(d))
    ensures ServerAttach(None) in Plan(SessionRungs(d))
  {
    var plan := Plan(SessionRungs(d));
    SessionExtPlan(d);
    assert plan[3] == ServerAttach(None) && plan[7] == SessionBegin(CredExt, d.operationMode);
    forall c | c in plan
      ensures !c.SessionBegin? || c.cred == CredExt
      ensures !c.AttrSet? || c.target == ServiceContext
    {
    }
  }

  lemma SessionRdbmsShape(d: Dsn)
    requires !d.externalAuthentication
    ensures AttrSet(UserSession, AttrUsername(d.username)) in Plan(SessionRungs(d))
    ensures AttrSet(UserSession, AttrPassword(d.password)) in Plan(SessionRungs(d))
    ensures SessionBegin(CredRdbms, d.operationMode) in Plan(SessionRungs(d))
    ensures SessionBegin(CredExt, d.operationMode) !in Plan(SessionRungs(d))
    ensures ServerAttach(None) !in Plan(SessionRungs(d))
  {
    var plan := Plan(SessionRungs(d));
    SessionRdbmsPlan(d);
    assert plan[7] == AttrSet(UserSession, AttrUsername(d.username));
    assert plan[8] == AttrSet(UserSession, AttrPassword(d.password));
    assert plan[9] == SessionBegin(CredRdbms, d.operationMode);
    forall c | c in plan
      ensures !c.SessionBegin? || c.cred == CredRdbms
      ensures !c.ServerAttach? || c.host.Some?
    {
    }
  }

  lemma SessionExtPlan(d: Dsn)
    requires d.externalAuthentication
    ensures Plan(SessionRungs(d)) == [EnvCreate, HandleAlloc(ErrorHandle), HandleAlloc(ServerHandle), ServerAttach(None), HandleAlloc(ServiceContext), AttrSet(ServiceContext, AttrServer), HandleAlloc(UserSession), SessionBegin(CredExt, d.operationMode), AttrSet(ServiceContext, AttrSession)]
  {
  }

  lemma SessionRdbmsPlan(d: Dsn)
    requires !d.externalAuthentication
    ensures Plan(SessionRungs(d)) == [EnvCreate, HandleAlloc(ErrorHandle), HandleAlloc(ServerHandle), ServerAttach(Some(d.connect)), HandleAlloc(ServiceContext), AttrSet(ServiceContext, AttrServer), HandleAlloc(UserSession), AttrSet(UserSession, AttrUsername(d.username)), AttrSet(UserSession, AttrPassword(d.password)), SessionBegin(CredRdbms, d.operationMode), AttrSet(ServiceContext, AttrSession)]
  {
  }

  method Climb(rungs: seq<Rung>, status: NativeCall -> Sword) returns (failedAt: Option<nat>, t: seq<Event>)
    ensures FreesLast(t)
    ensures failedAt.None? ==>
      && Calls(t) == Plan(rungs) && AllAccepted(Plan(rungs), status)
      && Released(t) == [] && Acquired(t, status) == Yielded(Plan(rungs))
    ensures failedAt.Some? ==>
      var i := failedAt.value;
      && i < |rungs|
      && Calls(t) == Plan(rungs)[..i + 1] && AllAccepted(Plan(rungs)[..i], status)
      && !Accepted(rungs[i].call, status(rungs[i].call))
      && Acquired(t, status) == Yielded(Plan(rungs)[..i])
      && Released(t) == rungs[i].onReject
  {
    var plan := Plan(rungs);
    t := [];
    var i := 0;
    while i < |rungs|
      invariant 0 <= i <= |rungs|
      invariant Calls(t) == plan[..i] && AllAccepted(plan[..i], status)
      invariant Acquired(t, status) == Yielded(plan[..i])
      invariant Released(t) == [] && FreesLast(t)
    {
      var rung := rungs[i];
      var rv, t' := Issue(t, rung.call, status);
      ClimbStep(plan, i, t, t', status);
      t := t';
      if !Accepted(rung.call, rv) {
        t := ReleaseAll(t, rung.onReject, status);
        failedAt := Some(i);
        return;
      }
      i := i + 1;
    }
    assert plan[..i] == plan;
    failedAt := None;
  }

  /** One call of the plan issued: the calls so far grow by that call, and when
      it is accepted so do the accepted prefix and the handles held. */
  lemma ClimbStep(plan: seq<NativeCall>, i: nat, t: seq<Event>, t': seq<Event>, status: NativeCall -> Sword)
    requires i < |plan|
    requires Calls(t) == plan[..i] && AllAccepted(plan[..i], status)
    requires Acquired(t, status) == Yielded(plan[..i])
    requires Calls(t') == Calls(t) + [plan[i]]
    requires Acquired(t', status) == Acquired(t, status) +
      (if Accepted(plan[i], status(plan[i])) && Yields(plan[i]).Some? then [Yields(plan[i]).value] else [])
    ensures Calls(t') == plan[..i + 1]
    ensures Accepted(plan[i], status(plan[i])) ==>
      AllAccepted(plan[..i + 1], status) && Acquired(t', status) == Yielded(plan[..i + 1])
    ensures !Accepted(plan[i], status(plan[i])) ==> Acquired(t', status) == Yielded(plan[..i])
  {
    assert plan[..i + 1] == plan[..i] + [plan[i]];
    YieldedStep(plan, i);
  }

  /** A rejected rung leaves a failure exit once its free list has run. */
  lemma {:induction false} RejectedRungUnwinds(rungs: seq<Rung>, i: nat, t: seq<Event>, status: NativeCall -> Sword)
    requires UnwindsInReverse(rungs) && i < |rungs|
    requires Calls(t) == Plan(rungs)[..i + 1] && AllAccepted(Plan(rungs)[..i], status)
    requires !Accepted(rungs[i].call, status(rungs[i].call))
    requires Acquired(t, status) == Yielded(Plan(rungs)[..i])
    requires Released(t) == rungs[i].onReject && FreesLast(t)
    ensures Unwound(Plan(rungs), status, t)
    ensures Calls(t)[|Calls(t)| - 1] == rungs[i].call
  {
    var plan := Plan(rungs);
    StopsAtRejected(plan, i, Calls(t), status);
    assert Checked(rungs[i].call);
    PrefixDistinct(Yielded(plan), Yielded(plan[..i]), plan, i);
  }

  /** The calls up to and including the first rejected one are a prefix of the
      plan that ends in a rejection. */
  lemma StopsAtRejected(plan: seq<NativeCall>, i: nat, cs: seq<NativeCall>, status: NativeCall -> Sword)
    requires i < |plan| && cs == plan[..i + 1]
    requires AllAccepted(plan[..i], status) && !Accepted(plan[i], status(plan[i]))
    ensures cs <= plan && RejectedLast(cs, status) && cs[|cs| - 1] == plan[i]
  {
    assert cs[..|cs| - 1] == plan[..i];
  }

  /** The handles of a prefix of the plan are a prefix of its handles, hence distinct. */
  lemma PrefixDistinct(all: seq<HandleKind>, some: seq<HandleKind>, plan: seq<NativeCall>, i: nat)
    requires i <= |plan| && all == Yielded(plan) && some == Yielded(plan[..i])
    requires NoDuplicates(all)
    ensures NoDuplicates(some)
  {
    YieldedPrefix(plan, i);
  }

  lemma YieldedPrefix(plan: seq<NativeCall>, i: nat)
    requires i <= |plan|
    ensures Yielded(plan[..i]) <= Yielded(plan)
  {
    assert plan == plan[..i] + plan[i..];
    YieldedAppend(plan[..i], plan[i..]);
  }

  /** A climb of either ladder that stopped at rung `i` is a failure exit; when
      it was environment creation that was rejected, nothing was freed. */
  lemma FailedClimbExit(d: Dsn, useSessionBegin: bool, i: nat, t: seq<Event>, status: NativeCall -> Sword)
    requires i < |Ladder(d, useSessionBegin)|
    requires Calls(t) == Plan(Ladder(d, useSessionBegin))[..i + 1]
    requires AllAccepted(Plan(Ladder(d, useSessionBegin))[..i], status)
    requires !Accepted(Ladder(d, useSessionBegin)[i].call, status(Ladder(d, useSessionBegin)[i].call))
    requires Acquired(t, status) == Yielded(Plan(Ladder(d, useSessionBegin))[..i])
    requires Released(t) == Ladder(d, useSessionBegin)[i].onReject && FreesLast(t)
    ensures Unwound(Plan(Ladder(d, useSessionBegin)), status, t)
    ensures !AllAccepted(Plan(Ladder(d, useSessionBegin)), status)
    ensures Calls(t)[|Calls(t)| - 1] == Ladder(d, useSessionBegin)[i].call
    ensures !Accepted(EnvCreate, status(EnvCreate)) ==>
      Ladder(d, useSessionBegin)[i].call == EnvCreate && Calls(t) == [EnvCreate] && Released(t) == []
  {
    var rungs := Ladder(d, useSessionBegin);
    LadderUnwindsInReverse(d, useSessionBegin);
    RejectedRungUnwinds(rungs, i, t, status);
    UnwoundIsRejection(Plan(rungs), status, t);
    assert Plan(rungs)[0] == EnvCreate;
    if !Accepted(EnvCreate, status(EnvCreate)) {
      assert i == 0;
    }
  }

  /** A climb of either ladder that ran to the end holds exactly the handles the
      connection keeps. */
  lemma CompletedClimbExit(d: Dsn, useSessionBegin: bool, t: seq<Event>, status: NativeCall -> Sword)
    requires Calls(t) == Plan(Ladder(d, useSessionBegin))
    requires AllAccepted(Plan(Ladder(d, useSessionBegin)), status)
    requires Released(t) == [] && Acquired(t, status) == Yielded(Plan(Ladder(d, useSessionBegin)))
    ensures Completed(Plan(Ladder(d, useSessionBegin)), HeldOnSuccess(useSessionBegin), status, t)
    ensures Accepted(EnvCreate, status(EnvCreate))
  {
    LadderUnwindsInReverse(d, useSessionBegin);
    assert Plan(Ladder(d, useSessionBegin))[0] == EnvCreate;
  }

  /** Open. `useSessionBegin` is the file-level protocol switch; `status` gives
      the outcome of every native call; `t` is the trace of calls and frees issued. */
  method Open(dsnString: string, h: UrlHelpers, useSessionBegin: bool, status: NativeCall -> Sword)
    returns (r: Result<Conn, DriverError>, t: seq<Event>)
    ensures ParseDsnSpec(dsnString, h).None? ==>
      t == [] && r.Failure? && r.error.ParseFailed? && r.error.cause in ParseErrors(dsnString, h)
    ensures ParseDsnSpec(dsnString, h).Some? ==>
      var d := ParseDsnSpec(dsnString, h).value;
      var plan := Plan(Ladder(d, useSessionBegin));
      && (r.Success? <==> AllAccepted(plan, status))
      && (r.Success? ==>
            && Completed(plan, HeldOnSuccess(useSessionBegin), status, t)
            && r.value.held == HeldOnSuccess(useSessionBegin)
            && r.value.location == d.location && r.value.transactionMode == d.transactionMode
            && r.value.prefetchRows == d.prefetchRows && r.value.prefetchMemory == d.prefetchMemory
            && r.value.enableQMPlaceholders == d.enableQMPlaceholders
            && r.value.operationMode == d.operationMode && !r.value.inTransaction)
      && (r.Failure? ==>
            && Unwound(plan, status, t)
            && r.error == Report(Calls(t)[|Calls(t)| - 1], status(Calls(t)[|Calls(t)| - 1])))
      && (!Accepted(EnvCreate, status(EnvCreate)) ==>
            r == Failure(CannotCreateEnv) && Calls(t) == [EnvCreate] && Released(t) == [])
  {
    t := [];
    var parsed := ParseDSN(dsnString, h);
    if parsed.Failure? {
      r := Failure(ParseFailed(parsed.error));
      return;
    }
    var dsn := parsed.value;
    var rungs := Ladder(dsn, useSessionBegin);
    var failedAt;
    failedAt, t := Climb(rungs, status);
    if failedAt.Some? {
      var i := failedAt.value;
      FailedClimbExit(dsn, useSessionBegin, i, t, status);
      r := Failure(Report(rungs[i].call, status(rungs[i].call)));
    } else {
      CompletedClimbExit(dsn, useSessionBegin, t, status);
      r := Success(Connected(dsn, HeldOnSuccess(useSessionBegin)));
    }
  }
}
