/** The native call-level interface as the driver sees it: calls that return a
    status word, handles they hand over, and the trace of calls and frees one
    operation issues. The outcome of each call is an oracle supplied by the caller. */
module Native {
  import opened Wrappers
  import opened DsnParser

  /** OCI's `sword` status. */
  type Sword = int

  const OciSuccess: Sword := 0
  const OciSuccessWithInfo: Sword := 1

  datatype HandleKind = EnvHandle | ErrorHandle | ServerHandle | ServiceContext | UserSession

  datatype Attribute = AttrServer | AttrSession | AttrUsername(name: string) | AttrPassword(password: string)

  datatype Credential = CredRdbms | CredExt

  datatype NativeCall =
    | EnvCreate
    | HandleAlloc(kind: HandleKind)
    | ServerAttach(host: Option<string>)
    | AttrSet(target: HandleKind, attr: Attribute)
    | SessionBegin(cred: Credential, mode: OperationMode)
    | Logon(username: string, password: string, connect: string)
    | TransCommit
    | TransRollback

  /** One step of a trace: a native call issued, or a handle freed. */
  datatype Event = Called(call: NativeCall) | Freed(kind: HandleKind)

  /** The status tests the driver applies: environment creation and logon accept
      success with or without info, server attach and session begin are not
      tested at all, every other call must return plain success. */
  function Accepted(c: NativeCall, rv: Sword): (ok: bool)
    ensures rv == OciSuccess ==> ok
    ensures (c.EnvCreate? || c.Logon?) && rv == OciSuccessWithInfo ==> ok
    ensures !Checked(c) ==> ok
    ensures ok && Checked(c) ==> rv == OciSuccess || ((c.EnvCreate? || c.Logon?) && rv == OciSuccessWithInfo)
  {
    if c.EnvCreate? || c.Logon? then rv == OciSuccess || rv == OciSuccessWithInfo
    else if !Checked(c) then true
    else rv == OciSuccess
  }

  /** The handle a call hands over when it succeeds. */
  function Yields(c: NativeCall): Option<HandleKind> {
    match c
    case EnvCreate => Some(EnvHandle)
    case HandleAlloc(kind) => Some(kind)
    case Logon(_, _, _) => Some(ServiceContext)
    case _ => None
  }

  /** The calls of a trace, in order. */
  function Calls(t: seq<Event>): (cs: seq<NativeCall>)
    ensures |cs| <= |t|
  {
    if t == [] then []
    else Calls(t[..|t| - 1]) + (if t[|t| - 1].Called? then [t[|t| - 1].call] else [])
  }

  /** The handles a trace acquired, in order of acquisition. */
  function Acquired(t: seq<Event>, status: NativeCall -> Sword): seq<HandleKind> {
    if t == [] then []
    else
      var e := t[|t| - 1];
      Acquired(t[..|t| - 1], status)
        + (if e.Called? && Accepted(e.call, status(e.call)) && Yields(e.call).Some? then [Yields(e.call).value] else [])
  }

  /** The handles a trace freed, in order of release. */
  function Released(t: seq<Event>): seq<HandleKind> {
    if t == [] then []
    else Released(t[..|t| - 1]) + (if t[|t| - 1].Freed? then [t[|t| - 1].kind] else [])
  }

  function Reverse<T>(s: seq<T>): (r: seq<T>)
    ensures |r| == |s|
    ensures forall i :: 0 <= i < |s| ==> r[i] == s[|s| - 1 - i]
  {
    seq(|s|, i requires 0 <= i < |s| => s[|s| - 1 - i])
  }

  predicate NoDuplicates<T(==)>(s: seq<T>) {
    forall i, j :: 0 <= i < j < |s| ==> s[i] != s[j]
  }

  /** No call is issued once the first handle has been freed. */
  predicate FreesLast(t: seq<Event>) {
    forall i, j :: 0 <= i < j < |t| && t[i].Freed? ==> t[j].Freed?
  }

  /** Whether a call's status is tested at all. */
  predicate Checked(c: NativeCall) {
    !c.ServerAttach? && !c.SessionBegin?
  }

  predicate AllAccepted(cs: seq<NativeCall>, status: NativeCall -> Sword) {
    forall i :: 0 <= i < |cs| ==> Accepted(cs[i], status(cs[i]))
  }

  /** The last call was rejected and every call before it accepted. */
  predicate RejectedLast(cs: seq<NativeCall>, status: NativeCall -> Sword) {
    && |cs| > 0
    && AllAccepted(cs[..|cs| - 1], status)
    && !Accepted(cs[|cs| - 1], status(cs[|cs| - 1]))
  }

  /** Issue one native call: append it to the trace and return its status. */
  method Issue(t: seq<Event>, c: NativeCall, status: NativeCall -> Sword) returns (rv: Sword, t': seq<Event>)
    ensures rv == status(c)
    ensures Calls(t') == Calls(t) + [c]
    ensures Released(t') == Released(t)
    ensures Acquired(t', status) == Acquired(t, status) + (if Accepted(c, rv) && Yields(c).Some? then [Yields(c).value] else [])
    ensures Released(t) == [] && FreesLast(t) ==> FreesLast(t')
  {
    rv := status(c);
    t' := t + [Called(c)];
    assert t'[..|t'| - 1] == t;
    if Released(t) == [] && FreesLast(t) {
      NothingFreed(t);
    }
  }

  /** `OCIHandleFree`: append the release of one handle to the trace. */
  function Free(t: seq<Event>, kind: HandleKind, status: NativeCall -> Sword): (t': seq<Event>)
    ensures Calls(t') == Calls(t)
    ensures Released(t') == Released(t) + [kind]
    ensures Acquired(t', status) == Acquired(t, status)
    ensures FreesLast(t) ==> FreesLast(t')
  {
    var t' := t + [Freed(kind)];
    assert t'[..|t'| - 1] == t;
    t'
  }

  /** A trace that freed nothing holds only calls. */
  lemma {:induction false} NothingFreed(t: seq<Event>)
    requires Released(t) == []
    ensures forall i :: 0 <= i < |t| ==> t[i].Called?
  {
    if t != [] {
      NothingFreed(t[..|t| - 1]);
    }
  }

  /** The handle a successful call hands over, as a list of zero or one. */
  function YieldOf(c: NativeCall): seq<HandleKind> {
    if Yields(c).Some? then [Yields(c).value] else []
  }

  /** The handles a run of calls hands over when every one of them succeeds. */
  function Yielded(cs: seq<NativeCall>): seq<HandleKind> {
    if cs == [] then [] else YieldOf(cs[0]) + Yielded(cs[1..])
  }

  lemma {:induction false} YieldedAppend(a: seq<NativeCall>, b: seq<NativeCall>)
    ensures Yielded(a + b) == Yielded(a) + Yielded(b)
  {
    if a == [] {
      assert a + b == b;
    } else {
      assert (a + b)[0] == a[0];
      assert (a + b)[1..] == a[1..] + b;
      YieldedAppend(a[1..], b);
    }
  }

  /** `Yielded` of the calls from index `k` on, walking the indices. */
  function YieldedFrom(cs: seq<NativeCall>, k: nat): seq<HandleKind>
    decreases |cs| - k
  {
    if k >= |cs| then [] else YieldOf(cs[k]) + YieldedFrom(cs, k + 1)
  }

  lemma YieldedFromStep(cs: seq<NativeCall>, k: nat)
    requires k < |cs|
    ensures YieldedFrom(cs, k) == YieldOf(cs[k]) + YieldedFrom(cs, k + 1)
  {
  }

  lemma {:induction false} YieldedFromSuffix(cs: seq<NativeCall>, k: nat)
    requires k <= |cs|
    ensures YieldedFrom(cs, k) == Yielded(cs[k..])
    decreases |cs| - k
  {
    if k < |cs| {
      assert cs[k..][0] == cs[k];
      assert cs[k..][1..] == cs[k + 1..];
      YieldedFromSuffix(cs, k + 1);
    }
  }

  /** One more call of a plan adds its own handle, if any. */
  lemma YieldedStep(cs: seq<NativeCall>, k: nat)
    requires k < |cs|
    ensures Yielded(cs[..k + 1]) == Yielded(cs[..k]) + YieldOf(cs[k])
  {
    assert cs[..k + 1] == cs[..k] + [cs[k]];
    YieldedAppend(cs[..k], [cs[k]]);
  }

  /** Free `hs` in the order given. */
  function ReleaseAll(t: seq<Event>, hs: seq<HandleKind>, status: NativeCall -> Sword): (t': seq<Event>)
    ensures Calls(t') == Calls(t)
    ensures Released(t') == Released(t) + hs
    ensures Acquired(t', status) == Acquired(t, status)
    ensures FreesLast(t) ==> FreesLast(t')
    decreases |hs|
  {
    if hs == [] then t else ReleaseAll(Free(t, hs[0], status), hs[1..], status)
  }

  /** Statuses of the calls the source never tests cannot change whether a
      sequence of calls is accepted. */
  lemma UncheckedStatusIgnored(cs: seq<NativeCall>, s1: NativeCall -> Sword, s2: NativeCall -> Sword)
    requires forall c :: Checked(c) ==> s1(c) == s2(c)
    ensures AllAccepted(cs, s1) <==> AllAccepted(cs, s2)
  {
  }
}
