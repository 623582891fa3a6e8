/** `OCI8Tx.Commit` and `OCI8Tx.Rollback`: the connection leaves its
    transaction before the native call is made, so the flag is cleared
    whatever that call returns; the call's status only decides the error. */
module Transaction {
  import opened Wrappers
  import opened Native
  import opened Driver

  /** The connection afterwards, the error returned (if any) and the trace of
      native calls made. */
  datatype TxOutcome = TxOutcome(conn: Conn, err: Option<DriverError>, trace: seq<Event>)

  /** The shared shape of both operations: clear the flag, issue `call`, report
      any status other than plain success through the connection's error handle. */
  function EndTransaction(conn: Conn, call: NativeCall, status: NativeCall -> Sword): TxOutcome {
    var rv := status(call);
    TxOutcome(conn.(inTransaction := false),
              if rv != OciSuccess then Some(NativeError(rv)) else None,
              [Called(call)])
  }

  function Commit(conn: Conn, status: NativeCall -> Sword): (r: TxOutcome)
    ensures !r.conn.inTransaction
    ensures r.conn.held == conn.held && r.conn.location == conn.location
    ensures r.conn.transactionMode == conn.transactionMode
    ensures r.conn.prefetchRows == conn.prefetchRows && r.conn.prefetchMemory == conn.prefetchMemory
    ensures r.conn.enableQMPlaceholders == conn.enableQMPlaceholders
    ensures r.conn.operationMode == conn.operationMode
    ensures r.err.Some? <==> status(TransCommit) != OciSuccess
    ensures r.err.Some? ==> r.err.value == NativeError(status(TransCommit))
    ensures Calls(r.trace) == [TransCommit] && Released(r.trace) == []
  {
    EndTransaction(conn, TransCommit, status)
  }

  function Rollback(conn: Conn, status: NativeCall -> Sword): (r: TxOutcome)
    ensures !r.conn.inTransaction
    ensures r.conn.held == conn.held && r.conn.location == conn.location
    ensures r.conn.transactionMode == conn.transactionMode
    ensures r.conn.prefetchRows == conn.prefetchRows && r.conn.prefetchMemory == conn.prefetchMemory
    ensures r.conn.enableQMPlaceholders == conn.enableQMPlaceholders
    ensures r.conn.operationMode == conn.operationMode
    ensures r.err.Some? <==> status(TransRollback) != OciSuccess
    ensures r.err.Some? ==> r.err.value == NativeError(status(TransRollback))
    ensures Calls(r.trace) == [TransRollback] && Released(r.trace) == []
  {
    EndTransaction(conn, TransRollback, status)
  }

  /** Committing and rolling back leave the same connection behind, and which
      status the server answers with does not change it either. */
  lemma EndStateIndependent(conn: Conn, s1: NativeCall -> Sword, s2: NativeCall -> Sword)
    ensures Commit(conn, s1).conn == Rollback(conn, s2).conn
    ensures Commit(conn, s1).conn == conn.(inTransaction := false)
  {
  }

  /** Ending a transaction twice leaves the connection as ending it once. */
  lemma EndIdempotent(conn: Conn, s1: NativeCall -> Sword, s2: NativeCall -> Sword)
    ensures Commit(Commit(conn, s1).conn, s2).conn == Commit(conn, s1).conn
    ensures Rollback(Rollback(conn, s1).conn, s2).conn == Rollback(conn, s1).conn
  {
  }

  /** A success with information is still reported as an error by both. */
  lemma SuccessWithInfoIsError(conn: Conn, status: NativeCall -> Sword)
    requires status(TransCommit) == OciSuccessWithInfo && status(TransRollback) == OciSuccessWithInfo
    ensures Commit(conn, status).err == Some(NativeError(OciSuccessWithInfo))
    ensures Rollback(conn, status).err == Some(NativeError(OciSuccessWithInfo))
  {
  }
}
