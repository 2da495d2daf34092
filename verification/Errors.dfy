/** The error tree of src/error.rs and the rules that decide whether a failed
    request may have taken effect.  Message texts, request identities and the
    wrapped source of a transport failure carry no decision and are dropped. */
module Errors {

  datatype Option<+T> = None | Some(value: T)

  datatype Result<+T> = Ok(value: T) | Err(error: NfsError)

  datatype Disposition = DefiniteFailure | SafeToRetry | Uncertain

  datatype OperationClass = ReadOnly | SessionControl | ReplaySensitive

  datatype RecoveryAction = Retry | Reopen | Remount | VerifyThenResume | DoNotRetry

  datatype Transmission = NotSent | Sent

  datatype Protocol = NFSv3 | NFSv4 | NFSv4p1 | Unknown

  datatype Context = Context(operation: string, protocol: Protocol)

  const NFS3ERR_JUKEBOX: nat := 10008
  const NFS4ERR_DELAY: nat := 10008
  const NFS4ERR_GRACE: nat := 10013

  datatype NfsError =
    | ServerBusy(context: Context, source: NfsError)
    | Io(transport: Option<Transmission>)
    | Nfs3(status: nat)
    | Nfs4(status: nat)
    | LockDenied
    | MountStatus(status: nat)
    | Rpc(message: string)
    | Xdr(message: string)
    | Unsupported(message: string)
    | InvalidInput(message: string)
    | ClosedResource(message: string)
    | ModeViolation(message: string)
    | ClientClosed(message: string)
    | PositionUncertain(message: string)
    | LostOpenState(message: string)
    | FileClose(failures: seq<NfsError>)
    | RdattrError(status: nat)
    | OperationOutcome(outcome: Disposition, kind: OperationClass, transmission: Transmission,
                       recovery: RecoveryAction, completedBytes: Option<nat>,
                       context: Context, source: NfsError)

  /** `operation_outcome`: only the surface of the error is inspected. */
  function SurfaceOutcome(e: NfsError): Option<NfsError>
    ensures SurfaceOutcome(e).Some? ==> SurfaceOutcome(e).value.OperationOutcome?
  {
    match e
    case OperationOutcome(_, _, _, _, _, _, _) => Some(e)
    case FileClose(failures) => FirstOutcome(failures)
    case _ => None
  }

  function FirstOutcome(failures: seq<NfsError>): Option<NfsError>
    ensures FirstOutcome(failures).Some? ==> FirstOutcome(failures).value.OperationOutcome?
  {
    if failures == [] then None
    else
      var head := SurfaceOutcome(failures[0]);
      if head.Some? then head else FirstOutcome(failures[1..])
  }

  /** The test the write engine applies to a chunk error. */
  predicate SurfaceUncertain(e: NfsError) {
    var outcome := SurfaceOutcome(e);
    outcome.Some? && outcome.value.outcome == Uncertain
  }

  predicate ContainsUncertain(e: NfsError) {
    match e
    case OperationOutcome(outcome, _, _, _, _, _, source) => outcome == Uncertain || ContainsUncertain(source)
    case FileClose(failures) => exists f <- failures :: ContainsUncertain(f)
    case ServerBusy(_, source) => ContainsUncertain(source)
    case _ => false
  }

  predicate BusyStatus(e: NfsError) {
    match e
    case ServerBusy(_, _) => true
    case Nfs3(status) => status == NFS3ERR_JUKEBOX
    case Nfs4(status) => status == NFS4ERR_DELAY || status == NFS4ERR_GRACE
    case _ => false
  }

  predicate IsServerBusy(e: NfsError) {
    if ContainsUncertain(e) then false
    else match e
      case OperationOutcome(outcome, _, _, _, _, _, source) => outcome != Uncertain && IsServerBusy(source)
      case FileClose(failures) => !ContainsUncertain(e) && exists f <- failures :: IsServerBusy(f)
      case _ => BusyStatus(e)
  }

  /** Every node of an error tree: the reference the recursive walks are checked against. */
  ghost function Nodes(e: NfsError): set<NfsError> {
    match e
    case OperationOutcome(_, _, _, _, _, _, source) => {e} + Nodes(source)
    case ServerBusy(_, source) => {e} + Nodes(source)
    case FileClose(failures) => {e} + (set f, n | f in failures && n in Nodes(f) :: n)
    case _ => {e}
  }

  ghost predicate UncertainNode(n: NfsError) {
    n.OperationOutcome? && n.outcome == Uncertain
  }

  lemma {:induction false} ContainsUncertainIsSomeNode(e: NfsError)
    ensures ContainsUncertain(e) <==> exists n <- Nodes(e) :: UncertainNode(n)
  {
    match e
    case OperationOutcome(_, _, _, _, _, _, source) =>
      ContainsUncertainIsSomeNode(source);
      assert UncertainNode(e) ==> e in Nodes(e);
      assert forall n <- Nodes(e) :: n == e || n in Nodes(source);
    case ServerBusy(_, source) => ContainsUncertainIsSomeNode(source);
    case FileClose(failures) =>
      forall f | f in failures
        ensures ContainsUncertain(f) <==> exists n <- Nodes(f) :: UncertainNode(n)
      {
        ContainsUncertainIsSomeNode(f);
      }
      if f :| f in failures && ContainsUncertain(f) {
        var n :| n in Nodes(f) && UncertainNode(n);
        assert n in Nodes(e);
      }
      if n :| n in Nodes(e) && UncertainNode(n) {
        var f :| f in failures && n in Nodes(f);
      }
    case _ =>
  }

  /** A temporary rejection: NFS3ERR_JUKEBOX (section 2.6 of RFC 1813), NFS4ERR_DELAY or
      NFS4ERR_GRACE (section 15.1 of RFC 5661), or a budget spent on one. */
  ghost predicate RejectedForNow(n: NfsError) {
    n == Nfs3(10008) || n == Nfs4(10008) || n == Nfs4(10013) || n.ServerBusy?
  }

  /** An error counts as backpressure exactly when some node is a temporary
      rejection and no node anywhere is an uncertain mutation. */
  lemma {:induction false} ServerBusyExactly(e: NfsError)
    ensures IsServerBusy(e) <==>
      (exists n <- Nodes(e) :: RejectedForNow(n)) && !(exists n <- Nodes(e) :: UncertainNode(n))
  {
    ContainsUncertainIsSomeNode(e);
    assert e in Nodes(e);
    assert RejectedForNow(e) <==> BusyStatus(e);
    match e
    case OperationOutcome(_, _, _, _, _, _, source) => ServerBusyExactly(source);
    case FileClose(failures) =>
      forall f | f in failures
        ensures IsServerBusy(f) <==>
          (exists n <- Nodes(f) :: RejectedForNow(n)) && !(exists n <- Nodes(f) :: UncertainNode(n))
        ensures Nodes(f) <= Nodes(e)
      {
        ServerBusyExactly(f);
      }
      if n :| n in Nodes(e) && RejectedForNow(n) {
        var f :| f in failures && n in Nodes(f);
      }
    case _ =>
  }

  function RequestTransmission(e: NfsError): Option<Transmission> {
    match e
    case Io(transport) => transport
    case OperationOutcome(_, _, transmission, _, _, _, _) => Some(transmission)
    case _ => None
  }

  function BeforeSendFailure(kind: OperationClass, context: Context, source: NfsError): NfsError {
    OperationOutcome(DefiniteFailure, kind, NotSent, Retry, None, context, source)
  }

  /** `classify_non_authoritative_error`. */
  function Classify(kind: OperationClass, context: Context, source: NfsError, replayError: bool): NfsError {
    if RequestTransmission(source) == Some(NotSent) then BeforeSendFailure(kind, context, source)
    else if !(replayError || RequestTransmission(source) == Some(Sent)
              || source.Io? || source.Rpc? || source.Xdr?) then source
    else
      var (outcome, recovery) := match kind
        case ReadOnly => (SafeToRetry, Retry)
        case SessionControl => (Uncertain, Remount)
        case ReplaySensitive => (Uncertain, VerifyThenResume);
      OperationOutcome(outcome, kind, Sent, recovery, None, context, source)
  }

  /** What one RPC can yield before classification: a status, a transport or
      decoding failure, or an exhausted busy budget over a plain status. */
  ghost predicate WireError(e: NfsError) {
    && !e.OperationOutcome? && !e.FileClose?
    && (e.ServerBusy? ==> e.source.Nfs3? || e.source.Nfs4?)
  }

  /** The request may have reached the server and no authoritative reply came back. */
  ghost predicate SentWithoutReply(e: NfsError, replayError: bool) {
    && e != Io(Some(NotSent))
    && (replayError || e.Io? || e.Rpc? || e.Xdr?)
  }

  /** For everything a single request can return, the surface test used by the
      write engine sees exactly the uncertainty that is there, and that is
      exactly a mutation sent without an authoritative reply. */
  lemma SurfaceTestIsExactOnRequests(kind: OperationClass, context: Context, source: NfsError, replayError: bool)
    requires WireError(source)
    ensures var e := Classify(kind, context, source, replayError);
      && (SurfaceUncertain(e) <==> ContainsUncertain(e))
      && (SurfaceUncertain(e) <==> kind != ReadOnly && SentWithoutReply(source, replayError))
      && (RequestTransmission(e) == Some(NotSent) <==> source == Io(Some(NotSent)))
  {
    assert !ContainsUncertain(source);
  }

  /** What classification adds to the error of a request, and that it loses nothing: the
      error is passed on as it is exactly when the server answered; otherwise it becomes
      the source of an outcome that names the request, and to try again is advised
      exactly when nothing can have been done twice. */
  lemma ClassificationTells(kind: OperationClass, context: Context, source: NfsError, replayError: bool)
    requires WireError(source)
    ensures var e := Classify(kind, context, source, replayError);
      && (e == source <==> source != Io(Some(NotSent)) && !SentWithoutReply(source, replayError))
      && (e != source ==>
            && e.OperationOutcome? && e.source == source && e.context == context && e.kind == kind
            && e.completedBytes.None? && (e.transmission.NotSent? <==> source == Io(Some(NotSent)))
            && (e.recovery == Retry <==> !e.outcome.Uncertain?)
            && (e.outcome.Uncertain? <==> kind != ReadOnly && e.transmission.Sent?)
            && (e.outcome.SafeToRetry? <==> kind == ReadOnly && e.transmission.Sent?)
            && (e.recovery == Remount <==> kind == SessionControl && e.transmission.Sent?)
            && (e.recovery == VerifyThenResume <==> kind == ReplaySensitive && e.transmission.Sent?))
  {
  }

  lemma {:induction false} SurfaceUncertaintyIsReal(e: NfsError)
    ensures SurfaceUncertain(e) ==> ContainsUncertain(e)
  {
    if e.FileClose? { FirstOutcomeIsReal(e.failures); }
  }

  lemma {:induction false} FirstOutcomeIsReal(failures: seq<NfsError>)
    ensures var o := FirstOutcome(failures);
      o.Some? && o.value.outcome == Uncertain ==> exists f <- failures :: ContainsUncertain(f)
    decreases failures
  {
    if failures != [] {
      SurfaceUncertaintyIsReal(failures[0]);
      FirstOutcomeIsReal(failures[1..]);
    }
  }

  /** What a single request returns to its caller. */
  ghost predicate RequestError(e: NfsError) {
    exists kind, context, source, replay :: WireError(source) && e == Classify(kind, context, source, replay)
  }

  lemma RequestErrorSurface(e: NfsError)
    requires RequestError(e)
    ensures !e.FileClose? && (ContainsUncertain(e) <==> UncertainNode(e))
    ensures SurfaceOutcome(e) == if e.OperationOutcome? then Some(e) else None
  {
    var kind, context, source, replay :| WireError(source) && e == Classify(kind, context, source, replay);
    SurfaceTestIsExactOnRequests(kind, context, source, replay);
  }

  /** The first failure that carries an outcome, if any, is the uncertain one. */
  ghost predicate FirstIsUncertain(failures: seq<NfsError>) {
    exists j | 0 <= j < |failures| ::
      UncertainNode(failures[j]) && forall i | 0 <= i < j :: !failures[i].OperationOutcome?
  }

  lemma {:induction false} FirstOutcomeExactly(failures: seq<NfsError>)
    requires forall f <- failures :: RequestError(f)
    ensures var o := FirstOutcome(failures);
      && (o.Some? && o.value.outcome == Uncertain <==> FirstIsUncertain(failures))
      && (o.None? <==> forall f <- failures :: !f.OperationOutcome?)
    decreases failures
  {
    hide RequestError;
    if failures != [] {
      var head, rest := failures[0], failures[1..];
      RequestErrorSurface(head);
      FirstOutcomeExactly(rest);
      if !head.OperationOutcome? {
        if j :| 0 <= j < |rest| && UncertainNode(rest[j]) && forall i | 0 <= i < j :: !rest[i].OperationOutcome? {
          assert failures[j + 1] == rest[j] && forall i | 0 < i <= j :: failures[i] == rest[i - 1];
        }
        if j :| 0 <= j < |failures| && UncertainNode(failures[j])
                && forall i | 0 <= i < j :: !failures[i].OperationOutcome? {
          assert rest[j - 1] == failures[j] && forall i | 0 <= i < j - 1 :: rest[i] == failures[i + 1];
        }
      }
    }
  }

  /** Uncertainty is in the tree and the surface test does not see it. */
  ghost predicate Missed(e: NfsError) {
    ContainsUncertain(e) && !SurfaceUncertain(e)
  }

  /** For a combined close failure of request errors, the surface test misses
      uncertainty if and only if some failure is uncertain and one ahead of every
      uncertain failure carries an outcome that is not: `find_map` stops there. */
  lemma MissedExactly(failures: seq<NfsError>)
    requires forall f <- failures :: RequestError(f)
    ensures Missed(FileClose(failures)) <==>
      && (exists j | 0 <= j < |failures| :: UncertainNode(failures[j]))
      && (exists i | 0 <= i < |failures| ::
            && failures[i].OperationOutcome? && failures[i].outcome != Uncertain
            && forall k | 0 <= k < i :: !UncertainNode(failures[k]))
  {
    hide RequestError;
    FirstOutcomeExactly(failures);
    forall f | f in failures ensures ContainsUncertain(f) <==> UncertainNode(f) {
      RequestErrorSurface(f);
    }
    assert ContainsUncertain(FileClose(failures)) <==> exists j | 0 <= j < |failures| :: UncertainNode(failures[j]);
    if j :| 0 <= j < |failures| && UncertainNode(failures[j]) {
      SomethingFirst(failures, j);
    }
  }

  /** Before an uncertain failure there is a first failure that carries an outcome. */
  lemma {:induction false} SomethingFirst(failures: seq<NfsError>, j: nat)
    requires j < |failures| && failures[j].OperationOutcome?
    ensures exists i | 0 <= i <= j ::
      failures[i].OperationOutcome? && forall k | 0 <= k < i :: !failures[k].OperationOutcome?
  {
    if k :| 0 <= k < j && failures[k].OperationOutcome? {
      SomethingFirst(failures, k);
    }
  }

  /** Such a report exists: an operation that failed before it was sent, and then a
      CLOSE that was sent and not answered. */
  lemma CloseReportMissesUncertainty(operation: Context, close: Context)
    ensures var first := Classify(ReplaySensitive, operation, Io(Some(NotSent)), false);
      var second := Classify(ReplaySensitive, close, Rpc("no reply"), false);
      RequestError(first) && RequestError(second) && Missed(FileClose([first, second]))
  {
    var first := Classify(ReplaySensitive, operation, Io(Some(NotSent)), false);
    var second := Classify(ReplaySensitive, close, Rpc("no reply"), false);
    assert RequestError(first) && RequestError(second);
    var failures := [first, second];
    assert failures[0] == first && failures[1] == second;
    MissedExactly(failures);
  }
}
