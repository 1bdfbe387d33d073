/**
 * The HTTP handlers of the signing service: the registry of signers, the
 * mapping of every error to a status code and error body, and the control
 * flow of the round-1, round-2, complete-signing and health endpoints. The
 * clock reading, the fresh session UUIDs and the nonce generator's output are
 * parameters; the HTTP serving itself is not modelled.
 */
module Handlers {
  import opened Wrappers
  import opened Primitives
  import opened Api
  import opened Frost
  import Hex
  import S = Signer
  import C = Coordinator

  datatype ApiError =
    | SignerNotFound(signerId: uint16)
    | SignerError(signerError: S.SignerError)
    | CoordinatorError(coordinatorError: C.CoordinatorError)
    | InternalError(text: string)

  const NotFound := 404
  const BadRequest := 400
  const InternalServerError := 500

  /** A response with an error body. */
  datatype Response = Response(status: nat, body: ErrorResponse)

  /** `ApiError::into_response`. */
  function IntoResponse(e: ApiError): (r: Response)
    ensures r.body.details.None?
    ensures r.status == NotFound <==> e.SignerNotFound?
    ensures r.status == InternalServerError <==> e.InternalError?
    ensures r.status == BadRequest <==> e.SignerError? || e.CoordinatorError?
    ensures r.body.errorCode == "SESSION_NOT_FOUND" <==> e.SignerError? && e.signerError.SessionNotFound?
    ensures e.SignerNotFound? ==>
      r.body.errorCode == "SIGNER_NOT_FOUND" && r.body.message == "Signer " + Decimal(e.signerId) + " not found"
    ensures e.SignerError? && e.signerError.SessionNotFound? ==>
      r.body.message == "Session " + e.signerError.sessionId.uuid + " not found - nonce may have been used or never generated"
    ensures e.SignerError? && !e.signerError.SessionNotFound? ==>
      r.body.errorCode == "SIGNER_ERROR" && r.body.message == S.ErrorText(e.signerError)
    ensures e.CoordinatorError? ==> r.body.errorCode == "COORDINATOR_ERROR" && r.body.message == C.ErrorText(e.coordinatorError)
    ensures e.InternalError? ==> r.body.errorCode == "INTERNAL_ERROR" && r.body.message == e.text
  {
    match e
    case SignerNotFound(id) => Response(NotFound, NewErrorResponse("SIGNER_NOT_FOUND", "Signer " + Decimal(id) + " not found"))
    case SignerError(se) =>
      var (code, message) :=
        if se.SessionNotFound? then ("SESSION_NOT_FOUND", "Session " + se.sessionId.uuid + " not found - nonce may have been used or never generated")
        else ("SIGNER_ERROR", S.ErrorText(se));
      Response(BadRequest, NewErrorResponse(code, message))
    case CoordinatorError(ce) => Response(BadRequest, NewErrorResponse("COORDINATOR_ERROR", C.ErrorText(ce)))
    case InternalError(text) => Response(InternalServerError, NewErrorResponse("INTERNAL_ERROR", text))
  }

  /** The error code alone tells the status: the three codes of a 400 are the signer and coordinator codes. */
  lemma CodeDeterminesStatus(a: ApiError, b: ApiError)
    requires IntoResponse(a).body.errorCode == IntoResponse(b).body.errorCode
    ensures IntoResponse(a).status == IntoResponse(b).status
  {
  }

  /** The registry lookup `get_signer` performs. */
  function Lookup(signers: map<uint16, S.Signer>, id: uint16): (r: Option<S.Signer>)
    ensures r.Some? <==> id in signers
    ensures r.Some? ==> r.value == signers[id]
  {
    if id in signers then Some(signers[id]) else None
  }

  /** After registering `signer` under `id`, looking `id` up finds it, and every other ID finds what it found before. */
  lemma LookupAfterAdd(signers: map<uint16, S.Signer>, id: uint16, signer: S.Signer, other: uint16)
    ensures Lookup(signers[id := signer], id) == Some(signer)
    ensures other != id ==> Lookup(signers[id := signer], other) == Lookup(signers, other)
  {
  }

  datatype SignRequest = SignRequest(signerIds: seq<uint16>, message: string)

  datatype SignResponse = SignResponse(sessionId: SessionId, signature: string, verified: bool, groupPublicKey: string)

  datatype HealthResponse = HealthResponse(status: string, signersCount: nat, activeSessions: nat)

  class AppState {
    const coordinator: C.Coordinator
    var signers: map<uint16, S.Signer>

    /** `AppState::new`: no signer registered yet. */
    constructor New(coordinator: C.Coordinator)
      ensures this.coordinator == coordinator && signers == map[]
    {
      this.coordinator := coordinator;
      signers := map[];
    }

    /** `add_signer`: registers the signer under `signerId`, replacing any earlier one. */
    method AddSigner(signerId: uint16, signer: S.Signer)
      modifies this
      ensures signers == old(signers)[signerId := signer]
    {
      signers := signers[signerId := signer];
    }

    /** `get_signer`. */
    method GetSigner(signerId: uint16) returns (r: Option<S.Signer>)
      ensures r == Lookup(signers, signerId)
    {
      if signerId in signers {
        r := Some(signers[signerId]);
      } else {
        r := None;
      }
    }

    /** Every requested ID names a registered signer. */
    predicate AllRegistered(ids: seq<uint16>)
      reads this
    {
      forall k | 0 <= k < |ids| :: ids[k] in signers
    }

    /** The key shares of the requested signers, in request order. */
    function RequestedShares(ids: seq<uint16>): seq<SecretShare>
      requires AllRegistered(ids)
      reads this
    {
      seq(|ids|, k requires 0 <= k < |ids| && AllRegistered(ids) reads this => signers[ids[k]].secretShare)
    }

    /**
     * The collecting loop of `sign`: the registered signers in request order,
     * or the first requested ID that is not registered.
     */
    method CollectSigners(ids: seq<uint16>) returns (r: Result<seq<S.Signer>, ApiError>)
      ensures r.Success? <==> forall k | 0 <= k < |ids| :: ids[k] in signers
      ensures r.Success? ==> |r.value| == |ids| && forall k | 0 <= k < |ids| :: r.value[k] == signers[ids[k]]
      ensures forall k | 0 <= k < |ids| && ids[k] !in signers && (forall j | 0 <= j < k :: ids[j] in signers) ::
        r == Failure(SignerNotFound(ids[k]))
    {
      var collected: seq<S.Signer> := [];
      var i := 0;
      while i < |ids|
        invariant 0 <= i <= |ids| && |collected| == i
        invariant forall k | 0 <= k < i :: ids[k] in signers && collected[k] == signers[ids[k]]
      {
        var signer := GetSigner(ids[i]);
        if signer.None? {
          return Failure(SignerNotFound(ids[i]));
        }
        collected := collected + [signer.value];
        i := i + 1;
      }
      r := Success(collected);
    }

    /**
     * POST /sign. The message is decoded before any signer is looked up; then
     * the signers are collected and the coordinator runs the whole protocol.
     * `sessionId`/`now`/`randomness` feed the run, `responseId` is the fresh
     * UUID the response carries (not the run's session).
     */
    method Sign(lib: Library, request: SignRequest, sessionId: SessionId, now: string, randomness: seq<nat>, responseId: SessionId)
      returns (r: Result<SignResponse, ApiError>)
      requires |randomness| == |request.signerIds|
      modifies coordinator, signers.Values
      ensures Hex.Decode(request.message).Failure? ==>
        r == Failure(InternalError("Invalid hex message: " + Hex.ErrorText(Hex.Decode(request.message).error))) &&
        coordinator.sessions == old(coordinator.sessions) &&
        forall id | id in signers :: signers[id].nonceStore == old(signers[id].nonceStore)
      ensures forall k | 0 <= k < |request.signerIds| && Hex.Decode(request.message).Success? &&
        request.signerIds[k] !in signers && (forall j | 0 <= j < k :: request.signerIds[j] in signers) ::
        r == Failure(SignerNotFound(request.signerIds[k])) && coordinator.sessions == old(coordinator.sessions) &&
        forall id | id in signers :: signers[id].nonceStore == old(signers[id].nonceStore)
      ensures Hex.Decode(request.message).Success? && AllRegistered(request.signerIds) && r.Failure? ==>
        r.error.CoordinatorError?
      ensures Hex.Decode(request.message).Success? && AllRegistered(request.signerIds) && |request.signerIds| < coordinator.threshold ==>
        r == Failure(CoordinatorError(C.InsufficientCommitments(coordinator.threshold, |request.signerIds|))) &&
        coordinator.sessions == old(coordinator.sessions) &&
        forall id | id in signers :: signers[id].nonceStore == old(signers[id].nonceStore)
      ensures Hex.Decode(request.message).Success? && AllRegistered(request.signerIds) && |request.signerIds| >= coordinator.threshold ==>
        coordinator.sessions - {sessionId} == old(coordinator.sessions) - {sessionId} &&
        (forall k | 0 <= k < |request.signerIds| ::
          signers[request.signerIds[k]].nonceStore == old(signers[request.signerIds[k]].nonceStore) - {sessionId}) &&
        (forall id | id in signers && (forall k | 0 <= k < |request.signerIds| :: signers[request.signerIds[k]] != signers[id]) ::
          signers[id].nonceStore == old(signers[id].nonceStore))
      ensures (Hex.Decode(request.message).Success? && AllRegistered(request.signerIds) &&
               |request.signerIds| >= coordinator.threshold && r.Failure?) ==>
        sessionId in coordinator.sessions &&
        coordinator.sessions[sessionId] == C.SessionState(sessionId, Hex.Decode(request.message).value,
          C.WireCommitments(lib, RequestedShares(request.signerIds), randomness), now)
      ensures r.Success? ==> r.value.verified && r.value.sessionId == responseId
      ensures r.Success? ==>
        Hex.Decode(request.message).Success? && AllRegistered(request.signerIds) && |request.signerIds| >= coordinator.threshold
      ensures r.Success? ==> r.value.groupPublicKey == Hex.Encode(lib.serializeGroupKey(coordinator.pubkeyPackage))
      ensures r.Success? ==>
        exists sig :: (r.value.signature == Hex.Encode(lib.serializeSignature(sig)) &&
          lib.verify(coordinator.pubkeyPackage, Hex.Decode(request.message).value, sig).Success?)
      ensures r.Success? ==> sessionId !in coordinator.sessions
      ensures r.Success? ==>
        forall k | 0 <= k < |request.signerIds| :: (request.signerIds[k] in signers &&
          signers[request.signerIds[k]].nonceStore == old(signers[request.signerIds[k]].nonceStore) - {sessionId})
    {
      var message := Hex.Decode(request.message);
      if message.Failure? {
        return Failure(InternalError("Invalid hex message: " + Hex.ErrorText(message.error)));
      }
      var collected := CollectSigners(request.signerIds);
      if collected.Failure? {
        return Failure(collected.error);
      }
      assert C.SharesOf(collected.value) == RequestedShares(request.signerIds);
      var signature := coordinator.OrchestrateSigning(lib, collected.value, message.value, sessionId, now, randomness);
      if signature.Failure? {
        return Failure(CoordinatorError(signature.error));
      }
      var sig := signature.value;
      r := Success(SignResponse(responseId, Hex.Encode(lib.serializeSignature(sig)), true,
        Hex.Encode(lib.serializeGroupKey(coordinator.pubkeyPackage))));
    }

    /** POST /signer/{id}/round1: the named signer commits; the response echoes the signer and session. */
    method SignerRound1(lib: Library, signerId: uint16, request: Round1Request, randomness: nat, now: string)
      returns (r: Result<Round1Response, ApiError>)
      modifies signers.Values
      ensures signerId !in signers ==> r == Failure(SignerNotFound(signerId))
      ensures forall s | s in signers.Values && (signerId !in signers || s != signers[signerId]) :: s.nonceStore == old(s.nonceStore)
      ensures signerId in signers ==>
        var signer := signers[signerId];
        var (nonces, commitments) := lib.round1Commit(signer.secretShare, randomness);
        r == Success(Round1Response(signerId, request.sessionId, Hex.Encode(lib.serializeCommitments(commitments)), now)) &&
        signer.nonceStore == old(signer.nonceStore)[request.sessionId := nonces]
    {
      var signer := GetSigner(signerId);
      if signer.None? {
        return Failure(SignerNotFound(signerId));
      }
      // `commit` cannot fail, so the `?` after it never returns early.
      var commitment := signer.value.Commit(lib, request.sessionId, randomness);
      r := Success(Round1Response(signerId, request.sessionId, Hex.Encode(lib.serializeCommitments(commitment.value)), now));
    }

    /** POST /signer/{id}/round2: the named signer signs; its error is passed on, its share echoed with signer and session. */
    method SignerRound2(lib: Library, signerId: uint16, request: Round2Request, now: string)
      returns (r: Result<Round2Response, ApiError>)
      modifies signers.Values
      ensures signerId !in signers ==> r == Failure(SignerNotFound(signerId))
      ensures forall s | s in signers.Values && (signerId !in signers || s != signers[signerId]) :: s.nonceStore == old(s.nonceStore)
      ensures signerId in signers ==>
        var signer := signers[signerId];
        var outcome := S.SignOutcome(lib, signer.secretShare, old(signer.nonceStore), request.sessionId, request.signingPackage);
        signer.nonceStore == old(signer.nonceStore) - {request.sessionId} &&
        (outcome.Failure? ==> r == Failure(SignerError(outcome.error))) &&
        (outcome.Success? ==> r == Success(Round2Response(signerId, request.sessionId, Hex.Encode(lib.serializeShare(outcome.value)), now)))
    {
      var signer := GetSigner(signerId);
      if signer.None? {
        return Failure(SignerNotFound(signerId));
      }
      var share := signer.value.Sign(lib, request.sessionId, request.signingPackage);
      if share.Failure? {
        return Failure(SignerError(share.error));
      }
      r := Success(Round2Response(signerId, request.sessionId, Hex.Encode(lib.serializeShare(share.value)), now));
    }

    /** GET /health. */
    method Health() returns (h: HealthResponse)
      ensures h == HealthResponse("ok", |signers|, |coordinator.sessions|)
    {
      var active := coordinator.ActiveSessionsCount();
      h := HealthResponse("ok", |signers|, active);
    }

    /** GET /pubkey: the hex form of the serialized group verifying key. */
    method GetPubkey(lib: Library) returns (groupPublicKey: string)
      ensures groupPublicKey == Hex.Encode(lib.serializeGroupKey(coordinator.pubkeyPackage))
      ensures Hex.Decode(groupPublicKey) == Success(lib.serializeGroupKey(coordinator.pubkeyPackage))
    {
      Hex.DecodeEncode(lib.serializeGroupKey(coordinator.pubkeyPackage));
      groupPublicKey := Hex.Encode(lib.serializeGroupKey(coordinator.pubkeyPackage));
    }
  }
}
