/**
 * The FROST coordinator: it keeps the signing sessions (message and the
 * round-1 commitments collected so far), applies the threshold gates, and
 * drives a whole signing run over a list of signers. It never sees a secret
 * nonce or a key share.
 */
module Coordinator {
  import opened Wrappers
  import opened Primitives
  import opened Api
  import opened Frost
  import Hex
  import S = Signer

  datatype CoordinatorError =
    | SessionNotFound(sessionId: SessionId)
    | InsufficientCommitments(expected: nat, actual: nat)
    | InsufficientShares(expected: nat, actual: nat)
    | AggregationFailed(reason: string)
    | VerificationFailed(reason: string)
    | SignerError(reason: string)
    | InvalidPublicKeyPackage
    | CommitmentDeserializationFailed(reason: string)
    | ShareDeserializationFailed(reason: string)

  /** `CoordinatorError`'s Display. */
  function ErrorText(e: CoordinatorError): string
  {
    match e
    case SessionNotFound(sid) => "Session " + sid.uuid + " not found"
    case InsufficientCommitments(expected, actual) =>
      "Insufficient commitments: expected " + Decimal(expected) + ", got " + Decimal(actual)
    case InsufficientShares(expected, actual) =>
      "Insufficient signature shares: expected " + Decimal(expected) + ", got " + Decimal(actual)
    case AggregationFailed(r) => "Failed to aggregate signature: " + r
    case VerificationFailed(r) => "Signature verification failed: " + r
    case SignerError(r) => "Signer error: " + r
    case InvalidPublicKeyPackage => "Invalid public key package"
    case CommitmentDeserializationFailed(r) => "Commitment deserialization failed: " + r
    case ShareDeserializationFailed(r) => "Signature share deserialization failed: " + r
  }

  /** The expected and actual counts of a threshold error can be read back from its text. */
  lemma InsufficientTextTellsCounts(expected: nat, actual: nat)
    ensures var s := ErrorText(InsufficientCommitments(expected, actual));
      var e := Decimal(expected);
      var n := |"Insufficient commitments: expected "|;
      s[n..n + |e|] == e && s[n + |e| + 6..] == Decimal(actual) &&
      DecimalValue(s[n..n + |e|]) == expected && DecimalValue(s[n + |e| + 6..]) == actual
  {
    var e := Decimal(expected);
    var s := ErrorText(InsufficientCommitments(expected, actual));
    assert s == "Insufficient commitments: expected " + e + ", got " + Decimal(actual);
    DecimalRoundTrip(expected);
    DecimalRoundTrip(actual);
  }

  /** One signing session; `createdAt` is the clock reading the session was created at. */
  datatype SessionState = SessionState(sessionId: SessionId, message: seq<byte>, commitments: seq<CommitmentData>, createdAt: string)

  /** `SessionState::new`: no commitments yet. */
  function NewSessionState(sessionId: SessionId, message: seq<byte>, now: string): (s: SessionState)
    ensures s.sessionId == sessionId && s.message == message && s.commitments == [] && s.createdAt == now
  {
    SessionState(sessionId, message, [], now)
  }

  /** The wire form of a signer's round-1 commitment, as `orchestrate_signing` adds it to the session. */
  function WireCommitment(lib: Library, share: SecretShare, randomness: nat): CommitmentData
  {
    CommitmentData(lib.identifierToWire(share.identifier), Hex.Encode(lib.serializeCommitments(lib.round1Commit(share, randomness).1)))
  }

  /** The commitments a run over `shares` collects, in signer order. */
  function WireCommitments(lib: Library, shares: seq<SecretShare>, randomness: seq<nat>): (cs: seq<CommitmentData>)
    requires |randomness| == |shares|
    ensures |cs| == |shares|
    ensures forall k | 0 <= k < |shares| :: cs[k] == WireCommitment(lib, shares[k], randomness[k])
    decreases |shares|
  {
    if shares == [] then []
    else WireCommitments(lib, shares[..|shares| - 1], randomness[..|shares| - 1]) + [WireCommitment(lib, shares[|shares| - 1], randomness[|shares| - 1])]
  }

  function SharesOf(signers: seq<S.Signer>): seq<SecretShare>
  {
    seq(|signers|, k requires 0 <= k < |signers| => signers[k].secretShare)
  }

  function IdsOf(signers: seq<S.Signer>): seq<Identifier>
  {
    seq(|signers|, k requires 0 <= k < |signers| => signers[k].secretShare.identifier)
  }

  /** Some signer object occurs twice in the list. */
  predicate HasDuplicate(signers: seq<S.Signer>)
  {
    exists j, k | 0 <= j < k < |signers| :: signers[j] == signers[k]
  }

  /** `x` occurs among the first `i` signers. */
  predicate SeenBefore(signers: seq<S.Signer>, i: nat, x: S.Signer)
  {
    exists j | 0 <= j < i && j < |signers| :: signers[j] == x
  }

  lemma SeenBeforeStep(signers: seq<S.Signer>, i: nat)
    requires i < |signers|
    ensures forall x :: SeenBefore(signers, i + 1, x) <==> SeenBefore(signers, i, x) || signers[i] == x
  {
    forall x ensures SeenBefore(signers, i + 1, x) ==> SeenBefore(signers, i, x) || signers[i] == x {
      if SeenBefore(signers, i + 1, x) {
        var j :| 0 <= j < i + 1 && j < |signers| && signers[j] == x;
        if j < i {
          assert SeenBefore(signers, i, x);
        }
      }
    }
  }

  /** Every signer of the list is among the whole list. */
  lemma SeenAll(signers: seq<S.Signer>)
    ensures forall j | 0 <= j < |signers| :: SeenBefore(signers, |signers|, signers[j])
  {
    forall j | 0 <= j < |signers|
      ensures SeenBefore(signers, |signers|, signers[j])
    {
    }
  }

  /** When every repeat of a signer fails, a list with a repeat has a failure. */
  lemma DuplicateFails<T, E>(signers: seq<S.Signer>, results: seq<Result<T, E>>)
    requires |results| == |signers|
    requires forall k | 0 <= k < |signers| && SeenBefore(signers, k, signers[k]) :: results[k].Failure?
    ensures HasDuplicate(signers) ==> AnyFailed(results)
  {
    if HasDuplicate(signers) {
      var j, k :| 0 <= j < k < |signers| && signers[j] == signers[k];
      assert SeenBefore(signers, k, signers[k]);
    }
  }

  predicate AnyFailed<T, E>(results: seq<Result<T, E>>)
  {
    exists k | 0 <= k < |results| :: results[k].Failure?
  }

  lemma UpdateMinus<K, V>(m: map<K, V>, k: K, v: V)
    ensures m[k := v] - {k} == m - {k}
  {
  }

  lemma MinusTwice<K, V>(m: map<K, V>, k: K)
    ensures m - {k} - {k} == m - {k}
  {
  }

  /** `ids[k]` does not occur again among the first `n` identifiers after position k. */
  predicate LastOf(ids: seq<Identifier>, k: nat, n: nat)
    requires k < |ids|
  {
    forall j | k < j < n && j < |ids| :: ids[j] != ids[k]
  }

  /**
   * For every position below `n` whose identifier does not occur again before
   * `n`, the map holds that position's share under the identifier.
   */
  predicate HoldsLastShares(m: map<Identifier, SignatureShare>, ids: seq<Identifier>,
                            results: seq<Result<SignatureShare, S.SignerError>>, n: nat)
    requires |ids| == |results|
  {
    forall k | 0 <= k < n && k < |ids| && LastOf(ids, k, n) && results[k].Success? && ids[k] in m :: m[ids[k]] == results[k].value
  }

  lemma KeysStep(ids: seq<Identifier>, i: nat)
    requires i < |ids|
    ensures (set k | 0 <= k < i + 1 :: ids[k]) == (set k | 0 <= k < i :: ids[k]) + {ids[i]}
  {
  }

  /** Storing position i's share keeps the property for the positions up to i. */
  lemma HoldsLastSharesStep(m: map<Identifier, SignatureShare>, ids: seq<Identifier>,
                            results: seq<Result<SignatureShare, S.SignerError>>, i: nat)
    requires |ids| == |results| && i < |ids| && results[i].Success?
    requires HoldsLastShares(m, ids, results, i)
    ensures HoldsLastShares(m[ids[i] := results[i].value], ids, results, i + 1)
  {
    var m' := m[ids[i] := results[i].value];
    forall k | 0 <= k < i + 1 && LastOf(ids, k, i + 1) && results[k].Success? && ids[k] in m'
      ensures m'[ids[k]] == results[k].value
    {
      if k < i {
        assert ids[i] != ids[k];
        assert LastOf(ids, k, i);
      }
    }
  }

  /**
   * The round-2 results turned into the share map, in signer order: the first
   * failed signer aborts with its error text; a later share for the same
   * identifier replaces an earlier one.
   */
  method GatherShares(ids: seq<Identifier>, results: seq<Result<SignatureShare, S.SignerError>>)
    returns (r: Result<map<Identifier, SignatureShare>, CoordinatorError>)
    requires |ids| == |results|
    ensures r.Success? <==> forall k | 0 <= k < |results| :: results[k].Success?
    ensures forall k | 0 <= k < |results| && results[k].Failure? && (forall j | 0 <= j < k :: results[j].Success?) ::
      r == Failure(SignerError(S.ErrorText(results[k].error)))
    ensures r.Success? ==> r.value.Keys == set k | 0 <= k < |ids| :: ids[k]
    ensures r.Success? ==> HoldsLastShares(r.value, ids, results, |ids|)
  {
    var shares: map<Identifier, SignatureShare> := map[];
    var i := 0;
    while i < |results|
      invariant 0 <= i <= |results|
      invariant forall k | 0 <= k < i :: results[k].Success?
      invariant shares.Keys == set k | 0 <= k < i :: ids[k]
      invariant HoldsLastShares(shares, ids, results, i)
    {
      if results[i].Failure? {
        return Failure(SignerError(S.ErrorText(results[i].error)));
      }
      KeysStep(ids, i);
      HoldsLastSharesStep(shares, ids, results, i);
      shares := shares[ids[i] := results[i].value];
      i := i + 1;
    }
    r := Success(shares);
  }

  class Coordinator {
    const pubkeyPackage: PublicKeyPackage
    const threshold: uint16
    var sessions: map<SessionId, SessionState>

    constructor New(pubkeyPackage: PublicKeyPackage, threshold: uint16)
      ensures this.pubkeyPackage == pubkeyPackage && this.threshold == threshold
      ensures sessions == map[]
    {
      this.pubkeyPackage := pubkeyPackage;
      this.threshold := threshold;
      sessions := map[];
    }

    /** `create_session`: `sessionId` is the fresh UUID and `now` the clock reading. */
    method CreateSession(message: seq<byte>, sessionId: SessionId, now: string) returns (sid: SessionId)
      modifies this
      ensures sid == sessionId
      ensures sessions == old(sessions)[sid := NewSessionState(sid, message, now)]
    {
      sid := sessionId;
      sessions := sessions[sid := NewSessionState(sid, message, now)];
    }

    /** `add_commitment`: appends to the session's commitments and returns their new number. */
    method AddCommitment(sessionId: SessionId, commitment: CommitmentData) returns (r: Result<nat, CoordinatorError>)
      modifies this
      ensures sessionId !in old(sessions) ==> r == Failure(SessionNotFound(sessionId)) && sessions == old(sessions)
      ensures sessionId in old(sessions) ==>
        var s := old(sessions)[sessionId];
        r == Success(|s.commitments| + 1) &&
        sessions == old(sessions)[sessionId := s.(commitments := s.commitments + [commitment])]
    {
      if sessionId !in sessions {
        return Failure(SessionNotFound(sessionId));
      }
      var s := sessions[sessionId];
      sessions := sessions[sessionId := s.(commitments := s.commitments + [commitment])];
      r := Success(|s.commitments| + 1);
    }

    /** `get_signing_package`: the stored commitments and message, once there are at least `threshold` commitments. */
    method GetSigningPackage(sessionId: SessionId) returns (r: Result<SigningPackageData, CoordinatorError>)
      ensures sessionId !in sessions ==> r == Failure(SessionNotFound(sessionId))
      ensures sessionId in sessions && |sessions[sessionId].commitments| < threshold ==>
        r == Failure(InsufficientCommitments(threshold, |sessions[sessionId].commitments|))
      ensures sessionId in sessions && |sessions[sessionId].commitments| >= threshold ==>
        r == Success(SigningPackageData(sessions[sessionId].commitments, sessions[sessionId].message))
    {
      if sessionId !in sessions {
        return Failure(SessionNotFound(sessionId));
      }
      var s := sessions[sessionId];
      if |s.commitments| < threshold as nat {
        return Failure(InsufficientCommitments(threshold, |s.commitments|));
      }
      r := Success(SigningPackageData(s.commitments, s.message));
    }

    /** `aggregate_signature`: the share count is checked before the library is called. */
    method AggregateSignature(lib: Library, package: SigningPackage, shares: map<Identifier, SignatureShare>)
      returns (r: Result<Signature, CoordinatorError>)
      ensures |shares| < threshold ==> r == Failure(InsufficientShares(threshold, |shares|))
      ensures |shares| >= threshold && lib.aggregate(package, shares, pubkeyPackage).Success? ==>
        r == Success(lib.aggregate(package, shares, pubkeyPackage).value)
      ensures |shares| >= threshold && lib.aggregate(package, shares, pubkeyPackage).Failure? ==>
        r == Failure(AggregationFailed(lib.aggregate(package, shares, pubkeyPackage).error))
    {
      if |shares| < threshold as nat {
        return Failure(InsufficientShares(threshold, |shares|));
      }
      var aggregated := lib.aggregate(package, shares, pubkeyPackage);
      if aggregated.Failure? {
        return Failure(AggregationFailed(aggregated.error));
      }
      r := Success(aggregated.value);
    }

    /** `verify_signature` against the group verifying key. */
    method VerifySignature(lib: Library, message: seq<byte>, signature: Signature) returns (r: Result<Unit, CoordinatorError>)
      ensures r.Success? <==> lib.verify(pubkeyPackage, message, signature).Success?
      ensures r.Failure? ==> r.error == VerificationFailed(lib.verify(pubkeyPackage, message, signature).error)
    {
      var verified := lib.verify(pubkeyPackage, message, signature);
      if verified.Failure? {
        return Failure(VerificationFailed(verified.error));
      }
      r := Success(Unit);
    }

    /** `active_sessions_count`. */
    method ActiveSessionsCount() returns (n: nat)
      ensures n == |sessions|
    {
      n := |sessions|;
    }

    /** `clear_session`: says whether the session existed; it is gone afterwards. */
    method ClearSession(sessionId: SessionId) returns (existed: bool)
      modifies this
      ensures existed <==> sessionId in old(sessions)
      ensures sessions == old(sessions) - {sessionId}
    {
      existed := sessionId in sessions;
      sessions := sessions - {sessionId};
    }

    /** `clear_all_sessions`. */
    method ClearAllSessions()
      modifies this
      ensures sessions == map[]
    {
      sessions := map[];
    }

    /**
     * Round 1 of `orchestrate_signing`: every signer commits for the session,
     * in order, and its commitment goes onto the session. Each signer now
     * holds a nonce for the session and nothing else of its store changed.
     */
    method CollectCommitments(lib: Library, signers: seq<S.Signer>, sessionId: SessionId, randomness: seq<nat>)
      returns (commitments: map<Identifier, SigningCommitments>)
      requires |randomness| == |signers| && sessionId in sessions
      modifies this, set s | s in signers
      ensures sessions == old(sessions)[sessionId := old(sessions)[sessionId].(commitments :=
        old(sessions)[sessionId].commitments + WireCommitments(lib, SharesOf(signers), randomness))]
      ensures forall j | 0 <= j < |signers| ::
        sessionId in signers[j].nonceStore && signers[j].nonceStore - {sessionId} == old(signers[j].nonceStore) - {sessionId}
    {
      ghost var s0 := old(sessions)[sessionId];
      ghost var shares := SharesOf(signers);
      ghost var added: seq<CommitmentData> := [];
      assert s0.commitments + added == s0.commitments;
      assert s0.(commitments := s0.commitments + added) == s0;
      assert sessions == sessions[sessionId := s0];
      commitments := map[];
      var i := 0;
      while i < |signers|
        invariant 0 <= i <= |signers| && |added| == i
        invariant forall k | 0 <= k < i :: added[k] == WireCommitment(lib, shares[k], randomness[k])
        invariant sessions == old(sessions)[sessionId := s0.(commitments := s0.commitments + added)]
        invariant forall j | 0 <= j < |signers| :: signers[j].nonceStore - {sessionId} == old(signers[j].nonceStore) - {sessionId}
        invariant forall j | 0 <= j < i :: sessionId in signers[j].nonceStore
      {
        var signer := signers[i];
        var c := signer.Commit(lib, sessionId, randomness[i]);
        assert signer.nonceStore - {sessionId} == old(signer.nonceStore) - {sessionId};
        var id := signer.Id();
        var data := CommitmentData(lib.identifierToWire(id), Hex.Encode(lib.serializeCommitments(c.value)));
        assert data == WireCommitment(lib, shares[i], randomness[i]);
        var _ := AddCommitment(sessionId, data);
        assert s0.commitments + added + [data] == s0.commitments + (added + [data]);
        added := added + [data];
        commitments := commitments[id := c.value];
        i := i + 1;
      }
      assert added == WireCommitments(lib, shares, randomness);
    }

    /**
     * Round 2 of `orchestrate_signing`: every signer is asked for its share,
     * all of them, before any result is looked at. A signer that occurs twice
     * finds its nonce gone the second time.
     */
    method CollectSignatures(lib: Library, signers: seq<S.Signer>, sessionId: SessionId, data: SigningPackageData)
      returns (results: seq<Result<SignatureShare, S.SignerError>>)
      modifies set s | s in signers
      ensures |results| == |signers|
      ensures forall j | 0 <= j < |signers| :: signers[j].nonceStore == old(signers[j].nonceStore) - {sessionId}
      ensures forall k | 0 <= k < |signers| ::
        results[k] == if SeenBefore(signers, k, signers[k]) then Failure(S.SessionNotFound(sessionId))
          else S.SignOutcome(lib, signers[k].secretShare, old(signers[k].nonceStore), sessionId, data)
      ensures HasDuplicate(signers) ==> AnyFailed(results)
    {
      results := [];
      var i := 0;
      while i < |signers|
        invariant 0 <= i <= |signers| && |results| == i
        invariant forall j | 0 <= j < |signers| ::
          signers[j].nonceStore == if SeenBefore(signers, i, signers[j]) then old(signers[j].nonceStore) - {sessionId} else old(signers[j].nonceStore)
        invariant forall k | 0 <= k < i ::
          results[k] == if SeenBefore(signers, k, signers[k]) then Failure(S.SessionNotFound(sessionId))
            else S.SignOutcome(lib, signers[k].secretShare, old(signers[k].nonceStore), sessionId, data)
      {
        var signer := signers[i];
        var share := signer.Sign(lib, sessionId, data);
        SeenBeforeStep(signers, i);
        results := results + [share];
        i := i + 1;
      }
      SeenAll(signers);
      DuplicateFails(signers, results);
    }

    /**
     * `orchestrate_signing`. `sessionId` and `now` stand for the UUID and the
     * clock reading `create_session` takes, `randomness[k]` for signer k's
     * nonce generator. Too few signers are refused before any session exists;
     * otherwise every signer's nonce for the session is used up, a successful
     * run removes its session and returns a signature the group key accepts,
     * and a failed one leaves the session behind with all its commitments.
     */
    method OrchestrateSigning(lib: Library, signers: seq<S.Signer>, message: seq<byte>, sessionId: SessionId, now: string, randomness: seq<nat>)
      returns (r: Result<Signature, CoordinatorError>)
      requires |randomness| == |signers|
      modifies this, set s | s in signers
      ensures |signers| < threshold ==>
        r == Failure(InsufficientCommitments(threshold, |signers|)) && sessions == old(sessions) &&
        forall j | 0 <= j < |signers| :: signers[j].nonceStore == old(signers[j].nonceStore)
      ensures |signers| >= threshold ==>
        sessions - {sessionId} == old(sessions) - {sessionId} &&
        forall j | 0 <= j < |signers| :: signers[j].nonceStore == old(signers[j].nonceStore) - {sessionId}
      ensures r.Success? ==> sessionId !in sessions && lib.verify(pubkeyPackage, message, r.value).Success?
      ensures |signers| >= threshold && r.Failure? ==>
        sessionId in sessions && sessions[sessionId] == SessionState(sessionId, message, WireCommitments(lib, SharesOf(signers), randomness), now)
      ensures HasDuplicate(signers) ==> r.Failure?
    {
      if |signers| < threshold as nat {
        return Failure(InsufficientCommitments(threshold, |signers|));
      }
      var sid := CreateSession(message, sessionId, now);
      r := RunSession(lib, signers, message, sid, now, randomness);
    }

    /** Everything `orchestrate_signing` does once its session exists. */
    method RunSession(lib: Library, signers: seq<S.Signer>, message: seq<byte>, sessionId: SessionId, now: string, randomness: seq<nat>)
      returns (r: Result<Signature, CoordinatorError>)
      requires |randomness| == |signers| && |signers| >= threshold
      requires sessionId in sessions && sessions[sessionId] == NewSessionState(sessionId, message, now)
      modifies this, set s | s in signers
      ensures sessions - {sessionId} == old(sessions) - {sessionId}
      ensures forall j | 0 <= j < |signers| :: signers[j].nonceStore == old(signers[j].nonceStore) - {sessionId}
      ensures r.Success? ==> sessionId !in sessions && lib.verify(pubkeyPackage, message, r.value).Success?
      ensures r.Failure? ==>
        sessionId in sessions && sessions[sessionId] == SessionState(sessionId, message, WireCommitments(lib, SharesOf(signers), randomness), now)
      ensures HasDuplicate(signers) ==> r.Failure?
    {
      ghost var s0 := sessions;
      assert |SharesOf(signers)| == |signers|;
      var commitments := CollectCommitments(lib, signers, sessionId, randomness);
      ghost var s1 := sessions;
      UpdateMinus(s0, sessionId, s1[sessionId]);
      MinusTwice(s1, sessionId);
      assert [] + WireCommitments(lib, SharesOf(signers), randomness) == WireCommitments(lib, SharesOf(signers), randomness);
      var packageData := GetSigningPackage(sessionId);
      var results := CollectSignatures(lib, signers, sessionId, packageData.value);
      var ids := IdsOf(signers);
      assert |ids| == |results|;
      r := Finish(lib, ids, results, SigningPackage(commitments, message), message, sessionId);
    }

    /** The end of `orchestrate_signing`: shares gathered, aggregated and verified; only success removes the session. */
    method Finish(lib: Library, ids: seq<Identifier>, results: seq<Result<SignatureShare, S.SignerError>>, package: SigningPackage, message: seq<byte>, sessionId: SessionId)
      returns (r: Result<Signature, CoordinatorError>)
      requires |ids| == |results|
      modifies this
      ensures r.Success? ==> sessions == old(sessions) - {sessionId} && lib.verify(pubkeyPackage, message, r.value).Success?
      ensures r.Failure? ==> sessions == old(sessions)
      ensures AnyFailed(results) ==> r.Failure?
    {
      var shares := GatherShares(ids, results);
      if shares.Failure? {
        return Failure(shares.error);
      }
      var signature := AggregateSignature(lib, package, shares.value);
      if signature.Failure? {
        return Failure(signature.error);
      }
      var verified := VerifySignature(lib, message, signature.value);
      if verified.Failure? {
        return Failure(verified.error);
      }
      sessions := sessions - {sessionId};
      r := Success(signature.value);
    }
  }
}
