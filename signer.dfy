/**
 * A FROST signer: it holds its key share and a store of secret nonces, one per
 * signing session. Round 1 (`Commit`) generates and stores the nonces of a
 * session; round 2 (`Sign`) removes them before it does anything else, so
 * every nonce is used at most once, even when signing then fails.
 */
module Signer {
  import opened Wrappers
  import opened Primitives
  import opened Api
  import opened Frost
  import Hex

  datatype SignerError =
    | SessionNotFound(sessionId: SessionId)
    | CommitmentGenerationFailed(reason: string)
    | SignatureGenerationFailed(reason: string)
    | InvalidCommitment(reason: string)
    | InvalidSigningPackage(reason: string)
    | FrostError(reason: string)

  const SessionNotFoundPrefix := "Session ID "
  const SessionNotFoundSuffix := " not found - nonce may have been used or never generated"

  /** `SignerError`'s Display. */
  function ErrorText(e: SignerError): string
  {
    match e
    case SessionNotFound(sid) => SessionNotFoundPrefix + sid.uuid + SessionNotFoundSuffix
    case CommitmentGenerationFailed(r) => "Failed to generate nonce commitments: " + r
    case SignatureGenerationFailed(r) => "Failed to generate signature share: " + r
    case InvalidCommitment(r) => "Invalid commitment format: " + r
    case InvalidSigningPackage(r) => "Invalid signing package: " + r
    case FrostError(r) => "FROST library error: " + r
  }

  lemma PrefixedInjective(p: string, a: string, b: string)
    requires p + a == p + b
    ensures a == b
  {
    assert a == (p + a)[|p|..];
    assert b == (p + b)[|p|..];
  }

  /** No two signer errors print alike: the text names the error kind and its detail. */
  lemma ErrorTextInjective(a: SignerError, b: SignerError)
    requires ErrorText(a) == ErrorText(b)
    ensures a == b
  {
    if a.SessionNotFound? {
      SessionTextInjective(a, b);
    } else if a.InvalidCommitment? || a.InvalidSigningPackage? {
      InvalidTextInjective(a, b);
    } else {
      FailedTextInjective(a, b);
    }
  }

  lemma SessionTextInjective(a: SignerError, b: SignerError)
    requires a.SessionNotFound? && ErrorText(a) == ErrorText(b)
    ensures a == b
  {
    var s := ErrorText(a);
    assert s[0] == 'S';
    assert b.SessionNotFound?;
    var n := |SessionNotFoundPrefix|;
    assert |a.sessionId.uuid| == |b.sessionId.uuid|;
    assert a.sessionId.uuid == s[n..n + |a.sessionId.uuid|];
    assert b.sessionId.uuid == s[n..n + |b.sessionId.uuid|];
  }

  lemma InvalidTextInjective(a: SignerError, b: SignerError)
    requires (a.InvalidCommitment? || a.InvalidSigningPackage?) && ErrorText(a) == ErrorText(b)
    ensures a == b
  {
    var s := ErrorText(a);
    assert s[0] == 'I';
    assert b.InvalidCommitment? || b.InvalidSigningPackage?;
    if a.InvalidCommitment? {
      assert s[8] == 'c';
      assert b.InvalidCommitment?;
      PrefixedInjective("Invalid commitment format: ", a.reason, b.reason);
    } else {
      assert s[8] == 's';
      assert b.InvalidSigningPackage?;
      PrefixedInjective("Invalid signing package: ", a.reason, b.reason);
    }
  }

  lemma FailedTextInjective(a: SignerError, b: SignerError)
    requires (a.CommitmentGenerationFailed? || a.SignatureGenerationFailed? || a.FrostError?) && ErrorText(a) == ErrorText(b)
    ensures a == b
  {
    var s := ErrorText(a);
    assert s[0] == 'F';
    assert b.CommitmentGenerationFailed? || b.SignatureGenerationFailed? || b.FrostError?;
    if a.FrostError? {
      assert s[1] == 'R';
      assert b.FrostError?;
      PrefixedInjective("FROST library error: ", a.reason, b.reason);
    } else if a.CommitmentGenerationFailed? {
      assert s[1] == 'a' && s[19] == 'n';
      assert b.CommitmentGenerationFailed?;
      PrefixedInjective("Failed to generate nonce commitments: ", a.reason, b.reason);
    } else {
      assert s[1] == 'a' && s[19] == 's';
      assert b.SignatureGenerationFailed?;
      PrefixedInjective("Failed to generate signature share: ", a.reason, b.reason);
    }
  }

  // ---------------------------------------------------------------------------
  // deserialize_signing_package
  // ---------------------------------------------------------------------------

  /**
   * One commitment entry of the wire package: its signer ID, then its hex
   * text, then the library's decoding, each failure named by its own text.
   */
  function DecodeEntry(lib: Library, c: CommitmentData): (r: Result<(Identifier, SigningCommitments), SignerError>)
    ensures r.Failure? ==> r.error.InvalidCommitment?
    ensures r.Success? ==> lib.identifierFrom(c.signerId) == Success(r.value.0) && Hex.Decode(c.commitment).Success?
    ensures r.Success? ==> lib.deserializeCommitments(Hex.Decode(c.commitment).value) == Success(r.value.1)
  {
    match lib.identifierFrom(c.signerId)
    case Failure(e) => Failure(InvalidCommitment("Invalid signer ID: " + e))
    case Success(id) =>
      match Hex.Decode(c.commitment)
      case Failure(e) => Failure(InvalidCommitment("Hex decode error: " + Hex.ErrorText(e)))
      case Success(bytes) =>
        match lib.deserializeCommitments(bytes)
        case Failure(e) => Failure(InvalidCommitment("Deserialize error: " + e))
        case Success(commitments) => Success((id, commitments))
  }

  /** The keyed map the entries build, entry by entry: the first failing entry aborts, a later entry replaces an earlier one with the same key. */
  function BuildCommitments(lib: Library, cs: seq<CommitmentData>): Result<map<Identifier, SigningCommitments>, SignerError>
    decreases |cs|
  {
    if cs == [] then Success(map[])
    else
      match BuildCommitments(lib, cs[..|cs| - 1])
      case Failure(e) => Failure(e)
      case Success(m) =>
        match DecodeEntry(lib, cs[|cs| - 1])
        case Failure(e) => Failure(e)
        case Success(entry) => Success(m[entry.0 := entry.1])
  }

  /** The package builds exactly when every entry decodes. */
  lemma {:induction false} BuildSucceedsIff(lib: Library, cs: seq<CommitmentData>)
    ensures BuildCommitments(lib, cs).Success? <==> forall k | 0 <= k < |cs| :: DecodeEntry(lib, cs[k]).Success?
    decreases |cs|
  {
    if cs != [] {
      var init := cs[..|cs| - 1];
      BuildSucceedsIff(lib, init);
      assert forall k | 0 <= k < |init| :: init[k] == cs[k];
    }
  }

  /** The error reported is that of the first entry that does not decode. */
  lemma {:induction false} BuildReportsFirstInvalid(lib: Library, cs: seq<CommitmentData>, k: nat)
    requires k < |cs| && DecodeEntry(lib, cs[k]).Failure?
    requires forall j | 0 <= j < k :: DecodeEntry(lib, cs[j]).Success?
    ensures BuildCommitments(lib, cs) == Failure(DecodeEntry(lib, cs[k]).error)
    decreases |cs|
  {
    var init := cs[..|cs| - 1];
    if k < |cs| - 1 {
      assert init[k] == cs[k];
      assert forall j | 0 <= j < k :: init[j] == cs[j];
      BuildReportsFirstInvalid(lib, init, k);
    } else {
      assert forall j | 0 <= j < |init| :: init[j] == cs[j];
      BuildSucceedsIff(lib, init);
    }
  }

  /** The keys of a built package are the identifiers of its entries. */
  lemma {:induction false} BuildKeys(lib: Library, cs: seq<CommitmentData>)
    requires BuildCommitments(lib, cs).Success?
    ensures forall k | 0 <= k < |cs| :: DecodeEntry(lib, cs[k]).Success?
    ensures BuildCommitments(lib, cs).value.Keys == set k | 0 <= k < |cs| :: DecodeEntry(lib, cs[k]).value.0
    decreases |cs|
  {
    BuildSucceedsIff(lib, cs);
    if cs != [] {
      var init := cs[..|cs| - 1];
      assert forall j | 0 <= j < |init| :: init[j] == cs[j];
      BuildKeys(lib, init);
      EntryIdsSnoc(lib, cs);
    }
  }

  lemma EntryIdsSnoc(lib: Library, cs: seq<CommitmentData>)
    requires cs != [] && forall k | 0 <= k < |cs| :: DecodeEntry(lib, cs[k]).Success?
    ensures var init := cs[..|cs| - 1];
      (set k | 0 <= k < |cs| :: DecodeEntry(lib, cs[k]).value.0) ==
      (set k | 0 <= k < |init| :: DecodeEntry(lib, init[k]).value.0) + {DecodeEntry(lib, cs[|cs| - 1]).value.0}
  {
    var init := cs[..|cs| - 1];
    var ids := set k | 0 <= k < |cs| :: DecodeEntry(lib, cs[k]).value.0;
    var initIds := set k | 0 <= k < |init| :: DecodeEntry(lib, init[k]).value.0;
    forall id | id in ids ensures id in initIds + {DecodeEntry(lib, cs[|cs| - 1]).value.0} {
      var k :| 0 <= k < |cs| && DecodeEntry(lib, cs[k]).value.0 == id;
      if k < |init| {
        assert DecodeEntry(lib, init[k]).value.0 == id;
      }
    }
    forall id | id in initIds ensures id in ids {
      var k :| 0 <= k < |init| && DecodeEntry(lib, init[k]).value.0 == id;
      assert init[k] == cs[k];
    }
  }

  /** Among entries with the same identifier, the last one is the one kept. */
  lemma {:induction false} BuildLastWins(lib: Library, cs: seq<CommitmentData>, k: nat)
    requires BuildCommitments(lib, cs).Success? && k < |cs|
    requires DecodeEntry(lib, cs[k]).Success?
    requires forall j | k < j < |cs| :: DecodeEntry(lib, cs[j]).Success? ==> DecodeEntry(lib, cs[j]).value.0 != DecodeEntry(lib, cs[k]).value.0
    ensures var entry := DecodeEntry(lib, cs[k]).value;
      entry.0 in BuildCommitments(lib, cs).value && BuildCommitments(lib, cs).value[entry.0] == entry.1
    decreases |cs|
  {
    if k < |cs| - 1 {
      var init := cs[..|cs| - 1];
      assert init[k] == cs[k];
      assert forall j | k < j < |init| :: init[j] == cs[j];
      BuildLastWins(lib, init, k);
    }
  }

  // ---------------------------------------------------------------------------
  // The signer
  // ---------------------------------------------------------------------------

  /** What `sign` returns, given the nonce store as it was before the call. */
  function SignOutcome(lib: Library, share: SecretShare, store: map<SessionId, SigningNonces>, sid: SessionId, data: SigningPackageData): Result<SignatureShare, SignerError>
  {
    if sid !in store then Failure(SessionNotFound(sid))
    else
      match BuildCommitments(lib, data.commitments)
      case Failure(e) => Failure(InvalidSigningPackage(ErrorText(e)))
      case Success(m) =>
        match lib.keyPackageFrom(share)
        case Failure(e) => Failure(SignatureGenerationFailed("KeyPackage conversion failed: " + e))
        case Success(kp) =>
          match lib.round2Sign(SigningPackage(m, data.message), store[sid], kp)
          case Failure(e) => Failure(SignatureGenerationFailed(e))
          case Success(s) => Success(s)
  }

  /** Without a stored nonce there is no share, whatever the package. */
  lemma SignWithoutNonceFails(lib: Library, share: SecretShare, store: map<SessionId, SigningNonces>, sid: SessionId, data: SigningPackageData)
    requires sid !in store
    ensures SignOutcome(lib, share, store, sid, data) == Failure(SessionNotFound(sid))
  {
  }

  /** A share, when there is one, was made from the session's stored nonce and the package the entries build. */
  lemma SignUsesStoredNonce(lib: Library, share: SecretShare, store: map<SessionId, SigningNonces>, sid: SessionId, data: SigningPackageData)
    requires SignOutcome(lib, share, store, sid, data).Success?
    ensures sid in store && BuildCommitments(lib, data.commitments).Success? && lib.keyPackageFrom(share).Success?
    ensures lib.round2Sign(SigningPackage(BuildCommitments(lib, data.commitments).value, data.message), store[sid], lib.keyPackageFrom(share).value)
      == Success(SignOutcome(lib, share, store, sid, data).value)
  {
  }

  /** A package whose entries do not all decode is refused, naming the first bad entry. */
  lemma SignRejectsBadPackage(lib: Library, share: SecretShare, store: map<SessionId, SigningNonces>, sid: SessionId, data: SigningPackageData, k: nat)
    requires sid in store && k < |data.commitments| && DecodeEntry(lib, data.commitments[k]).Failure?
    requires forall j | 0 <= j < k :: DecodeEntry(lib, data.commitments[j]).Success?
    ensures SignOutcome(lib, share, store, sid, data) == Failure(InvalidSigningPackage(ErrorText(DecodeEntry(lib, data.commitments[k]).error)))
  {
    BuildReportsFirstInvalid(lib, data.commitments, k);
  }

  /** The number of stored sessions after storing a nonce: one more exactly when the session is new. */
  lemma StoreCount(store: map<SessionId, SigningNonces>, sid: SessionId, nonces: SigningNonces)
    ensures |store[sid := nonces]| == if sid in store then |store| else |store| + 1
  {
    if sid in store {
      assert store[sid := nonces].Keys == store.Keys;
    } else {
      assert store[sid := nonces].Keys == store.Keys + {sid};
    }
  }

  class Signer {
    const secretShare: SecretShare
    const signerId: Identifier := secretShare.identifier
    var nonceStore: map<SessionId, SigningNonces>

    /** `Signer::new`: the identifier is the share's own, and no nonce is stored. */
    constructor New(secretShare: SecretShare)
      ensures this.secretShare == secretShare
      ensures signerId == secretShare.identifier
      ensures nonceStore == map[]
    {
      this.secretShare := secretShare;
      nonceStore := map[];
    }

    method Id() returns (id: Identifier)
      ensures id == secretShare.identifier
    {
      id := signerId;
    }

    /**
     * Round 1: draws fresh nonces (`randomness` stands for the generator),
     * stores them under the session, replacing any earlier ones, and returns
     * their commitments. It does not fail.
     */
    method Commit(lib: Library, sessionId: SessionId, randomness: nat) returns (r: Result<SigningCommitments, SignerError>)
      modifies this
      ensures r == Success(lib.round1Commit(secretShare, randomness).1)
      ensures nonceStore == old(nonceStore)[sessionId := lib.round1Commit(secretShare, randomness).0]
    {
      var (nonces, commitments) := lib.round1Commit(secretShare, randomness);
      nonceStore := nonceStore[sessionId := nonces];
      r := Success(commitments);
    }

    /**
     * Round 2: takes the session's nonces out of the store first, then builds
     * the package and signs. The nonces are gone afterwards whatever the
     * outcome, and no other session is touched.
     */
    method Sign(lib: Library, sessionId: SessionId, data: SigningPackageData) returns (r: Result<SignatureShare, SignerError>)
      modifies this
      ensures nonceStore == old(nonceStore) - {sessionId}
      ensures r == SignOutcome(lib, secretShare, old(nonceStore), sessionId, data)
    {
      if sessionId !in nonceStore {
        return Failure(SessionNotFound(sessionId));
      }
      var nonces := nonceStore[sessionId];
      nonceStore := nonceStore - {sessionId};
      var package := DeserializeSigningPackage(lib, data);
      if package.Failure? {
        return Failure(InvalidSigningPackage(ErrorText(package.error)));
      }
      var keyPackage := lib.keyPackageFrom(secretShare);
      if keyPackage.Failure? {
        return Failure(SignatureGenerationFailed("KeyPackage conversion failed: " + keyPackage.error));
      }
      var share := lib.round2Sign(package.value, nonces, keyPackage.value);
      if share.Failure? {
        return Failure(SignatureGenerationFailed(share.error));
      }
      r := Success(share.value);
    }

    /** `deserialize_signing_package`: the entries inserted one by one into a keyed map. */
    method DeserializeSigningPackage(lib: Library, data: SigningPackageData) returns (r: Result<SigningPackage, SignerError>)
      ensures r.Success? <==> BuildCommitments(lib, data.commitments).Success?
      ensures r.Success? ==> r.value == SigningPackage(BuildCommitments(lib, data.commitments).value, data.message)
      ensures r.Failure? ==> r.error == BuildCommitments(lib, data.commitments).error
    {
      var cs := data.commitments;
      var commitmentsMap: map<Identifier, SigningCommitments> := map[];
      var i := 0;
      while i < |cs|
        invariant 0 <= i <= |cs|
        invariant BuildCommitments(lib, cs[..i]) == Success(commitmentsMap)
      {
        assert cs[..i + 1][..i] == cs[..i];
        var entry := DecodeEntry(lib, cs[i]);
        if entry.Failure? {
          assert BuildCommitments(lib, cs[..i + 1]).Failure?;
          BuildPrefixFails(lib, cs, i + 1);
          return Failure(entry.error);
        }
        commitmentsMap := commitmentsMap[entry.value.0 := entry.value.1];
        i := i + 1;
      }
      assert cs[..i] == cs;
      r := Success(SigningPackage(commitmentsMap, data.message));
    }

    /** `active_sessions_count`. */
    method ActiveSessionsCount() returns (n: nat)
      ensures n == |nonceStore|
    {
      n := |nonceStore|;
    }

    /** `clear_session`: forgets the session's nonces and says whether there were any. */
    method ClearSession(sessionId: SessionId) returns (existed: bool)
      modifies this
      ensures existed <==> sessionId in old(nonceStore)
      ensures nonceStore == old(nonceStore) - {sessionId}
    {
      existed := sessionId in nonceStore;
      nonceStore := nonceStore - {sessionId};
    }

    /** `clear_all_sessions`. */
    method ClearAllSessions()
      modifies this
      ensures nonceStore == map[]
    {
      nonceStore := map[];
    }
  }

  /** Once a prefix of the entries fails to build, so does the whole package, with the same error. */
  lemma {:induction false} BuildPrefixFails(lib: Library, cs: seq<CommitmentData>, i: nat)
    requires i <= |cs| && BuildCommitments(lib, cs[..i]).Failure?
    ensures BuildCommitments(lib, cs) == BuildCommitments(lib, cs[..i])
    decreases |cs| - i
  {
    if i < |cs| {
      assert cs[..i + 1][..i] == cs[..i];
      BuildPrefixFails(lib, cs, i + 1);
    } else {
      assert cs[..i] == cs;
    }
  }

  /**
   * A nonce serves one signature: a second round 2 for the same session fails
   * with SessionNotFound, whatever the first one returned.
   */
  method SignTwice(lib: Library, signer: Signer, sessionId: SessionId, first: SigningPackageData, second: SigningPackageData)
    returns (r1: Result<SignatureShare, SignerError>, r2: Result<SignatureShare, SignerError>)
    modifies signer
    ensures r2 == Failure(SessionNotFound(sessionId))
    ensures sessionId !in signer.nonceStore
  {
    r1 := signer.Sign(lib, sessionId, first);
    r2 := signer.Sign(lib, sessionId, second);
  }

  /** Commit then sign: the share is made from the nonces that round 1 just generated. */
  method CommitThenSign(lib: Library, signer: Signer, sessionId: SessionId, randomness: nat, data: SigningPackageData)
    returns (c: Result<SigningCommitments, SignerError>, r: Result<SignatureShare, SignerError>)
    modifies signer
    ensures c.Success? && c.value == lib.round1Commit(signer.secretShare, randomness).1
    ensures r == SignOutcome(lib, signer.secretShare, old(signer.nonceStore)[sessionId := lib.round1Commit(signer.secretShare, randomness).0], sessionId, data)
    ensures signer.nonceStore == old(signer.nonceStore) - {sessionId}
  {
    c := signer.Commit(lib, sessionId, randomness);
    r := signer.Sign(lib, sessionId, data);
  }
}
