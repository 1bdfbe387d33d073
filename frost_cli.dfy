/**
 * The command-line front end's argument checks: each command's validation
 * prefix, the session-consistency loop that builds a signing package out of
 * commitment files, and the default names of the files it writes. The files'
 * contents arrive already parsed; reading, writing and printing are not
 * modelled.
 */
module FrostCli {
  import opened Wrappers
  import opened Primitives
  import opened Api
  import Hex

  /** Why a command gives up, with the numbers its message shows. */
  datatype CliError =
    | ThresholdExceedsTotal(minSigners: uint16, maxSigners: uint16)
    | TooFewCommitmentFiles(commitmentCount: nat)
    | InconsistentSessionIds
    | SessionIdMismatch(expected: string, actual: string)
    | TooFewShareFiles(shareCount: nat)
    | StoredMessageUndecodable(hexError: Hex.HexError)
    | MessageMismatch
    | TooFewDemoSigners(demoCount: nat)
    | TooManyDemoSigners(demoCount: nat)
    | DemoSignerOutOfRange(signerId: uint16)

  /** The fewest commitment or share files `create-package` and `aggregate` accept. */
  const MinFiles := 3

  /** `demo-basic` signs 3-of-5 with signers numbered 1 to 5. */
  const DemoThreshold := 3
  const DemoSigners := 5

  /** `keygen`: the threshold may not exceed the number of signers. */
  function KeygenCheck(maxSigners: uint16, minSigners: uint16): (r: Result<Unit, CliError>)
    ensures r.Success? <==> minSigners <= maxSigners
    ensures r.Failure? ==> r.error == ThresholdExceedsTotal(minSigners, maxSigners)
  {
    if minSigners > maxSigners then Failure(ThresholdExceedsTotal(minSigners, maxSigners)) else Success(Unit)
  }

  /** One commitment file as `round1` writes it. */
  datatype CommitmentFile = CommitmentFile(sessionId: string, signerId: uint16, commitmentHex: string)

  /** What `create-package` saves: the session, the package and the participants in file order. */
  datatype PackageFile = PackageFile(sessionId: string, package: SigningPackageData, signerIds: seq<uint16>)

  /** Every file carries the same session ID as the first one. */
  predicate SameSessionAsFirst(files: seq<CommitmentFile>)
  {
    forall i | 0 <= i < |files| :: files[i].sessionId == files[0].sessionId
  }

  /** Agreeing with the first file is the same as all files agreeing with each other. */
  lemma SameSessionPairwise(files: seq<CommitmentFile>)
    ensures SameSessionAsFirst(files) <==>
      forall i, j | 0 <= i < |files| && 0 <= j < |files| :: files[i].sessionId == files[j].sessionId
  {
    if SameSessionAsFirst(files) {
      forall i, j | 0 <= i < |files| && 0 <= j < |files|
        ensures files[i].sessionId == files[j].sessionId
      {
        assert files[i].sessionId == files[0].sessionId && files[j].sessionId == files[0].sessionId;
      }
    }
  }

  /**
   * `create-package`: at least three files, all of one session; the package
   * lists their commitments and signer IDs in the order the files were given.
   */
  method CreatePackage(files: seq<CommitmentFile>, message: seq<byte>) returns (r: Result<PackageFile, CliError>)
    ensures |files| < MinFiles ==> r == Failure(TooFewCommitmentFiles(|files|))
    ensures r.Success? <==> |files| >= MinFiles && SameSessionAsFirst(files)
    ensures |files| >= MinFiles && !SameSessionAsFirst(files) ==> r == Failure(InconsistentSessionIds)
    ensures r.Success? ==>
      r.value.sessionId == files[0].sessionId && r.value.package.message == message &&
      |r.value.package.commitments| == |files| && |r.value.signerIds| == |files| &&
      forall i | 0 <= i < |files| ::
        r.value.package.commitments[i] == CommitmentData(files[i].signerId, files[i].commitmentHex) &&
        r.value.signerIds[i] == files[i].signerId
  {
    if |files| < MinFiles {
      return Failure(TooFewCommitmentFiles(|files|));
    }
    var commitments: seq<CommitmentData> := [];
    var signerIds: seq<uint16> := [];
    var sessionId: Option<string> := None;
    var i := 0;
    while i < |files|
      invariant 0 <= i <= |files| && |commitments| == i && |signerIds| == i
      invariant i == 0 <==> sessionId.None?
      invariant i > 0 ==> sessionId == Some(files[0].sessionId)
      invariant forall k | 0 <= k < i :: files[k].sessionId == files[0].sessionId
      invariant forall k | 0 <= k < i ::
        commitments[k] == CommitmentData(files[k].signerId, files[k].commitmentHex) && signerIds[k] == files[k].signerId
    {
      var file := files[i];
      if sessionId.Some? {
        if sessionId.value != file.sessionId {
          return Failure(InconsistentSessionIds);
        }
      } else {
        sessionId := Some(file.sessionId);
      }
      commitments := commitments + [CommitmentData(file.signerId, file.commitmentHex)];
      signerIds := signerIds + [file.signerId];
      i := i + 1;
    }
    r := Success(PackageFile(sessionId.value, SigningPackageData(commitments, message), signerIds));
  }

  /** `round2`: the package must belong to the session named on the command line. */
  function Round2Check(argumentSessionId: string, package: PackageFile): (r: Result<Unit, CliError>)
    ensures r.Success? <==> package.sessionId == argumentSessionId
    ensures r.Failure? ==> r.error == SessionIdMismatch(argumentSessionId, package.sessionId)
  {
    if package.sessionId != argumentSessionId then Failure(SessionIdMismatch(argumentSessionId, package.sessionId))
    else Success(Unit)
  }

  /** `aggregate`: at least three share files. */
  function AggregateCheck(shareFileCount: nat): (r: Result<Unit, CliError>)
    ensures r.Success? <==> shareFileCount >= MinFiles
    ensures r.Failure? ==> r.error == TooFewShareFiles(shareFileCount)
  {
    if shareFileCount < MinFiles then Failure(TooFewShareFiles(shareFileCount)) else Success(Unit)
  }

  /**
   * `verify`: the message read from disk must equal the one the signature file
   * stores in hex; a stored message that is not hex fails first.
   */
  function VerifyMessageCheck(message: seq<byte>, storedMessageHex: string): (r: Result<Unit, CliError>)
    ensures r.Success? <==> Hex.Decode(storedMessageHex) == Success(message)
    ensures Hex.Decode(storedMessageHex).Failure? ==> r == Failure(StoredMessageUndecodable(Hex.Decode(storedMessageHex).error))
    ensures Hex.Decode(storedMessageHex).Success? && Hex.Decode(storedMessageHex).value != message ==> r == Failure(MessageMismatch)
  {
    var stored := Hex.Decode(storedMessageHex);
    if stored.Failure? then Failure(StoredMessageUndecodable(stored.error))
    else if message != stored.value then Failure(MessageMismatch)
    else Success(Unit)
  }

  /** A signature file written by `aggregate` (which stores the message's hex) passes this check for that message. */
  lemma VerifyAcceptsOwnMessage(message: seq<byte>)
    ensures VerifyMessageCheck(message, Hex.Encode(message)).Success?
  {
    Hex.DecodeEncode(message);
  }

  /** Any other message is refused. */
  lemma VerifyRejectsOtherMessage(message: seq<byte>, other: seq<byte>)
    requires other != message
    ensures VerifyMessageCheck(other, Hex.Encode(message)) == Failure(MessageMismatch)
  {
    Hex.DecodeEncode(message);
  }

  predicate InDemoRange(id: uint16) { 1 <= id <= DemoSigners }

  /**
   * `demo-basic`: three to five participants, each numbered 1 to 5. The count
   * is checked before the IDs, the IDs in order; repeated IDs pass.
   */
  method DemoBasicCheck(signerIds: seq<uint16>) returns (r: Result<Unit, CliError>)
    ensures |signerIds| < DemoThreshold ==> r == Failure(TooFewDemoSigners(|signerIds|))
    ensures |signerIds| > DemoSigners ==> r == Failure(TooManyDemoSigners(|signerIds|))
    ensures r.Success? <==>
      DemoThreshold <= |signerIds| <= DemoSigners && forall k | 0 <= k < |signerIds| :: InDemoRange(signerIds[k])
    ensures DemoThreshold <= |signerIds| <= DemoSigners ==>
      forall k | 0 <= k < |signerIds| && !InDemoRange(signerIds[k]) && (forall j | 0 <= j < k :: InDemoRange(signerIds[j])) ::
        r == Failure(DemoSignerOutOfRange(signerIds[k]))
  {
    if |signerIds| < DemoThreshold {
      return Failure(TooFewDemoSigners(|signerIds|));
    }
    if |signerIds| > DemoSigners {
      return Failure(TooManyDemoSigners(|signerIds|));
    }
    var i := 0;
    while i < |signerIds|
      invariant 0 <= i <= |signerIds|
      invariant forall k | 0 <= k < i :: InDemoRange(signerIds[k])
    {
      if !InDemoRange(signerIds[i]) {
        return Failure(DemoSignerOutOfRange(signerIds[i]));
      }
      i := i + 1;
    }
    r := Success(Unit);
  }

  /** Repeating a signer does not make `demo-basic` refuse. */
  method DemoAcceptsRepeatedSigner() returns (r: Result<Unit, CliError>)
    ensures r.Success?
  {
    r := DemoBasicCheck([1, 1, 1]);
  }

  /** `commitment_{id}.json`, where `round1` writes when no output is named. */
  function CommitmentFileName(signerId: uint16): string
  {
    "commitment_" + Decimal(signerId) + ".json"
  }

  /** `sig_share_{id}.json`, where `round2` writes when no output is named. */
  function SignatureShareFileName(signerId: uint16): string
  {
    "sig_share_" + Decimal(signerId) + ".json"
  }

  /** The file `round1` writes: the named output, or the signer's default. */
  function Round1OutputPath(output: Option<string>, signerId: uint16): (path: string)
    ensures output.Some? ==> path == output.value
    ensures output.None? ==> path == CommitmentFileName(signerId)
  {
    if output.Some? then output.value else CommitmentFileName(signerId)
  }

  /** The file `round2` writes: the named output, or the signer's default. */
  function Round2OutputPath(output: Option<string>, signerId: uint16): (path: string)
    ensures output.Some? ==> path == output.value
    ensures output.None? ==> path == SignatureShareFileName(signerId)
  {
    if output.Some? then output.value else SignatureShareFileName(signerId)
  }

  /** The ID printed between a fixed prefix and `.json` can be read back. */
  lemma AffixInjective(prefix: string, a: string, b: string)
    requires prefix + a + ".json" == prefix + b + ".json"
    ensures a == b
  {
    var s := prefix + a + ".json";
    assert a == s[|prefix|..|s| - 5];
    assert b == (prefix + b + ".json")[|prefix|..|s| - 5];
  }

  /**
   * Default names never collide: two signers' commitment files differ, two
   * signers' share files differ, and a commitment file is never a share file.
   */
  lemma DefaultNamesDistinct(a: uint16, b: uint16)
    ensures CommitmentFileName(a) == CommitmentFileName(b) ==> a == b
    ensures SignatureShareFileName(a) == SignatureShareFileName(b) ==> a == b
    ensures CommitmentFileName(a) != SignatureShareFileName(b)
  {
    if CommitmentFileName(a) == CommitmentFileName(b) {
      AffixInjective("commitment_", Decimal(a), Decimal(b));
      DecimalInjective(a, b);
    }
    if SignatureShareFileName(a) == SignatureShareFileName(b) {
      AffixInjective("sig_share_", Decimal(a), Decimal(b));
      DecimalInjective(a, b);
    }
    assert CommitmentFileName(a)[0] == 'c' && SignatureShareFileName(b)[0] == 's';
  }
}
