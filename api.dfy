/**
 * The HTTP contract of the signing service: the request and response records,
 * the uniform error body, and the hex codec every `Vec<u8>` field goes through
 * on the wire.
 */
module Api {
  import opened Wrappers
  import opened Primitives
  import Hex

  /** A signing session, named by a UUID; `uuid` is its hyphenated text, which is also its Display form. */
  datatype SessionId = SessionId(uuid: string)

  /** A signer identifier as it appears in the API (`u16`). */
  type SignerIdWire = uint16

  datatype SetupRequest = SetupRequest(maxSigners: SignerIdWire, minSigners: SignerIdWire)

  datatype SetupResponse = SetupResponse(groupPublicKey: string, signerIds: seq<SignerIdWire>, message: string)

  datatype Round1Request = Round1Request(sessionId: SessionId, message: seq<byte>)

  /** `timestamp` is the RFC 3339 text of the clock reading the handler was given. */
  datatype Round1Response = Round1Response(signerId: SignerIdWire, sessionId: SessionId, commitment: string, timestamp: string)

  datatype CommitmentData = CommitmentData(signerId: SignerIdWire, commitment: string)

  datatype SigningPackageData = SigningPackageData(commitments: seq<CommitmentData>, message: seq<byte>)

  datatype Round2Request = Round2Request(sessionId: SessionId, signingPackage: SigningPackageData)

  datatype Round2Response = Round2Response(signerId: SignerIdWire, sessionId: SessionId, signatureShare: string, timestamp: string)

  datatype SignatureShareData = SignatureShareData(signerId: SignerIdWire, signatureShare: string)

  datatype AggregateRequest = AggregateRequest(sessionId: SessionId, signatureShares: seq<SignatureShareData>)

  datatype AggregateResponse = AggregateResponse(sessionId: SessionId, signature: string, verified: bool, message: string)

  /** The uniform error body; `details` is left out of the JSON when it is None. */
  datatype ErrorResponse = ErrorResponse(errorCode: string, message: string, details: Option<string>)

  /** `ErrorResponse::new`: a body with no details. */
  function NewErrorResponse(errorCode: string, message: string): (r: ErrorResponse)
    ensures r.errorCode == errorCode && r.message == message
    ensures r.details.None?
  {
    ErrorResponse(errorCode, message, None)
  }

  /** `ErrorResponse::with_details`: attaches details, whatever was there before, keeping code and message. */
  function WithDetails(e: ErrorResponse, details: string): (r: ErrorResponse)
    ensures r.errorCode == e.errorCode && r.message == e.message
    ensures r.details == Some(details)
  {
    e.(details := Some(details))
  }

  /** Attaching details twice keeps only the second. */
  lemma WithDetailsLastWins(e: ErrorResponse, d1: string, d2: string)
    ensures WithDetails(WithDetails(e, d1), d2) == WithDetails(e, d2)
  {
  }

  /** A body built by `new` and given details differs from the bare one only in its details. */
  lemma NewWithDetails(code: string, message: string, d: string)
    ensures WithDetails(NewErrorResponse(code, message), d) == ErrorResponse(code, message, Some(d))
    ensures WithDetails(NewErrorResponse(code, message), d) != NewErrorResponse(code, message)
  {
  }

  // ---------------------------------------------------------------------------
  // hex_serde
  // ---------------------------------------------------------------------------

  /** `hex_serde::serialize`: the JSON string written for a byte field. */
  function SerializeHex(bytes: seq<byte>): (s: string)
    ensures |s| == 2 * |bytes|
    ensures forall i | 0 <= i < |s| :: Hex.IsLowerHexDigit(s[i])
  {
    Hex.Encode(bytes)
  }

  /** `hex_serde::deserialize`: decodes the JSON string, a decoding error becoming a custom serde error. */
  function DeserializeHex(s: string): (r: Result<seq<byte>, string>)
    ensures r.Success? <==> Hex.Decode(s).Success?
    ensures r.Success? ==> r.value == Hex.Decode(s).value
    ensures r.Failure? ==> r.error == Hex.ErrorText(Hex.Decode(s).error)
  {
    match Hex.Decode(s)
    case Success(bytes) => Success(bytes)
    case Failure(e) => Failure(Hex.ErrorText(e))
  }

  /** Every byte field survives the trip through JSON. */
  lemma HexSerdeRoundTrip(bytes: seq<byte>)
    ensures DeserializeHex(SerializeHex(bytes)) == Success(bytes)
  {
    Hex.DecodeEncode(bytes);
  }

  /** A string of odd length, or one holding a character that is not a hex digit, is refused. */
  lemma HexSerdeRejectsInvalid(s: string)
    requires |s| % 2 == 1 || exists i | 0 <= i < |s| :: !Hex.IsHexDigit(s[i])
    ensures DeserializeHex(s).Failure?
  {
    Hex.DecodeSucceedsIff(s);
  }

  /** Exactly the hex strings are accepted, and they are read back in lower case by `serialize`. */
  lemma HexSerdeAccepts(s: string)
    requires |s| % 2 == 0 && forall i | 0 <= i < |s| :: Hex.IsHexDigit(s[i])
    ensures DeserializeHex(s).Success? && |DeserializeHex(s).value| == |s| / 2
    ensures SerializeHex(DeserializeHex(s).value) == Hex.ToLower(s)
  {
    Hex.DecodeSucceedsIff(s);
    Hex.EncodeDecode(s);
  }
}
