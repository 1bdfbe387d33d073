/**
 * The transport layer of the signing protocol: message metadata, the message
 * kinds and their printed names, the statistics every transport keeps, and the
 * terminal transport that prints each message with a shortened payload.
 *
 * Payload strings are taken to be ASCII, so `payload.len()` (bytes in Rust) is
 * the number of characters here.
 */
module Transport {
  import opened Wrappers
  import opened Primitives

  datatype MessageType = Round1Commitment | SigningPackage | Round2SignatureShare | FinalSignature | Other

  /** `MessageType`'s Display: the variant's own name. */
  function Name(t: MessageType): (s: string)
    ensures |s| > 0
  {
    match t
    case Round1Commitment => "Round1Commitment"
    case SigningPackage => "SigningPackage"
    case Round2SignatureShare => "Round2SignatureShare"
    case FinalSignature => "FinalSignature"
    case Other => "Other"
  }

  /** No two message kinds print alike, so the printed name can stand for the kind. */
  lemma NameInjective(a: MessageType, b: MessageType)
    ensures Name(a) == Name(b) <==> a == b
  {
  }

  /** Sender, receiver and kind of a message; the optional timestamp only decides what is printed. */
  datatype MessageMetadata = MessageMetadata(from: string, to: string, messageType: MessageType)

  /** `TransportStats` (its Default is `EmptyStats`). */
  datatype TransportStats = TransportStats(totalMessages: nat, byType: map<MessageType, nat>, totalBytes: nat)

  const EmptyStats := TransportStats(0, map[], 0)

  /** The per-kind counter, an absent entry reading as zero. */
  function Count<K>(m: map<K, nat>, k: K): nat
  {
    if k in m then m[k] else 0
  }

  /** `*map.entry(k).or_insert(0) += 1`. */
  function Bump<K(!new)>(m: map<K, nat>, k: K): (r: map<K, nat>)
    ensures k in r && Count(r, k) == Count(m, k) + 1
    ensures forall j | j != k :: Count(r, j) == Count(m, j)
    ensures r.Keys == m.Keys + {k}
  {
    m[k := Count(m, k) + 1]
  }

  /** The statistics after one more message of kind `t` with `len` payload bytes. */
  function Record(stats: TransportStats, t: MessageType, len: nat): (r: TransportStats)
    ensures r.totalMessages == stats.totalMessages + 1
    ensures r.totalBytes == stats.totalBytes + len
    ensures Count(r.byType, t) == Count(stats.byType, t) + 1
    ensures forall u | u != t :: Count(r.byType, u) == Count(stats.byType, u)
  {
    TransportStats(stats.totalMessages + 1, Bump(stats.byType, t), stats.totalBytes + len)
  }

  /** Total of the per-kind counters. */
  function SumCounts(m: map<MessageType, nat>): nat
  {
    Count(m, Round1Commitment) + Count(m, SigningPackage) + Count(m, Round2SignatureShare)
      + Count(m, FinalSignature) + Count(m, Other)
  }

  /** The per-kind counters always add up to the message total, starting from the empty statistics. */
  lemma RecordKeepsTotal(stats: TransportStats, t: MessageType, len: nat)
    requires SumCounts(stats.byType) == stats.totalMessages
    ensures SumCounts(Record(stats, t, len).byType) == Record(stats, t, len).totalMessages
  {
    var r := Record(stats, t, len);
    assert Count(r.byType, t) == Count(stats.byType, t) + 1;
  }

  /** The suffix the terminal shows after a cut payload. */
  function LengthNote(n: nat): string
  {
    "... (" + Decimal(n) + " bytes total)"
  }

  /** The payload as shown when full display is off: payloads above 64 bytes are cut to 64 and their length noted. */
  function Preview(payload: string): (r: string)
    ensures |payload| <= 64 ==> r == payload
    ensures |payload| > 64 ==> |r| > 64 && r[..64] == payload[..64] && r[64..] == LengthNote(|payload|)
  {
    if |payload| > 64 then payload[..64] + LengthNote(|payload|) else payload
  }

  /** A cut preview still tells the true length: the digits after "... (" read back as the payload's length. */
  lemma PreviewTellsLength(payload: string)
    requires |payload| > 64
    ensures var digits := Preview(payload)[69..|Preview(payload)| - 13];
      (forall i | 0 <= i < |digits| :: IsDigit(digits[i])) && DecimalValue(digits) == |payload|
  {
    var r := Preview(payload);
    var d := Decimal(|payload|);
    assert r[64..] == "... (" + d + " bytes total)";
    assert r[69..|r| - 13] == d;
    DecimalRoundTrip(|payload|);
  }

  /** Whatever the payload length, the first characters shown (up to 64) are the payload's own. */
  lemma PreviewShowsPayloadPrefix(payload: string, k: nat)
    requires k < |payload| && k < 64
    ensures Preview(payload)[k] == payload[k]
  {
  }

  /** The trait's default `get_stats`: a transport that keeps no statistics reports none. */
  function DefaultGetStats(): (r: Option<TransportStats>)
    ensures r.None?
  {
    None
  }

  /**
   * The terminal transport. `show_full_payload` decides whether a payload is
   * printed whole or as its preview; `stats` counts what was sent.
   */
  class StdoutTransport {
    var showFullPayload: bool
    var stats: TransportStats

    /** `StdoutTransport::new` (also its Default). */
    constructor New()
      ensures !showFullPayload && stats == EmptyStats
    {
      showFullPayload := false;
      stats := EmptyStats;
    }

    /** `StdoutTransport::new_full`. */
    constructor NewFull()
      ensures showFullPayload && stats == EmptyStats
    {
      showFullPayload := true;
      stats := EmptyStats;
    }

    method SetShowFullPayload(showFull: bool)
      modifies this
      ensures showFullPayload == showFull
      ensures stats == old(stats)
    {
      showFullPayload := showFull;
    }

    /** Records the message and returns the payload text the terminal shows for it. */
    method Send(metadata: MessageMetadata, payload: string) returns (shown: string)
      modifies this
      ensures stats == Record(old(stats), metadata.messageType, |payload|)
      ensures showFullPayload == old(showFullPayload)
      ensures shown == if showFullPayload then payload else Preview(payload)
    {
      stats := TransportStats(stats.totalMessages + 1, stats.byType, stats.totalBytes + |payload|);
      stats := stats.(byType := Bump(stats.byType, metadata.messageType));
      if showFullPayload {
        shown := payload;
      } else if |payload| > 64 {
        shown := payload[..64] + LengthNote(|payload|);
      } else {
        shown := payload;
      }
    }

    method GetStats() returns (r: Option<TransportStats>)
      ensures r == Some(stats)
    {
      r := Some(stats);
    }

    /** Zeroes the statistics; the display flag stays as it was. */
    method Reset()
      modifies this
      ensures stats == EmptyStats
      ensures showFullPayload == old(showFullPayload)
    {
      stats := EmptyStats;
    }
  }

  /** The module's own test: one commitment sent through a fresh transport is counted once. */
  method StdoutTransportBasic() returns (stats: TransportStats)
    ensures stats.totalMessages == 1
    ensures Count(stats.byType, Round1Commitment) == 1
    ensures stats.totalBytes == 8
  {
    var transport := new StdoutTransport.New();
    var _ := transport.Send(MessageMetadata("signer_1", "coordinator", Round1Commitment), "deadbeef");
    var got := transport.GetStats();
    stats := got.value;
  }
}
