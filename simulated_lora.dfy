/**
 * The simulated LoRa link: every message is cut into fragments of
 * `fragment_size` bytes, each fragment is tried until it gets through or
 * `max_retries` losses have been counted, and a shared state records the
 * latest events (at most 100), the dashboard's console lines (at most 500), a
 * clamped signal strength, the progress of the current message and the
 * message, byte, per-kind and retry counters.
 *
 * The random packet loss is a stream `lossAt`: the k-th random draw of the
 * transport says "lost" exactly when `lossAt(k)` holds, and `draws` counts the
 * draws made so far. The elapsed transmission time is given to `Send`.
 */
module SimulatedLora {
  import opened Wrappers
  import opened Primitives
  import opened Transport

  /** `LoRaConfig`; the loss rate only shapes the loss stream, so the model carries it without using it. */
  datatype LoRaConfig = LoRaConfig(latencyMs: nat, packetLossRate: real, fragmentSize: nat, maxRetries: nat)

  const DefaultConfig := LoRaConfig(500, 0.1, 64, 3)

  datatype TransportEvent =
    | TransmitStart(from: string, to: string, messageType: MessageType, totalBytes: nat, fragments: nat)
    | TransmitFragment(fragmentId: nat, totalFragments: nat, bytes: nat)
    | PacketLost(fragmentId: nat, retryCount: nat)
    | RetrySuccess(fragmentId: nat, retryCount: nat)
    | TransmitComplete(totalTimeMs: nat, retries: nat)

  const EventCap: nat := 100
  const CliCap: nat := 500
  const RssiFloor := -120
  const RssiCeiling := -50

  // ---------------------------------------------------------------------------
  // Bounded logs
  // ---------------------------------------------------------------------------

  /** The last `n` entries of `s` (all of them when there are fewer). */
  function LastN<T>(s: seq<T>, n: nat): (r: seq<T>)
    ensures |r| == Min(|s|, n)
    ensures r == s[|s| - |r|..]
  {
    if |s| <= n then s else s[|s| - n..]
  }

  /** `log.push(x); if log.len() > cap { log.remove(0); }` */
  function PushCapped<T>(log: seq<T>, x: T, cap: nat): seq<T>
  {
    var l := log + [x];
    if |l| > cap then l[1..] else l
  }

  /** A log that never held more than `cap` entries stays at most `cap` long, and the entry it drops is the oldest. */
  lemma PushCappedBound<T>(log: seq<T>, x: T, cap: nat)
    requires |log| <= cap
    ensures |PushCapped(log, x, cap)| <= cap
    ensures |PushCapped(log, x, cap)| > 0 ==> PushCapped(log, x, cap)[|PushCapped(log, x, cap)| - 1] == x || cap == 0
    ensures |log| < cap ==> PushCapped(log, x, cap) == log + [x]
    ensures |log| == cap && cap > 0 ==> PushCapped(log, x, cap) == log[1..] + [x]
  {
  }

  /** Pushing onto the window of a history gives the window of the longer history. */
  lemma PushCappedWindow<T>(h: seq<T>, x: T, cap: nat)
    ensures PushCapped(LastN(h, cap), x, cap) == LastN(h + [x], cap)
  {
    var w := LastN(h, cap);
    var l := w + [x];
    var h' := h + [x];
    if |h| < cap {
      assert w == h;
    } else {
      assert |l| == cap + 1;
      assert l[1..] == h'[|h'| - cap..];
    }
  }

  /** A capped log is the window of everything ever pushed onto it. */
  lemma WindowOfWindow<T>(log: seq<T>, cap: nat)
    requires |log| <= cap
    ensures LastN(log, cap) == log
  {
  }

  // ---------------------------------------------------------------------------
  // Signal strength
  // ---------------------------------------------------------------------------

  /** One draw's effect on RSSI: a loss costs 5 dBm down to -120, a delivery gains 2 up to -50. */
  function RssiStep(rssi: int, lost: bool): int
  {
    if lost then Max(rssi - 5, RssiFloor) else Min(rssi + 2, RssiCeiling)
  }

  /** RSSI after the `k` draws numbered d .. d+k-1. */
  function RssiAfter(rssi: int, lossAt: nat -> bool, d: nat, k: nat): int
    decreases k
  {
    if k == 0 then rssi else RssiAfter(RssiStep(rssi, lossAt(d)), lossAt, d + 1, k - 1)
  }

  lemma {:induction false} RssiAfterSplit(rssi: int, lossAt: nat -> bool, d: nat, a: nat, b: nat)
    ensures RssiAfter(rssi, lossAt, d, a + b) == RssiAfter(RssiAfter(rssi, lossAt, d, a), lossAt, d + a, b)
    decreases a
  {
    if a > 0 {
      RssiAfterSplit(RssiStep(rssi, lossAt(d)), lossAt, d + 1, a - 1, b);
    }
  }

  lemma RssiStepInRange(rssi: int, lost: bool)
    requires RssiFloor <= rssi <= RssiCeiling
    ensures RssiFloor <= RssiStep(rssi, lost) <= RssiCeiling
    ensures lost ==> RssiStep(rssi, lost) <= rssi
    ensures !lost ==> RssiStep(rssi, lost) >= rssi
  {
  }

  /** From anywhere in [-120, -50] (the default -80 included), any run of draws keeps RSSI there. */
  lemma {:induction false} RssiAfterInRange(rssi: int, lossAt: nat -> bool, d: nat, k: nat)
    requires RssiFloor <= rssi <= RssiCeiling
    ensures RssiFloor <= RssiAfter(rssi, lossAt, d, k) <= RssiCeiling
    decreases k
  {
    if k > 0 {
      RssiStepInRange(rssi, lossAt(d));
      RssiAfterInRange(RssiStep(rssi, lossAt(d)), lossAt, d + 1, k - 1);
    }
  }

  // ---------------------------------------------------------------------------
  // Fragmentation
  // ---------------------------------------------------------------------------

  /** `(total_bytes + fragment_size - 1) / fragment_size`. */
  function FragmentCount(n: nat, size: nat): nat
    requires size > 0
  {
    (n + size - 1) / size
  }

  /** Start of fragment i: `i * fragment_size`, clamped to the payload. */
  function FragmentStart(n: nat, size: nat, i: nat): nat
  {
    Min(i * size, n)
  }

  /** End of fragment i: `min((i + 1) * fragment_size, total_bytes)`. */
  function FragmentEnd(n: nat, size: nat, i: nat): nat
  {
    Min(i * size + size, n)
  }

  lemma MulMono(a: nat, b: nat, size: nat)
    requires a <= b
    ensures a * size <= b * size
  {
  }

  /** The fragment count is the ceiling of n / size. */
  lemma {:induction false} FragmentCountIsCeiling(n: nat, size: nat)
    requires size > 0
    ensures FragmentCount(n, size) * size >= n
    ensures FragmentCount(n, size) > 0 ==> (FragmentCount(n, size) - 1) * size < n
    ensures FragmentCount(n, size) == 0 <==> n == 0
  {
    var q := FragmentCount(n, size);
    var m := n + size - 1;
    assert m == q * size + m % size;
    assert m % size < size;
    if q > 0 {
      assert (q - 1) * size == q * size - size;
    }
  }

  /** Every fragment the loop visits lies inside the payload, is non-empty and holds at most `size` bytes. */
  lemma FragmentInside(n: nat, size: nat, i: nat)
    requires size > 0 && i < FragmentCount(n, size)
    ensures i * size < n
    ensures FragmentStart(n, size, i) == i * size
    ensures 0 < FragmentEnd(n, size, i) - FragmentStart(n, size, i) <= size
  {
    FragmentCountIsCeiling(n, size);
    MulMono(i, FragmentCount(n, size) - 1, size);
  }

  /** The payload bytes of fragment i. */
  function Fragment(p: string, size: nat, i: nat): string
  {
    MulMono(i, i + 1, size);
    p[FragmentStart(|p|, size, i)..FragmentEnd(|p|, size, i)]
  }

  /** Fragments i .. total-1, concatenated. */
  function FragmentsFrom(p: string, size: nat, i: nat, total: nat): string
    decreases total - i
  {
    if i >= total then "" else Fragment(p, size, i) + FragmentsFrom(p, size, i + 1, total)
  }

  lemma {:induction false} FragmentsFromSuffix(p: string, size: nat, i: nat)
    requires size > 0 && i <= FragmentCount(|p|, size)
    ensures FragmentsFrom(p, size, i, FragmentCount(|p|, size)) == p[FragmentStart(|p|, size, i)..]
    decreases FragmentCount(|p|, size) - i
  {
    var total := FragmentCount(|p|, size);
    FragmentCountIsCeiling(|p|, size);
    if i == total {
      assert total * size >= |p|;
    } else {
      FragmentsFromSuffix(p, size, i + 1);
      FragmentInside(|p|, size, i);
      assert FragmentStart(|p|, size, i + 1) == FragmentEnd(|p|, size, i) by {
        assert (i + 1) * size == i * size + size;
      }
    }
  }

  /** The fragments, in order, put the payload back together. */
  lemma FragmentsCoverPayload(p: string, size: nat)
    requires size > 0
    ensures FragmentsFrom(p, size, 0, FragmentCount(|p|, size)) == p
  {
    FragmentsFromSuffix(p, size, 0);
  }

  // ---------------------------------------------------------------------------
  // The retry loop of one fragment, as functions of the loss stream
  // ---------------------------------------------------------------------------

  /**
   * Events pushed while fragment i is tried, from draw d on, with `retry` losses
   * already counted for it: a delivery pushes TransmitFragment and ends the
   * loop; a loss pushes PacketLost with retry 0, and then, unless the loss
   * count has reached `max_retries`, a PacketLost with the new count and tries again.
   */
  function AttemptEvents(lossAt: nat -> bool, maxR: nat, d: nat, i: nat, total: nat, len: nat, retry: nat): seq<TransportEvent>
    decreases maxR - retry
  {
    if !lossAt(d) then [TransmitFragment(i, total, len)]
    else if retry + 1 >= maxR then [PacketLost(i, 0)]
    else [PacketLost(i, 0), PacketLost(i, retry + 1)] + AttemptEvents(lossAt, maxR, d + 1, i, total, len, retry + 1)
  }

  /** Number of draws the retry loop takes. */
  function AttemptDraws(lossAt: nat -> bool, maxR: nat, d: nat, retry: nat): nat
    decreases maxR - retry
  {
    if !lossAt(d) || retry + 1 >= maxR then 1
    else 1 + AttemptDraws(lossAt, maxR, d + 1, retry + 1)
  }

  /** Number of losses the retry loop counts. */
  function AttemptLosses(lossAt: nat -> bool, maxR: nat, d: nat, retry: nat): nat
    decreases maxR - retry
  {
    if !lossAt(d) then 0
    else if retry + 1 >= maxR then 1
    else 1 + AttemptLosses(lossAt, maxR, d + 1, retry + 1)
  }

  /** The events of one pass of the retry loop whose draw came out `lost`. */
  function StepEvents(lost: bool, maxR: nat, i: nat, total: nat, len: nat, retry: nat): seq<TransportEvent>
  {
    if !lost then [TransmitFragment(i, total, len)]
    else if retry + 1 >= maxR then [PacketLost(i, 0)]
    else [PacketLost(i, 0), PacketLost(i, retry + 1)]
  }

  /** Number of lost draws among d .. d+k-1. */
  function CountLost(lossAt: nat -> bool, d: nat, k: nat): nat
    decreases k
  {
    if k == 0 then 0 else (if lossAt(d) then 1 else 0) + CountLost(lossAt, d + 1, k - 1)
  }

  lemma {:induction false} CountLostSplit(lossAt: nat -> bool, d: nat, a: nat, b: nat)
    ensures CountLost(lossAt, d, a + b) == CountLost(lossAt, d, a) + CountLost(lossAt, d + a, b)
    decreases a
  {
    if a > 0 {
      CountLostSplit(lossAt, d + 1, a - 1, b);
    }
  }

  /**
   * The retry loop stops at the first delivery or once `max_retries` losses are
   * counted: at least one draw and at most max(1, max_retries) of them, every
   * draw but the last lost, and the last one delivered unless the count ran out.
   */
  lemma {:induction false} AttemptShape(lossAt: nat -> bool, maxR: nat, d: nat, retry: nat)
    requires retry == 0 || retry < maxR
    ensures var k := AttemptDraws(lossAt, maxR, d, retry);
      1 <= k <= Max(1, maxR - retry) &&
      (forall j | d <= j < d + k - 1 :: lossAt(j)) &&
      (lossAt(d + k - 1) ==> retry + k >= maxR)
    decreases maxR - retry
  {
    if lossAt(d) && retry + 1 < maxR {
      AttemptShape(lossAt, maxR, d + 1, retry + 1);
    }
  }

  /**
   * `max_retries` bounds the sends of a fragment, not its retransmissions:
   * with `max_retries >= 1` a fragment is retransmitted at most
   * `max_retries - 1` times, and a fragment lost on every send is sent
   * exactly `max_retries` times.
   */
  lemma RetransmissionsBelowMaxRetries(lossAt: nat -> bool, maxR: nat, d: nat)
    requires maxR >= 1
    ensures AttemptDraws(lossAt, maxR, d, 0) - 1 <= maxR - 1
    ensures (forall j | d <= j < d + maxR :: lossAt(j)) ==> AttemptDraws(lossAt, maxR, d, 0) == maxR
  {
    AttemptShape(lossAt, maxR, d, 0);
    if forall j | d <= j < d + maxR :: lossAt(j) {
      AllLostDraws(lossAt, maxR, d, 0);
    }
  }

  lemma {:induction false} AllLostDraws(lossAt: nat -> bool, maxR: nat, d: nat, retry: nat)
    requires retry < maxR
    requires forall j | d <= j < d + maxR - retry :: lossAt(j)
    ensures AttemptDraws(lossAt, maxR, d, retry) == maxR - retry
    decreases maxR - retry
  {
    if retry + 1 < maxR {
      AllLostDraws(lossAt, maxR, d + 1, retry + 1);
    }
  }

  /** Every loss the retry loop counts is a lost draw, and every lost draw is counted. */
  lemma {:induction false} AttemptLossesCounted(lossAt: nat -> bool, maxR: nat, d: nat, retry: nat)
    ensures AttemptLosses(lossAt, maxR, d, retry) == CountLost(lossAt, d, AttemptDraws(lossAt, maxR, d, retry))
    decreases maxR - retry
  {
    if lossAt(d) && retry + 1 < maxR {
      AttemptLossesCounted(lossAt, maxR, d + 1, retry + 1);
    }
  }

  /** The retry loop pushes only deliveries and losses, and ends with one TransmitFragment exactly when the fragment got through. */
  lemma {:induction false} AttemptEventsShape(lossAt: nat -> bool, maxR: nat, d: nat, i: nat, total: nat, len: nat, retry: nat)
    ensures var es := AttemptEvents(lossAt, maxR, d, i, total, len, retry);
      |es| > 0 &&
      FragmentTraffic(es) &&
      (forall k | 0 <= k < |es| - 1 :: es[k].PacketLost?) &&
      (es[|es| - 1].TransmitFragment? <==> !lossAt(d + AttemptDraws(lossAt, maxR, d, retry) - 1))
    decreases maxR - retry
  {
    if lossAt(d) && retry + 1 < maxR {
      AttemptEventsShape(lossAt, maxR, d + 1, i, total, len, retry + 1);
    }
  }

  // ---------------------------------------------------------------------------
  // A whole message, as functions of the loss stream
  // ---------------------------------------------------------------------------

  /** Length of fragment i of an n-byte payload. */
  function FragmentLength(n: nat, size: nat, i: nat): nat
  {
    if FragmentEnd(n, size, i) >= FragmentStart(n, size, i) then FragmentEnd(n, size, i) - FragmentStart(n, size, i) else 0
  }

  /** Events of fragments i .. total-1, the first of them tried from draw d on. */
  function FragmentEventsFrom(lossAt: nat -> bool, maxR: nat, d: nat, i: nat, total: nat, size: nat, n: nat): seq<TransportEvent>
    decreases total - i
  {
    if i >= total then []
    else
      AttemptEvents(lossAt, maxR, d, i, total, FragmentLength(n, size, i), 0)
      + FragmentEventsFrom(lossAt, maxR, d + AttemptDraws(lossAt, maxR, d, 0), i + 1, total, size, n)
  }

  function DrawsFrom(lossAt: nat -> bool, maxR: nat, d: nat, i: nat, total: nat): nat
    decreases total - i
  {
    if i >= total then 0
    else
      AttemptDraws(lossAt, maxR, d, 0) + DrawsFrom(lossAt, maxR, d + AttemptDraws(lossAt, maxR, d, 0), i + 1, total)
  }

  function LossesFrom(lossAt: nat -> bool, maxR: nat, d: nat, i: nat, total: nat): nat
    decreases total - i
  {
    if i >= total then 0
    else
      AttemptLosses(lossAt, maxR, d, 0) + LossesFrom(lossAt, maxR, d + AttemptDraws(lossAt, maxR, d, 0), i + 1, total)
  }

  /** Every fragment takes at least one draw and at most max(1, max_retries). */
  lemma {:induction false} DrawsFromBounds(lossAt: nat -> bool, maxR: nat, d: nat, i: nat, total: nat)
    requires i <= total
    ensures total - i <= DrawsFrom(lossAt, maxR, d, i, total) <= (total - i) * Max(1, maxR)
    decreases total - i
  {
    if i < total {
      AttemptShape(lossAt, maxR, d, 0);
      DrawsFromBounds(lossAt, maxR, d + AttemptDraws(lossAt, maxR, d, 0), i + 1, total);
      assert (total - i) * Max(1, maxR) == Max(1, maxR) + (total - (i + 1)) * Max(1, maxR);
    }
  }

  /** The retries a message reports are exactly its lost draws. */
  lemma {:induction false} LossesFromCounted(lossAt: nat -> bool, maxR: nat, d: nat, i: nat, total: nat)
    ensures LossesFrom(lossAt, maxR, d, i, total) == CountLost(lossAt, d, DrawsFrom(lossAt, maxR, d, i, total))
    decreases total - i
  {
    if i < total {
      var a := AttemptDraws(lossAt, maxR, d, 0);
      AttemptLossesCounted(lossAt, maxR, d, 0);
      LossesFromCounted(lossAt, maxR, d + a, i + 1, total);
      CountLostSplit(lossAt, d, a, DrawsFrom(lossAt, maxR, d + a, i + 1, total));
    }
  }

  /** Only fragment deliveries and losses. */
  predicate FragmentTraffic(es: seq<TransportEvent>)
  {
    forall k | 0 <= k < |es| :: es[k].TransmitFragment? || es[k].PacketLost?
  }

  lemma FragmentTrafficConcat(a: seq<TransportEvent>, b: seq<TransportEvent>)
    requires FragmentTraffic(a) && FragmentTraffic(b)
    ensures FragmentTraffic(a + b)
  {
    forall k | 0 <= k < |a + b| ensures (a + b)[k] == if k < |a| then a[k] else b[k - |a|] {
    }
  }

  lemma {:induction false} FragmentEventsFromKinds(lossAt: nat -> bool, maxR: nat, d: nat, i: nat, total: nat, size: nat, n: nat)
    ensures FragmentTraffic(FragmentEventsFrom(lossAt, maxR, d, i, total, size, n))
    decreases total - i
  {
    if i < total {
      var a := AttemptEvents(lossAt, maxR, d, i, total, FragmentLength(n, size, i), 0);
      var b := FragmentEventsFrom(lossAt, maxR, d + AttemptDraws(lossAt, maxR, d, 0), i + 1, total, size, n);
      AttemptEventsShape(lossAt, maxR, d, i, total, FragmentLength(n, size, i), 0);
      FragmentEventsFromKinds(lossAt, maxR, d + AttemptDraws(lossAt, maxR, d, 0), i + 1, total, size, n);
      FragmentTrafficConcat(a, b);
    }
  }

  /** The events one message adds to the log, in order. */
  function MessageEvents(lossAt: nat -> bool, config: LoRaConfig, d: nat, metadata: MessageMetadata, n: nat, elapsedMs: nat): seq<TransportEvent>
    requires config.fragmentSize > 0
  {
    var total := FragmentCount(n, config.fragmentSize);
    [TransmitStart(metadata.from, metadata.to, metadata.messageType, n, total)]
      + FragmentEventsFrom(lossAt, config.maxRetries, d, 0, total, config.fragmentSize, n)
      + [TransmitComplete(elapsedMs, LossesFrom(lossAt, config.maxRetries, d, 0, total))]
  }

  function MessageDraws(lossAt: nat -> bool, config: LoRaConfig, d: nat, n: nat): nat
    requires config.fragmentSize > 0
  {
    DrawsFrom(lossAt, config.maxRetries, d, 0, FragmentCount(n, config.fragmentSize))
  }

  function MessageLosses(lossAt: nat -> bool, config: LoRaConfig, d: nat, n: nat): nat
    requires config.fragmentSize > 0
  {
    LossesFrom(lossAt, config.maxRetries, d, 0, FragmentCount(n, config.fragmentSize))
  }

  /**
   * A message's events open with its TransmitStart, close with a
   * TransmitComplete that reports the message's lost draws, and hold only
   * fragment deliveries and losses in between; RetrySuccess never appears.
   */
  lemma MessageEventsShape(lossAt: nat -> bool, config: LoRaConfig, d: nat, metadata: MessageMetadata, n: nat, elapsedMs: nat)
    requires config.fragmentSize > 0
    ensures var es := MessageEvents(lossAt, config, d, metadata, n, elapsedMs);
      |es| >= 2 &&
      es[0] == TransmitStart(metadata.from, metadata.to, metadata.messageType, n, FragmentCount(n, config.fragmentSize)) &&
      es[|es| - 1] == TransmitComplete(elapsedMs, CountLost(lossAt, d, MessageDraws(lossAt, config, d, n))) &&
      (forall k | 0 < k < |es| - 1 :: es[k].TransmitFragment? || es[k].PacketLost?) &&
      (forall k | 0 <= k < |es| :: !es[k].RetrySuccess?)
  {
    var total := FragmentCount(n, config.fragmentSize);
    var mid := FragmentEventsFrom(lossAt, config.maxRetries, d, 0, total, config.fragmentSize, n);
    FragmentEventsFromKinds(lossAt, config.maxRetries, d, 0, total, config.fragmentSize, n);
    LossesFromCounted(lossAt, config.maxRetries, d, 0, total);
    var first := [TransmitStart(metadata.from, metadata.to, metadata.messageType, n, total)];
    var last := [TransmitComplete(elapsedMs, LossesFrom(lossAt, config.maxRetries, d, 0, total))];
    var es := MessageEvents(lossAt, config, d, metadata, n, elapsedMs);
    assert es == first + mid + last;
    forall k | 0 < k < |es| - 1 ensures es[k].TransmitFragment? || es[k].PacketLost? {
      assert es[k] == mid[k - 1];
      assert mid[k - 1].TransmitFragment? || mid[k - 1].PacketLost?;
    }
  }

  // ---------------------------------------------------------------------------
  // The shared state
  // ---------------------------------------------------------------------------

  /** The value of a `LoRaTransportState`; `progress` is exact where Rust divides two f64. */
  datatype LoRaStateValue = LoRaStateValue(
    currentPhase: string,
    totalMessages: nat,
    totalBytes: nat,
    progress: real,
    rssi: int,
    recentEvents: seq<TransportEvent>,
    byType: map<string, nat>,
    totalRetries: nat,
    cliOutput: seq<string>)

  /** `LoRaTransportState::default`. */
  const DefaultStateValue := LoRaStateValue("Idle", 0, 0, 0.0, -80, [], map[], 0, [])

  /** The bounds the transport keeps: both logs capped, RSSI clamped. */
  predicate ValueValid(v: LoRaStateValue)
  {
    |v.recentEvents| <= EventCap && |v.cliOutput| <= CliCap && RssiFloor <= v.rssi <= RssiCeiling
  }

  /** The two values agree on everything but the event log, RSSI and progress. */
  predicate SameCounters(a: LoRaStateValue, b: LoRaStateValue)
  {
    a.currentPhase == b.currentPhase && a.totalMessages == b.totalMessages && a.totalBytes == b.totalBytes &&
    a.byType == b.byType && a.totalRetries == b.totalRetries && a.cliOutput == b.cliOutput
  }

  // ---------------------------------------------------------------------------
  // The transmission, step by step, as functions on the state value
  // ---------------------------------------------------------------------------

  /** One pass of the retry loop: the attempt (event, RSSI, progress), then the retry notice if there is one. */
  function RoundValue(v: LoRaStateValue, lost: bool, maxR: nat, i: nat, total: nat, len: nat, retry: nat): LoRaStateValue
    requires i < total
  {
    var e := if lost then PacketLost(i, 0) else TransmitFragment(i, total, len);
    var v1 := v.(recentEvents := PushCapped(v.recentEvents, e, EventCap), rssi := RssiStep(v.rssi, lost),
      progress := (i + 1) as real / total as real);
    if lost && retry + 1 < maxR then v1.(recentEvents := PushCapped(v1.recentEvents, PacketLost(i, retry + 1), EventCap))
    else v1
  }

  /** The whole retry loop of fragment i from draw d on, `retry` losses counted. */
  function AttemptValue(v: LoRaStateValue, lossAt: nat -> bool, maxR: nat, d: nat, i: nat, total: nat, len: nat, retry: nat): LoRaStateValue
    requires i < total
    decreases maxR - retry
  {
    var v1 := RoundValue(v, lossAt(d), maxR, i, total, len, retry);
    if lossAt(d) && retry + 1 < maxR then AttemptValue(v1, lossAt, maxR, d + 1, i, total, len, retry + 1) else v1
  }

  /** Fragments i .. total-1, the first tried from draw d on. */
  function FragmentsValue(v: LoRaStateValue, lossAt: nat -> bool, maxR: nat, d: nat, i: nat, total: nat, size: nat, n: nat): LoRaStateValue
    decreases total - i
  {
    if i >= total then v
    else
      FragmentsValue(AttemptValue(v, lossAt, maxR, d, i, total, FragmentLength(n, size, i), 0),
        lossAt, maxR, d + AttemptDraws(lossAt, maxR, d, 0), i + 1, total, size, n)
  }

  /** `transmit_with_fragmentation`: phase and TransmitStart, the fragments, then the retry total and TransmitComplete. */
  function MessageValue(v: LoRaStateValue, lossAt: nat -> bool, config: LoRaConfig, d: nat, metadata: MessageMetadata, n: nat, elapsedMs: nat): LoRaStateValue
    requires config.fragmentSize > 0
  {
    var total := FragmentCount(n, config.fragmentSize);
    var retries := MessageLosses(lossAt, config, d, n);
    var v1 := v.(currentPhase := Name(metadata.messageType),
      recentEvents := PushCapped(v.recentEvents, TransmitStart(metadata.from, metadata.to, metadata.messageType, n, total), EventCap));
    var v2 := FragmentsValue(v1, lossAt, config.maxRetries, d, 0, total, config.fragmentSize, n);
    v2.(totalRetries := v2.totalRetries + retries,
      recentEvents := PushCapped(v2.recentEvents, TransmitComplete(elapsedMs, retries), EventCap))
  }

  /** Pushing one event onto a valid value keeps it valid and extends the window's history by that event. */
  lemma PushValueSpec(v: LoRaStateValue, h: seq<TransportEvent>, e: TransportEvent)
    requires ValueValid(v) && v.recentEvents == LastN(h, EventCap)
    ensures var r := v.(recentEvents := PushCapped(v.recentEvents, e, EventCap));
      ValueValid(r) && r.recentEvents == LastN(h + [e], EventCap)
  {
    PushCappedWindow(h, e, EventCap);
    PushCappedBound(v.recentEvents, e, EventCap);
  }

  lemma RoundValueSpec(v: LoRaStateValue, h: seq<TransportEvent>, lost: bool, maxR: nat, i: nat, total: nat, len: nat, retry: nat)
    requires i < total && ValueValid(v) && v.recentEvents == LastN(h, EventCap)
    ensures var r := RoundValue(v, lost, maxR, i, total, len, retry);
      ValueValid(r) && SameCounters(v, r) &&
      r.recentEvents == LastN(h + StepEvents(lost, maxR, i, total, len, retry), EventCap) &&
      r.rssi == RssiStep(v.rssi, lost) && r.progress == (i + 1) as real / total as real
  {
    var e := if lost then PacketLost(i, 0) else TransmitFragment(i, total, len);
    var p := (i + 1) as real / total as real;
    PushValueSpec(v, h, e);
    var v0 := v.(recentEvents := PushCapped(v.recentEvents, e, EventCap));
    RssiStepInRange(v.rssi, lost);
    var v1 := v0.(rssi := RssiStep(v.rssi, lost), progress := p);
    assert ValueValid(v1) && v1.recentEvents == LastN(h + [e], EventCap);
    if lost && retry + 1 < maxR {
      var e2 := PacketLost(i, retry + 1);
      PushValueSpec(v1, h + [e], e2);
      assert StepEvents(lost, maxR, i, total, len, retry) == [e, e2];
      assert h + [e] + [e2] == h + [e, e2];
    } else {
      assert StepEvents(lost, maxR, i, total, len, retry) == [e];
    }
  }

  /**
   * The retry loop as the state sees it: its events are appended to the
   * window, RSSI follows its draws, progress marks fragment i as sent, the
   * bounds hold and no counter moves.
   */
  lemma {:induction false} AttemptValueSpec(v: LoRaStateValue, h: seq<TransportEvent>, lossAt: nat -> bool, maxR: nat, d: nat, i: nat, total: nat, len: nat, retry: nat)
    requires i < total && ValueValid(v) && v.recentEvents == LastN(h, EventCap)
    ensures var r := AttemptValue(v, lossAt, maxR, d, i, total, len, retry);
      ValueValid(r) && SameCounters(v, r) &&
      r.recentEvents == LastN(h + AttemptEvents(lossAt, maxR, d, i, total, len, retry), EventCap) &&
      r.rssi == RssiAfter(v.rssi, lossAt, d, AttemptDraws(lossAt, maxR, d, retry)) &&
      r.progress == (i + 1) as real / total as real
    decreases maxR - retry
  {
    var step := StepEvents(lossAt(d), maxR, i, total, len, retry);
    RoundValueSpec(v, h, lossAt(d), maxR, i, total, len, retry);
    var v1 := RoundValue(v, lossAt(d), maxR, i, total, len, retry);
    if lossAt(d) && retry + 1 < maxR {
      AttemptValueSpec(v1, h + step, lossAt, maxR, d + 1, i, total, len, retry + 1);
      assert AttemptEvents(lossAt, maxR, d, i, total, len, retry) == step + AttemptEvents(lossAt, maxR, d + 1, i, total, len, retry + 1);
      assert h + step + AttemptEvents(lossAt, maxR, d + 1, i, total, len, retry + 1) == h + AttemptEvents(lossAt, maxR, d, i, total, len, retry);
    } else {
      assert AttemptEvents(lossAt, maxR, d, i, total, len, retry) == step;
    }
  }

  /** One fragment's attempt followed by the rest of the fragment loop, as one step of the state. */
  lemma FragmentsCombine(v: LoRaStateValue, v1: LoRaStateValue, r: LoRaStateValue, h: seq<TransportEvent>, es: seq<TransportEvent>, rest: seq<TransportEvent>,
                         lossAt: nat -> bool, d: nat, a: nat, b: nat, i: nat, total: nat)
    requires i < total
    requires SameCounters(v, v1) && v1.rssi == RssiAfter(v.rssi, lossAt, d, a) && v1.progress == (i + 1) as real / total as real
    requires ValueValid(r) && SameCounters(v1, r) && r.recentEvents == LastN(h + es + rest, EventCap) &&
      r.rssi == RssiAfter(v1.rssi, lossAt, d + a, b) && r.progress == (if i + 1 < total then 1.0 else v1.progress)
    ensures SameCounters(v, r) && r.recentEvents == LastN(h + (es + rest), EventCap) &&
      r.rssi == RssiAfter(v.rssi, lossAt, d, a + b) && r.progress == 1.0
  {
    RssiAfterSplit(v.rssi, lossAt, d, a, b);
    assert h + es + rest == h + (es + rest);
    if i + 1 == total {
      assert v1.progress == total as real / total as real == 1.0;
    }
  }

  /** The fragment loop as the state sees it; progress ends at 1 once any fragment was sent. */
  lemma {:induction false} FragmentsValueSpec(v: LoRaStateValue, h: seq<TransportEvent>, lossAt: nat -> bool, maxR: nat, d: nat, i: nat, total: nat, size: nat, n: nat)
    requires ValueValid(v) && v.recentEvents == LastN(h, EventCap)
    ensures var r := FragmentsValue(v, lossAt, maxR, d, i, total, size, n);
      ValueValid(r) && SameCounters(v, r) &&
      r.recentEvents == LastN(h + FragmentEventsFrom(lossAt, maxR, d, i, total, size, n), EventCap) &&
      r.rssi == RssiAfter(v.rssi, lossAt, d, DrawsFrom(lossAt, maxR, d, i, total)) &&
      r.progress == (if i < total then 1.0 else v.progress)
    decreases total - i
  {
    if i < total {
      var len := FragmentLength(n, size, i);
      var a := AttemptDraws(lossAt, maxR, d, 0);
      var es := AttemptEvents(lossAt, maxR, d, i, total, len, 0);
      AttemptValueSpec(v, h, lossAt, maxR, d, i, total, len, 0);
      var v1 := AttemptValue(v, lossAt, maxR, d, i, total, len, 0);
      FragmentsValueSpec(v1, h + es, lossAt, maxR, d + a, i + 1, total, size, n);
      FragmentsCombine(v, v1, FragmentsValue(v1, lossAt, maxR, d + a, i + 1, total, size, n), h, es,
        FragmentEventsFrom(lossAt, maxR, d + a, i + 1, total, size, n), lossAt, d, a, DrawsFrom(lossAt, maxR, d + a, i + 1, total), i, total);
    }
  }

  /**
   * What one message does to the shared state: the phase becomes the kind's
   * name, the window gains exactly the message's events, RSSI follows the
   * message's draws, progress reaches 1 when there was a fragment, the retry
   * total grows by the message's losses, and the bounds hold.
   */
  lemma MessageValueSpec(v: LoRaStateValue, lossAt: nat -> bool, config: LoRaConfig, d: nat, metadata: MessageMetadata, n: nat, elapsedMs: nat)
    requires config.fragmentSize > 0 && ValueValid(v)
    ensures var r := MessageValue(v, lossAt, config, d, metadata, n, elapsedMs);
      ValueValid(r) &&
      r.currentPhase == Name(metadata.messageType) &&
      r.recentEvents == LastN(v.recentEvents + MessageEvents(lossAt, config, d, metadata, n, elapsedMs), EventCap) &&
      r.rssi == RssiAfter(v.rssi, lossAt, d, MessageDraws(lossAt, config, d, n)) &&
      r.progress == (if n > 0 then 1.0 else v.progress) &&
      r.totalRetries == v.totalRetries + MessageLosses(lossAt, config, d, n) &&
      r.totalMessages == v.totalMessages && r.totalBytes == v.totalBytes &&
      r.byType == v.byType && r.cliOutput == v.cliOutput
  {
    var total := FragmentCount(n, config.fragmentSize);
    FragmentCountIsCeiling(n, config.fragmentSize);
    var retries := MessageLosses(lossAt, config, d, n);
    var start := TransmitStart(metadata.from, metadata.to, metadata.messageType, n, total);
    var mid := FragmentEventsFrom(lossAt, config.maxRetries, d, 0, total, config.fragmentSize, n);
    var done := TransmitComplete(elapsedMs, retries);
    var h := v.recentEvents;
    WindowOfWindow(h, EventCap);
    PushValueSpec(v, h, start);
    var v1 := v.(currentPhase := Name(metadata.messageType), recentEvents := PushCapped(h, start, EventCap));
    FragmentsValueSpec(v1, h + [start], lossAt, config.maxRetries, d, 0, total, config.fragmentSize, n);
    var v2 := FragmentsValue(v1, lossAt, config.maxRetries, d, 0, total, config.fragmentSize, n);
    PushValueSpec(v2, h + [start] + mid, done);
    assert h + [start] + mid + [done] == h + MessageEvents(lossAt, config, d, metadata, n, elapsedMs);
  }

  /** The shared state (behind a mutex in Rust), read by the HTTP status endpoint. */
  class LoRaTransportState {
    var currentPhase: string
    var totalMessages: nat
    var totalBytes: nat
    var progress: real
    var rssi: int
    var recentEvents: seq<TransportEvent>
    var byType: map<string, nat>
    var totalRetries: nat
    var cliOutput: seq<string>

    function Value(): LoRaStateValue
      reads this
    {
      LoRaStateValue(currentPhase, totalMessages, totalBytes, progress, rssi, recentEvents, byType, totalRetries, cliOutput)
    }

    predicate Valid()
      reads this
    {
      ValueValid(Value())
    }

    constructor Default()
      ensures Value() == DefaultStateValue && Valid()
    {
      currentPhase, totalMessages, totalBytes, progress, rssi := "Idle", 0, 0, 0.0, -80;
      recentEvents, byType, totalRetries, cliOutput := [], map[], 0, [];
    }

    /** `*state = LoRaTransportState::default()`. */
    method SetDefault()
      modifies this
      ensures Value() == DefaultStateValue && Valid()
    {
      currentPhase, totalMessages, totalBytes, progress, rssi := "Idle", 0, 0, 0.0, -80;
      recentEvents, byType, totalRetries, cliOutput := [], map[], 0, [];
    }

    /** Push onto the event log, dropping the oldest entry past 100. */
    method PushEvent(e: TransportEvent)
      requires Valid()
      modifies this
      ensures Valid()
      ensures Value() == old(Value()).(recentEvents := PushCapped(old(recentEvents), e, EventCap))
    {
      PushCappedBound(recentEvents, e, EventCap);
      recentEvents := recentEvents + [e];
      if |recentEvents| > EventCap {
        recentEvents := recentEvents[1..];
      }
    }
  }

  /** The per-kind counters of the shared state are those of the statistics, keyed by the kind's name. */
  predicate MirrorsByType(named: map<string, nat>, byType: map<MessageType, nat>)
  {
    (forall t :: Count(named, Name(t)) == Count(byType, t)) &&
    named.Keys <= {"Round1Commitment", "SigningPackage", "Round2SignatureShare", "FinalSignature", "Other"}
  }

  lemma MirrorsBump(named: map<string, nat>, byType: map<MessageType, nat>, t: MessageType)
    requires MirrorsByType(named, byType)
    ensures MirrorsByType(Bump(named, Name(t)), Bump(byType, t))
  {
    forall u ensures Count(Bump(named, Name(t)), Name(u)) == Count(Bump(byType, t), u) {
      NameInjective(u, t);
    }
  }

  // ---------------------------------------------------------------------------
  // The transport
  // ---------------------------------------------------------------------------

  class SimulatedLoRaTransport {
    const config: LoRaConfig
    const state: LoRaTransportState
    const lossAt: nat -> bool
    var draws: nat
    var stats: TransportStats

    /** The capped logs and clamped RSSI hold, and the shared totals mirror the statistics. */
    predicate Valid()
      reads this, state
    {
      state.Valid() &&
      state.totalMessages == stats.totalMessages &&
      state.totalBytes == stats.totalBytes &&
      MirrorsByType(state.byType, stats.byType)
    }

    /** `SimulatedLoRaTransport::new_with_config`; the loss stream stands for the thread RNG. */
    constructor NewWithConfig(config: LoRaConfig, lossAt: nat -> bool)
      ensures Valid() && fresh(state)
      ensures this.config == config && this.lossAt == lossAt && draws == 0
      ensures stats == EmptyStats && state.Value() == DefaultStateValue
    {
      this.config := config;
      this.lossAt := lossAt;
      draws := 0;
      stats := EmptyStats;
      state := new LoRaTransportState.Default();
    }

    /** `SimulatedLoRaTransport::new` (also its Default). */
    constructor New(lossAt: nat -> bool)
      ensures Valid() && fresh(state)
      ensures config == DefaultConfig && this.lossAt == lossAt && draws == 0
      ensures stats == EmptyStats && state.Value() == DefaultStateValue
    {
      config := DefaultConfig;
      this.lossAt := lossAt;
      draws := 0;
      stats := EmptyStats;
      state := new LoRaTransportState.Default();
    }

    /** `get_state`: the very state object the transport updates. */
    method GetState() returns (s: LoRaTransportState)
      ensures s == state
    {
      s := state;
    }

    /** Appends a console line for the dashboard, keeping the last 500. */
    method LogCliOutput(line: string)
      requires Valid()
      modifies state
      ensures Valid()
      ensures state.Value() == old(state.Value()).(cliOutput := PushCapped(old(state.cliOutput), line, CliCap))
    {
      PushCappedBound(state.cliOutput, line, CliCap);
      state.cliOutput := state.cliOutput + [line];
      if |state.cliOutput| > CliCap {
        state.cliOutput := state.cliOutput[1..];
      }
    }

    /** `transmit_fragment`: one attempt at fragment `fragmentId`, consuming one draw; true when it got through. */
    method TransmitFragmentOnce(fragmentId: nat, totalFragments: nat, len: nat) returns (delivered: bool)
      requires state.Valid() && fragmentId < totalFragments
      modifies this`draws, state
      ensures state.Valid()
      ensures draws == old(draws) + 1
      ensures delivered == !lossAt(old(draws))
      ensures state.Value() == old(state.Value()).(
        recentEvents := PushCapped(old(state.recentEvents),
          if delivered then TransmitFragment(fragmentId, totalFragments, len) else PacketLost(fragmentId, 0), EventCap),
        rssi := RssiStep(old(state.rssi), !delivered),
        progress := (fragmentId + 1) as real / totalFragments as real)
    {
      var lost := lossAt(draws);
      draws := draws + 1;
      RssiStepInRange(state.rssi, lost);
      if lost {
        state.PushEvent(PacketLost(fragmentId, 0));
        state.rssi := Max(state.rssi - 5, RssiFloor);
      } else {
        state.PushEvent(TransmitFragment(fragmentId, totalFragments, len));
        state.rssi := Min(state.rssi + 2, RssiCeiling);
      }
      state.progress := (fragmentId + 1) as real / totalFragments as real;
      delivered := !lost;
    }

    /** The retry loop of fragment i; returns the losses it counted. */
    method TransmitWithRetries(i: nat, total: nat, len: nat) returns (retries: nat)
      requires state.Valid() && i < total
      modifies this`draws, state
      ensures state.Valid()
      ensures draws == old(draws) + AttemptDraws(lossAt, config.maxRetries, old(draws), 0)
      ensures retries == AttemptLosses(lossAt, config.maxRetries, old(draws), 0)
      ensures state.Value() == AttemptValue(old(state.Value()), lossAt, config.maxRetries, old(draws), i, total, len, 0)
    {
      var maxR := config.maxRetries;
      ghost var d0 := draws;
      ghost var goal := AttemptValue(state.Value(), lossAt, maxR, d0, i, total, len, 0);
      var retryCount: nat := 0;
      retries := 0;
      while true
        invariant state.Valid()
        invariant retryCount == 0 || retryCount < maxR
        invariant draws == d0 + retryCount && retries == retryCount
        invariant AttemptValue(state.Value(), lossAt, maxR, draws, i, total, len, retryCount) == goal
        invariant retryCount + AttemptDraws(lossAt, maxR, draws, retryCount) == AttemptDraws(lossAt, maxR, d0, 0)
        invariant retryCount + AttemptLosses(lossAt, maxR, draws, retryCount) == AttemptLosses(lossAt, maxR, d0, 0)
        decreases maxR - retryCount
      {
        var delivered := TransmitFragmentOnce(i, total, len);
        if delivered {
          break;
        }
        retryCount := retryCount + 1;
        retries := retries + 1;
        if retryCount >= maxR {
          break;
        }
        state.PushEvent(PacketLost(i, retryCount));
      }
    }

    /** `transmit_with_fragmentation`: cuts the payload into fragments and sends each with retries. */
    method TransmitWithFragmentation(metadata: MessageMetadata, payload: string, elapsedMs: nat)
      requires state.Valid() && config.fragmentSize > 0
      modifies this`draws, state
      ensures state.Valid()
      ensures draws == old(draws) + MessageDraws(lossAt, config, old(draws), |payload|)
      ensures state.Value() == MessageValue(old(state.Value()), lossAt, config, old(draws), metadata, |payload|, elapsedMs)
    {
      var n := |payload|;
      var total := (n + config.fragmentSize - 1) / config.fragmentSize;
      state.currentPhase := Name(metadata.messageType);
      state.PushEvent(TransmitStart(metadata.from, metadata.to, metadata.messageType, n, total));
      var totalRetries := TransmitFragments(payload, total);
      state.totalRetries := state.totalRetries + totalRetries;
      state.PushEvent(TransmitComplete(elapsedMs, totalRetries));
    }

    /** The fragment loop of `transmit_with_fragmentation`: each slice of the payload goes through the retry loop in turn. */
    method TransmitFragments(payload: string, total: nat) returns (totalRetries: nat)
      requires state.Valid() && config.fragmentSize > 0 && total == FragmentCount(|payload|, config.fragmentSize)
      modifies this`draws, state
      ensures state.Valid()
      ensures draws == old(draws) + DrawsFrom(lossAt, config.maxRetries, old(draws), 0, total)
      ensures totalRetries == LossesFrom(lossAt, config.maxRetries, old(draws), 0, total)
      ensures state.Value() == FragmentsValue(old(state.Value()), lossAt, config.maxRetries, old(draws), 0, total, config.fragmentSize, |payload|)
    {
      var n := |payload|;
      var size := config.fragmentSize;
      var maxR := config.maxRetries;
      ghost var d0 := draws;
      ghost var v1 := state.Value();
      totalRetries := 0;
      var i := 0;
      while i < total
        invariant 0 <= i <= total && draws >= d0
        invariant state.Valid()
        invariant FragmentsValue(state.Value(), lossAt, maxR, draws, i, total, size, n) == FragmentsValue(v1, lossAt, maxR, d0, 0, total, size, n)
        invariant (draws - d0) + DrawsFrom(lossAt, maxR, draws, i, total) == DrawsFrom(lossAt, maxR, d0, 0, total)
        invariant totalRetries + LossesFrom(lossAt, maxR, draws, i, total) == LossesFrom(lossAt, maxR, d0, 0, total)
      {
        FragmentInside(n, size, i);
        var start := i * size;
        var end := Min((i + 1) * size, n);
        var fragment := payload[start..end];
        assert |fragment| == FragmentLength(n, size, i);
        var lost := TransmitWithRetries(i, total, |fragment|);
        totalRetries := totalRetries + lost;
        i := i + 1;
      }
    }

    /** `send`: counts the message in the statistics and the shared state, then transmits it. */
    method Send(metadata: MessageMetadata, payload: string, elapsedMs: nat)
      requires Valid() && config.fragmentSize > 0
      modifies this, state
      ensures Valid()
      ensures stats == Record(old(stats), metadata.messageType, |payload|)
      ensures draws == old(draws) + MessageDraws(lossAt, config, old(draws), |payload|)
      ensures state.Value() == MessageValue(
        old(state.Value()).(totalMessages := stats.totalMessages, totalBytes := stats.totalBytes,
          byType := Bump(old(state.byType), Name(metadata.messageType))),
        lossAt, config, old(draws), metadata, |payload|, elapsedMs)
    {
      stats := TransportStats(stats.totalMessages + 1, stats.byType, stats.totalBytes + |payload|);
      stats := stats.(byType := Bump(stats.byType, metadata.messageType));
      MirrorsBump(state.byType, old(stats.byType), metadata.messageType);
      state.totalMessages := stats.totalMessages;
      state.totalBytes := stats.totalBytes;
      state.byType := Bump(state.byType, Name(metadata.messageType));
      ghost var v := state.Value();
      TransmitWithFragmentation(metadata, payload, elapsedMs);
      MessageValueSpec(v, lossAt, config, old(draws), metadata, |payload|, elapsedMs);
    }

    method GetStats() returns (r: Option<TransportStats>)
      ensures r == Some(stats)
    {
      r := Some(stats);
    }

    /** `reset`: zeroes the statistics and puts the shared state back to its default; the loss stream goes on. */
    method Reset()
      requires Valid()
      modifies this, state
      ensures Valid()
      ensures stats == EmptyStats && state.Value() == DefaultStateValue
      ensures draws == old(draws)
    {
      stats := EmptyStats;
      state.SetDefault();
    }
  }

  /** The module's own test: after a 5-byte and a 200-byte message the statistics count two messages. */
  method LoRaFragmentationTest(lossAt: nat -> bool) returns (stats: TransportStats)
    ensures stats.totalMessages == 2 && stats.totalBytes == 205
    ensures Count(stats.byType, Other) == 2
  {
    var transport := new SimulatedLoRaTransport.New(lossAt);
    var md := MessageMetadata("test", "dest", Other);
    transport.Send(md, "small", 0);
    var large := seq(200, _ => 'x');
    transport.Send(md, large, 0);
    var got := transport.GetStats();
    stats := got.value;
  }
}
