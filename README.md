# FROST threshold signing: a verified model

This project models, in Dafny, the bookkeeping around a FROST (t-of-n Schnorr
threshold) signing service and the tools built around it:

- **Signer** (`signer.dfy`): a signer holds its key share and a store of secret
  nonces, one per session. Round 1 stores fresh nonces. Round 2 removes them
  before doing anything else, so a nonce is used at most once.
- **Coordinator** (`coordinator.dfy`): the coordinator keeps the sessions, each
  holding its message and the commitments collected so far. It applies the
  threshold gates and drives a full signing run over a list of signers.
- **Handlers and Api** (`handlers.dfy`, `api.dfy`):
  - the HTTP handlers map every error to a status code and a uniform error body;
  - they keep the registry of signers and run the round-1, round-2, complete
    signing, health and public-key endpoints;
  - every byte field crosses the wire as Base16 (section 8 of RFC 4648), in
    `hex.dfy`. Decoding reads the UTF-8 bytes of the JSON string, as the Rust
    `hex` crate does. An error names the offending byte, read as a character,
    and its byte position, and its text quotes that character the way Rust's
    `{:?}` does.
- **Transport and SimulatedLora** (`transport.dfy`, `simulated_lora.dfy`):
  - the terminal transport counts and previews messages;
  - the simulated LoRa link cuts every message into fragments and retries lost
    fragments;
  - it keeps a shared state for the dashboard: capped event and console logs,
    a clamped signal strength, and counters.
- **FrostCli** (`frost_cli.dfy`): the command-line tool's validation prefixes,
  its session-consistency loop over commitment files, and its default file names.
- **VerifyDemo** (`verify_demo.dfy`, with the Python values of `py_value.dfy`):
  the demo verification script. It covers:
  - the health probe and the two status monitors;
  - the signing request and the four-point scoring of its response;
  - the event-log listing and the exit code.

The cryptography is not modelled, only what the code does with its results.
Each library call is a field of `Frost.Library`, a record of functions passed
to every operation that needs it: commit, sign, aggregate, verify, and the
(de)serializations. The same goes for things outside the program:

- packet loss is a stream `lossAt: nat -> bool` read through a draw counter;
- clock readings, fresh UUIDs and the nonce generator's output are parameters;
- every HTTP reply the script receives is an input;
- each monitor's wall-clock loop is the sequence of polls it makes.

State that the source updates in place is a class:

- `Signer.Signer`, `Coordinator.Coordinator` and `Handlers.AppState`;
- `Transport.StdoutTransport`;
- `SimulatedLora.LoRaTransportState` and `SimulatedLora.SimulatedLoRaTransport`.

Each method of these classes states its new state in terms of a specification
function of the old one. The lemmas prove what the source promises about those
functions.

Where the project documentation and the code disagree, the model follows the
code:
- `TransportEvent` is serialized in serde's external tagging, so its JSON has no
  `"type"` key. The script reads the tag from one (src/transport/simulated_lora.rs:56,
  verify_demo.py:369). `VerifyDemo.Classify` models the script's reading: an event
  without a known tag is skipped, and no "unknown" line is printed.
- The `/sign` response has no `message` or `signer_ids` field
  (src/handlers.rs:219-231), yet the script scores both. Each side is modelled
  from its own code, and compatibility is not claimed.
- `monitor_status` stores the snapshot before it prints it, so a snapshot whose
  line fails to format still ends the loop with that snapshot kept.
- A health reply of 200 whose body is not JSON counts as a failed health check,
  because the script's `except` catches the decoding error.
- The signing result is scored only when it is truthy (`if sign_result:`), so an
  empty dict passes without scoring (`VerifyDemo.EmptySignResultNotScored`).
- `monitor_signing_process` is never called from `main`; it is modelled on its own.
- `max_retries` is documented as the maximum number of retransmissions
  (src/transport/simulated_lora.rs:36, 46). The loop gives up once it has
  counted `max_retries` losses (:287-292), so the default of 3 allows 3 sends
  of a fragment, that is 2 retransmissions
  (`SimulatedLora.RetransmissionsBelowMaxRetries`).
- The signal strength is documented as ranging over -120 to -30 dBm
  (src/transport/simulated_lora.rs:108), but a delivery clamps it at -50 (:233),
  so it stays within -120 to -50 (`SimulatedLora.RssiStepInRange`).

## Model

| member | source | states |
|---|---|---|
| Api.NewErrorResponse | src/api.rs:236-242 | the body carries the given code and message, and no details |
| Api.WithDetails | src/api.rs:244-247 | details become `Some(d)`; the code and message are kept |
| Api.WithDetailsLastWins | src/api.rs:244-247 | attaching details twice keeps only the second |
| Api.NewWithDetails | src/api.rs:236-247 | `new` then `with_details` gives exactly (code, message, Some(d)), which differs from the bare body |
| Api.SerializeHex | src/api.rs:258-263 | the JSON text is two lower-case hex digits per byte |
| Api.DeserializeHex | src/api.rs:265-271 | succeeds iff Base16 decoding of the string's bytes succeeds, with the decoded bytes; otherwise the error is the crate error's Display text (`Hex.ErrorText`) |
| Api.HexSerdeRoundTrip | src/api.rs:258-271 | `deserialize(serialize(bytes)) == bytes` for every byte sequence |
| Api.HexSerdeRejectsInvalid | src/api.rs:265-271 | an odd-length string, or one with a non-hex character, is refused |
| Api.HexSerdeAccepts | src/api.rs:265-271 | every even-length all-hex string is accepted with half as many bytes, and re-serializes to its lower-case form |
| Hex.DigitValue | src/api.rs:269-270 | a character has a digit value iff it is a hex digit, and the value is below 16 |
| Hex.ToLower | src/api.rs:262 | keeps the length and lower-cases each hex digit |
| Hex.HexChar | src/api.rs:262 | the digit written for a nibble is lower-case and reads back as that nibble |
| Hex.Encode | src/api.rs:262 | twice as many characters as bytes, all lower-case hex digits |
| Hex.DecodePairsEncode | src/api.rs:262-270 | decoding the pairs after any prefix gives back the encoded bytes |
| Hex.DecodeEncode | src/api.rs:262-270 | `Decode(Encode(b)) == Success(b)` |
| Hex.Utf8Char | src/api.rs:270 | a character takes one to four UTF-8 bytes; an ASCII character is its own single byte, and any other character starts with a byte of 0xC0 or above |
| Hex.AsciiUtf8 | src/api.rs:270 | the bytes of an ASCII text, read as characters, are the text itself |
| Hex.NonAsciiUtf8 | src/api.rs:270 | a text with a character outside ASCII has a byte of 0x80 or above |
| Hex.DecodePairsSucceedsIff | src/api.rs:270 | decoding the byte pairs from a position succeeds iff every later byte is a hex digit, with half as many bytes |
| Hex.DecodeSucceedsIff | src/api.rs:270 | decoding a text succeeds exactly on even-length texts of hex digits, giving half as many bytes |
| Hex.OddLengthRejected | src/api.rs:270 | an odd number of UTF-8 bytes is reported as `OddLength`, whatever the bytes |
| Hex.DecodePairsFirstInvalid | src/api.rs:270 | a failing pair decode names the first non-digit byte after the start, read as a character, and its byte index |
| Hex.FirstInvalidReported | src/api.rs:270 | with an even number of bytes, the error names the first non-digit byte, read as a character, and its byte index; on ASCII text these are the first non-hex character and its position |
| Hex.NonAsciiDecoding | src/api.rs:270 | "é" (bytes C3 A9) is rejected as the character U+00C3 at position 0, and "aé" (three bytes) as `OddLength` |
| Hex.CharDebug | src/api.rs:270 | the `{:?}` text of a character is three to eight characters between single quotes |
| Hex.Escape | src/api.rs:270 | `\0`, `\t`, `\r`, `\n`, `\'` and `\\` get a backslash; the unprintable characters below U+0100 are written `\u{..}` with their lower-case hex value; every other character stands for itself |
| Hex.CharDebugInjective | src/api.rs:270 | two characters with the same `{:?}` text are the same |
| Hex.ErrorText | src/api.rs:270 | the text is "Odd number of digits" exactly for `OddLength` |
| Hex.ErrorTextInjective | src/api.rs:270 | two decoding errors with the same Display text are the same error, so character and position can be told from the text |
| Hex.EncodeDecodePairs | src/api.rs:262-270 | re-encoding decoded pairs gives the lower-cased suffix |
| Hex.EncodeDecode | src/api.rs:262-270 | re-encoding decoded bytes gives the input in lower case |
| Primitives.Decimal | src/handlers.rs:71 | the `{}` text of a number is non-empty, all digits, and has no leading zero |
| Primitives.DecimalRoundTrip | src/handlers.rs:71 | the decimal text reads back as the number |
| Primitives.DecimalInjective | src/handlers.rs:71 | two numbers with the same text are equal |
| Transport.Name | src/transport/mod.rs:75-85 | the Display text of a message kind is non-empty |
| Transport.NameInjective | src/transport/mod.rs:75-85 | two kinds print alike iff they are the same kind |
| Transport.Bump | src/transport/mod.rs:213 | `entry(k).or_insert(0) += 1` raises k's count by one, keeps every other count, and adds k to the keys |
| Transport.Record | src/transport/mod.rs:211-213 | one message adds 1 to the total, its length to the bytes, and 1 to its kind only |
| Transport.RecordKeepsTotal | src/transport/mod.rs:140-149 | the per-kind counts keep summing to the message total |
| Transport.Preview | src/transport/mod.rs:232-236 | a payload of at most 64 characters is shown whole; a longer one shows its first 64 characters, then the length note |
| Transport.PreviewTellsLength | src/transport/mod.rs:233 | the digits in a cut preview's note read back as the payload's true length |
| Transport.PreviewShowsPayloadPrefix | src/transport/mod.rs:232-236 | every shown character among the first 64 is the payload's own |
| Transport.DefaultGetStats | src/transport/mod.rs:126-128 | the trait's default `get_stats` reports no statistics |
| Transport.StdoutTransport.New | src/transport/mod.rs:181-186 | full display is off and the statistics are empty |
| Transport.StdoutTransport.NewFull | src/transport/mod.rs:189-194 | full display is on and the statistics are empty |
| Transport.StdoutTransport.SetShowFullPayload | src/transport/mod.rs:197-199 | only the flag changes |
| Transport.StdoutTransport.Send | src/transport/mod.rs:209-241 | the statistics become `Record(old, kind, len)`; the flag is unchanged; the shown text is the payload or its preview, as the flag says |
| Transport.StdoutTransport.GetStats | src/transport/mod.rs:243-245 | returns the current statistics |
| Transport.StdoutTransport.Reset | src/transport/mod.rs:247-249 | the statistics are zeroed and the display flag is kept |
| Transport.StdoutTransportBasic | src/transport/mod.rs:261-277 | after one 8-byte commitment: 1 message, a Round1Commitment count of 1, and 8 bytes |
| SimulatedLora.LastN | src/transport/simulated_lora.rs:214-217 | the window is the last min(n, \|s\|) entries of the history |
| SimulatedLora.PushCappedBound | src/transport/simulated_lora.rs:209-217 | a capped log stays within its cap; below the cap a push appends; at the cap the oldest entry is dropped |
| SimulatedLora.PushCappedWindow | src/transport/simulated_lora.rs:254-264 | pushing onto the window of a history gives the window of the extended history |
| SimulatedLora.RssiStepInRange | src/transport/simulated_lora.rs:219-233 | one draw keeps RSSI in [-120, -50]; a loss never raises it and a delivery never lowers it |
| SimulatedLora.RssiAfterInRange | src/transport/simulated_lora.rs:220-233 | from anywhere in [-120, -50], the default -80 included, any run of draws keeps RSSI there |
| SimulatedLora.FragmentCountIsCeiling | src/transport/simulated_lora.rs:248 | the fragment count is the ceiling of bytes / size, zero iff the payload is empty |
| SimulatedLora.FragmentInside | src/transport/simulated_lora.rs:271-274 | each fragment starts at i·size inside the payload and is non-empty and at most `size` long |
| SimulatedLora.FragmentsFromSuffix | src/transport/simulated_lora.rs:271-274 | fragments i onwards concatenate to the payload from i·size |
| SimulatedLora.FragmentsCoverPayload | src/transport/simulated_lora.rs:271-274 | the fragments concatenate to the payload |
| SimulatedLora.RetransmissionsBelowMaxRetries | src/transport/simulated_lora.rs:277-311 | with max_retries at least 1, a fragment is retransmitted at most max_retries - 1 times, and one lost on every send is sent exactly max_retries times |
| SimulatedLora.AllLostDraws | src/transport/simulated_lora.rs:277-311 | when every draw is lost, the loop makes exactly as many sends as it has retries left |
| SimulatedLora.AttemptShape | src/transport/simulated_lora.rs:277-311 | the retry loop takes between 1 and max(1, max_retries) draws; every draw but the last is lost; the last is a delivery unless the count reached max_retries |
| SimulatedLora.AttemptLossesCounted | src/transport/simulated_lora.rs:287-288 | the retries counted for a fragment are exactly its lost draws |
| SimulatedLora.AttemptEventsShape | src/transport/simulated_lora.rs:278-311 | a fragment's events are losses, then one TransmitFragment iff the last draw got through |
| SimulatedLora.DrawsFromBounds | src/transport/simulated_lora.rs:271-311 | the fragment loop draws at least once and at most max(1, max_retries) times per fragment |
| SimulatedLora.LossesFromCounted | src/transport/simulated_lora.rs:287-323 | a message's `total_retries` equals its lost draws |
| SimulatedLora.FragmentEventsFromKinds | src/transport/simulated_lora.rs:271-312 | the fragment loop pushes only deliveries and losses |
| SimulatedLora.MessageEventsShape | src/transport/simulated_lora.rs:251-328 | a message's events start with TransmitStart (true byte and fragment counts) and end with TransmitComplete reporting its lost draws; only deliveries and losses come between, and RetrySuccess never appears |
| SimulatedLora.PushValueSpec | src/transport/simulated_lora.rs:209-217 | one push keeps the state valid and extends the window's history by the event |
| SimulatedLora.RoundValueSpec | src/transport/simulated_lora.rs:281-306 | one pass of the retry loop appends its events, applies one RSSI step, sets progress to (i+1)/total, and moves no counter |
| SimulatedLora.AttemptValueSpec | src/transport/simulated_lora.rs:277-311 | the retry loop appends the fragment's events and applies its draws' RSSI steps; progress marks fragment i; no counter moves |
| SimulatedLora.FragmentsValueSpec | src/transport/simulated_lora.rs:271-312 | the fragment loop appends all fragments' events and applies every draw's RSSI step; progress ends at 1 |
| SimulatedLora.MessageValueSpec | src/transport/simulated_lora.rs:243-328 | a message sets the phase to its kind's name and appends exactly its events to the window; RSSI follows its draws; progress reaches 1 when there was a fragment; retries grow by its losses; nothing else changes |
| SimulatedLora.LoRaTransportState.Default | src/transport/simulated_lora.rs:124-137 | the state is the default value (Idle, zero counters, RSSI -80, empty logs) |
| SimulatedLora.LoRaTransportState.SetDefault | src/transport/simulated_lora.rs:383-384 | the state becomes the default value |
| SimulatedLora.LoRaTransportState.PushEvent | src/transport/simulated_lora.rs:209-217 | only the event log changes, by a capped push, and the bounds hold |
| SimulatedLora.MirrorsBump | src/transport/simulated_lora.rs:349-358 | bumping a kind in the statistics and its name in the shared state keeps the two per-kind maps in step |
| SimulatedLora.SimulatedLoRaTransport.NewWithConfig | src/transport/simulated_lora.rs:172-179 | the given configuration, empty statistics, a fresh default state, and no draws yet |
| SimulatedLora.SimulatedLoRaTransport.New | src/transport/simulated_lora.rs:167-169 | the same, with the default configuration (500 ms, 64-byte fragments, 3 retries) |
| SimulatedLora.SimulatedLoRaTransport.GetState | src/transport/simulated_lora.rs:182-184 | returns the very state object the transport updates |
| SimulatedLora.SimulatedLoRaTransport.LogCliOutput | src/transport/simulated_lora.rs:187-195 | only the console log changes, by a push capped at 500 that drops the oldest line |
| SimulatedLora.SimulatedLoRaTransport.TransmitFragmentOnce | src/transport/simulated_lora.rs:198-240 | uses one draw and returns true iff it was not lost; pushes PacketLost or TransmitFragment; steps RSSI; sets progress to (id+1)/total |
| SimulatedLora.SimulatedLoRaTransport.TransmitWithRetries | src/transport/simulated_lora.rs:277-311 | the draws, the counted retries and the new state are those of the retry-loop specification |
| SimulatedLora.SimulatedLoRaTransport.TransmitWithFragmentation | src/transport/simulated_lora.rs:243-335 | the draws and the new state are those of `MessageValue` |
| SimulatedLora.SimulatedLoRaTransport.TransmitFragments | src/transport/simulated_lora.rs:271-312 | the draws, the total retries and the state are those of the fragment-loop specification |
| SimulatedLora.SimulatedLoRaTransport.Send | src/transport/simulated_lora.rs:345-374 | the statistics become `Record(old, kind, len)`; the shared totals mirror them and the kind's name is counted; the state then follows `MessageValue` |
| SimulatedLora.SimulatedLoRaTransport.GetStats | src/transport/simulated_lora.rs:376-378 | returns the current statistics |
| SimulatedLora.SimulatedLoRaTransport.Reset | src/transport/simulated_lora.rs:380-385 | zeroes the statistics and restores the default state; the loss stream position is kept |
| SimulatedLora.LoRaFragmentationTest | src/transport/simulated_lora.rs:397-425 | after a 5-byte and a 200-byte message: 2 messages, 205 bytes, and 2 of kind Other, whatever the losses |
| Signer.ErrorTextInjective | src/signer.rs:25-43 | no two signer errors have the same Display text |
| Signer.SessionTextInjective | src/signer.rs:26-27 | the session-not-found text determines the error |
| Signer.InvalidTextInjective | src/signer.rs:35-39 | the invalid-commitment and invalid-package texts determine the error |
| Signer.FailedTextInjective | src/signer.rs:29-42 | the generation-failure and library-error texts determine the error |
| Signer.DecodeEntry | src/signer.rs:267-275 | an entry fails only as InvalidCommitment; on success the identifier, hex and commitment decodings all succeeded and give the result |
| Signer.BuildSucceedsIff | src/signer.rs:263-278 | the package builds iff every entry decodes |
| Signer.BuildReportsFirstInvalid | src/signer.rs:265-275 | the error reported is that of the first entry that does not decode |
| Signer.BuildKeys | src/signer.rs:263-278 | the keys of a built package are exactly the entries' identifiers |
| Signer.BuildLastWins | src/signer.rs:277 | among entries with the same identifier, the last one's commitment is kept |
| Signer.BuildPrefixFails | src/signer.rs:265-278 | once a prefix fails, the whole build fails with the same error |
| Signer.SignWithoutNonceFails | src/signer.rs:216-219 | with no stored nonce, `sign` fails with SessionNotFound, whatever the package |
| Signer.SignUsesStoredNonce | src/signer.rs:216-238 | a share exists only if the nonce was stored and the package built; it is `round2::sign` over them |
| Signer.SignRejectsBadPackage | src/signer.rs:227-229 | a bad entry gives InvalidSigningPackage wrapping the first bad entry's error text |
| Signer.StoreCount | src/signer.rs:159 | storing a nonce adds one session exactly when the session is new |
| Signer.Signer.New | src/signer.rs:87-96 | the identifier is the share's own and no nonce is stored |
| Signer.Signer.Id | src/signer.rs:98-100 | returns the share's identifier |
| Signer.Signer.Commit | src/signer.rs:129-169 | returns the generated commitments and stores the nonces under the session, overwriting any earlier ones; other sessions are kept |
| Signer.Signer.Sign | src/signer.rs:203-249 | the session's nonce is removed in every outcome, other sessions are kept, and the result is `SignOutcome` over the old store |
| Signer.Signer.DeserializeSigningPackage | src/signer.rs:256-285 | succeeds iff the keyed-map build does, giving that map with the message, or the build's first error |
| Signer.Signer.ActiveSessionsCount | src/signer.rs:292-294 | the number of stored sessions |
| Signer.Signer.ClearSession | src/signer.rs:297-299 | returns true iff a nonce was stored; the session is gone and the others are kept |
| Signer.Signer.ClearAllSessions | src/signer.rs:305-308 | the store is empty |
| Signer.SignTwice | src/signer.rs:214-219 | a second `sign` for the same session fails with SessionNotFound, and no nonce remains |
| Signer.CommitThenSign | src/signer.rs:129-249 | after `commit`, `sign` uses exactly the nonces round 1 generated, then forgets them |
| Coordinator.InsufficientTextTellsCounts | src/coordinator.rs:32-33 | the expected and actual counts can be read back from the threshold error's text |
| Coordinator.NewSessionState | src/coordinator.rs:78-85 | the session has the given ID, message and creation time, and no commitments |
| Coordinator.WireCommitments | src/coordinator.rs:242-268 | one wire commitment per signer, in signer order |
| Coordinator.GatherShares | src/coordinator.rs:309-315 | succeeds iff every signer produced a share, else fails with the first error; the keys are the signers' identifiers, and each identifier holds the share of the last signer with that identifier |
| Coordinator.Coordinator.New | src/coordinator.rs:120-126 | keeps the key package and threshold and starts with no sessions |
| Coordinator.Coordinator.CreateSession | src/coordinator.rs:138-150 | returns the given fresh ID and adds a new empty session with the message under it |
| Coordinator.Coordinator.AddCommitment | src/coordinator.rs:153-173 | an unknown session gives SessionNotFound and changes nothing; otherwise the commitment is appended and the new count returned, and no other session changes |
| Coordinator.Coordinator.GetSigningPackage | src/coordinator.rs:176-197 | SessionNotFound; or InsufficientCommitments(threshold, count) below the threshold; else the stored commitments and message, read-only |
| Coordinator.Coordinator.AggregateSignature | src/coordinator.rs:359-375 | too few shares give InsufficientShares(threshold, count); otherwise the library's result, its error as AggregationFailed |
| Coordinator.Coordinator.VerifySignature | src/coordinator.rs:382-391 | succeeds iff the library verifies the signature under the group key, else VerificationFailed |
| Coordinator.Coordinator.ActiveSessionsCount | src/coordinator.rs:398-400 | the number of sessions |
| Coordinator.Coordinator.ClearSession | src/coordinator.rs:403-405 | returns whether the session existed; it is gone and the others are kept |
| Coordinator.Coordinator.ClearAllSessions | src/coordinator.rs:408-410 | no sessions remain |
| Coordinator.Coordinator.CollectCommitments | src/coordinator.rs:242-272 | the session's commitments become the signers' wire commitments in order, and each signer stores its round-1 nonces |
| Coordinator.Coordinator.CollectSignatures | src/coordinator.rs:291-306 | every signer's nonce for the session is removed; each result is that signer's `SignOutcome`; a signer listed twice makes some result fail |
| Coordinator.Coordinator.OrchestrateSigning | src/coordinator.rs:215-348 | fewer signers than the threshold fail first and create no session; success means the signature verifies and the session is gone; a repeated signer always fails |
| Coordinator.Coordinator.RunSession | src/coordinator.rs:235-348 | only the run's session changes; every signer's nonce is consumed; success verifies and removes the session |
| Coordinator.Coordinator.Finish | src/coordinator.rs:309-347 | only success removes the session, and its signature verifies; any failed share makes the run fail |
| Handlers.IntoResponse | src/handlers.rs:64-98 | 404 iff SignerNotFound, 500 iff InternalError, 400 iff signer or coordinator error; `SESSION_NOT_FOUND` iff a signer's SessionNotFound; each code's message text; no details |
| Handlers.CodeDeterminesStatus | src/handlers.rs:66-95 | the error code alone determines the status |
| Handlers.Lookup | src/handlers.rs:47-49 | finds a signer iff the ID is registered, and it is the registered one |
| Handlers.LookupAfterAdd | src/handlers.rs:43-49 | after `add_signer(id, s)` the ID finds s, and every other ID finds what it found before |
| Handlers.AppState.New | src/handlers.rs:36-41 | keeps the coordinator and starts with no signers |
| Handlers.AppState.AddSigner | src/handlers.rs:43-45 | registers the signer under the ID, replacing any earlier one |
| Handlers.AppState.GetSigner | src/handlers.rs:47-49 | the registry lookup |
| Handlers.AppState.CollectSigners | src/handlers.rs:247-253 | succeeds iff every requested ID is registered, with the signers in request order; otherwise SignerNotFound for the first missing ID |
| Handlers.AppState.Sign | src/handlers.rs:233-275 | an invalid hex message gives InternalError before any lookup; then SignerNotFound for the first missing ID; both leave sessions and every nonce store untouched; once those pass, every failure is a CoordinatorError, and fewer IDs than the threshold give `InsufficientCommitments(threshold, count)` with no session and no nonce touched; a success is verified and carries the fresh response ID, a signature the group key verifies and the group key's hex; it consumes the signers' nonces and removes the session; once the message decodes, every ID is registered and the count reaches the threshold, every other session is kept, each requested signer's nonce store loses exactly this session, every signer not requested keeps its store, and a failure leaves this session stored with the message, the requested signers' wire commitments and the request time |
| Handlers.AppState.SignerRound1 | src/handlers.rs:120-154 | an unknown signer gives SignerNotFound; otherwise the signer commits, the response echoes the signer and session with the commitment's hex, and no other signer changes |
| Handlers.AppState.SignerRound2 | src/handlers.rs:163-197 | an unknown signer gives SignerNotFound; otherwise the result is the signer's `SignOutcome`, passed on as an error or echoed with the share's hex; the nonce is consumed |
| Handlers.AppState.Health | src/handlers.rs:291-297 | "ok", the number of registered signers, and the coordinator's session count |
| Handlers.AppState.GetPubkey | src/handlers.rs:311-315 | the hex of the serialized group key, which decodes back to it |
| FrostCli.KeygenCheck | src/bin/frost-cli.rs:96-98 | passes iff min_signers <= max_signers, else reports both numbers |
| FrostCli.SameSessionPairwise | src/bin/frost-cli.rs:236-242 | matching the first file's session is the same as all files matching each other |
| FrostCli.CreatePackage | src/bin/frost-cli.rs:215-254 | fewer than 3 files fail first; succeeds iff all files share the first's session; the package lists commitments and signer IDs in file order |
| FrostCli.Round2Check | src/bin/frost-cli.rs:302-308 | passes iff the package's session is the argument's, else reports both |
| FrostCli.AggregateCheck | src/bin/frost-cli.rs:371-373 | passes iff there are at least 3 share files |
| FrostCli.VerifyMessageCheck | src/bin/frost-cli.rs:476-481 | passes iff the stored hex decodes to the given message; an undecodable store fails first, with its error; a different message gives MessageMismatch |
| FrostCli.VerifyAcceptsOwnMessage | src/bin/frost-cli.rs:476-481 | a file storing the hex of a message passes for that message |
| FrostCli.VerifyRejectsOtherMessage | src/bin/frost-cli.rs:479-481 | any other message is refused with MessageMismatch |
| FrostCli.DemoBasicCheck | src/bin/frost-cli.rs:540-552 | counts below 3 or above 5 fail first; passes iff 3..5 IDs all lie in 1..5, else names the first ID out of range |
| FrostCli.DemoAcceptsRepeatedSigner | src/bin/frost-cli.rs:548-552 | repeated IDs such as [1, 1, 1] pass |
| FrostCli.Round1OutputPath | src/bin/frost-cli.rs:191-193 | the named output, else `commitment_{id}.json` |
| FrostCli.Round2OutputPath | src/bin/frost-cli.rs:346-348 | the named output, else `sig_share_{id}.json` |
| FrostCli.DefaultNamesDistinct | src/bin/frost-cli.rs:191-193 | the default names of different signers differ, and a commitment file name is never a share file name |
| VerifyDemo.CheckHealth | verify_demo.py:67-96 | true iff the reply is 200 with a JSON object body |
| VerifyDemo.MonitorStatus | verify_demo.py:98-147 | the loop returns `MonitorResult`: the last snapshot held when the polls ran out or one raised, if truthy |
| VerifyDemo.StatusFoldReceived | verify_demo.py:111-139 | the snapshot kept is the start value or a body some poll returned with 200 |
| VerifyDemo.MonitorReturnsReceived | verify_demo.py:98-147 | a returned status is one the server sent with 200 |
| VerifyDemo.StatusFoldStopsAtFailure | verify_demo.py:137-139 | polls after a failed request change nothing |
| VerifyDemo.StatusFoldKeepsLast | verify_demo.py:111-133 | when every poll answers 200 with a printable status, the last one is kept |
| VerifyDemo.SendSignRequest | verify_demo.py:149-232 | a result is the 200 reply's dict body and needs both snapshots usable; a failed or non-200 reply gives None; with usable snapshots, a 200 dict reply is returned |
| VerifyDemo.WarningsDoNotChangeResult | verify_demo.py:203-221 | the byte-increase and progress warnings never change the result |
| VerifyDemo.ChecksPassed | verify_demo.py:306-341 | at most 4 points |
| VerifyDemo.VerifySignatureResponse | verify_demo.py:300-346 | the counter returns `ResponseVerdict`, with all four checks run and no short-circuit |
| VerifyDemo.VerdictIsConjunction | verify_demo.py:306-346 | the response passes iff each of the four checks passes |
| VerifyDemo.BadSignatureCostsOnePoint | verify_demo.py:310-317 | an empty or `Error:`-prefixed signature fails check 1 and costs exactly one point against a good one |
| VerifyDemo.VerifiedOnlyForTrue | verify_demo.py:320-327 | `verified` passes for True only: not 1, "true" or a missing key |
| VerifyDemo.MessagePresenceSuffices | verify_demo.py:329-334 | `message` passes on key presence alone, whatever the value |
| VerifyDemo.ScanEvents | verify_demo.py:368-396 | the listing completes iff every event is a dict |
| VerifyDemo.HeadLine | verify_demo.py:369-396 | an event prints at most one line, exactly when its tag is one of the five, numbered and classified |
| VerifyDemo.ScanNumbered | verify_demo.py:368 | the printed numbers lie within the run and strictly increase |
| VerifyDemo.ScanSound | verify_demo.py:368-396 | every printed line carries its event's number and that event's classification |
| VerifyDemo.ScanComplete | verify_demo.py:368-396 | a completed listing prints a line for every event of a known tag |
| VerifyDemo.LastEvents | verify_demo.py:368 | `events[-10:]` holds the last min(10, n) events in their order |
| VerifyDemo.EventLogListed | verify_demo.py:354-368 | a listing happens only on a non-empty event list, and lists the window of its last 10 |
| VerifyDemo.ListingShowsEvents | verify_demo.py:368-396 | a completed listing has at most one line per event, numbered from 1 and increasing, and one line per known-tag event |
| VerifyDemo.EmptyLogReturnsEarly | verify_demo.py:358-363 | a missing or empty event list returns early with only the warning |
| VerifyDemo.MonitorSigningProcess | verify_demo.py:234-298 | the loop returns the summary of the fold over the polls |
| VerifyDemo.SigningFoldMaximum | verify_demo.py:262-266 | the retries reported are at least every snapshot's, and equal the start value or one snapshot's |
| VerifyDemo.SigningFoldPhases | verify_demo.py:258-264 | the phases seen are exactly the snapshots' phases |
| VerifyDemo.RetriesObservedIff | verify_demo.py:287-298 | from the start, retries are reported iff some snapshot had retries above zero |
| VerifyDemo.RunVerification | verify_demo.py:431-486 | the exit code is 0, 1 or 130; 130 iff interrupted; a failed health check gives 1; 0 iff not interrupted and every recorded check passed |
| VerifyDemo.EmptySignResultNotScored | verify_demo.py:458-464 | an empty dict from the signing endpoint is not scored and does not fail the run |

## Left out

- Cryptography: FROST key generation, commit, sign, aggregate, verify and every (de)serialization are record fields of `Frost.Library`, with no properties assumed. The dealer key generation of `keygen` and `demo-basic` is not modelled; only their parameter checks are.
- Concurrency: the `tokio::spawn` and `join_all` of `orchestrate_signing` run the signers one after another in request order. A task that panics (`JoinError`) is not modelled. The Mutex and DashMap locking is plain state.
- Networking: axum routing, HTTP serving and the Python `requests` client are not modelled. Each reply is an input; a timeout or connection error is `RequestFailed`.
- Files: `src/cli/file_store.rs` and `src/cli/nonce_store.rs` are not part of this model. The command-line tool's files arrive already parsed, and nothing is written.
- Time and sleeps: `thread::sleep`, `Instant` elapsed time (given to `Send` as `elapsedMs`), `Utc::now` (a `now` parameter) and the wall clock ending the Python monitors (a number of polls) are not modelled as clocks.
- UUIDs: fresh session IDs are parameters.
- Randomness: packet loss is a stream of booleans. The loss rate is carried in the configuration but not used, because it only shapes that stream.
- SimulatedLora.SimulatedLoRaTransport.Send: requires `fragment_size > 0`; Rust divides by zero (a panic) when the size is 0, which the model does not capture.
- Floating point: the shared state's `progress` is an exact `real` where Rust divides two `f64`, and the Python comparisons of progress are over reals too.
- Machine integers: `usize`, `u32` and `u64` counters are unbounded `nat`, because overflow of these counters is unreachable in practice; `i32` RSSI is clamped well inside its range.
- Rust's `{:?}` of characters at U+0100 or above is not modelled: the hex decoder only ever reports a single byte read as a character.
- Bytes and characters: payload strings are taken to be ASCII, so `payload.len()` is their character count. `&payload[..64]` cannot panic on a character boundary.
- Printing, colours, banners and logs (`tracing`), and `print_final_summary`, are not modelled.
- FrostCli: the error-message texts are not modelled, only which error arises, with the numbers it reports.
- Transport: the trait's default `reset` has no state to change, so it is not a member of the model.
- Coordinator: `group_public_key` is the key package's verifying key. It is used only through `Handlers.AppState.GetPubkey` and the `Sign` response's `serializeGroupKey`.
- VerifyDemo: `>` between a list or dict and another value is taken to raise `TypeError`. A signing result that is a JSON value other than a dict is treated as unusable, because the script calls `.get` on it.
- VerifyDemo.RunVerification: a Ctrl-C is modelled as arriving before `main` starts. An interrupt in the middle of the run would give the same exit code (130), but the checks made before it are not modelled.
- VerifyDemo.SendSignRequest: the strict byte comparison and the `progress >= 0.99` test decide only which warning is printed, and the model proves only that they do not change the result.
- VerifyDemo.MonitorSigningProcess: elapsed-time bookkeeping and progress-bar widths are not modelled; only the phases, maximum progress and maximum retries are.
