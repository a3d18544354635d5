# Verified model of snmptrap-relay

The project models the relay that sits between SNMP trap senders and receivers, from the octets of
a datagram to the counters of the server, and proves what the relay promises about whole runs.

| file | models |
|---|---|
| `Basics.dfy`, `Text.dfy` | 64-bit arithmetic, decimal text, splitting, joining, trimming |
| `Ber.dfy` | the BER reader and value decoders |
| `PerfEncoder.dfy` | the trap encoder of the load generator |
| `Model.dfy`, `Config.dfy` | events, match expressions and configuration |
| `OidUtil.dfy` | OID normalization and lookup |
| `Parser.dfy` | the v1/v2c trap parser |
| `Match.dfy` | match expressions and dedup keys |
| `Dedup.dfy` | the bounded dedup store |
| `Engine.dfy` | filters, clear rules, alarm matching, dedup, forwarding |
| `Server.dfy`, `ServerRuns.dfy` | the receive loop and workers: their methods, and their interleavings as a state machine |
| `*Theorems.dfy` | what is proved about single operations |
| `DedupRuns.dfy`, `DedupLimits.dfy`, `DedupWorkers.dfy` | whole runs of the store: windows, what the limit does, several workers |
| `EngineRuns.dfy`, `EngineLimits.dfy`, `AlarmLifecycle.dfy` | whole runs of the engine: duplicates, the same limits, an alarm and its clear |
| `EngineCleanups.dfy`, `EngineWitnesses.dfy` | when cleanups and evictions show from outside, with the traffic that makes them show |

The store, the engine, the event, the BER reader and the server are classes whose methods change
them in place; each method is proved against a function on values, and the theorems are about those
functions. The nondeterminism of Go's map order, the forwarder's answer, the clock and the
interleaving of goroutines appear as parameters or as steps of a state machine.

Main results:

- Over any run of events, periodic cleanups and configuration reloads with non-decreasing times, an
  event is reported as a duplicate if and only if the latest forwarded event of its rule and key
  opened a window that has not been cleared or evicted since and is held or still open. The
  reference reading of a run knows neither the store's map nor cleanups.
- Cleanups never change what the relay reports, sends or writes if and only if the store has no
  limit, room for as many keys as are in use, or room for a single entry.
- A held state is lost exactly by its clear or by an arrival that finds the store full of entries
  seen since; only clears release held alarms, over all runs of the relay, if and only if the store
  has room for as many keys as are in use.
- Under W workers, between an absence of a key and the next removal of its entry at most W events
  of it are forwarded, and W is reached for every W unless the limit is 1. Reported duplicates equal
  the suppressions recorded, the store never exceeds its limit, and every event ends in one report
  that a single worker could give too.
- With increasing times an entry is evicted only after `limit` other keys have been active, and
  forwarded events of one key are at least its TTL apart.
- A clear reaches its alarm's entry exactly when its key, with the pinned trap OID in place, agrees on
  every key field, and the next event of that key is then sent again, whatever happens in between.
- After an event was stored, sent or not, the next event of its key is a duplicate exactly when the key
  was neither cleared nor evicted in between and the window is held or not over.
- What becomes of an event is decided by conditions on the event alone: it is withheld exactly when a
  filter drops it, a match errs or it repeats an alarm with an open entry; which keys it clears, which
  reason is reported and whether it has a line in the alerts file have such conditions too, and every
  operator of the match language has its meaning.
- Encoder and decoder undo each other for lengths, integers, OIDs and whole trap messages, with the
  exact conditions under which they do; every message of either version that follows the standards'
  layout parses exactly when its values decode, and what is refused, and for what, is stated exactly.
- Every received packet is accounted for at every moment of every interleaving, and every counter
  counts the verdicts of its own cause; datagrams are forwarded at most once, in order with one worker,
  and unmodified if and only if they fit the read buffer; longer ones are cut to it.

## Where the code and its documentation differ

The model follows the code.

- `docs/configuration.md` says that OID comparisons accept a leading dot and that a clear with
  another trap OID still resets the alarm. When the trap OID is a key field, that holds if and only if
  the pinned trap OID of the alarm, or the clear's own where nothing is pinned, is literally the one of
  the alarm event (`ClearTheorems.ClearReachesIff`, over runs `AlarmLifecycle.SentAgainIff`). It fails
  for a pin written with a leading dot, which is not normalized (`ClearTheorems.PinnedClearReachesIff`,
  `ClearTheorems.DottedPinNeverClears`), and for alarms that restrict the trap OID without a pin being
  found, as with the operator `EQ`, which matching reads like `eq` and pinning does not
  (`ClearTheorems.UpperCaseEqNeverClears`).
- `docs/architecture.md` says that the forwarded packet is the original datagram. A datagram longer
  than `max_datagram_size` is cut when it is read; if its outer TLV fits, it is parsed all the same and
  forwarded cut (`ParserTheorems.CutDatagramParsesIff`, `ServerTheorems.OversizedIsForwardedCut`). What
  is sent is the datagram itself if and only if that fits the buffer (`ServerTheorems.SentAsReceived`).
- Normalizing an OID strips one dot only, so normalizing twice may strip more
  (`OidUtil.NormalizeIsNotIdempotent`, `OidUtil.NormalizeTwiceIff`).
- `docs/configuration.md` contradicts itself about held states: its table of `alarm.dedup` keys and
  one item of its "Dedup behavior" section let only the clear trap, or a restart, end the suppression,
  while another item of that section has the least recently seen state evicted at the limit. The code
  evicts (`DedupLimits.HeldAlarmMayBeEvicted`, `EngineWitnesses.HeldAlarmMayBeEvicted`). The first
  statement is true of the code if and only if the store has room for the keys in use
  (`DedupLimits.OnlyClearsReleaseIff`, `EngineWitnesses.OnlyClearsReleaseIff`); which arrivals take a
  held state away is stated exactly by `DedupLimits.HeldLostIff` and `DedupLimits.SuppressedForeverIff`.
- The documentation gives periodic cleanup no part in what is suppressed. A cleanup that makes room
  can save a held state from eviction and so change a later outcome (`DedupLimits.CleanupMayShow`,
  `EngineWitnesses.CleanupMayShow`); it never does if and only if the condition of
  `DedupLimits.CleanupsInvisibleIff` and `EngineWitnesses.CleanupsInvisibleIff` holds.
- `docs/architecture.md` says that a new key is forwarded and a state is created. The state is
  created first and stays when the send fails, so repetitions of an event that was never delivered are
  suppressed until the key is cleared or evicted or the window is over
  (`AlarmLifecycle.FailedSendSuppressesIff`).
- A flat entry next to `all`, `any` or `not` is ignored by matching but still read as a pin,
  whatever its value (`ClearTheorems.HiddenPinIsFree`, `ClearTheorems.HiddenPinIsUnsound`); it is sound
  for every value only if no event matches (`ClearTheorems.HiddenPinIsSoundIff`).
- The integer encoder cannot encode -1, and the empty INTEGER body reads as 0, which is the one
  exception to the minimality of its encodings (`IntegerTheorems.EncodingIsMinimal`).
- The decoder refuses an unfinished OID by what it has accumulated, not by the continuation bit, so
  one that is cut behind nothing but zeros passes (`RefusalTheorems.OidRefusedIff`,
  `RefusalTheorems.UnfinishedOidPasses`).
- OIDs whose first sub-identifier needs more than one octet in X.690 section 8.19 are encoded and
  decoded differently from the standard (`OidTheorems.EncoderConforms`, `OidTheorems.DecoderConforms`).

## Model

| member | source | states |
|---|---|---|
| `Ber.Reader.ReadTLV` | internal/ber/ber.go:41-88 | reads the TLV the unread octets start with, moves past exactly its octets, and fails with the error the first defect calls for |
| `Ber.Reader.ReadTagAndLength` | internal/ber/ber.go:42-82 | the header part: short and long forms, indefinite, oversized, truncated and overflowing lengths |
| `Ber.Reader.AccumulateLength` | internal/ber/ber.go:65-70 | the loop computes the big-endian length or stops at the overflow test |
| `Ber.DecodeOID` | internal/ber/ber.go:123-151 | the loop yields the dotted text of the scanned arcs, in 64-bit arithmetic, or the truncation error |
| `Ber.Join` | internal/ber/ber.go:203-212 | the loop joins the parts with dots |
| `PerfEncoder.EncodeLength` | cmd/snmptrap-relay-perf/main.go:456-466 | the loop produces the short or long length field |
| `PerfEncoder.EncodeTlv` | cmd/snmptrap-relay-perf/main.go:444-446 | tag, length field and value one after the other |
| `PerfEncoder.Seq` | cmd/snmptrap-relay-perf/main.go:448-454 | a SEQUENCE of the parts in order |
| `PerfEncoder.EncodeIntegerBytes` | cmd/snmptrap-relay-perf/main.go:425-442 | the loop and sign octet give the two's-complement octets, and nothing for -1, where the code indexes an empty buffer |
| `PerfEncoder.EncodeBase128` | cmd/snmptrap-relay-perf/main.go:402-415 | both loops give the base-128 sub-identifier with continuation bits |
| `PerfEncoder.MustAtoi` | cmd/snmptrap-relay-perf/main.go:417-423 | the loop over the code points of the text accumulates decimal digits in 64-bit arithmetic |
| `PerfEncoder.EncodeOID` | cmd/snmptrap-relay-perf/main.go:387-400 | splits, packs the first two parts in one octet and appends the sub-identifiers of the rest; fewer than two parts is an error |
| `PerfEncoder.EncodeVarBind` | cmd/snmptrap-relay-perf/main.go:375-385 | a SEQUENCE of the encoded OID and the value, or the panic of a malformed OID |
| `PerfEncoder.BuildV2Trap` | cmd/snmptrap-relay-perf/main.go:356-373 | the whole SNMPv2 trap message for a community and varbinds |
| `TlvTheorems.FrameReadBack` | internal/ber/ber.go:41-88 | reading an encoded TLV followed by anything returns exactly its tag and value and stops at the suffix if and only if the value is shorter than 2^32 octets |
| `TlvTheorems.StrictPrefixRejected` | internal/ber/ber.go:41-88 | every strict prefix of an encoded TLV is refused |
| `TlvTheorems.ShortestFraming` | cmd/snmptrap-relay-perf/main.go:444-466 | no accepted framing of the same tag and value is shorter than the encoder's |
| `TlvTheorems.LengthOfIsNat` | internal/ber/ber.go:65-79 | the overflow test refuses exactly the lengths above the platform's MaxInt, for 32- and 64-bit int |
| `TlvTheorems.ReadIsStable` | internal/ber/ber.go:41-88 | octets after an accepted TLV do not change what is read |
| `RefusalTheorems.TlvRefusedIff` | internal/ber/ber.go:41-88 | each of the six errors of the reader occurs if and only if the octets have its defect: the form of the length octet, its range, or too few octets |
| `IntegerTheorems.IntegerRoundTrip` | cmd/snmptrap-relay-perf/main.go:425-442 | every integer but -1 is encoded and decodes to itself; read unsigned, exactly when it is not negative |
| `IntegerTheorems.EncodingIsMinimal` | internal/ber/ber.go:107-117 | no octet string decoding to n is shorter than its encoding, except the empty string for 0 |
| `IntegerTheorems.MinusOneHasNoEncoding` | cmd/snmptrap-relay-perf/main.go:425-442 | -1 is decodable but the encoder fails on it |
| `OidTheorems.OidRoundTrip` | internal/ber/ber.go:123-151 | for all lists of 64-bit arcs, decoding the encoded dotted text returns the text if and only if one octet can carry the first two arcs |
| `OidTheorems.EncoderConforms` | cmd/snmptrap-relay-perf/main.go:387-415 | the encoding is that of X.690 section 8.19 if and only if 40*X+Y is below 128 |
| `OidTheorems.DecoderConforms` | internal/ber/ber.go:123-151 | a standard encoding of a legal OID is decoded to its text if and only if 40*X+Y is below 128 |
| `OidTheorems.OidTextIsInjective` | internal/ber/ber.go:128-150 | different arc lists print differently |
| `RefusalTheorems.OidRefusedIff` | internal/ber/ber.go:123-151 | an OID is refused if and only if its last sub-identifier is unfinished and does not vanish in 64 bits: as far as there are so many, its last nine octets are 0x80 and the one before them is even |
| `OidUtil.PlainIsNormal` | internal/oidutil/oidutil.go:6-8 | texts without outer blanks and without a leading dot are left alone |
| `RefusalTheorems.UnfinishedOidPasses` | internal/ber/ber.go:145-151 | the OID 1.3 with an unfinished sub-identifier behind it is read as 1.3 |
| `OidUtil.NormalizeStrips` | internal/oidutil/oidutil.go:6-8 | exactly the blanks on both sides and one leading dot are removed |
| `OidUtil.NormalizeTwiceIff` | internal/oidutil/oidutil.go:6-8 | a second normalization changes nothing if and only if the first leaves neither a dot nor a blank in front |
| `OidUtil.NormalizeIsNotIdempotent` | internal/oidutil/oidutil.go:6-8 | a text from which two normalizations strip two dots |
| `Parser.ParseTrap` | internal/snmp/parser.go:34-97 | the event holds what the message says, or the first error is returned |
| `Parser.ReadEnvelope` | internal/snmp/parser.go:35-68 | version, community and PDU of a message, with their checks in order |
| `Parser.ParseV1` | internal/snmp/parser.go:99-157 | the event is filled from a Trap-PDU, or the first error is returned |
| `Parser.ParseV2` | internal/snmp/parser.go:159-196 | the event is filled from an SNMPv2-Trap-PDU, or the first error is returned |
| `Parser.DecodeVarBinds` | internal/snmp/parser.go:198-240 | the loop terminates and collects the varbinds of the list, or returns the first error |
| `Parser.DecodeItem` | internal/snmp/parser.go:214-237 | one varbind item: OID, then value, trailing octets ignored |
| `Parser.FillBindMap` | internal/snmp/parser.go:184-186 | the loop stores every varbind's value under its OID, later ones over earlier ones |
| `Parser.BuildFields` | internal/snmp/parser.go:242-292 | only the fields change, to the header fields overlaid by the varbinds and their aliases |
| `ParserTheorems.ItemsTile` | internal/snmp/parser.go:207-239 | on any octets the loop succeeds if and only if well-formed items tile the body; the varbinds are the items decoded in order, at most one per six octets |
| `ParserTheorems.TrailingOctetsIgnored` | internal/snmp/parser.go:34-97 | octets after a complete outer TLV change nothing in the result but the stored datagram, errors included |
| `ParserTheorems.CutDatagramParsesIff` | internal/snmp/parser.go:34-97 | a datagram cut short is parsed like the whole, but for the stored octets, as long as its outer TLV is whole, and not at all otherwise |
| `ParserTheorems.ParsedKeepsDatagram` | internal/snmp/parser.go:70-80 | the event stores the datagram it was parsed from |
| `ParserTheorems.LastWriterWins` | internal/snmp/parser.go:282-289 | a varbind or alias field holds the value of the last varbind that writes it |
| `ParserTheorems.WritesIff` | internal/snmp/parser.go:282-300 | a varbind writes the field of its OID and, if the OID or its dotted form has a non-empty alias, the alias and `fields.` with the alias, and no other field |
| `ParserTheorems.UnwrittenFieldKept` | internal/snmp/parser.go:282-289 | a field no varbind or alias writes keeps its header value |
| `ParserTheorems.TrapOidField` | internal/snmp/parser.go:278-289 | the trap_oid field is the normalized trap OID unless an alias takes its name |
| `WireTheorems.HeaderFieldsSay` | internal/snmp/parser.go:242-292 | every header field holds its part of the message, no other header field exists, and parts that are missing have none, unless a varbind or alias writes the field |
| `WireTheorems.V1MessageReadBack` | internal/snmp/parser.go:34-157 | a message with tag 0xA4 laid out by RFC 1157 section 4.1.6 parses if and only if every value decodes, and version, community, enterprise, agent, trap numbers, time, varbinds and trap OID land in their places; of trap numbers beyond 64 bits the low 64 bits do |
| `WireTheorems.V2MessageReadBack` | internal/snmp/parser.go:159-196 | the same for tag 0xA7 with any request id, error status and index, which end at the nearest 64-bit number |
| `WireTheorems.OtherPduRefused` | internal/snmp/parser.go:82-93 | a message with any other PDU tag is refused, and the error names the tag |
| `RefusalTheorems.EnvelopeChecked` | internal/snmp/parser.go:35-68 | three parts under any tags, with anything in place of the PDU, are refused for the first of their defects or read |
| `RefusalTheorems.ItemRefusedIff` | internal/snmp/parser.go:214-237 | which varbind items are refused, and for what |
| `RefusalTheorems.ListRefusedIff` | internal/snmp/parser.go:198-205 | a varbind list under any tag but 0x30 is refused, and what follows the list is not looked at |
| `RefusalTheorems.EnterpriseRefused` | internal/snmp/parser.go:99-109 | a Trap-PDU whose enterprise is no OID is refused |
| `MessageTheorems.MessageRoundTrip` | internal/snmp/parser.go:34-97 | for every community and varbinds with canonical OIDs, the encoded message parses if and only if every value does, and gives the same community, request id, OIDs and values in order, with trap OID and uptime from the last varbinds of those OIDs (RFC 3416 section 4.2.6) |
| `MessageTheorems.BindMapKeepsLast` | internal/snmp/parser.go:184-194 | the map holds the value of the last varbind of an OID |
| `MessageTheorems.OidValueReadBack` | internal/ber/ber.go:167-169 | an encoded OID value decodes to the same dotted text |
| `MessageTheorems.IntegerValueReadBack` | internal/ber/ber.go:158-187 | an encoded INTEGER or TimeTicks decodes to its decimal text |
| `ValueTheorems.TypeByTag` | internal/ber/ber.go:153-201 | every value but a malformed OID has the type its tag octet names, in primitive and constructed form |
| `ValueTheorems.ValueByTag` | internal/ber/ber.go:153-201 | the text of a value of any type: its number in decimal, the text, OID or address itself, nothing, or digits that spell its octets |
| `ValueTheorems.HexReadBack` | internal/ber/ber.go:153-201 | the hexadecimal text of octets spells exactly these octets |
| `ValueTheorems.TextReadBack` | internal/ber/ber.go:160-164 | an OCTET STRING that is text comes back as it was sent |
| `ValueTheorems.OctetsReadBack` | internal/ber/ber.go:160-164 | an OCTET STRING that is no text comes back as digits that spell it |
| `ValueTheorems.UnsignedReadBack` | internal/ber/ber.go:178-190 | an encoded Counter32, Gauge32 or Counter64 decodes to its decimal text under its type |
| `MessageTheorems.V1HeadReadBack` | internal/snmp/parser.go:99-144 | a Trap-PDU laid out by RFC 1157 section 4.1.6 gives back enterprise, agent, generic, specific and time, each in its field |
| `Match.Matches` | internal/match/match.go:59-140 | the loops compute the meaning of the expression, parse errors before evaluation |
| `Match.ParseConditionList` | internal/match/match.go:142-172 | the conditions of a list in order, or the error of a malformed list or item |
| `Match.CheckFlat` | internal/match/match.go:128-139 | a flat mapping matches exactly when every field agrees, in any map order |
| `Match.BuildDedupKey` | internal/match/match.go:289-312 | missing fields in order; the hash of all field values if the list is complete, else empty |
| `Match.SameItemsIff` | internal/match/match.go:289-312 | two keys over the same fields are equal exactly when every field resolves alike |
| `MatchTheorems.ListExpressionMatchesIff` | internal/match/match.go:64-126 | a list expression matches exactly when its lists are well formed, all of `all` hold, some of a non-empty `any` holds before any errs and all of `not` fail |
| `OperatorTheorems.ListExpressionErrsIff` | internal/match/match.go:64-126 | a list expression errs exactly when a list is malformed or an erring condition is reached |
| `OperatorTheorems.MalformedListIff` | internal/match/match.go:142-172 | which lists are malformed, and with which of the two errors |
| `OperatorTheorems.NullAllMatches` | internal/match/match.go:64-75 | an `all` entry without a value makes the expression a list expression that demands nothing |
| `OperatorTheorems.ListModeIff` | internal/match/match.go:64 | lists are used if and only if there is an `all` entry, even null, or an `any` or `not` entry that is not null |
| `OperatorTheorems.FlatExpressionMatchesIff` | internal/match/match.go:128-139 | a flat expression demands that every entry equals the field's text, up to normalization on OID fields |
| `OperatorTheorems.EqMeans` | internal/match/match.go:184-189 | in any letter case, `eq` demands that the two texts are equal, up to normalization on OID fields |
| `OperatorTheorems.DefaultIsEq` | internal/match/match.go:160-163 | a condition without an operator demands equality |
| `OperatorTheorems.NeMeans` | internal/match/match.go:190-195 | `ne` demands that they differ |
| `OperatorTheorems.ExistsMeans` | internal/match/match.go:182-183 | `exists` demands a text that is not empty |
| `OperatorTheorems.PrefixMeans` | internal/match/match.go:202-207 | `prefix` holds exactly when the field's text is the value followed by some text |
| `OperatorTheorems.SuffixMeans` | internal/match/match.go:208-213 | `suffix` holds exactly when it is some text followed by the value |
| `OperatorTheorems.ContainsMeans` | internal/match/match.go:196-201 | `contains` holds exactly when the value stands between two texts |
| `OperatorTheorems.InMeans` | internal/match/match.go:245-273 | `in` holds exactly when `eq` holds of some listed value |
| `OperatorTheorems.InNeedsList` | internal/match/match.go:258-272 | `in` with a value that is no list is false |
| `OperatorTheorems.RegexMeans` | internal/match/match.go:214-219 | `regex` is what the expression says of the field's text, and errs when it is invalid |
| `OperatorTheorems.ComparisonMeans` | internal/match/match.go:222-241 | the comparisons order finite numbers |
| `OperatorTheorems.NumberComparisonMeans` | internal/match/match.go:222-241 | the comparisons order all numbers, infinities included |
| `OperatorTheorems.NoNumberNoOrder` | internal/match/match.go:222-241 | a comparison with something that is no number is false |
| `OperatorTheorems.UnknownOperatorErrs` | internal/match/match.go:242 | any other operator errs |
| `OperatorTheorems.FieldSpellings` | internal/match/match.go:27-57 | a stored field is found under its name, and under its name behind `fields.` |
| `OperatorTheorems.AbsentFieldIsEmpty` | internal/match/match.go:27-57 | a name that is neither stored nor a varbind's resolves to the empty text |
| `MatchTheorems.FirstNotFailingDecides` | internal/match/match.go:100-124 | the first condition that holds or errs decides an `any` or `not` list |
| `MatchTheorems.VarBindSpellings` | internal/match/match.go:27-57 | varbind.<oid>, varbind.<.oid> and varbind:<oid> resolve alike |
| `MatchTheorems.LookupEitherForm` | internal/oidutil/oidutil.go:11-35 | a map keyed by either form of an OID is found under both forms |
| `MatchTheorems.FirstFilterDecides` | internal/engine/engine.go:228-245 | the first filter rule that matches or errs decides, whatever follows |
| `MatchTheorems.DefaultDecides` | internal/engine/engine.go:246-250 | the default action decides only if no rule matches |
| `MatchTheorems.FirstAlarmDecides` | internal/engine/engine.go:252-263 | an event belongs to the first alarm it matches |
| `Dedup.Store.Get` | internal/dedup/store.go:42-56 | returns the entry if it is live and drops it if it has expired |
| `Dedup.Store.Put` | internal/dedup/store.go:58-79 | evicts one least recently seen entry exactly when the store is full, then stores a fresh entry |
| `Dedup.Store.EvictOldest` | internal/dedup/store.go:81-93 | in any map order the loop removes an entry no other was seen before |
| `Dedup.Store.Touch` | internal/dedup/store.go:107-118 | updates time and count of a present entry, nothing else |
| `Dedup.Store.Clear` | internal/dedup/store.go:120-128 | removes and returns the entry |
| `Dedup.Store.Cleanup` | internal/dedup/store.go:25-40 | in any map order the loop removes exactly the expired entries not held, and returns them |
| `DedupRuns.DuplicateIffWindowOpen` | internal/dedup/store.go:25-128 | over whole runs an arrival finds an entry exactly when the latest forwarded arrival of its key opened a window neither cleared nor evicted since and held or not yet over |
| `DedupRuns.EvictionNeedsActivity` | internal/dedup/store.go:58-93 | with increasing times an entry is evicted only after at least `limit` other keys arrived since it did |
| `DedupRuns.EntriesTell` | internal/dedup/store.go:58-118 | over any run an entry's first event is the last forwarded arrival of its key, its last-seen time that of the last arrival, its count the number of duplicates in between |
| `DedupRuns.SweepLeavesOpenWindows` | internal/dedup/store.go:25-40 | after a cleanup exactly the keys whose windows are held or still open have an entry |
| `Dedup.WindowIsSecondsIff` | internal/model/types.go:220-222 | the window is the TTL in seconds if and only if that fits a 64-bit duration |
| `DedupRuns.ForwardsAreSpaced` | internal/model/types.go:220-222 | consecutive forwarded arrivals of a key are at least its TTL, in seconds, apart |
| `DedupRuns.ForwardsSpan` | internal/model/types.go:220-222 | N forwarded arrivals of a key span at least N-1 TTLs, in seconds |
| `DedupRuns.CapacityKept` | internal/dedup/store.go:58-79 | a positive limit is never exceeded in a run |
| `DedupLimits.CleanupsInvisibleIff` | internal/dedup/store.go:25-93 | over a set of keys, every run has the outcomes of every run of the same arrivals and clears without cleanups, if and only if the limit is absent, 1 or at least the number of keys |
| `DedupLimits.RoomySweepsAreInvisible` | internal/dedup/store.go:25-93 | with room for all arriving keys, removing the cleanups of a run leaves it legal and changes no outcome |
| `DedupLimits.TrafficDecides` | internal/dedup/store.go:25-128 | with such room, or with a limit of 1, arrivals and clears alone decide all outcomes, whatever cleanups and evictions do |
| `DedupLimits.CleanupMayShow` | internal/dedup/store.go:25-93 | at every limit above 1, with one key more than the limit: a run in which a cleanup saves a held state, and the run without it in which that state is evicted and its next event forwarded |
| `DedupLimits.CalmRunExists` | internal/dedup/store.go:58-93 | the arrivals and clears of any run have a legal run without cleanups |
| `DedupLimits.EvictedIff` | internal/dedup/store.go:58-93 | with increasing times an arrival evicts an entry if and only if it finds none of its own and the store full of entries whose keys all arrived since that entry's did |
| `DedupLimits.HeldLostIff` | internal/dedup/store.go:58-128 | a step takes a held state away if and only if it is its clear or such an arrival |
| `DedupLimits.SuppressedForeverIff` | internal/dedup/store.go:42-128 | over whole runs a key is suppressed at every later time if and only if a forwarded arrival held it and neither happened since |
| `DedupLimits.ActiveIsHeldThroughout` | internal/dedup/store.go:58-118 | nothing displaces a held alarm while fewer than `limit` other keys are active between its arrivals |
| `DedupRuns.HeldStaysSuppressed` | internal/dedup/store.go:58-118 | so a held alarm suppresses at any later time until its clear while fewer than `limit` other keys are active |
| `DedupLimits.OnlyClearsReleaseIff` | internal/dedup/store.go:58-128 | over a set of keys, a held state goes on suppressing until its clear in every run if and only if the store has room for all of them |
| `DedupLimits.HeldAlarmMayBeEvicted` | internal/dedup/store.go:62-93 | at every limit, `limit` other keys suffice to lose a held alarm without a clear |
| `DedupWorkers.StepsAddUp` | internal/engine/engine.go:142-198 | undisturbed, the Get and Touch, or Put and Send, of one worker change the store and report as one sequential arrival does |
| `DedupWorkers.EveryJobIsReportedOnce` | internal/engine/engine.go:142-198 | over all interleavings every event taken up ends in one report, possible for a single worker too: a duplicate for each Touch that hits, an alarm sent or a failed send for each Put |
| `DedupWorkers.AtMostOnePutPerWorker` | internal/engine/engine.go:142-163 | over all interleavings of W workers, at most W Puts of a key happen between its absence and its next removal; exactly one with W = 1 |
| `DedupWorkers.RaceReachesBoundIff` | internal/engine/engine.go:142-163 | for every W there is an interleaving in which all W workers Put the same key before its removal, unless W > 1 and the limit is 1 |
| `DedupWorkers.SingleSlotPutsOnce` | internal/dedup/store.go:62-64 | with a limit of 1 a Put of a present key evicts that key's own entry first |
| `DedupWorkers.SuppressionsConserved` | internal/dedup/store.go:25-128 | over all interleavings, duplicates reported equal the suppressions on live entries plus those on entries removed or overwritten |
| `DedupWorkers.CapacityHolds` | internal/dedup/store.go:58-79 | over all interleavings a positive limit is never exceeded |
| `Engine.Engine.Reload` | internal/engine/engine.go:53-61 | configuration, forwarder, decoder and alerts writer are swapped, the store stays |
| `Engine.Engine.Parse` | internal/engine/engine.go:63-69 | the decoder in use yields the event of the datagram, or the error |
| `Engine.Engine.Cleanup` | internal/engine/engine.go:201-209 | only the store changes, by its cleanup |
| `Engine.Engine.EvaluateFilters` | internal/engine/engine.go:228-250 | the loop gives the verdict of the first deciding rule or the default |
| `Engine.Engine.MatchAlarm` | internal/engine/engine.go:252-263 | the loop gives the first matching alarm or the first error |
| `Engine.StaticMatchFieldValue` | internal/engine/engine.go:464-509 | the loop gives the one value the expression pins the field to, none if two differ |
| `Engine.Engine.EvaluateClear` | internal/engine/engine.go:304-356 | the effect of one clear rule: match, varbind regex, pinned key |
| `Engine.Engine.RunClearLoop` | internal/engine/engine.go:301-419 | exactly the cleared keys leave the store, at most one line is written, and the flag is the one the alarms leave in order |
| `Engine.Engine.ApplyAlarmClearRules` | internal/engine/engine.go:301-419 | the same as one change of the engine's world |
| `Engine.Engine.Forward` | internal/engine/engine.go:265-299 | one call of the forwarder with the stored datagram; one alert line if it succeeds and none was written |
| `Engine.Engine.Deduplicate` | internal/engine/engine.go:100-198 | key, Get, Touch, Put, send in this order, with a legal eviction |
| `Engine.Engine.HandleEvent` | internal/engine/engine.go:71-199 | store, sends, alert lines, outcome and error of one event |
| `EngineTheorems.OutcomesArePossible` | internal/engine/engine.go:71-199 | without an error an event is accepted exactly when it is forwarded; with one, the outcome is empty or a failed send |
| `EngineTheorems.SendsTheDatagramOnce` | internal/engine/engine.go:71-199 | the forwarder gets the stored datagram once if the event is accepted and nothing otherwise |
| `EngineTheorems.AtMostOneAlertLine` | internal/engine/engine.go:181-198 | a fresh event writes at most one alert line, exactly one if forwarded with a writer set |
| `EngineTheorems.ClearedExactly` | internal/engine/engine.go:301-419 | the cleared keys are those of the alarms whose clear rule passes with a complete key |
| `EngineTheorems.ClearLoopFrame` | internal/engine/engine.go:301-419 | after the clear rules those keys are absent and every other entry is unchanged |
| `EngineTheorems.LastMatchDecides` | internal/engine/engine.go:316-334 | the event counts as a clear exactly when the last alarm whose clear rule matches also accepts the varbind value |
| `OutcomeTheorems.FiltersIff` | internal/engine/engine.go:228-250 | an event is dropped under an id, kept or fails exactly by the first filter that does not come out false, or the default |
| `OutcomeTheorems.ClearedIff` | internal/engine/engine.go:301-357 | a key is cleared if and only if some alarm's clear rule matches, watches no varbind or one whose value its regex accepts, and has exactly this key, complete |
| `OutcomeTheorems.CountsAsClearIff` | internal/engine/engine.go:301-334 | an event counts as a clear if and only if the last clear rule it matches watches no varbind or does not find a mismatch |
| `OutcomeTheorems.DroppedEvent` | internal/engine/engine.go:77-86 | a dropped event changes nothing and is reported as filtered under the filter's id |
| `OutcomeTheorems.PassedThroughEvent` | internal/engine/engine.go:88-98 | a clear, and an event no alarm matches, is sent once as pass-through, or reported as a failed send |
| `OutcomeTheorems.UndedupedEvent` | internal/engine/engine.go:100-141 | an alarm whose key is incomplete is sent without dedup |
| `OutcomeTheorems.DedupedEvent` | internal/engine/engine.go:142-198 | an alarm with a complete key is a duplicate if its entry is held or has time left, and is sent otherwise |
| `OutcomeTheorems.FailedEvent` | internal/engine/engine.go:77-95 | an event on which a match errs is neither accepted nor sent |
| `OutcomeTheorems.WithheldIff` | internal/engine/engine.go:71-199 | an event is not sent if and only if a filter drops it, a match errs or it repeats an alarm with an open entry; it is reported as filtered or as a duplicate exactly then |
| `OutcomeTheorems.ReportedIff` | internal/engine/engine.go:71-199 | pass-through, missing dedup and alarm are reported exactly where they apply |
| `OutcomeTheorems.AlertLineIff` | internal/engine/engine.go:281-417 | an event is given a line in the alerts file if and only if it has none, a writer is set, no filter stops it, and it clears a key or is forwarded |
| `ClearTheorems.PinIsSound` | internal/engine/engine.go:464-509 | for expressions read in one way, every matching event carries the pinned trap OID up to normalization |
| `ClearTheorems.PinFoundIff` | internal/engine/engine.go:464-509 | a pin is found if and only if there is a flat entry, or the `all` list demands one value by `eq` conditions and no other |
| `ClearTheorems.HiddenPinIsFree` | internal/engine/engine.go:464-467 | beside a list, a flat entry of any value is the pin and changes nothing about what matches |
| `ClearTheorems.HiddenPinIsSoundIff` | internal/engine/engine.go:464-467 | for a list expression, a flat entry is a sound pin whatever its value if and only if no event matches |
| `ClearTheorems.HiddenPinIsUnsound` | internal/engine/engine.go:464-467 | beside a list, a flat entry pins a value that matching ignores |
| `ClearTheorems.ClearAimsIff` | internal/engine/engine.go:335-357 | a clear's key is that of an alarm event exactly when, with the pin in place, every key field agrees |
| `ClearTheorems.ClearReachesIff` | internal/engine/engine.go:335-357 | a clear agreeing on the other key fields reaches the entry if and only if the trap OID is no key field or the pin, or the clear's own trap OID where nothing is pinned, equals the event's |
| `ClearTheorems.UpperCaseEqNeverClears` | internal/engine/engine.go:490-500 | an alarm whose trap OID condition uses an upper-case operator matches, but pins nothing and is not cleared by a trap of another OID |
| `ClearTheorems.PinnedClearReachesIff` | internal/engine/engine.go:339-357 | with the trap OID pinned, a clear agreeing elsewhere reaches the entry if and only if the pin is written in normalized form |
| `ClearTheorems.UnpinnedClearReaches` | internal/engine/engine.go:335-357 | without the trap OID in the key, agreement on the key fields suffices |
| `ClearTheorems.DottedPinNeverClears` | internal/engine/engine.go:455-467 | an alarm whose trap OID is configured with a leading dot is not cleared by a trap of another OID |
| `EngineRuns.TraceIsFaithful` | internal/engine/engine.go:71-199 | the clears, arrivals and sweeps of a run of the engine end in the engine's store |
| `EngineRuns.DuplicateIffSuppressed` | internal/engine/engine.go:71-199 | over any run of events, cleanups and reloads, an event is a duplicate if and only if it reaches dedup and its key's window is open |
| `EngineRuns.ArrivalOutcome` | internal/engine/engine.go:142-198 | an event that reaches dedup is a duplicate or is sent |
| `EngineRuns.ClearRemovesEntry` | internal/engine/engine.go:88-90 | a clear removes the entries of the keys it clears and is passed through |
| `EngineRuns.ClearUndoesAlarm` | internal/engine/engine.go:301-419 | a clear that agrees with an earlier event of the alarm on every key field removes that event's entry |
| `EngineRuns.SentAgainAfterClear` | internal/engine/engine.go:142-198 | after a clear the next event of the key is sent again, whatever came in between |
| `AlarmLifecycle.StoredSuppressesIff` | internal/engine/engine.go:142-198 | after an event was stored and until another of its key is, the next event of the key is a duplicate if and only if the key was neither cleared nor evicted since, is not cleared by that event, and the window is held or not over |
| `AlarmLifecycle.SuppressedForTtl` | internal/model/types.go:220-222 | in seconds: while its key is neither cleared nor evicted, the next event of a stored key is a duplicate if and only if it comes before the TTL, counted from the first, is over |
| `AlarmLifecycle.FailedSendSuppressesIff` | internal/engine/engine.go:163-172 | a failed send is one call with the datagram, and repetitions of the event are suppressed under exactly these conditions |
| `AlarmLifecycle.StaysOpenedIff` | internal/engine/engine.go:71-199 | a window stays the one an event opened, while no other event of the key is stored, if and only if the key is not taken out |
| `AlarmLifecycle.ClearClearsIff` | internal/engine/engine.go:301-419 | with unique alarm ids, a clear that agrees with an alarm event on the other key fields clears that event's key if and only if it keeps the trap OID |
| `AlarmLifecycle.PinNormalIff` | internal/engine/engine.go:339-357 | with a pinned trap OID, a clear keeps the trap OID if and only if the pin is in normalized form |
| `AlarmLifecycle.ClearedAlarmIsSentAgain` | internal/engine/engine.go:71-199 | an alarm event, later its clear, later the next event of the key, with anything in between: the entry is gone after the clear and the next event is sent |
| `AlarmLifecycle.SentAgainIff` | internal/engine/engine.go:335-357 | alarm event, clear and next event, the key not taken out otherwise: the next event is a duplicate if and only if the clear's key has another trap OID and the window is held or not over |
| `EngineLimits.EvictionNeedsEvents` | internal/engine/engine.go:142-163 | with increasing times an event evicts a key only after `limit` other keys reached dedup since that key did |
| `EngineLimits.HeldAlarmSuppresses` | internal/engine/engine.go:142-163 | while an alarm is held, neither cleared nor displaced, every event of its key is reported as a duplicate |
| `EngineLimits.StoredTimesAreForwarded` | internal/engine/engine.go:142-163 | the events of a key the engine stored and sent are the forwarded arrivals of its trace |
| `EngineLimits.StoredEventsSpan` | internal/model/types.go:220-222 | n events of a key stored without a clear or eviction in between span at least n - 1 windows |
| `EngineCleanups.TrafficDecides` | internal/engine/engine.go:71-209 | with room for all keys, or for one entry, two runs of the same events and reloads report, send and write the same, whatever cleanups and evictions do |
| `EngineCleanups.RoomyCleanupsAreInvisible` | internal/engine/engine.go:201-209 | with room for all keys, the run without its cleanups is possible and reports, sends and writes the same |
| `EngineCleanups.ValidByTrace` | internal/engine/engine.go:71-199 | a run of the engine is possible when its trace is a legal run of the store |
| `EngineWitnesses.CleanupsInvisibleIff` | internal/engine/engine.go:201-209 | while at most n keys are in use, no run of the relay reports, sends or writes anything else than the same run without cleanups, if and only if the limit is absent, 1 or at least n |
| `EngineWitnesses.CleanupMayShow` | internal/engine/engine.go:201-209 | at every limit above 1, two runs of the same events, one with a cleanup and one without, whose last event is reported differently |
| `EngineWitnesses.OnlyClearsReleaseIff` | internal/engine/engine.go:142-163 | while at most n keys are in use, held alarms suppress their events until their clear in every run, if and only if the limit is absent or at least n |
| `EngineWitnesses.HeldAlarmMayBeEvicted` | internal/dedup/store.go:62-93 | at every limit, traffic of `limit` other keys after which a held alarm's next event is sent without a clear |
| `Server.Server.ReadFromUdp` | internal/server/server.go:98-113 | the datagram, cut to the buffer's size, overwrites the front of the buffer |
| `Server.Server.Receive` | internal/server/server.go:112-138 | a datagram is queued last or dropped when the queue is full; queued payloads survive the reuse of the buffer |
| `Server.Server.TakePacket` | internal/server/server.go:147-152 | the oldest payload leaves the queue and the gauge falls by one |
| `Server.Server.RecordOutcome` | internal/server/server.go:182-203 | the counters move as the outcome says |
| `Server.Server.ProcessPacket` | internal/server/server.go:157-180 | the verdict is a possible one, the counters follow it, and the forwarder sees the payload, unmodified, at most once |
| `ServerTheorems.PacketsConserved` | internal/server/server.go:125-203 | in every state of every interleaving the received packets are dropped, queued, in flight or counted under one reason; accepted = forwarded = deliveries when workers are idle; forward failures never exceed handling failures |
| `ServerTheorems.CountersCountVerdicts` | internal/server/server.go:157-203 | over every interleaving each counter equals the number of verdicts of its own cause less the workers that have yet to count theirs, and exactly that number when no worker is busy |
| `ServerTheorems.TalliesItsCauses` | internal/server/server.go:157-203 | one packet moves exactly the counters of its verdict, by one |
| `ServerTheorems.GaugeDrift` | internal/server/server.go:128-152 | the gauge is the queue length minus an increment and plus the decrements still due, and stays between -1 and capacity + W |
| `ServerTheorems.SentAsReceived` | internal/server/server.go:98-180 | over all interleavings, datagrams are forwarded cut to the read buffer and none twice; what is sent is the datagram if and only if it fits |
| `ServerTheorems.OversizedIsForwardedCut` | internal/server/server.go:98-126 | a trap message with octets behind it, in a buffer that holds just the message, is parsed like the whole and stored without them |
| `ServerTheorems.OneWorkerKeepsOrder` | internal/server/server.go:142-180 | with one worker the forwarded datagrams are in order of arrival |
| `ServerTheorems.StepsAddUp` | internal/server/server.go:157-203 | the separate counter steps of a worker add up to one call of ProcessPacket |

## Left out

- SNMPv3 and the gosnmp decoder (`internal/receiver/decoder.go`): the decoder of the model is the fallback parser alone.
- Sockets, deadlines, tickers, several forwarding targets: a send is one call that succeeds or fails, and its answer is a parameter.
- Logging, the text of alert lines, metrics endpoint, health check and files: only the number of alert lines is kept.
- YAML loading, defaults and validation, memory limit, the load generator's timing and rates: straight-line code.
- Shutdown and the reader's exit on a socket error: safety of the running server only; workers may stop at any step.
- SHA-256 and JSON: the hash of a key is the list of its fields and values, which is what an injective hash of valid text amounts to; the key's JSON text is only logged.
- Regular expressions, the reading of decimal numbers, UTF-8 validity and the text of IP addresses: functions the theorems quantify over. Numbers are compared as reals with infinities and NaN; that reading a number rounds is part of reading it.
- Strings are sequences of bytes written as characters; blanks and letter case are those of ASCII.
- Times are unbounded integers in nanoseconds; the TTL's conversion to a duration wraps at 64 bits as in Go, the sum with the first-seen time does not.
- Mappings of a YAML value have texts as keys; two keys that print alike do not occur.
- Pointers to store entries that callers keep after the lock is released: entries are values here, as the callers only log them.
- A queue of size 0 and an engine without a state or a decoder: the first is refused by configuration validation, the others are never constructed.
- Workers of `DedupWorkers` carry an arbitrary job from Get on; filters and the clear loop in front of it appear as clears at any moment.
- ClearTheorems.PinIsSound: for one given value one way only, as a list expression that hides a flat entry may imply the same value by another condition; `ClearTheorems.HiddenPinIsSoundIff` is exact over all values.
- ClearTheorems.ClearReachesIff: does not cover `fields.trap_oid` as a key field, which the pin changes too; `ClearTheorems.ClearAimsIff` covers every key.
- Engine.Engine.Reload: the logger swapped with the rest is not modelled, as logging is left out.
- DedupRuns.HeldStaysSuppressed: a sufficient condition in numbers of keys; the exact one is `DedupLimits.SuppressedForeverIff`.
- EngineCleanups.RoomyCleanupsAreInvisible: the case of a store with room for all keys; `EngineWitnesses.CleanupsInvisibleIff` is exact.
