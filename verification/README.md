# PiGrow-Client verification

PiGrow-Client runs on a Raspberry Pi grow controller. Unclaimed, it broadcasts a beacon with a
rotating six-digit PIN and waits on MQTT for a claim from the server; the accepted claim goes to
`state.json`. Active, it lays the server's sensors and devices over its own `config.yaml`, reads
SHT40 sensors with a CRC, and executes ON/OFF commands on GPIO pins.

This project models that logic in Dafny and proves what it keeps. `dafny verify dfyconfig.toml`
checks everything.

| modules | subject |
|---|---|
| `Gf2Poly`, `Sht40` | the checksum loop as polynomial division over GF(2), and which errors it detects |
| `ClientConfig`, `GoDuration`, `Text` | configuration validation, durations, decimal printing and parsing |
| `Merge`, `ProvisionTypes`, `Resolve`, `Overlaid`, `ActiveConfig` | the server overlay: the hash-index loops, a declarative merge they refine, the keys both rest on, and what comes out entry by entry |
| `Mac`, `Claim`, `StateFile` | address spellings, claim verification, the crash-safe state file |
| `Runs`, `Selections`, `ClaimWait` | runs of a step system, in-order selections, and the claim handshake as a step system |
| `Boot`, `HandOver`, `Origins` | any number of boots around the handshake, the hand-over to the active flow, and which delivered claim everything on the board goes back to |
| `Beacon`, `Teardown` | the beacon channel with its two goroutines, and the deferred calls of RunUnclaimed |
| `Pin` | the rotating PIN over every call history with its two clocks, and the stored serial |
| `Broadcast` | RunUnclaimed with the beacon, the PIN and the deferred calls together |
| `Gpio`, `Hub`, `Commands` | pin cache, controller, and the command pipeline under every interleaving |
| `Arrivals`, `Overtaking` | the message behind every job, and when commands keep the order of arrival |

Code that updates objects or loops over buffers is modelled by classes and methods
(`Config.Validate`, `Crc8`, `OverlaySensors`, `Pin.Current`, `StateStore.SaveActiveState`,
`RPIDevice.SetPin`, `Controller`). Each is proved against a specification function, and the main
results are lemmas about those functions. Goroutines that interleave are step systems
(`State`, `Event`, `Enabled`, `Step`); a theorem about `Run(..., evs) == Some(s)` covers every
reachable state of every interleaving. The steps of `Commands` are the same functions
(`WithDevice`, `Offered`, `Taken`, `AfterExecution`) that the methods of `Hub.Controller` are
proved to carry out. In `Boot` the handshake of `ClaimWait` and the set-up and deferred calls of
`Teardown` are embedded, and `Stop` may occur between any two file operations.

## What the code does, where that is worth knowing

- The initial value 0xFF is added to the first message byte. So the checksum of an n-byte message M is
  (x^(8n) * 0xFF + x^8 * M) mod (x^8 + x^5 + x^4 + 1). Bursts of up to eight bits are rejected because
  the generator has degree 8 and a constant term (`MultipleSpansNine`), odd errors because it contains
  the factor x + 1 (`MultipleHasEvenWeight`), and two-bit errors, unless the bits are a multiple of 127
  apart, because x has order 127 (`PowerIsOneIff`). Within 127 bits the smallest number of flipped bits
  that can pass is therefore exactly four (`ThreeBitsRejected`, `FourBitsPass`).
- Resolving a resolved configuration again changes nothing if and only if every identified I2C
  sensor of the state has an address that fits 16 bits (`ResolveTwiceIff`). A wider address is cut
  at internal/provision/resolve.go:230 and appended anew on every pass (`ResolveTwiceFails`).
- A second accepted claim that arrives before the unsubscription overwrites `state.json`, while
  `Wait` returns the first (`SecondClaimOverwrites`, with concrete claims in `SecondClaimExample`). The
  comment at internal/provision/claim.go:171-174 calls that message ignored. What is returned is what is
  on disk exactly when the first and the last claim saved say the same (`ReturnedIsOnDiskIff`).
- When the mDNS advertiser runs, RunUnclaimed cannot return after a claim (or after a failed wait)
  unless its caller cancels: the deferred shutdown runs before the deferred cancel and waits for the
  context that cancel would end (`ReturnsAloneIff`; `WaitingReached` shows that both cases occur). The
  comment at internal/provision/provision.go:50-53 promises the opposite. main never cancels, so a
  claimed board reaches the active flow without a restart exactly when its advertiser failed to start
  (`HandOverPossibleIff`, `AdvertisingBoardHangs`). A restart then works and follows the last saved
  claim alone (`RestartFollowsLastClaim`).
- A message that is still under way when `Wait` returns is handled all the same: an accepted one replaces
  `state.json` under a running active flow, which takes no notice of it (`LateClaimOverwrites`).
- The same holds of the beacon: unless the caller cancels, the end of the wait stops it exactly when the
  advertiser had failed to start (`BeaconStopsIff`). Otherwise the next tick after the claim mints a PIN
  and broadcasts it (`PinSentAfterClaim`), as `Current` mints again after `Invalidate`.
- One malformed or rejected message before the claim can make Wait fail although the claim is in
  `state.json`: its error reaches the channel (`ErrorsReachWait`), and with both channels filled either
  may be taken (`CanStillFailIff`, `ClaimLostToError`).
  The board then exits, or hangs if its advertiser runs, and the next plain boot is active under that
  claim (`FailedWaitEndsIff`, `ClaimLostUntilRestart`).
- Where the hand-over does happen, cmd/pigrow-client/main.go:129-135 takes the configuration from the
  last saved claim and the broker fields from the first. They are one claim's exactly when the first and
  the last make the same of the local configuration (`OneClaimIff`). The connection falls back field by
  field (main.go:143-155), so a username and a password of different claims can meet
  (`HandOverConnectsIff`, `CredentialsCanMix`).
- A full beacon channel drops the payload just built, not the oldest as
  internal/provision/provision.go:132-133 says (`FreshestIsDropped` is such a run).
- The PIN's life is measured on the monotonic clock (internal/provision/pin.go:62), but the expiry it
  publishes is a wall-clock reading (pin.go:65). When the wall clock is set forward after a mint, as on a
  board without a real-time clock, the published expiry can lie in the past (`WallClockSet`); it does not
  exactly when the wall clock has advanced by at most five minutes since the mint (`PublishedIff`).
- Command handlers run concurrently (internal/mqtt/client.go:62), so OFF can be queued before an ON that
  arrived earlier, and the pin ends high (`LastArrivalCanLose`). The order is kept exactly when no
  handler sends before one whose message arrived earlier, and in particular when messages arrive one at
  a time (`OrderKeptIff`, `SerialKeepsOrder`).
- README.md:19 of the client says that a legacy `config.yaml` with a controller id boots active; main decides
  without looking at it (`BootDecision`). The broker scheme `mqtt://` of the state example
  (README.md:100) is one that `validate` would not accept (`DocumentedStateIsRejected`); the state's
  broker is not validated.
- A bus path such as `+1` or `/dev/i2c-01` matches bus 1, because the code compares parsed numbers
  (`YamlMatchesStateIff`). Type strings may contain `|` without confusing any two keys.
- The serial is `PIGROW-` and six hex digits; the comment at internal/provision/pin.go:106-108 shows eight.

## Model

| member | source | states |
|---|---|---|
| Sht40.Crc8 | internal/sensor/sht40.go:116-129 | the nested loop computes the remainder of x^(8n) * (x^7 + ... + x + 1) + x^8 * M modulo x^8 + x^5 + x^4 + 1, for messages of every length |
| Sht40.ChecksumExample | internal/sensor/sht40.go:116-129 | the checksum of BE EF is 92 |
| Sht40.FeedIsRemainder | internal/sensor/sht40.go:116-129 | from any starting register, feeding bytes is polynomial reduction |
| Sht40.MessagePolyAt | internal/sensor/sht40.go:118-119 | which exponent each bit of a message stands for: first byte and high bit first |
| Gf2Poly.RemainderIsUnique | internal/sensor/sht40.go:114-115 | a polynomial has one remainder of degree below 8, so the remainder form determines the checksum |
| Gf2Poly.MultipleSpansNine | internal/sensor/sht40.go:114-115 | a nonzero multiple of the generator has two terms at least eight exponents apart |
| Gf2Poly.MultipleHasEvenWeight | internal/sensor/sht40.go:114-115 | every multiple of the generator has an even number of terms |
| Gf2Poly.DivisibleShift | internal/sensor/sht40.go:114-115 | multiplying by a power of x neither creates nor destroys divisibility |
| Sht40.FeedConcat | internal/sensor/sht40.go:118-127 | checksumming a concatenation is checksumming the parts one after the other |
| Sht40.AcceptsIffResidueZero | internal/sensor/sht40.go:90-95 | a block passes its check iff the register is 0 after the checksum byte is fed too |
| Sht40.AcceptsIffDivisible | internal/sensor/sht40.go:90-95 | a block passes iff its code polynomial is a multiple of the generator |
| Sht40.ErrorUndetectedIff | internal/sensor/sht40.go:90-95 | an error on an accepted block goes unnoticed iff the error polynomial is a multiple of the generator |
| Sht40.BurstRejected | internal/sensor/sht40.go:88-95 | every nonzero error within eight consecutive bits is rejected, at any length |
| Sht40.OddErrorRejected | internal/sensor/sht40.go:88-95 | every error with an odd number of flipped bits is rejected |
| Sht40.TwoBitErrorUndetectedIff | internal/sensor/sht40.go:88-95 | two flipped bits pass iff their distance is a multiple of 127 |
| Sht40.PowerIsOneIff | internal/sensor/sht40.go:120-126 | d inner steps lead from register 1 back to 1 iff 127 divides d |
| Sht40.FeedAffine | internal/sensor/sht40.go:116-129 | for equal lengths the register is affine over exclusive-or of messages and of starting values |
| Sht40.ReadFrame | internal/sensor/sht40.go:90-98 | which of the two checks fails, temperature first, as divisibility of the block polynomial with the initial byte written out, and the bytes of the two raw words otherwise |
| Sht40.FrameBlockCatchesThreeBits | internal/sensor/sht40.go:88-95 | within a three-byte block no error of one, two or three bits passes |
| Sht40.ThreeBitsRejected | internal/sensor/sht40.go:88-95 | every error of one to three bits within 127 consecutive bits is rejected, at any length |
| Sht40.FourBitsPass | internal/sensor/sht40.go:88-95 | in every block a certain four-bit error passes, so the minimum distance is exactly four |
| ClientConfig.Config.Validate | internal/config/config.go:82-135 | accepts exactly the acceptable configurations, otherwise names the first fault in checking order; defaults are set once broker and client id pass |
| ClientConfig.AcceptableIff | internal/config/config.go:82-135 | the acceptable configurations spelled out: five broker schemes, a client id, types, parsable intervals, addresses from 8 to 119 and positive pins |
| ClientConfig.DefaultsAre | internal/config/config.go:97-102 | ten and thirty seconds replace timeouts of zero and nothing else changes |
| ClientConfig.FirstFaultIsUnique | internal/config/config.go:82-135 | a configuration has at most one first fault, so the error reported is determined |
| GoDuration.ParseSeconds | internal/config/config.go:138-141 | whole seconds printed with an "s" parse back to that duration, up to the 64-bit nanosecond range and not beyond |
| GoDuration.ParseWhole | internal/config/config.go:117-119 | a whole number with a unit parses to that many of it, for each unit with its nanoseconds written out, up to the 64-bit range |
| GoDuration.ParseSum | internal/config/config.go:117-119 | a sign, or none, before one or more components gives their sum or its negation within 64 bits |
| GoDuration.DottedComponent | internal/config/config.go:117-119 | digits before and behind a dot, and the unit, are told apart from what follows them |
| GoDuration.AmountRounded | internal/config/config.go:117-119 | the fraction of a unit is the largest whole number of nanoseconds that does not exceed it |
| GoDuration.UnitRequired | internal/config/config.go:117-119 | a number without a unit is rejected, except 0 |
| GoDuration.DigitsRequired | internal/config/config.go:117-119 | a unit without a number is rejected, with or without a dot |
| Text.AtoiItoa | internal/provision/resolve.go:199-205 | a printed 64-bit number parses back to itself |
| Text.AtoiReads | internal/provision/resolve.go:199-205 | digits read as their decimal value, also behind a sign, within the 64-bit range and not beyond |
| Text.AtoiReadsNoMore | internal/provision/resolve.go:199-205 | nothing else reads as a number |
| Text.TrimPrefixIs | internal/provision/resolve.go:199-200 | the prefix is cut off where it is there, and the text is left alone where it is not |
| Text.NamesIff | internal/device/rpi.go:47-47 | a text is the printed form of a number iff it is its decimal without superfluous zeros, behind a minus sign if it is negative |
| Text.LastBarSplits | internal/provision/resolve.go:185-211 | a key splits at its last bar, whatever the text before it contains |
| Merge.LastOfIsLast | internal/provision/resolve.go:83-84 | the server entry used for a key is the last one with that key |
| Merge.OverlaySize | internal/provision/resolve.go:87-132 | the result has one entry per local entry and one per distinct unmatched, expressible key |
| Merge.AppendedContents | internal/provision/resolve.go:117-131 | the appended entries are exactly the converted last occurrences of the unmatched keys |
| Merge.AppendedPosition | internal/provision/resolve.go:117-131 | appended entries stand in the order in which their keys first occur |
| Merge.RenameStep | internal/provision/resolve.go:94-112 | one pass of the rename loop keeps the merge and the seen set in agreement with the specification |
| Merge.AppendStep | internal/provision/resolve.go:117-131 | one pass of the append loop does so too, for a seen, an inexpressible and a new key |
| Merge.OverlayTwice | internal/provision/resolve.go:63-133 | when converted entries carry their own key, overlaying the result again changes nothing |
| Merge.OverlayKeepsGrowing | internal/provision/resolve.go:117-131 | an expressible key that no local entry can carry makes the overlay differ from its input, whatever the input |
| Merge.OverlayPermuted | internal/provision/resolve.go:63-133 | reordering server entries with distinct keys leaves the local part alone and permutes the appended part |
| Merge.OverlayOkIff | internal/provision/resolve.go:63-133 | a property that renaming respects survives the overlay iff the added entries have it |
| Merge.SameOverlayIff | internal/provision/resolve.go:63-133 | two server lists overlay a local list alike iff each local entry adopts the same from both and both add the same entries in first-occurrence order |
| Resolve.I2cKeyInjective | internal/provision/resolve.go:187-187 | two I2C keys are equal iff type, bus and address are |
| Resolve.PinKeyInjective | internal/provision/resolve.go:190-190 | two pin keys are equal iff type and pin are |
| Resolve.DeviceKeyInjective | internal/provision/resolve.go:209-211 | two device keys are equal iff type and pin are |
| Resolve.KeyKindsDiffer | internal/provision/resolve.go:185-193 | an I2C key never equals a pin key and neither is empty |
| Resolve.SensorKeysMatchIff | internal/provision/resolve.go:185-193 | server sensors share a key iff they share type and wiring; the key is empty iff there is no wiring |
| Resolve.YamlMatchesStateIff | internal/provision/resolve.go:199-205 | a local sensor matches a server sensor iff type and address are equal and the trimmed bus path parses to the bus number |
| Resolve.ConvertedKey | internal/provision/resolve.go:218-233 | a synthesised sensor keeps identity and type and parses back to its own server key iff its address fits 16 bits |
| Resolve.ConvertedDevice | internal/provision/resolve.go:238-245 | every server device can be expressed, and can be read off its synthesised entry |
| Resolve.ConvertedInterval | internal/provision/resolve.go:222-231 | the synthesised interval parses back to the server's seconds in nanoseconds, as far as 64 bits reach, or to 30 seconds when absent or non-positive |
| Resolve.ConvertedIff | internal/provision/resolve.go:218-233 | the synthesised entry is exactly the one with the server's id and type, the bus path, the low 16 address bits and the seconds, or 30, with an "s" |
| Resolve.IndexSensors | internal/provision/resolve.go:68-85 | the first pass indexes the identified, wired entries by key, later ones winning, with the keys in order |
| Resolve.RenameSensors | internal/provision/resolve.go:93-112 | the second pass renames matched local entries and collects exactly the matched keys |
| Resolve.OverlaySensors | internal/provision/resolve.go:63-133 | the loops together compute the declarative merge of the identified, wired sensors |
| Resolve.IndexDevices | internal/provision/resolve.go:142-151 | as IndexSensors, for identified devices |
| Resolve.RenameDevices | internal/provision/resolve.go:156-167 | as RenameSensors, for devices |
| Resolve.OverlayDevices | internal/provision/resolve.go:137-179 | the loops together compute the declarative merge of the identified devices |
| Overlaid.SensorsOverlaid | internal/provision/resolve.go:63-133 | entry by entry and by wiring alone: local sensors keep everything but the id, which comes from the last usable server entry meant; behind them stand exactly the missing I2C sensors as ordered |
| Overlaid.DevicesOverlaid | internal/provision/resolve.go:137-179 | the same for devices, by type and pin |
| ActiveConfig.ResolveActiveConfig | internal/provision/resolve.go:36-58 | nil and unclaimed inputs return the loaded object itself; a claimed state gives a fresh resolved copy |
| ActiveConfig.ResolvedFields | internal/provision/resolve.go:43-54 | the state's server, and field by field its broker and credentials where it names them; the rest of the connection is local |
| ActiveConfig.ResolvedLists | internal/provision/resolve.go:55-56 | both lists of the resolved configuration are the overlays, entry by entry |
| ActiveConfig.WideAddressNeverMatches | internal/provision/resolve.go:199-205 | a server address beyond 16 bits is matched by no local sensor |
| ActiveConfig.SensorsTwiceIff | internal/provision/resolve.go:63-133 | the sensor overlay is idempotent iff all usable I2C addresses fit 16 bits |
| ActiveConfig.DevicesTwice | internal/provision/resolve.go:137-179 | the device overlay is idempotent |
| ActiveConfig.ResolveTwiceIff | internal/provision/resolve.go:36-58 | resolving twice equals resolving once iff every identified I2C address of the state fits 16 bits |
| ActiveConfig.ResolveTwiceFails | internal/provision/resolve.go:218-233 | a concrete state (address 0x10044) under which resolving twice differs from once, for every configuration |
| ActiveConfig.ResolvePermuted | internal/provision/resolve.go:36-58 | with distinct keys the order of the server's lists is immaterial to the local part and only permutes the rest |
| ActiveConfig.ConvertedSensorOkIff | internal/provision/resolve.go:218-233 | a synthesised sensor passes validation iff type, low 16 address bits and seconds of the server entry do |
| ActiveConfig.ResolvedAcceptableIff | internal/provision/resolve.go:36-58 | a validated configuration stays valid iff the state's broker is absent or has an accepted scheme and every added entry is well formed |
| ActiveConfig.DocumentedStateIsRejected | internal/config/config.go:86-92 | a concrete acceptable configuration that the documented mqtt:// state makes unacceptable |
| Mac.FormatMac | internal/provision/interfaces.go:61-69 | the loop and join produce uppercase pairs separated by colons |
| Mac.CanonicalChars | internal/provision/interfaces.go:61-69 | the printed form holds digits, upper-case letters and colons only |
| Mac.ParseIff | internal/provision/interfaces.go:71-80 | a text parses to given octets iff there are 6, 8 or 20 of them and it spells them in hexadecimal pairs with colons or dashes, or in dotted groups of four, in either letter case |
| Mac.ParseCanonical | internal/provision/interfaces.go:74-80 | parsing the printed form gives the octets back |
| Mac.CanonicalInjective | internal/provision/interfaces.go:61-69 | different octets print differently |
| Mac.FormatTwice | internal/provision/interfaces.go:74-80 | formatting a formatted address changes nothing |
| Mac.SameFormIff | internal/provision/interfaces.go:71-80 | two spellings have one canonical form iff they name the same octets |
| Claim.AcceptedIff | internal/provision/claim.go:33-61 | a claim is accepted iff the schema is 1, it names this board's octets in any spelling, and id and server address are present |
| Claim.RejectedBecause | internal/provision/claim.go:33-61 | an error is reported iff it is the first fault of the claim in checking order |
| Claim.SameImageIff | internal/provision/claim.go:70-83 | two accepted claims are persisted alike iff they say the same, spelling of the address aside |
| Claim.AcceptedImage | internal/provision/claim.go:70-83 | the image of an accepted claim is claimed, carries this board's canonical address, and everything else as the claim has it |
| Claim.TopicsMeetIff | internal/provision/claim.go:126-132 | server and board use one topic iff they mean the same octets |
| Claim.ClaimTopicIs | internal/provision/claim.go:126-132 | the topic is provision/, the canonical address, or the text itself if it is none, and /claim |
| StateFile.StateStore.SaveActiveState | internal/provision/state.go:61-77 | all or nothing: a completed save reads back as saved, any stop at any operation leaves state.json as it was |
| StateFile.LoadOutcomes | internal/provision/state.go:42-57 | no file is no state, a partly written one does not load, a whole one loads as stored up to empty lists |
| StateFile.ReloadResolvesTheSame | internal/provision/state.go:44-57 | the trip to disk, which turns empty lists into nil, is invisible to the resolved configuration |
| ClaimWait.StepKeepsInv | internal/provision/claim.go:137-191 | every step of broker, callback, file system, waiter and canceller keeps the handshake invariant |
| ClaimWait.WaitOutcomes | internal/provision/claim.go:137-191 | on every run a returned state is the first persisted, the file holds the last persisted, all are images of accepted claims, and an error has its cause in the run |
| ClaimWait.ErrorsReachWait | internal/provision/claim.go:143-176 | while Wait is at work, its error channel is filled iff a message was malformed or rejected or a save failed, and holds the first of these errors |
| ClaimWait.FirstErrorIs | internal/provision/claim.go:143-166 | the first error is that of the first event that brings one |
| ClaimWait.FailedWith | internal/provision/claim.go:176-187 | when Wait fails, it is with that error, or because the subscription failed or the context ended |
| ClaimWait.AfterSubscribe | internal/provision/claim.go:143-179 | Wait selects only after the subscription has ended, and fails if that fails |
| ClaimWait.CancelEndsWait | internal/provision/claim.go:181-184 | the end of the context can end the wait at any time |
| ClaimWait.ClaimsInOrder | internal/provision/claim.go:143-190 | what is persisted are the images of the claims whose file operations succeeded, an in-order selection of the acceptable ones received; all of them while no save fails; the first is what is returned |
| ClaimWait.ReturnedIsOnDiskIff | internal/provision/claim.go:159-190 | what is returned is what is on disk iff the first and the last saved claim say the same |
| ClaimWait.SavedAll | internal/provision/claim.go:143-166 | while no save fails and none is under way, the saved claims are exactly the acceptable messages |
| ClaimWait.OneClaimAgrees | internal/provision/claim.go:159-190 | with one acceptable message, what is returned is what is on disk |
| ClaimWait.CallbackStepDescends | internal/provision/claim.go:143-176 | a callback ends after at most four steps of its own, whatever the file system does |
| ClaimWait.CallbackNeverBlocks | internal/provision/claim.go:143-176 | in every reachable state an unfinished callback can take a step, so it never waits for Wait |
| ClaimWait.PersistedClaimIsReturned | internal/provision/claim.go:168-189 | while Wait selects and the callback rests, the first persisted claim is there to be taken and returned |
| ClaimWait.CanStillFailIff | internal/provision/claim.go:143-190 | while Wait selects, it can fail without any further fault iff a message was malformed or rejected, a file operation failed, or the context was cancelled |
| ClaimWait.ClaimLostToError | internal/provision/claim.go:143-190 | for every accepted claim there is a run in which Wait fails with the claim saved and offered |
| ClaimWait.ClaimHandled | internal/provision/claim.go:143-176 | from any reachable state with the callback at rest, an accepted message can be carried to disk, and offered to the waiter |
| ClaimWait.SecondClaimOverwrites | internal/provision/claim.go:160-175 | for any two accepted claims with different images there is a run that returns the first and leaves the second on disk |
| ClaimWait.SecondClaimExample | internal/provision/claim.go:160-175 | such a run at concrete claims for a concrete board: one server is returned, another is on disk |
| Boot.StepKeepsInv | cmd/pigrow-client/main.go:37-136 | every boot, reset, handshake, hand-over and crash step keeps the board invariant |
| Boot.StateFileAlwaysWhole | internal/provision/state.go:59-77 | over any number of boots, resets and crashes the state file is absent or the whole image of a claim verified for this board, and it always loads |
| Boot.BootDecision | cmd/pigrow-client/main.go:37-83 | from any reachable switched-off board an undisturbed boot goes active iff a state file exists and neither flag is given, then with configuration and broker fields of that file; else to the handshake |
| Boot.BootEndsEarly | cmd/pigrow-client/main.go:50-75 | a failed reset, configuration or state load ends the process and leaves the disk alone; a reset removes state.json and nothing else |
| Boot.DiskStays | cmd/pigrow-client/main.go:37-136 | only a save's file operations and the reset touch the disk; a stop leaves it as it is |
| Boot.NoMessageBeforeWait | internal/provision/provision.go:158-159 | no claim message is handled before the wait begins |
| Boot.WaitDecides | internal/provision/provision.go:159-169 | RunUnclaimed ends with a claim iff Wait returned one, and with an error iff Wait failed |
| HandOver.SessionIsARun | cmd/pigrow-client/main.go:107-113 | every handshake inside a run of the board is a run of the handshake system over the messages and file operations since the board was switched on |
| HandOver.HandshakeRun | cmd/pigrow-client/main.go:107-113 | every run of the handshake without a cancel is a run of the board that waits for a claim |
| HandOver.HandOverSources | cmd/pigrow-client/main.go:107-135 | at the hand-over the configuration is the local one as ordered by the last claim saved in this boot, and the broker fields are those of the first |
| HandOver.SavedAreTheAcceptable | cmd/pigrow-client/main.go:107-135 | when no save failed and none is under way, those are the first and the last acceptable message of this boot |
| HandOver.OneClaimIff | cmd/pigrow-client/main.go:129-135 | after a hand-over configuration and broker fields belong to one claim iff the first and last saved claim ask for the same server, controller and broker fields, the same id for every local sensor and device, and the same further ones in the same order |
| HandOver.HandOverConnectsIff | cmd/pigrow-client/main.go:143-155 | the broker, username and password really used, field by field; they are what the last claim asks for iff the first differs in no field it fills |
| HandOver.HandOverNeedsNoAdvertiser | cmd/pigrow-client/main.go:104-113 | a hand-over happens only in a boot whose advertiser failed to start |
| HandOver.AdvertisingBoardStaysUnclaimed | internal/provision/provision.go:152-169 | once the advertiser runs, the board stays unclaimed until the process stops, whatever claims come in |
| HandOver.HandOverPossibleIff | cmd/pigrow-client/main.go:104-135 | once Wait has returned a claim, the active flow can be reached without a stop iff the advertiser had failed to start |
| HandOver.RestartFollowsLastClaim | cmd/pigrow-client/main.go:45-83 | a board that stops after a claim was saved and boots plainly is active under the last saved claim alone: configuration, broker fields and connection |
| HandOver.FailedWaitEndsIff | cmd/pigrow-client/main.go:114-117 | after a failed wait there is no hand-over, and the process ends by itself iff the advertiser had failed to start |
| HandOver.ClaimLostUntilRestart | internal/provision/claim.go:143-190 | for every accepted claim and either advertiser outcome a fresh board has a run whose wait fails with the claim on disk, and whose next plain boot is active under it |
| HandOver.LateClaimOverwrites | internal/provision/claim.go:143-190 | from every reachable stage after the wait began, an accepted message still under way can replace state.json, unnoticed by an active process |
| HandOver.HandOverCanMixClaims | cmd/pigrow-client/main.go:129-135 | with a failed advertiser a fresh board has a run that enters the active flow under one claim with the credentials of another, for any two accepted claims that differ |
| HandOver.AdvertisingBoardHangs | internal/provision/provision.go:152-169 | with a running advertiser the same two claims leave the board waiting for ever, the first returned by Wait and the second on disk |
| HandOver.CredentialsCanMix | cmd/pigrow-client/main.go:143-155 | a concrete run that connects with the username of one claim and the password of another |
| Origins.FileWasDelivered | internal/provision/claim.go:143-166 | over any number of boots, resets and crashes the state file is absent or the whole image of an accepted claim that was delivered earlier in that very history |
| Origins.ActiveWasDelivered | cmd/pigrow-client/main.go:75-136 | the active flow always runs with the loaded configuration as ordered by a delivered, accepted claim, and with the broker fields of a delivered, accepted claim |
| Beacon.PipelineSafe | internal/provision/provision.go:110-147 | no send on or second close of the closed channel, at most 8 waiting, accepted = sent + in hand + waiting, and sent is an in-order selection of built |
| Beacon.StartedInOrder | internal/provision/provision.go:113-147 | the first beacon is queued before either goroutine starts, and never dropped; the sender starts last |
| Beacon.FreshestIsDropped | internal/provision/provision.go:128-134 | a concrete run in which eight stale payloads wait and the freshest is the one that is dropped |
| Beacon.SenderWindsDown | internal/provision/provision.go:141-147 | after the close a count of the remaining sender steps falls with each of them, nothing else changes it, and until it is 0 one is possible |
| Beacon.FinishedSentAll | internal/provision/provision.go:141-147 | a finished sender has sent exactly the payloads the channel took |
| Teardown.SocketOutlivesBeacon | internal/provision/provision.go:102-108 | the socket is closed only after the beacon context ended, and returning leaves nothing deferred |
| Teardown.ReturnsAloneIff | internal/provision/provision.go:102-169 | once the wait ended, a return without a cancel from the caller is possible iff the advertiser failed to start |
| Teardown.WaitingReached | internal/provision/provision.go:98-159 | both outcomes of starting the advertiser lead to the wait for a claim |
| Broadcast.BeaconGoesOn | internal/provision/provision.go:107-169 | once the advertiser runs, and unless the caller cancels, the producer never quits, before a claim or after it |
| Broadcast.BeaconStopsIff | internal/provision/provision.go:50-53 | unless the caller cancels, the end of the wait lets the beacon stop iff the advertiser had failed to start |
| Broadcast.StoppedDrains | internal/provision/provision.go:141-147 | once the producer has stopped, the sender can always send what is left and finish |
| Broadcast.HolderIsHistory | internal/provision/provision.go:107-167 | on every run the PIN object has seen exactly the calls of the run, so every result about call histories holds of it |
| Broadcast.PayloadsArePins | internal/provision/provision.go:110-136 | every payload built, sent or not, carries the PIN in force when it was built |
| Broadcast.SamePinUntilExpiry | internal/provision/provision.go:110-136 | two payloads carry the same PIN when nothing between them invalidates it and the later one is built before its monotonic expiry |
| Broadcast.InvalidatedAfterWait | internal/provision/provision.go:160-169 | the PIN is invalidated only when a claim was returned, and then before any deferred call runs |
| Broadcast.PinSentAfterClaim | internal/provision/provision.go:127-167 | for every clock reading and draw there is a run that sends a freshly minted PIN after the claim was returned and the PIN invalidated |
| Pin.PinReads | internal/provision/pin.go:95-104 | a PIN is six digits and reads as the big-endian word of the four bytes modulo one million |
| Pin.WordInjective | internal/provision/pin.go:102-102 | different draws give different words |
| Pin.WordSurjective | internal/provision/pin.go:102-102 | every 32-bit word is drawn |
| Pin.ResidueClassSize | internal/provision/pin.go:102-103 | for any range and modulus, residue classes differ in size by at most one, and which ones are larger |
| Pin.PinBias | internal/provision/pin.go:102-103 | PINs below 967296 come from 4295 words each, the others from 4294 |
| Pin.Pin.Current | internal/provision/pin.go:58-66 | mints iff there is no PIN or its monotonic time is over, otherwise leaves it alone, and publishes the wall reading of the expiry |
| Pin.Pin.Rotate | internal/provision/pin.go:70-75 | always mints, valid five minutes from now |
| Pin.Pin.Invalidate | internal/provision/pin.go:80-85 | back to the state before the first PIN |
| Pin.IssuedIsValid | internal/provision/pin.go:58-92 | after any history, and however the wall clock was set, an issued PIN is six digits, not yet expired and valid for at most five minutes on the monotonic clock |
| Pin.PublishedIff | internal/provision/pin.go:65-65 | the published expiry is the wall time of the mint plus five minutes, and not before wall time iff the wall clock has advanced by at most five minutes since the mint, to the millisecond |
| Pin.UnsetWallClock | internal/provision/pin.go:58-66 | as long as the wall clock is not set, the published expiry is between now and five minutes from now |
| Pin.WallClockSet | internal/provision/pin.go:58-66 | a concrete history in which a PIN still in force is published with an expiry in the past |
| Pin.IssuedExpiriesGrow | internal/provision/pin.go:58-92 | monotonic expiries never decrease from one issue to a later one |
| Pin.StableUntilExpiry | internal/provision/pin.go:58-66 | between other calls, Current keeps answering with the same PIN until it expires |
| Pin.CurrentAfterInvalidateMints | internal/provision/pin.go:77-85 | after Invalidate the next Current mints |
| Pin.MintsAreBounded | internal/provision/pin.go:58-92 | a history spanning T on the monotonic clock mints at most T / 5 min + 1 PINs, plus one per Rotate and Invalidate |
| Pin.SerialFile.LoadOrMint | internal/provision/pin.go:109-126 | a usable serial is returned and never rewritten; otherwise one is minted and stored, and what is returned is what later loads find |
| Pin.TrimSpaceIs | internal/provision/pin.go:111-111 | what is trimmed is white space on both sides, and all of it |
| Pin.IsSerialIff | internal/provision/pin.go:112-112 | a usable serial has thirteen characters and begins with PIGROW- |
| Pin.MintedSerialReadsBack | internal/provision/pin.go:128-134 | a minted serial is PIGROW- and its three bytes in upper-case hexadecimal digits, and survives writing with a newline and trimming |
| Gpio.RPIDevice.SetPin | internal/device/rpi.go:41-58 | levels and errors are those of a fresh lookup of the registered name that spells the pin number: the cache is invisible |
| Gpio.LineOfIff | internal/device/rpi.go:47-50 | a pin number has the line of the registered name that spells it in decimal, and none if there is no such name |
| Gpio.CachedStaysOk | internal/device/rpi.go:45-52 | filling the cache keeps it in agreement with the registry |
| Hub.CommandTopicNamesDevice | internal/controller/controller.go:135-141 | the topic built for a device id without slashes names that device |
| Hub.TopicDeviceIff | internal/controller/controller.go:135-141 | the device is the second level of a topic with at least three levels; other topics name none |
| Hub.ActionLevelIff | internal/controller/controller.go:190-198 | ON drives high and OFF drives low, in any mixture of cases, and no other action drives anything |
| Hub.Controller.EnsureDevice | internal/controller/controller.go:143-149 | a missing device is created under its id, existing ones are kept as the same objects |
| Hub.Controller.Send | internal/controller/controller.go:159-163 | the job is queued iff fewer than 64 wait, else dropped, and nothing else changes |
| Hub.Controller.DeviceCommandHandler | internal/controller/controller.go:126-164 | a handler uninterrupted: malformed topic changes nothing, unparsable body only creates the device, else one offer |
| Hub.Controller.ExecuteCommand | internal/controller/controller.go:178-206 | how a job ends, by device, action, registered name and hardware; levels change for ON and OFF on that line only; a publication iff it succeeded, copied verbatim |
| Commands.StepKeepsInv | internal/controller/controller.go:126-206 | every step of every handler, the worker and the canceller keeps the pipeline invariant |
| Commands.DevicesAlwaysThere | internal/controller/controller.go:178-187 | the device of every waiting or held job exists under its own id, so the "device gone" branch is unreachable; at most 64 jobs wait |
| Commands.DevicesNeverReplaced | internal/controller/controller.go:143-149 | no step removes a device or changes its id, and its pin cache only grows |
| Commands.JobsAccountedFor | internal/controller/controller.go:157-224 | accepted jobs = finished + in hand + waiting, in order; publications are those of the successful executions, in order, with device, action and timestamp of the job |
| Commands.ExecutionRecorded | internal/controller/controller.go:178-206 | what one execution records and which line it sets |
| Commands.OfferRecorded | internal/controller/controller.go:159-163 | a send is accepted iff fewer than 64 jobs wait |
| Commands.StopsAfterCancel | internal/controller/controller.go:166-176 | the worker stops only after a cancel |
| Commands.StoppedForGood | internal/controller/controller.go:166-176 | a stopped worker executes and publishes nothing more |
| Arrivals.ArrivalsAccountedFor | internal/controller/controller.go:135-163 | arrivals on device topics = bodies that did not parse + handlers still running + send attempts, and no two attempts share an arrival |
| Arrivals.JobsWereOrdered | internal/controller/controller.go:135-161 | every job finished, in hand or waiting has an arrival of its own that ordered exactly its device, action, pin and timestamp |
| Overtaking.OrderKeptIff | internal/controller/controller.go:126-164 | send attempts keep the order of arrival iff no handler sends before one whose message arrived earlier |
| Overtaking.SerialKeepsOrder | internal/controller/controller.go:126-206 | when messages arrive one at a time, commands are executed in the order of arrival and each line stands at the level of the latest arrival executed on it |
| Overtaking.LastArrivalCanLose | internal/controller/controller.go:126-206 | a concrete run in which OFF arrives after ON, both are executed and the line ends high |
| Commands.LevelsAreReplayed | internal/device/rpi.go:41-58 | pin levels after any run equal those of replaying the finished jobs without any cache |
| Commands.ReplayLast | internal/device/rpi.go:41-58 | a line stands where the last job that drove it put it |
| Commands.LineFollowsLastCommand | internal/controller/controller.go:178-206 | after any run each line stands at the level of the last successful ON or OFF, on any device, whose pin number a registered name on that line spells; it is untouched if there was none |

## Left out

- I2C, GPIO, UDP, MQTT, mDNS and HTTP calls are outcomes of a step (success, failure, or which payload), not modelled themselves.
- JSON and YAML syntax: complete images decode to what was encoded, except that empty lists come back as nil; a partly written image does not decode; a message body either parses or does not.
- Float conversion, rounding and clamping of sensor readings.
- The wire form of a beacon, of which only the PIN is modelled, and the TXT records, whose PIN is read once; interface selection, the hardware manifest, logging, flag parsing.
- Subscription replay, last will and reconnection in internal/mqtt/client.go, and the telemetry and heartbeat loops.
- Errors other than a missing file when state.json is read; they end the process, which the boot model allows at every step.
- Power loss that reorders writes: a process may stop between any two file operations, but completed operations persist.
- The quality of random bytes: a draw is an arbitrary input; a failing random source panics in the program and is not modelled.
- 32-bit builds: Go's int is taken as 64 bits wide.
- Text is a sequence of bytes: upper-casing knows ASCII letters only, and white space the six ASCII characters, not the further Unicode ones that Go trims in valid UTF-8.
- ParseDuration: a fraction is computed exactly and rounded down, where Go multiplies floating-point numbers; whole numbers, which the overlay prints, are not affected.
- Boot: the beacon channel and the PIN are interleaved with the steps of RunUnclaimed in Broadcast, not with the boot steps; a failure to set up RunUnclaimed ends the process, which is the stop event.
- Boot: the state file changes only through this program; an operator editing it is not modelled, and deleting it is the reset flag.
- Hub.Controller: a level that the GPIO driver refuses is taken to leave the pin as it was.
- Claim callbacks are serial with each other, which is the transport's default; they interleave with everything else.
- Commands.DevicesNeverReplaced: devices are values there, so it does not tell an object from a copy with the same id and cache; that the object itself stays is the last clause of Hub.Controller.EnsureDevice.
- Handlers, worker, waiter and beacon goroutines are step systems over values, not threads over shared objects; data races below the mutex and channel operations are not expressed.
