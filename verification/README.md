# Proved parts of the SubscriberClassic panel firmware

SubscriberClassic is the firmware of an alarm panel.  This project models eight of its parts and proves what they
promise.  Each part has its code in the form the firmware has it, objects and arrays changed step by step, proved equal
to functions on values; the properties are then proved about those functions, over every input or every run.

| part | modules |
|---|---|
| AES-128 block cipher | `AesTables`, `Fips197` (the standard), `FastMix`, `CipherInverse`, `TiAes` (the firmware), `AesVectors` |
| Transmitter-key watchdog | `KeyWatchdog` (the machine), `KeyRuns` (bounds over runs), `KeyPower` (exact times), `KeyWitnesses` (bounds attained or evaded) |
| Rearming and automatic reset of the treasury alarm | `TesoAutoReset` (the machine, bounds), `TesoTime` (reset by time), `TesoMinimum` (exact times) |
| Encoder of alarm changes into Contact-ID events | `AlarmEvents` (one call on values), `AlarmEncoder` (the machine), `AlarmEntries`, `AlarmReplay`, `AlarmResets` |
| Paged flash driver | `PagedFlash` (the device), `FlashWrite`, `FlashLaws`, `FlashDriver` (the driver), `FlashChips` |
| Contact-ID frames | `ContactId` (the frames), `PartitionMaps`, `ContactIdLaws` (the receiver), `FrameLayout`, `ContactIdEncoder` (the encoders) |
| Console line | `LineEditor`, `Tokenizer`, `TokenText`, `TokenCount`, `ConsoleLine` (the buffer), `CommandMatch` |
| Door-opening authorisation | `Apertura` (the machine), `AperturaRuns`, `AperturaOpen` (an open door), `AperturaTimes` (exact times) |
| Token checksum | `DowCrc` |

To check the whole project, run `dafny verify dfyconfig.toml`.

## How to read it

- A run of a machine is a sequence of its steps with arbitrary calls of other tasks between them; each step is atomic.
- Bytes are bit vectors where the code shifts and masks them, and integers below 256 where it counts. Integer widths
  are written out where they matter: the 32-bit counters of the watchdog and the 32-bit range check of the flash wrap,
  16-bit timeouts and page numbers are truncated, and `char` is unsigned, as it is on this processor.
- Entries of a log (`logCidEvent`), those of other tasks included, the calendar (`gmtime`), decimal digits (`itoa`) and
  the flash device are given as values: a sequence, a record, the function `Decimal`, and pages with two buffers.
- Where the code does not keep a property for all inputs, a lemma says exactly when it does and another gives an input
  or a run for which it does not: the polling limit (`OverdueStays` and `LingerBound`, `PollingLimitEvaded`), the
  length of an alarm episode (`EpisodesBoundedIff`, `EpisodeWithoutBound`, `SetBackWithoutBound`), a reset by time
  (`ResetByTimeIff`, `StuckHappens`), the log across resets and entries of other tasks (`StepGoesOnIff` and
  `ResetGoesOnIff`; `LostRestore`, `LostZoneRestore`, `RepeatedRestore`), the power after a stuck key (`StuckKey`,
  `PowerLost`), the chips of the driver's table (`ChipDecodesIff`), the tail of a written page (`KeptIffTailMatches`,
  `TailIsOverwritten`), the accepted ranges (`AcceptedIff`, `PastTheEndAccepted`), digits equal to ten
  (`EventRecoveredIff`, `TenIsLost`), long accounts (`HeadKeptIff`, `OwnAccountRead`), the count of parameters
  (`CountRightIff`, `LostAndExtra`, `StaleWord`), and an open door (`OpenDoorEnds` and `OpenDoorRingsIff`,
  `ReopenedDoorUnnoticed`, `StaleAuthorisationHappens`, `TokenKeptForLater`).
- The comment above the flash write speaks of writing bytes and does not mention the tail of the last page; the model
  follows the code.

## Model

| member | source | states |
|---|---|---|
| Fips197.SboxIsAffineInverse | Application/TI_aes.c:11-28 | every entry of the forward table is the affine transformation of the multiplicative inverse of its index in the field, as section 5.1.1 of FIPS 197 defines it |
| Fips197.SubByteInverse | Application/TI_aes.c:11-47 | the two tables are inverse permutations of the 256 bytes |
| Fips197.XTimeLinear | Application/TI_aes.c:83-91 | doubling in the field distributes over exclusive-or |
| TiAes.GaloisMul2 | Application/TI_aes.c:83-91 | the helper is multiplication by 2 in the field |
| TiAes.RconIsRoundConstant | Application/TI_aes.c:48-50 | the constants used are the successive doublings of 1 |
| FastMix.FastMixIsMix | Application/TI_aes.c:135-163 | the four-line column mix with one running sum equals the matrix of section 5.1.3, on every column |
| FastMix.MixTwiceIsBarreto | Application/TI_aes.c:268-284 | the "barreto" pre-step is exactly two column mixes |
| FastMix.BarretoUndoesItself | Application/TI_aes.c:268-284 | the pre-step is an involution, so four column mixes are the identity |
| FastMix.InvMixIsBarretoThenMix | Application/TI_aes.c:267-313 | pre-step and forward mix together are InvMixColumns of section 5.3.3, on every column |
| FastMix.MixColumnInverse | Application/TI_aes.c:135-163 | the forward and the inverse matrix undo each other, in both orders |
| TiAes.MixColumnInPlace | Application/TI_aes.c:136-142 | the in-place mix of one column, with its temporaries, and nothing else changed |
| TiAes.BarretoInPlace | Application/TI_aes.c:269-272 | the in-place pre-step of one column, and nothing else changed |
| TiAes.BarretoAllColumns | Application/TI_aes.c:268-284 | after the pre-step on all columns the forward mix gives InvMixColumns of the old state |
| TiAes.KeySubShift | Application/TI_aes.c:108-134 | the fused pass, one row at a time with its temporaries, is ShiftRows after SubBytes after AddRoundKey |
| TiAes.UnshiftUnsubKey | Application/TI_aes.c:242-264 | the fused pass of decryption is AddRoundKey after InvSubBytes after InvShiftRows |
| TiAes.AddLastKey | Application/TI_aes.c:223-240 | the last round key, added column by column to the block |
| TiAes.ExpandKey | Application/TI_aes.c:53-80 | the expanded key is the key expansion of section 5.2 for four-word keys, from any 16-byte key; and byte by byte: the key, and each later byte from the byte sixteen before it, the byte four before it or the substituted byte of the turned word, and the table of constants |
| TiAes.AesEncr | Application/TI_aes.c:103-207 | the regrouped rounds, with AddRoundKey moved into the following round, compute Cipher of section 5.1 under any schedule |
| TiAes.AesDecr | Application/TI_aes.c:218-343 | the rounds of decryption compute InvCipher of section 5.3 under any schedule |
| TiAes.AesEncrypt | Application/TI_aes.c:346-353 | encryption is Cipher under the key expansion of the key, and the key is left as it was |
| TiAes.AesDecrypt | Application/TI_aes.c:355-362 | decryption is InvCipher under the key expansion of the key, and the key is left as it was |
| AesVectors.ExpansionVector | Application/TI_aes.c:53-80 | the forty-four words of appendix A.1 of FIPS 197 |
| AesVectors.CipherVector | Application/TI_aes.c:103-343 | the block of appendix B of FIPS 197, encrypted and decrypted |
| TiAes.EncryptThenDecrypt | Application/TI_aes.c:346-362 | decrypting an encrypted block restores it in place, for every block and key |
| TiAes.DecryptThenEncrypt | Application/TI_aes.c:346-362 | encrypting a decrypted block restores it in place, for every block and key |
| CipherInverse.InverseRoundsRetrace | Application/TI_aes.c:103-343 | round by round, the inverse rounds pass backwards through the states of the forward rounds |
| CipherInverse.RoundsRetraceInverse | Application/TI_aes.c:103-343 | the same with the directions exchanged |
| CipherInverse.DecipherUndoesCipher | Application/TI_aes.c:103-343 | InvCipher undoes Cipher for every block and every schedule, expanded from a key or not |
| CipherInverse.CipherUndoesDecipher | Application/TI_aes.c:103-343 | Cipher undoes InvCipher for every block and every schedule |
| CipherInverse.PreviousWordDetermined | Application/TI_aes.c:59-79 | a word of the expanded key is fixed by the four words after it |
| CipherInverse.RoundKeyDeterminesKey | Application/TI_aes.c:53-80 | any one round key, the last sixteen bytes included, determines the whole key |
| KeyWatchdog.Watchdog.LlaveTxOn | Application/fsm_deteccion.c:4182-4188 | the logical key comes on; the pin only when it is not inhibited |
| KeyWatchdog.Watchdog.LlaveTxOff | Application/fsm_deteccion.c:4190-4194 | key and pin go off |
| KeyWatchdog.Watchdog.FsmLlaveonWdog | Application/fsm_deteccion.c:4200-4332 | one run of the watchdog, in all its states, as a function of the state before |
| KeyWatchdog.Watchdog.SoftwareTimersHandler | Application/main.c:2570-2725 | the order of one millisecond: counters, then whatever other machines ask of the key, then the watchdog |
| KeyRuns.TickKeepsInv | Application/fsm_deteccion.c:4200-4332 | under any calls, a round keeps: inhibition means the pin is low, the pin means the logical key, and the blocked states mean inhibition |
| KeyRuns.RunKeepsInv | Application/fsm_deteccion.c:4200-4332 | the same over every run |
| KeyRuns.PinBound | Application/fsm_deteccion.c:4200-4332 | the pin is never high for more than 60 002 rounds in a row, or 120 003 when an inhibition for continuous polling is still remembered |
| KeyRuns.OverdueStays | Application/fsm_deteccion.c:4215-4282 | a watchdog past both polling limits stays in its transmitting states if and only if the key has just changed and no other limit is reached |
| KeyRuns.LingeringAlternates | Application/fsm_deteccion.c:4215-4282 | staying past the limits needs a key that changes in every single round |
| KeyRuns.LongPressesEndPolling | Application/fsm_deteccion.c:4215-4282 | so if every press lasts two rounds or more, at most three rounds pass beyond the limits |
| KeyRuns.LingerBound | Application/fsm_deteccion.c:4215-4282 | however the key changes, at most 2^32 - 1 - 65 000 rounds pass beyond the limits, when the 32-bit counter wraps |
| KeyPower.PowerIff | Application/fsm_deteccion.c:4200-4332 | in every mode, event 816 is logged and the power taken exactly when the key has been on for more than 60 000 ms, blocked or not, and the power given back exactly when a disabled transmitter has waited for as long |
| KeyPower.PowerReturns | Application/fsm_deteccion.c:4318-4326 | after a stuck key, whatever is asked of the key, the power stays off and the key inhibited for exactly 60 000 rounds; the next one restores both |
| KeyPower.HeldUnderBlock | Application/fsm_deteccion.c:4283-4301 | a key held under a block is stuck after exactly 60 000 rounds, in which nothing else changes |
| KeyPower.BlockBeginsIff | Application/fsm_deteccion.c:4215-4282 | a block begins exactly on continuous polling past its limits or on ten changes with an earlier block remembered |
| KeyPower.BlockEnds | Application/fsm_deteccion.c:4302-4317 | a block ends after a pause of exactly 5001 rounds, and is then remembered |
| KeyPower.BlockRenewed | Application/fsm_deteccion.c:4283-4317 | under a block each press starts its own time and each release the pause |
| KeyPower.RememberedIff | Application/fsm_deteccion.c:4215-4317 | a block is remembered exactly from its end until five minutes have passed in TXON or TXOFF |
| KeyPower.PauseEnds | Application/fsm_deteccion.c:4259-4282 | polling without a block ends after a pause of exactly 5001 rounds |
| KeyWitnesses.BoundAttained | Application/fsm_deteccion.c:4200-4332 | the longer bound is exact: from a ready state some calls keep the pin high for all of it |
| KeyWitnesses.BoundAttainedFromPowerUp | Application/fsm_deteccion.c:4200-4332 | and such a state is reached from power-up |
| KeyWitnesses.PollingLimitEvaded | Application/fsm_deteccion.c:4215-4282 | from power-up, a key that changes in every round evades the polling limit for exactly that many rounds |
| KeyWitnesses.StuckKey | Application/fsm_deteccion.c:4215-4251 | a key on for too long is blocked and logged; the watchdog goes on to the state that restores the power exactly when no remembered inhibition overrides it |
| KeyWitnesses.StaysDark | Application/fsm_deteccion.c:4200-4332 | with the power off outside that state, whatever is asked of the key, the watchdog restores it only after another key was on for too long and logged |
| KeyWitnesses.PowerLost | Application/fsm_deteccion.c:4215-4251 | a run from power-up ends so, Idle with the power off: a key held until a remembered inhibition expires |
| TesoAutoReset.Machine.RechargeAlarm | Application/fsm_deteccion.c:4513-4567 | a trigger: rearms only while the count does not exceed its maximum, and counts up to 200 |
| TesoAutoReset.Machine.Recharge25MinAlarm | Application/fsm_deteccion.c:4721-4754 | a fixed time for a running alarm, with no more rearms |
| TesoAutoReset.Machine.Recharge5MinAlarm | Application/fsm_deteccion.c:4828-4840 | the same with five minutes |
| TesoAutoReset.Machine.AutoresetLogo3d | Application/fsm_deteccion.c:1969-2111 | the automatic reset and the reset on request |
| TesoAutoReset.Machine.RtcSecond | Application/main.c:2763-2765 | the timer of the episode falls by one each second |
| TesoAutoReset.Machine.RfPoll | Application/fsm_deteccion.c:1946-1947 | a poll of the panel takes one off the poll counter |
| TesoAutoReset.EventKeepsMeasure | Application/fsm_deteccion.c:4513-4567 | no event of an episode raises remaining rearms times (longest time + 1) plus the timer |
| TesoAutoReset.BlockLowersMeasure | Application/fsm_deteccion.c:2073-2111 | every second of an episode lowers that measure, however often the alarm is retriggered in it and, without recharges of a fixed time, however the maximum changes below 200 |
| TesoAutoReset.EpisodeBound | Application/fsm_deteccion.c:2073-2111 | an episode ends within the measure in seconds, if the count can pass or has passed a maximum that stays, or if the maximum changes below 200 without recharges of a fixed time |
| TesoAutoReset.EpisodeWithoutBound | Console/console.c:8440-8460 | if the count has not passed its maximum and cannot, which the console allows with a maximum of 200, episodes of every length exist |
| TesoAutoReset.EpisodesBoundedIff | Application/fsm_deteccion.c:2073-2111 | the episodes under one maximum are bounded if and only if the count can pass it or has passed it |
| TesoAutoReset.SetBackWithoutBound | Console/console.c:8440-8460 | with a changing maximum and recharges of a fixed time together, an alarm can stay armed for any number of seconds, even with every maximum below 200 |
| TesoTime.CheckArmsIff | Application/fsm_deteccion.c:1969-2111 | a check without a reset request arms a standing alarm if and only if its count has not passed the maximum |
| TesoTime.StuckSeconds | Application/fsm_deteccion.c:1969-2111 | with the count past the maximum, no number of seconds, triggers, polls and checks arms the alarm or resets it |
| TesoTime.ResetByTimeIff | Application/fsm_deteccion.c:1969-2111 | so among such events, and with a maximum that can be passed, a standing alarm is reset by time, within a bound, if and only if its count has not passed the maximum |
| TesoTime.FixedIsReset | Application/fsm_deteccion.c:4721-4840 | a recharge of a fixed time arms any standing alarm, which is then reset within the time left |
| TesoTime.StuckHappens | Application/fsm_deteccion.c:1992-2003 | from power-up, whatever the maximum below 200, triggers, a reset on request, which keeps the count, and a new alarm lead to one that time does not reset |
| TesoMinimum.TriggerRuns | Application/fsm_deteccion.c:4521-4566 | what a trigger programs in each of its cases, in seconds, and that it counts up to 200 |
| TesoMinimum.FixedRuns | Application/fsm_deteccion.c:4729-4840 | what the recharges of 25 and of 5 minutes program |
| TesoMinimum.TriggerResetExactly | Application/fsm_deteccion.c:2082-2105 | from a trigger that rearms, over seconds, polls and checks, no check resets the alarm before its time is up, and the first one after does: into memory, the bit off, the count logged and cleared |
| TesoMinimum.ResetExactly | Application/fsm_deteccion.c:2082-2105 | the same for every running alarm, however it was started |
| TesoMinimum.RequestObeyedIff | Application/fsm_deteccion.c:1992-2003 | a reset on request is obeyed exactly when no poll is outstanding |
| TesoMinimum.RestingCheck | Application/fsm_deteccion.c:2073-2111 | a check outside an episode triggers an alarm whose bit is set, and nothing else |
| AlarmEncoder.Encoder.DeteccionEventos | Application/fsm_deteccion.c:292-693 | one call of the encoder, from its own fields: the events appended, the open zones and the byte kept for the next call |
| AlarmEncoder.Encoder.LogTesoRestore | Application/fsm_deteccion.c:385-423 | the restore of the treasury alarm closes every open zone, in order |
| AlarmEncoder.Encoder.LogFirstZone | Application/fsm_deteccion.c:546-577 | a treasury alarm opens the first zone in memory, and that one only |
| AlarmEntries.CallAppends | Application/fsm_deteccion.c:315-693 | what a call appends, entry by entry with its codes, partitions and zone numbers, in order, for every byte before and now, every memory, every record of open zones and both modes; and the record and the byte it leaves |
| AlarmEncoder.Encoder.StartTask | Application/fsm_deteccion.c:2300-2486 | after a processor reset: the byte to compare with comes from the two records in the flash, and the record of open zones is cleared |
| AlarmEncoder.Encoder.FsmReadHistory | Application/fsm_deteccion.c:3466-3498 | the break alarm from the second record, which is written again if it is implausible |
| AlarmEncoder.Encoder.AlignLast | Autoprotect/autoprotect.c:111-115 | the door task sets the byte to compare with to the present one |
| AlarmReplay.CallKeepsAgreement | Application/fsm_deteccion.c:315-693 | a call without reset keeps the log in step: replaying it gives, for each of the six codes and eight zones, what the encoder holds, and for the codes the present alarm byte |
| AlarmReplay.StepKeepsIff | Application/fsm_deteccion.c:292-693 | a step of any kind, a call, a flagged call, an aligned byte, a reset or an entry of another task, leaves the log in step if and only if it does not disturb the code or zone |
| AlarmReplay.LogReplaysToPanel | Application/fsm_deteccion.c:315-693 | over every run of such steps that disturbs a code or zone in none of them, replaying the log from the first alarm byte gives the last one, or whether the zone is open |
| AlarmReplay.UnbrokenAlternates | Application/fsm_deteccion.c:375-622 | in a log that replays, the entries of each code and zone strictly alternate between event and restore |
| AlarmReplay.RunAlternates | Application/fsm_deteccion.c:375-622 | from an empty log an undisturbed code or zone alternates, starting with an event unless it was on, so each zone restore answers an earlier event of that zone |
| AlarmReplay.ResetLogsNothing | Application/fsm_deteccion.c:296-314 | under the flag of a reset a call logs no alarm event, whatever changed |
| AlarmResets.GoesOnIff | Application/fsm_deteccion.c:315-693 | the log of a code or zone goes on replaying, whatever the encoder is called with from now on, if and only if it is in step with what the encoder holds |
| AlarmResets.StepGoesOnIff | Application/fsm_deteccion.c:292-693 | after any step it still does if and only if the step does not disturb it |
| AlarmResets.ResetGoesOnIff | Application/fsm_deteccion.c:296-314 | after a whole processor reset, whatever its flagged calls see, it still does if and only if the bit of the code is in the end as it was, or the zone was not open |
| AlarmResets.BroughtBack | Application/fsm_deteccion.c:3631-3655 | which alarms the flash brings back: fire, assault, treasury and mains from the first record, break from the second, code 393 never |
| AlarmResets.StartsWith | Application/fsm_deteccion.c:3466-3498 | the alarm byte after a reset: from the first record, with the break alarm if the second record or its flag has it |
| AlarmResets.WrittenReset | Application/fsm_deteccion.c:3440-3498 | with both records written at the last call, a reset alone disturbs exactly the open zones, code 393 if it was on, and the break alarm if its byte was implausible and its flag differs |
| AlarmResets.LostRestore | Application/fsm_deteccion.c:296-314 | a fire restore lost in a reset makes the log show two fire events in a row |
| AlarmResets.LostZoneRestore | Application/fsm_deteccion.c:2427-2427 | a zone open at a reset never gets its restore, and its next event is logged again |
| AlarmResets.RepeatedRestore | Lan485/lan485.c:3599-3602 | another task ends the alarm of code 393 and logs the restore, and the encoder logs it again |
| PagedFlash.AddressRoundTrip | DataFlash/DataFlash.c:167-179 | the three address bytes give back the page modulo 4096 and every position below 1024 |
| PagedFlash.AddressesDiffer | DataFlash/DataFlash.c:167-179 | no two places of the device share their address bytes |
| FlashDriver.AddressDecodes | DataFlash/DataFlash.c:167-179 | a device that reads ten bits of position decodes the bytes sent for an offset as the page and the position meant |
| FlashDriver.CommandNumbers | DataFlash/DataFlash.c:287-327 | the numbers of the load and program commands of the two buffers, and where page and position stand after them |
| FlashChips.EncodedNumber | DataFlash/DataFlash.c:167-179 | the three address bytes are the number 1024 times the page plus the position |
| FlashChips.ChipDecodesIff | DataFlash/DataFlash.c:82-87 | of the chips in the table, at every offset beyond the first page, only the one with pages of 528 bytes reaches the page meant |
| FlashChips.ChipSharesIff | DataFlash/DataFlash.c:167-179 | two offsets reach the same place of a chip if and only if the positions are the same and the pages differ by a multiple of four times its places in a page |
| FlashDriver.Flash.SetAddressBytes | DataFlash/DataFlash.c:167-179 | fills three bytes of the command and leaves the first |
| FlashDriver.Flash.Flash0Write | DataFlash/DataFlash.c:271-331 | an accepted write returns its length and leaves the device as one load and the programs of its chunks do; a refused one returns 0 and changes nothing |
| FlashDriver.Flash.Flash0Read | DataFlash/DataFlash.c:349-374 | an accepted read fills the buffer with the bytes from its address on and leaves the rest; a refused one changes nothing |
| FlashWrite.AlignedWrite | DataFlash/DataFlash.c:307-330 | chunk by chunk from a page start: the data, then in the tail of the last page what the buffer still held, and every other page as before |
| FlashWrite.WriteByte | DataFlash/DataFlash.c:271-331 | every byte of the flash after a write of any range in it, over any number of pages, the tail of the last page included |
| FlashLaws.WriteThenRead | DataFlash/DataFlash.c:271-374 | reading back a range that was written gives exactly the data |
| FlashLaws.KeptIffTailMatches | DataFlash/DataFlash.c:287-330 | a write keeps everything outside its range if and only if the tail of its last page already held what the page before will hold |
| FlashLaws.WriteIsFlat | DataFlash/DataFlash.c:287-330 | a write within one page, or ending with a page, is a write to a flat array of bytes |
| FlashLaws.TailIsOverwritten | DataFlash/DataFlash.c:287-330 | a write of one page and one byte more overwrites bytes it was not asked to write |
| FlashLaws.EitherBuffer | DataFlash/DataFlash.c:287-313 | which of the two on-chip buffers is used makes no difference to the flash |
| FlashLaws.WriteLogs | DataFlash/DataFlash.c:303-327 | the program commands sent for a write |
| FlashLaws.PiecesPartition | DataFlash/DataFlash.c:303-327 | they follow one another, none empty and each within one page, and make up exactly the written range |
| FlashLaws.AcceptedIff | DataFlash/DataFlash.c:277-279 | the 32-bit sum accepts, besides the ranges in the flash, exactly those that run over the end of the 32-bit offsets |
| FlashLaws.PastTheEndAccepted | DataFlash/DataFlash.c:277-279 | such a range |
| ContactIdEncoder.ProtEncoderNtsec6 | Connection/protocols.c:973-1116 | fills the frame of 43 bytes in place, with 0xE8 as its second byte, and nothing beyond it |
| ContactIdEncoder.ProtEncoderNtsec7 | Connection/protocols.c:1281-1470 | fills the frame of 95 bytes, with 0xF8 as its second byte and the four maps of the device table, and nothing beyond it |
| ContactIdEncoder.PutAccount | Connection/protocols.c:1000-1017 | the account digits, right-aligned at byte 9, or the four digits of the event |
| ContactIdEncoder.PutZeros | Connection/protocols.c:1039-1044 | zeros among the digits become ten, and the digits are summed |
| ContactIdEncoder.Modulo15 | Connection/protocols.c:1045-1049 | the subtraction loop leaves the check digit |
| ContactIdEncoder.XorUpTo | Connection/protocols.c:1108-1112 | the closing exclusive-or |
| ContactIdEncoder.PartitionBitSet | Connection/protocols.c:1691-1710 | sets or clears one bit of one map, and ignores partitions above 99 |
| FrameLayout.FrameBytes | Connection/protocols.c:985-1053 | both frames begin with 0x40 and the second header byte wherever the account does not lie over them, carry the message type 1, 8 in bytes 10 and 11, the count and the fixed bytes; the long one has the maps in bytes 42 to 93 |
| FrameLayout.FrameMapsIff | Connection/protocols.c:1416-1464 | each binary digit of the map bytes of the long frame is set if and only if some row of the device table puts that partition in that map |
| ContactIdLaws.KindRead | Connection/protocols.c:1018-1019 | a receiver reads message type 18 |
| ContactIdLaws.EventRecoveredIff | Connection/protocols.c:1013-1045 | without an account of its own, a frame gives back account, qualifier, code, partition and zone if and only if code and zone fit three digits and no digit is ten |
| ContactIdLaws.OwnAccountRead | Connection/protocols.c:1000-1012 | an account of its own is read back modulo 10000, and from 10000 on overwrites the serial number |
| ContactIdLaws.LongAccountRead | Connection/protocols.c:1000-1012 | of an account from 10000 on all digits are sent, so a receiver that knows how many there are reads all of it |
| ContactIdLaws.HeadByte | Connection/protocols.c:985-1012 | each of the first six bytes is the one of the head, or the digit of an account that reaches so far |
| ContactIdLaws.HeadKeptIff | Connection/protocols.c:985-1012 | so the head is sent whole if and only if the digits over it happen to be its bytes |
| ContactIdLaws.SerialRecovered | Connection/protocols.c:991-998 | the serial number is read back from its nibbles if and only if the digits over its bytes happen to be them, so always with four digits at most |
| ContactIdLaws.FourDigits | LogEventos/log_event.c:209-227 | the four-bit digits that the log packs are the decimal digits of the account |
| ContactIdLaws.ThreeDigits | LogEventos/log_event.c:229-277 | the same for codes and zones |
| ContactIdLaws.LoggedEventRead | LogEventos/log_event.c:280-308 | what is logged is what the receiver reads: account, qualifier, code, partition and zone, in decimal |
| ContactIdLaws.TenIsLost | Connection/protocols.c:1013-1018 | the case excluded there: an account sent as a number loses a digit ten |
| ContactIdLaws.TimeRecovered | Connection/protocols.c:1056-1104 | hour, minute, second, day, month and year are read back from their digits in both frames, and the running count from byte 22 |
| ContactIdLaws.CheckDigitMeaning | Connection/protocols.c:1039-1049 | byte 21 lies in 1 to 15 and equals the sum of bytes 6 to 20 modulo 15 |
| ContactIdLaws.WrongDigitRevealed | Connection/protocols.c:1039-1049 | a single wrong digit, anywhere, always changes the check digit |
| ContactIdLaws.FramesClosed | Connection/protocols.c:1108-1112 | the exclusive-or of bytes 1 to 42, and of bytes 1 to 94 in the long frame, is zero |
| ContactIdLaws.WrongByteRevealed | Connection/protocols.c:1108-1112 | a single wrong byte, anywhere, always changes that exclusive-or |
| PartitionMaps.PartitionBitMarks | Connection/protocols.c:1691-1710 | setting a partition marks that bit of that map and no other bit of any map |
| PartitionMaps.ExpandMarks | Connection/protocols.c:1419-1439 | the expansion of one status byte into the eight partitions after a base, counted in eight bits |
| PartitionMaps.MapsMarkTheTable | Connection/protocols.c:1416-1464 | bit p of each map is set if and only if some row of the device table asserts it, for every table and all 104 bits |
| PartitionMaps.OrderIndifferent | Connection/protocols.c:1416-1464 | the order of the table makes no difference to the maps |
| LineEditor.Editor.InputString | Console/console.c:588-673 | one key: the buffer refines the edited list as far as it fits, no write leaves it, and an accepted line stands in it with a zero after it |
| LineEditor.Editor.Type | Console/console.c:588-673 | the same over every sequence of keys |
| LineEditor.KeysMeant | Console/console.c:605-669 | after any keys whatever, the text is what the keys not swallowed by an escape leave: backspace and delete take one byte, control-U all, bytes from 0x20 on stand for themselves |
| LineEditor.OutcomeMeant | Console/console.c:608-631 | a key ends the line exactly when it is heeded and is a return, or a newline not right after a return; the line is accepted exactly below 128 bytes |
| LineEditor.LineAcceptedIff | Console/console.c:610-627 | a typed line is accepted if and only if it is shorter than 128 bytes, and the newline after its return ends no second line |
| LineEditor.BackspacesUndo | Console/console.c:633-640 | as many backspaces take back whatever was typed, even past the end of the buffer |
| LineEditor.EscapeSkipsTwo | Console/console.c:605-609 | an escape and any two keys after it leave the line as it is |
| LineEditor.ClearForgets | Console/console.c:644-650 | the clear key forgets everything before it |
| Tokenizer.PlainLine | Console/console.c:692-745 | a line without quotes or backslashes is cut into exactly its words, and they are counted |
| Tokenizer.QuotedLine | Console/console.c:692-745 | every well-formed quoted line is cut into exactly the texts typed, empty ones included, and they are counted |
| Tokenizer.EscapedText | Console/console.c:739-742 | any text can be typed as one parameter by putting a backslash before each byte |
| TokenText.ParamsAreFound | Console/console.c:692-745 | the parameters that can be found after tokenising are those told from the line itself, for every line, with ill-formed quotations and backslashes anywhere |
| TokenCount.CountAgainstFound | Console/console.c:692-745 | for every line, counted and extra parameters together are as many as those found and those lost, where lost and extra ones are told from the line alone |
| TokenCount.CountRightIff | Console/console.c:692-745 | so the count is right if and only if as many are lost as are extra |
| TokenCount.LostAndExtra | Console/console.c:708-735 | a line that loses one, and a line with an extra one |
| ConsoleLine.ConNullify | Console/console.c:692-745 | tokenises the buffer in place, backslashes included, and returns the count |
| ConsoleLine.ConGetparam | Console/console.c:985-1012 | returns the start of the parameter with the given number, stepping over the mark of an empty one, or leaves the memory if and only if there are fewer |
| CommandMatch.MatchParts | Console/console.c:944-969 | the parts of a table command are compared one by one with the words that are counted and found; the memory is left if and only if one is asked for that is counted and cannot be found |
| CommandMatch.MatchOne | Console/console.c:935-969 | one table command matches if and only if its parts begin the words that are counted and found, or leaves the memory as before |
| CommandMatch.ConParsecmd | Console/console.c:919-983 | the matching command with the most words, the first on ties, or none if none matches, and the number of counted words left over; or the memory is left, if and only if some command asks for a word that cannot be found |
| CommandMatch.BestIsUnique | Console/console.c:919-983 | there is only one such command |
| CommandMatch.FirstOfCopies | Console/console.c:970-973 | of several copies of the best command it is the first |
| CommandMatch.TiesAreCopies | Console/console.c:970-973 | ties are only between copies of the same command |
| CommandMatch.ParseAny | Console/console.c:517-527 | from the buffer of any line, whatever earlier lines left behind it, to the best command for the words counted, in the order in which they are found, or to none if none is counted |
| CommandMatch.LineAnswers | Console/console.c:517-527 | with no more parameters lost than extra, only words of the line are taken and the memory is not left |
| CommandMatch.StaleWord | Console/console.c:708-735 | with a parameter lost, the matcher takes a word that an earlier line left behind, or leaves the memory |
| CommandMatch.ParseLine | Console/console.c:517-527 | from the buffer of a well-formed line to the best command for the words typed, or to none for an empty one |
| Apertura.Machine.FsmApApertura | Autoprotect/autoprotect.c:275-553 | one run of the machine, in all its states, the run with ten minutes left that only changes the cadence of the buzzer included |
| Apertura.Machine.Turn | Autoprotect/autoprotect.c:275-553 | one run after whatever other tasks did: tokens read, a licence expired, the buzzer taken |
| AperturaTimes.ActShows | Autoprotect/autoprotect.c:275-553 | in every state, reachable or not, what a run does to the authorisation, licence and log of openings, to the alarm, to the power and pre-alarm, where it goes, and which wait begins, in seconds |
| AperturaTimes.OthersShow | Application/main.c:1790-1914 | what other tasks do to the pending token, the last one read, the licence and the cadence of the buzzer between two runs |
| AperturaTimes.TenMinutes | Autoprotect/autoprotect.c:467-493 | the run with ten minutes left and a slow buzzer does nothing but make it fast |
| AperturaTimes.TokenWaitExactly | Autoprotect/autoprotect.c:315-350 | a wait for a token lasts exactly 60 seconds, the door open or closed |
| AperturaTimes.ClosingExactly | Autoprotect/autoprotect.c:466-542 | a closed door keeps its authorisation for exactly half an hour, or exactly a minute once the panel is quiet |
| Apertura.Machine.LicenceExpires | Application/main.c:1782-1791 | the main task clears the licence, whatever the machine is doing |
| Apertura.Machine.IButtonRead | Application/main.c:1908-1914 | an accepted token is kept pending; the last token read is remembered either way |
| Apertura.Machine.CountSecond | Application/main.c:2608-2609 | the timeout falls by one each second |
| AperturaRuns.AlwaysInv | Autoprotect/autoprotect.c:275-553 | over every run from power-up: no authorisation in the idle state, none without a token since the machine was last idle, the licence zero or that of the last logged opening, and the pre-alarm that cuts the power never reached |
| AperturaRuns.AuthorisedByToken | Autoprotect/autoprotect.c:319-330 | an opening is authorised and logged, under the last token read, if and only if a token is pending in a mode that waits for one; otherwise no authorisation begins |
| AperturaRuns.TokenInIdleDropped | Autoprotect/autoprotect.c:284-314 | a token read in the idle state is dropped, unless a door alarm was saved before power-up |
| AperturaRuns.AlarmSurvivesPowerCut | Autoprotect/autoprotect.c:284-293 | a ringing door alarm rings again after a power cut |
| AperturaRuns.ClosedDoorRests | Autoprotect/autoprotect.c:275-553 | with the door closed the machine rests without authorisation after 1925 seconds, from every reachable state and whatever tokens are read |
| AperturaRuns.UnknownStaysAuthorised | Autoprotect/autoprotect.c:543-551 | from an unknown state, which no run reaches, it would rest still authorised |
| AperturaOpen.OpenDoorEnds | Autoprotect/autoprotect.c:275-553 | from every reachable state, what a door that stays open without a token comes to: whether it rings, whether a kept token opens it, how many alarms are raised, and whether an authorisation stands, each exactly |
| AperturaOpen.OpenDoorRingsIff | Autoprotect/autoprotect.c:275-553 | after 64 seconds it rings if and only if it was not open for good already and no kept token will open it |
| AperturaOpen.OpenDoorRings | Autoprotect/autoprotect.c:299-350 | a door that opens at rest and stays open without a token rings, once, within 62 seconds, and goes on ringing |
| AperturaOpen.AlarmKeepsAuthorisation | Autoprotect/autoprotect.c:334-350 | a run raises the alarm if and only if the wait for a token runs out, and leaves an authorisation as it was |
| AperturaOpen.ReopenedDoorUnnoticed | Autoprotect/autoprotect.c:418-466 | one closed run silences the alarm, and the door can then stand open unauthorised without any alarm |
| AperturaOpen.StaleAuthorisationHappens | Autoprotect/autoprotect.c:315-542 | a run from power-up that rings with an authorisation standing |
| AperturaOpen.TokenKeptForLater | Autoprotect/autoprotect.c:351-368 | a token read while the door is authorised opens it again later |
| DowCrc.DowCRC | Application/iButtons.c:217-228 | the loop computes the checksum by table of the eight bytes |
| DowCrc.ExampleCode | Application/iButtons.c:217-228 | the example code of application note 27 of Maxim Integrated |
| DowCrc.TableIsEight | Application/iButtons.c:15-32 | each of the 256 entries is eight steps of the shift register |
| DowCrc.ShiftMirrorsDivide | Application/iButtons.c:15-32 | a step of the register is, mirrored, a step of long division by x^8 + x^5 + x^4 + 1 |
| DowCrc.CrcIsRemainder | Application/iButtons.c:217-228 | the checksum is the mirrored remainder of the division, for any number of bytes |
| DowCrc.CrcLinear | Application/iButtons.c:217-228 | the checksum of a combination is the combination of the checksums |
| DowCrc.ZeroIffClosed | Application/iButtons.c:172-228 | the checksum is zero if and only if the last byte is the checksum of the bytes before |
| DowCrc.BurstChangesCrc | Application/iButtons.c:217-228 | two codes that differ only within eight consecutive bits, wherever they fall, have different checksums |
| DowCrc.RegisterParity | Application/iButtons.c:15-32 | the register always has the parity of the bits so far |
| DowCrc.OddChangesCrc | Application/iButtons.c:217-228 | two codes that differ in an odd number of bits have different checksums |

## Left out

- Memory behind the console's buffer: the model's memory is the array, and a search that leaves it is an outcome of its own (`None`, `Leaves`, `Beyond`); what the firmware reads there is not modelled.
- Chips other than the one with pages of 528 bytes: the device model reads ten bits of position; `FlashChips` says what the others make of the addresses.
- The buzzer of the door machine: only whether it sounds the slow cadence is kept, because the machine looks at it.
- The other alarms of `recharge_alarm` and `autoreset_logo3d`: the branches for assault, fire and breakage have the shape of the one modelled.
- Events 401, 137 and 147 of `DeteccionEventos`, and the changes of the device-state byte behind them: they depend on tables and flags of other tasks.
- `RabbitTask` and the retransmission queue: sockets, delays and network cards; parts of the queue are not in the repository.
- GPIO, ADC, SPI, UART, RTC and 1-Wire timing, LEDs, echo and printing: hardware and user interface.
- Restoration of the door machine after a watchdog reset: the model starts at power-up.
- Interleaving of other tasks within one step of a machine.
- Flash before `flash0_init`: the page size is then zero and the driver divides by it; the model starts with a known page size.
- Wrap-around of the 16-bit and 32-bit counters outside the watchdog: timeouts are natural numbers that only count down, and the watchdog's count of key changes does not wrap.
- Negative accounts in the frames: `itoa` would put a minus sign among the digits.
- Years outside four digits in the time stamp.
- Straight-line code that the firmware repeats for each row, column, alarm bit or table row is written once here, in a method called for each of them; both frames share one method for their common part.
- `fsmAperWriteHistory`, `AlarmWriteHistory` and the other writes of saved state: only the saved door-alarm flag is kept.
- `POWER_TX_ON` and `POWER_TX_OFF` outside the watchdog and the door machine.
- Heartbeat frames: they repeat the maps and the stamp of the event frames.
