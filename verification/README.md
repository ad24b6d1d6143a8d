# OpenBitdo device configuration: a Dafny model

OpenBitdo configures 8BitDo keyboards, controllers and mice over a request and reply protocol. Every
profile write follows one discipline: read the device, keep what was there, write only what changed, read
it back, and put the old state back when anything fails. This project models that discipline for each
family of devices, the codecs and chunked transfers beneath it, the firmware session beside it, and the
pure algorithms around it, and proves what each is for.

`dafny verify dfyconfig.toml` checks the whole project.

## How it is laid out

| modules | what they model |
|---|---|
| `Bytes`, `Patch`, `Names`, `DiffRuns` | bytes and words, writing sections with a list of changed spans, stored names, runs of differing bytes |
| `KbTargets`, `KbLighting`, `KbMacros`, `KbCodec`, `KbProfile` | the record keyboard's record, themes, colours and macros, in all four layouts |
| `KbRules`, `KbExamples` | which of its edits are taken, each range in numbers, and stored forms byte for byte |
| `KbDevice`, `KbApply`, `KbGuarantees`, `KbRestore` | the keyboard, its chunked transfers, apply with rollback, restore |
| `FirmwareSession`, `FirmwareRun` | the firmware session under every interleaving of its callers, and one transfer |
| `HidDescriptor`, `HidFields`, `HidBits`, `HidUsages` | the HID report-descriptor parser, what its fields say against a scan of the bytes, bit fields of a report, top-level usages |
| `PadLayouts`, `PadSections`, `PadCombos`, `PadMacros`, `PadRules`, `PadCodec`, `PadRoundTrip`, `PadProfile` | the controller record of the Ultimate 2 family, section by section, in six layouts, and the edits it takes |
| `PadForms` | where its sections are and what each of their bytes says |
| `Flash`, `PadDevice`, `PadWrite`, `PadApply`, `PadRestore` | staged writes and commits, flash that only clears bits, apply with rollback, restore |
| `PadHeaders`, `PadExamples` | what old macro headers describe once their steps were rewritten, and concrete edits on which the conditions bite |
| `U2Crc`, `U2Frames` | CRC-16/MODBUS and the three request wrappers |
| `JpMacros`, `JpNames`, `JpTargets`, `JpDevice`, `JpApply` | the JP108 keyboards: macro values, names, key targets, paged transfers, apply with rename |
| `MouseMacros`, `MouseDevice`, `MouseCodec`, `MouseApply`, `MouseGuarantees` | the Retro R8 mouse: macro reports, settings, profile codec, parts, apply with undo |
| `Interfaces` | interface de-duplication, the rows shown, the interface the transport opens |

A codec is stated twice: as functions that are inverses of each other, and as bytes in their places, so that
neither side may move alone or both together. What is refused is stated as a condition in numbers or found by the
source's own loops, proved to find exactly that.

A device is a class. Its reads are truthful; its writes go wrong as its faults allow, and each class also has
a faultless form, for which the transactions are proved to succeed exactly when they should. An object the
program updates in place is a class with those fields, a buffer it patches is an array, a loop is a loop
proved against a function, and what is pure is a function.

## What is proved

- **Transactions.** For the record keyboard, the controllers, the JP108 keyboards and the mouse, the report
  of an apply is true of the device under every write fault: applied means the device holds what was asked,
  rolled back means it holds what was read first, refused means nothing changed; applied means too that every
  write was acknowledged, and rolled back that at most one was not.
- **Codecs.** Every accepted edit reads back as its normal form, outside the reported spans nothing changes,
  and an unedited profile writes nothing.
- **Macros.** What validates is stored, survives chunked upload and download in chunks of other sizes, and
  reads back.
- **Firmware.** At most one transfer ever starts, a session that is over stays over with its one report, a
  cancel is never forgotten; a completed transfer sent every chunk once and in order and then one commit, and it
  completes exactly when every chunk and the commit were answered, as its log of writes and replies tells.
- **Algorithms.** Field placement and bit extraction, truncation-safe usage walks, the error-detecting power
  of the CRC, framing, and interface choice independent of enumeration order.

## Where the code does not do what one would expect

Each is proved with its exact condition, most of them beside an input that shows it.

- A name with a byte 0xff or a zero unit does not read back (`Names.NameRoundTrip`): a unit such as U+FFFD has
  such a byte, so a name stored with a broken surrogate pair is lost when a rollback writes it again
  (`KbGuarantees.RestoredMacro`, `Names.LoneSurrogateLost`, `KbGuarantees.BrokenNameLost`).
- A record keyboard macro is checked only if its stored form differs from the one there, and its repeat count is
  cut to a byte for that comparison: a macro played 257 times in place of one played once is accepted and not sent
  (`KbGuarantees.PlayedMacro`, `KbGuarantees.UncheckedRepeat`).
- A firmware plan's chunk size is never compared with the room in a chunk request; a larger one drops the end
  of every full chunk in silence and still completes (`FirmwareRun.WholeImageDelivered`,
  `FirmwareRun.LongChunksCut`).
- Report sizes and counts are multiplied in a 64-bit integer without a check, so a twelve-byte descriptor can
  misplace fields (`HidDescriptor.FieldsFollowOneAnother`, `HidDescriptor.OverflowMisplaces`), and reading bits at
  such a place panics unless the report is empty and the place within a byte of its start (`HidBits.ExtractBits`).
- An erase reaches stored macro bytes and not the copy writes go to, so on flash that only clears bits a second
  macro rewritten in the same apply fails unless it only clears bits (`PadWrite.FlashHoldsExactly`,
  `PadWrite.SecondMacroRefused`, `PadExamples.SecondMacroUncarried`); one macro always works
  (`PadWrite.OneMacroAlwaysTakes`).
- No header is to describe steps that are not there. New headers never do, in the commits of an edit and of its
  rollback, unless a rollback's writes are garbled (`PadApply.Apply`, `PadExamples.GarbledRollback`). Old ones do:
  an edit's steps are committed under the old header, and a rollback commits the old record before it writes the
  old steps, which is harmless exactly when the new steps leave the old ones in place (`PadHeaders.OldHeadersTold`,
  `PadHeaders.RollbackTells`, `PadExamples.RollbackOverNewSteps`).
- The model that is sent its whole record has only the changed spans read back, so a byte garbled outside them
  goes unseen (`PadWrite.CheckProves`, `PadWrite.GarbledByteUnseen`).
- A controller macro's repeat count is cut to thirty-two bits (`PadMacros.MacroRoundTrip`,
  `PadMacros.HugeRepeatLost`).
- A JP108 mapping of which this program reads nothing is lost when a rename writes it again
  (`JpTargets.ReadTargetRewrites`, `JpTargets.UnreadByteLost`, `JpApply.AppliedKeys`), and on the keyboard that
  numbers F13 to F24 in its own way twelve other usages are read as those keys (`JpTargets.TargetRoundTrip`,
  `JpTargets.UsageReadAsF13`).
- A JP108 undo writes macros back in id order like any edit, so on a keyboard without a free slot the undo of an edit
  that removes one macro and adds others can fail with nothing going wrong (`JpApply.Apply`, `JpApply.NoWayBack`).
- Undoing JP108 locks writes back the three lock bits and clears the byte's others (`JpApply.Apply`).
- A JP108 macro played once with an interval comes back with a trailing wait (`JpMacros.ValueRoundTrip`), and a name
  whose every unit has a zero low byte is read in the other byte order (`JpNames.NameRoundTrip`,
  `JpNames.OneIdeographMisread`).
- Creating a mouse profile without touching its stages sends no stage in use, so a mouse that was on another
  stays on it (`MouseApply.CreatedShows`, `MouseGuarantees.CreatedStageUnsent`,
  `MouseGuarantees.CreatedOnAnotherStage`).
- Undoing a mouse edit skips the macro of a button that played one without records, so what the edit put there
  stays (`MouseApply.UndoneShows`, `MouseApply.SkippedWhen`, `MouseGuarantees.UndoLeavesAMacro`); where every
  playing button has records an undo that succeeds shows what was there (`MouseApply.RecordsRestore`).

## Model

| member | source | states |
|---|---|---|
| Patch.PutSection | internal/core/kbrecord.go:698-703 | writing one section in place leaves exactly that section changed, and reports a change exactly when the section held other bytes |
| Patch.PutAll | internal/core/kbrecord.go:696-800 | writing sections one after another leaves the record the whole plan describes and reports exactly the spans that changed |
| Patch.ApplyAt | internal/core/kbrecord.go:696-800 | sections that keep apart all hold their own bytes at the end, whatever the order |
| Patch.ChangedDisjoint | internal/core/kbrecord.go:696-800 | reported spans are nonempty, inside the record, pairwise disjoint, and each is a section that was put |
| Patch.ChangedCovers | internal/core/kbrecord.go:696-800 | a byte outside every reported span is the byte that was there |
| Patch.ChangedNothing | internal/core/kbrecord.go:696-800 | putting what is already there reports nothing and changes nothing |
| Names.DecodeName | internal/core/pad.go:260-273 | a stored name always reads as one with its surrogates in pairs |
| Names.PairedIsWellFormed | internal/core/pad.go:260-273 | a name is one a string can hold exactly when every surrogate in it has its other half beside it |
| Names.NameRoundTrip | internal/core/pad.go:260-285 | a name written and read comes back exactly when no unit is zero and no byte of it is 0xff |
| Names.DecodedNameRewrites | internal/core/pad.go:260-285 | a name that was read can be written again, and survives that exactly when it holds no replacement character |
| Names.LoneSurrogateLost | internal/core/pad.go:260-285 | stored bytes of a lone surrogate read as U+FFFD, which written reads as no name |
| Names.UnitOfName | internal/core/pad.go:275-285 | a stored name holds its units in order, high byte first, and then zeros |
| Names.SameStoredName | internal/core/pad.go:260-285 | of the names that can be read only one has the stored form of a storable name |
| DiffRuns.FindRuns | internal/core/kbrecord.go:1015-1032 | one pass finds the maximal runs of differing, unprotected bytes, in order |
| DiffRuns.RunsRestore | internal/core/pad.go:892-908 | the backup written over the runs gives the backup everywhere but in the protected bytes, which stay the device's |
| DiffRuns.RunsApart | internal/core/kbrecord.go:1015-1032 | runs are disjoint, inside the record, and cover exactly the unprotected bytes that differ; there are none exactly when none differs |
| DiffRuns.RunsUnique | internal/core/kbrecord.go:1015-1032 | being the maximal runs decides the list: two such lists are equal |
| KbExamples.Models | internal/core/kbrecord.go:88-93 | the four layouts in numbers |
| KbTargets.DecodeTarget | internal/core/kbrecord.go:216-248 | a stored target that plays a macro names a slot the keyboard has |
| KbTargets.TargetRoundTrip | internal/core/kbrecord.go:216-303 | every assignment the encoder takes reads back as its normal form (a key as itself, and Off on a port button, become Default), for all four layouts |
| KbRules.EntryReads | internal/core/kbrecord.go:216-248 | what any stored entry reads as, in numbers |
| KbRules.EntryPlays | internal/core/kbrecord.go:216-248 | a stored entry plays a macro exactly when its value is the place of one of the model's slots |
| KbRules.WireTakes | internal/core/kbrecord.go:251-303 | an assignment can be sent exactly when it is one of those listed in numbers for its model: which modifiers, key usages, media keys, mouse actions and macro slots |
| KbRules.KeysOfTable | internal/core/kbrecord.go:125-153 | which entries of the key table are keys, which of them port buttons, and each key's usage |
| KbExamples.KeyEntries | internal/core/kbrecord.go:251-303 | the twelve bytes of concrete assignments of one key: Shift+1, nothing, mute, a left click, a macro, itself |
| KbExamples.EmptyEntries | internal/core/kbrecord.go:216-248 | an entry without a code of its own is given one, the key's usage or a port button's |
| KbExamples.FrenchEntry | internal/core/kbrecord.go:216-303 | a key whose stored code is not its usage, on a French keyboard |
| KbLighting.ThemeRoundTrip | internal/core/kbrecord.go:361-447 | every theme edit the encoder takes reads back as edited, in every setting and both colours |
| KbLighting.ThemeNumberRoundTrip | internal/core/kbrecord.go:526-547 | a theme's number survives the renumbering of the keyboards that lack two themes |
| KbExamples.ThemeNumbers | internal/core/kbrecord.go:533-547 | each theme's number on the wire, on each model, and which themes a model has not |
| KbExamples.ChosenStored | internal/core/kbrecord.go:419-447 | where each theme has a byte for a chosen colour, and that an edit stores a one there |
| KbExamples.BreathingStored | internal/core/kbrecord.go:361-447 | one theme's section byte for byte, read and written |
| KbRules.EncodeThemeTakes | internal/core/kbrecord.go:388-447 | a theme edit is taken exactly when each setting is left alone or is one the theme has, in its range |
| KbLighting.EncodePerKey | internal/core/kbrecord.go:484-510 | the colour block is built exactly when every setting is in range, and is the stored block with the edit put in |
| KbLighting.PerKeyRoundTrip | internal/core/kbrecord.go:471-510 | the colour block written for an accepted edit reads back as that edit |
| KbRules.PerKeyTakes | internal/core/kbrecord.go:484-510 | per-key colours are taken exactly when each setting is left alone or in its range and there is a colour for each of the model's lights |
| KbCodec.LocksRoundTrip | internal/core/kbrecord.go:696-800 | the three lock bits read back as edited and the byte's other bits are kept |
| KbCodec.SectionsApart | internal/core/kbrecord.go:696-800 | no two sections of the record share a byte |
| KbCodec.SectionAfter | internal/core/kbrecord.go:696-800 | after the whole encode each section holds what the edit puts there, or what it held |
| KbCodec.EncodeRecord | internal/core/kbrecord.go:696-800 | the encoder takes an edit exactly when every section of it can be stored, and then leaves the planned record and reports the planned spans |
| KbRules.RecordTakes | internal/core/kbrecord.go:696-800 | a whole edit can be stored exactly when every key, light, timer, volume and name of it is left alone or in its own range on that model, each range in numbers |
| KbExamples.Places | internal/core/kbrecord.go:21-60 | where the name, keys, single settings and switches are in the record, in numbers |
| KbExamples.LockBits | internal/core/kbrecord.go:696-800 | which bit is which lock |
| KbCodec.RecordRoundTrip | internal/core/kbrecord.go:651-800 | for every layout, record and accepted edit the record decodes to the edit in its normal form; the name is the edit's exactly when it was left alone or can be stored |
| KbCodec.RecordFrame | internal/core/kbrecord.go:696-800 | reported spans are disjoint and every byte outside them is unchanged |
| KbCodec.UneditedWritesNothing | internal/core/kbrecord.go:696-800 | an unedited profile is accepted, reports no span and leaves the record byte for byte |
| KbMacros.ImageReads | internal/core/kbrecord.go:1125-1163 | a slot holding a macro's image decodes to that macro, its name as the stored form keeps it |
| KbMacros.StepsRoundTrip | internal/core/kbrecord.go:1125-1163 | four-byte steps decode to the steps they encode |
| KbMacros.ReadMacroFits | internal/core/kbrecord.go:1144-1182 | whatever a slot holds, what it reads as fits a slot again, and only its name may not survive being stored |
| KbRules.MacroTakes | internal/core/kbrecord.go:1091-1123 | a macro can be held exactly when its steps, repeat count, interval, name and mode are in the ranges of its model |
| KbExamples.TapStored | internal/core/kbrecord.go:1125-1163 | a concrete macro's header and steps byte for byte |
| KbMacros.PlanMacros | internal/core/kbrecord.go:1187-1237 | the plan is refused exactly when some slot's macro has to be written and cannot be, and otherwise lists each slot's write; which slots those are is stated by PlanMeans |
| KbMacros.PlanMeans | internal/core/kbrecord.go:1187-1237 | a slot needs a write exactly when some key plays it and the stored form of its macro, header or steps, differs; it is refused exactly when that write is needed and two keys play it or the macro is not one the keyboard can hold; otherwise the write is the macro's own image with the key that plays it |
| KbMacros.WritesInOrder | internal/core/kbrecord.go:1213-1237 | planned writes are for different slots, in slot order, each the one its slot needs |
| KbMacros.WritesComplete | internal/core/kbrecord.go:1213-1237 | every slot that needs a write has one in the plan |
| KbProfile.NoProfileShowsDefaults | internal/core/kbrecord.go:597-684 | a keyboard without a profile is shown with every key as itself and every port button idle |
| KbExamples.NewProfileSettings | internal/core/kbrecord.go:597-642 | the single settings of a new profile byte for byte |
| KbExamples.NewProfileThemes | internal/core/kbrecord.go:597-642 | every theme of a new profile byte for byte |
| KbExamples.NewProfileKeys | internal/core/kbrecord.go:597-642 | entries of a new profile byte for byte: a key is itself, a port button idle, a gap empty |
| KbExamples.NewProfileKeeps | internal/core/kbrecord.go:597-642 | what a new profile takes over from the keyboard |
| KbProfile.ReadMacro | internal/core/kbrecord.go:1167-1182 | a macro that is read is the one in the slot, and a sound keyboard always gives it |
| KbProfile.ReadMacros | internal/core/kbrecord.go:851-873 | the macros read are those of the slots some key plays, and no others |
| KbProfile.ReadProfile | internal/core/kbrecord.go:851-873 | a profile that is read is what record, macro storage and colour block show; a sound keyboard is always read |
| KbDevice.Keyboard.Read | internal/protocol/kbrecord_simulator.go:123-211 | a read answers with bytes that are stored there, or not at all; a sound keyboard always answers |
| KbDevice.Keyboard.Write | internal/protocol/kbrecord_simulator.go:123-211 | a write may leave anything in the bytes it names and changes no other byte; a sound keyboard stores it and accepts it whole |
| KbDevice.Keyboard.Prepare | internal/protocol/kbrecord_simulator.go:123-211 | preparing a macro slot touches that slot alone |
| KbDevice.ReadChunks | internal/protocol/kbrecord.go:164-184 | a chunked read that succeeds returns the stored bytes, however replies are split, and succeeds on a sound keyboard |
| KbDevice.WriteChunks | internal/protocol/kbrecord.go:188-214 | a chunked write changes nothing outside its range; on a sound keyboard it succeeds and the range holds the data |
| KbApply.WriteSpans | internal/core/kbrecord.go:969-985 | a span write that reports success has every span in place and every write of it was acknowledged; it never touches a byte outside the spans |
| KbApply.WriteLights | internal/core/kbrecord.go:989-1001 | a colour write that reports success has the whole block in place |
| KbApply.WriteMacro | internal/core/kbrecord.go:1242-1266 | a macro write that reports success has header and steps in the slot, and never touches another slot |
| KbApply.StoreMacros | internal/core/kbrecord.go:940-961 | macros stored before a failure stay stored, and slots not to be written keep their bytes |
| KbApply.Prepare | internal/core/kbrecord.go:896-929 | the job is computed before anything is sent, exactly for the accepted edits; a keyboard without a profile is given a whole record |
| KbApply.WriteParts | internal/core/kbrecord.go:934-944 | record, colours and macros are written in that order, and success means all three are in place |
| KbApply.Apply | internal/core/kbrecord.go:882-965 | whatever the keyboard does with writes: applied means every record byte, colour byte and stored macro is the wanted one and every write was acknowledged; rolled back means record and colours are byte for byte what was read first, every slot that held a played macro holds it again, and at most one write was not acknowledged; refused means nothing changed; a sound keyboard takes exactly the accepted edits |
| KbGuarantees.AppliedSettings | internal/core/kbrecord.go:651-965 | what a reader finds after a successful apply is the edit in its normal form, its name exactly when storable or left alone |
| KbGuarantees.AppliedLights | internal/core/kbrecord.go:471-510 | the per-key colours a reader finds after a successful apply are the edit's |
| KbGuarantees.AppliedMacro | internal/core/kbrecord.go:1125-1182 | a macro an apply stored reads as the edit's, its name exactly when it can be stored |
| KbGuarantees.PlayedMacro | internal/core/kbrecord.go:882-965 | after a successful apply every slot a key plays reads as the edit's macro exactly when its numbers fit the bytes they are stored in, and with its name exactly when that is storable or was left alone |
| KbGuarantees.PlayingKey | internal/core/kbrecord.go:1125-1142 | a slot that was written names the one key that plays it |
| KbGuarantees.UnplayedKept | internal/core/kbrecord.go:1213-1237 | a slot no key of the edit plays keeps every byte, applied or rolled back |
| KbGuarantees.UncheckedRepeat | internal/core/kbrecord.go:1213-1237 | a concrete macro the keyboard cannot hold that is accepted and not sent, its stored form being the one there |
| KbGuarantees.RestoredMacro | internal/core/kbrecord.go:949-964 | after a successful rollback a slot that held a played macro reads as that macro exactly when no key of the edit plays it, the edit's macro is stored alike, or its name holds no replacement character |
| KbGuarantees.BrokenNameLost | internal/core/kbrecord.go:949-964 | a concrete stored macro that a rollback writes back without its name |
| KbRestore.Restore | internal/core/kbrecord.go:1005-1048 | a restore that succeeds leaves the backup's record except the profile switch, its colours and its macros; bytes and colours that were the backup's already, and the switch, are left alone whatever comes of it; a sound keyboard takes it exactly when the macros can be planned |
| FirmwareSession.SessionHandle.Start | internal/core/firmware.go:206-224 | a start succeeds exactly from preflight, and changes the stage alone and nothing otherwise |
| FirmwareSession.SessionHandle.Confirm | internal/core/firmware.go:227-258 | a confirm succeeds exactly while confirmation is awaited, and clears an earlier cancel |
| FirmwareSession.SessionHandle.AskCancel | internal/core/firmware.go:283-298 | before a transfer a cancel ends the session with its report; later it only raises the flag |
| FirmwareSession.SessionHandle.Finalize | internal/core/transfer_task.go:201-261 | a finalize sets the terminal stage and the report together |
| FirmwareSession.StepKeeps | internal/core/firmware.go:206-312 | every step of any caller or task, at lock granularity, keeps the session invariant |
| FirmwareSession.AtMostOneTransfer | internal/core/firmware.go:227-258 | in every reachable state of every interleaving at most one transfer was ever started |
| FirmwareSession.OverIsOver | internal/core/transfer_task.go:201-261 | a session that is over stays in its terminal stage with the report it had |
| FirmwareSession.ReportExactlyWhenOver | internal/core/firmware.go:261-327 | there is a report exactly when the session is over; its status is completed, cancelled or failed exactly as the stage is, and it says a transfer began exactly when one did |
| FirmwareSession.ReportWrittenOnce | internal/core/transfer_task.go:201-261 | between two moments of a run the report changes only from none to the final one |
| FirmwareSession.CancelNeverForgotten | internal/core/firmware.go:283-298 | a cancel flagged while the transfer runs stays flagged for good |
| FirmwareSession.CancelledWasAsked | internal/core/transfer_task.go:249-271 | a transfer that began ends as cancelled only when a cancel was asked for |
| FirmwareSession.CancelReturnsTheReport | internal/core/firmware.go:261-312 | whatever a cancel call returns is the session's one report |
| FirmwareRun.ChunkSizeFor | internal/core/firmware.go:170-176 | a planned chunk has the size asked for, or the default where none was, and never less than eight bytes |
| FirmwareRun.SendRow | internal/protocol/session_transport.go:24-106 | a request that is not a read is handed to the transport exactly once whatever the replies are, and a read at most once per attempt; the events are those of one exchange; it succeeds exactly when the last thing read was a valid reply or, where none is waited for, when it was written |
| FirmwareRun.FrameCarries | internal/protocol/session_firmware.go:60-77 | a chunk request carries the chunk's first bytes at the payload offset, as many as there is room for |
| FirmwareRun.WholeImageDelivered | internal/core/transfer_task.go:82-113 | the payload windows of a completed transfer's chunk frames, read one after another, are the image exactly when the chunk size, or the whole image, fits a request |
| FirmwareRun.LongChunksCut | internal/core/transfer_task.go:82-113 | a concrete completed transfer of 128 bytes in chunks of 64 whose frames carry another image |
| FirmwareRun.EnterBootloader | internal/protocol/session_firmware.go:7-24 | entering sends its requests once each, in order, and stops at the first that fails |
| FirmwareRun.SendChunk | internal/protocol/session_firmware.go:60-77 | a chunk is sent exactly once, or refused before anything is sent when there is no room for data |
| FirmwareRun.SendChunks | internal/core/transfer_task.go:82-113 | chunks that were all sent went once each and in order; a stop short of that follows an attempt to leave the bootloader unless the device is gone |
| FirmwareRun.FinishTransfer | internal/core/transfer_task.go:115-173 | completing takes one commit, one exit and then only version reads, and the log of it is one that went well; a failure has something wrong in its log and follows an exit attempt unless the device is gone |
| FirmwareRun.VerifyPostFlash | internal/core/transfer_task.go:154-173 | the device is opened again and asked its version, or nothing is sent; completed as against unverified means exactly that the version read was answered by a valid reply |
| FirmwareRun.RunTransfer | internal/core/transfer_task.go:22-143 | a transfer completes exactly when a chunk request has room for data and in its log every request was written, every chunk and the commit answered by a valid reply, and no cancel seen; verified exactly when the version was told as well; cancelled exactly when it saw a cancel and then left the bootloader; gone exactly when the device was looked for and not found; it reports as many chunks as were answered; a completed one sent every chunk once and in order, one commit, one exit; once in the bootloader every outcome but a device gone follows an exit attempt; over a reliable transport with no cancel it completes exactly when a request has room |
| HidDescriptor.ParseReportDescriptor | internal/input/descriptor.go:29-187 | the one-pass parser, with its global and local item state, gives the fields of the item-by-item definition or refuses with it; what each field says is stated by FieldsDescribed |
| HidFields.FieldsDescribed | internal/input/descriptor.go:29-187 | against a scan of the descriptor's bytes that shares no state with the parser: it parses exactly when its items are whole, and its fields are, in order, those of the Input items; each has the page, logical limits, size and report id last declared before its item, its flags from the item's bits, and as usage the minimum plus its number within a range that fits, else the listed usage of its number, else the last one listed |
| HidFields.LittleEndian | internal/input/descriptor.go:72-78 | an item's data is a number, low byte first |
| HidFields.TwosComplement | internal/input/descriptor.go:79-89 | a logical limit is in two's complement over as many bits as its item has |
| HidDescriptor.FieldsFollowOneAnother | internal/input/descriptor.go:29-187 | for every descriptor that parses, each report's Input fields follow one another without a gap from bit 0 (8 when numbered) exactly when the bits its Input items declare, summed item by item from the bytes, keep within what a 64-bit integer holds |
| HidDescriptor.OverflowMisplaces | internal/input/descriptor.go:119-181 | a concrete descriptor of twelve bytes that declares more, parses, and whose fields are misplaced |
| HidDescriptor.FieldsShareNoBit | internal/input/descriptor.go:119-181 | well-placed fields of one report share no bit |
| HidBits.ExtractBits | internal/input/gamepad.go:140-155 | the bit loop reads the number the bits spell, low bit first, with bits past the end as zero and nothing for sizes outside 1 to 32; from a negative place, which an overflowing descriptor gives, it panics unless the report is empty and the place within a byte of its start |
| HidBits.LowestFirst | internal/input/gamepad.go:140-155 | concrete reports: a run of bits is read lowest first and on into the next byte |
| HidBits.ValueSet | internal/input/gamepad.go:140-155 | bits set to a value that fits read back as that value |
| HidBits.ValueOutside | internal/input/gamepad.go:140-155 | setting a run of bits leaves every value read outside the run |
| HidBits.SlotsShareNoBit | internal/input/descriptor.go:119-181 | two different slots of one report, of one array or of two fields, share no bit |
| HidBits.SetSlotReadsBack | internal/input/gamepad.go:29-155 | for every descriptor that parses and whose bytes declare no more bits than there is room for, setting any slot of 1 to 32 bits reads back as the value set and leaves every other slot of the report |
| HidUsages.TopLevelUsages | internal/hidraw/descriptor.go:20-85 | the walk ends on any bytes, long items included, with the usages of its step-by-step definition |
| HidUsages.UsagesTold | internal/hidraw/descriptor.go:20-85 | against the descriptor's items alone: the usages are, in order, those in force at each collection opened outside any other, the last one named since the last main item under its own page or the page in force |
| HidUsages.TruncationSafe | internal/hidraw/descriptor.go:16-85 | for every descriptor and every cut, the usages found in the cut descriptor are a prefix of those found in the whole |
| Flash.Write1 | internal/protocol/u2_simulator.go:198-202 | flash written over erased bytes holds what is written |
| Flash.WriteOverErased | internal/protocol/u2_simulator.go:198-202 | a stretch written over erased flash holds the data |
| PadMacros.StepRoundTrip | internal/core/pad_macro.go:185-232 | a step reads back as itself, with triggers stored as bits or as analog values |
| PadMacros.EncodeSteps | internal/core/pad_macro.go:185-205 | the appending loop gives the bytes of every step in order, as the step-by-step definition has them |
| PadMacros.StepsRoundTrip | internal/core/pad_macro.go:185-232 | stored steps decode to the steps they encode, in both trigger forms |
| PadMacros.MacroRoundTrip | internal/core/pad_macro.go:236-290 | an accepted macro with its steps in storage reads back exactly when its name is storable and its repeat count fits thirty-two bits |
| PadMacros.HugeRepeatValid | internal/core/pad_macro.go:144-180 | a macro played two to the thirty-second times is a valid one |
| PadMacros.CheckMacro | internal/core/pad_macro.go:148-180 | the search for something to refuse passes exactly the macros that can be held |
| PadMacros.Triggers | internal/core/pad_macro.go:128-142 | which buttons play a macro on which model, in numbers |
| PadForms.StepForm | internal/core/pad_macro.go:185-205 | a step byte for byte, with the triggers as bits or as travel |
| PadForms.StepRead | internal/core/pad_macro.go:207-232 | stored triggers are held exactly in the three forms the vendor's software writes, whatever else is there |
| PadForms.StorageForm | internal/core/pad_ultimate_bt.go:116-126 | steps are sent as they are, or in whole reports of thirty-two bytes filled with 0xff on the one model |
| PadForms.HeaderForm | internal/core/pad_macro.go:236-257 | a header byte for byte, with the trigger in the model's numbering |
| PadForms.HeaderRead | internal/core/pad_macro.go:271-286 | a header says a macro exactly when its count is 1 to 200 and its button can play one, and then which |
| PadForms.SectionForm | internal/core/pad_macro.go:236-260 | a macro section: its flag, its count, zeros for an empty macro |
| PadMacros.HugeRepeatLost | internal/core/pad_macro.go:236-290 | and reads back as played no times |
| PadMacros.SectionRoundTrip | internal/core/pad_macro.go:236-290 | a slot's accepted macros, headers and steps, read back as they were |
| PadDevice.Controller.Write | internal/protocol/u2_simulator.go:237-253 | a record write lands in the staging copy alone, inside its own range |
| PadDevice.Controller.Commit | internal/protocol/u2_simulator.go:254-266 | an acknowledged commit stores the staged record and every pending macro area; an unacknowledged one did that or nothing |
| PadDevice.Controller.Erase | internal/protocol/u2_simulator.go:174-179 | an erase reaches stored macro bytes, not ones waiting for a commit |
| PadDevice.Controller.MacroWrite | internal/protocol/u2_simulator.go:180-203 | a macro write goes over a copy taken with the first write since the last commit, and can only clear bits |
| PadDevice.ReadRecord | internal/protocol/u2.go:307-332 | a chunked record read that succeeds returns the stored record |
| PadDevice.WriteRange | internal/protocol/u2.go:336-362 | a chunked record write stages its range and nothing else, and stores nothing |
| PadDevice.ReadMacroData | internal/protocol/u2.go:427-449 | a chunked macro read that succeeds returns the stored bytes |
| PadDevice.WriteMacroData | internal/protocol/u2.go:467-489 | a chunked macro write leaves other slots and other bytes alone, and stores nothing before a commit |
| PadWrite.WriteSpans | internal/core/pad.go:836-859 | writing spans and committing, under every fault: success means every span reads as wanted and nothing is left staged, and byte for byte the wanted record where the check proves it; failure leaves every stored and staged byte outside the spans unless bytes of the whole record were garbled, and every commit that did happen is on record |
| PadWrite.CheckProves | internal/core/pad.go:836-859 | reading the spans back proves the whole record exactly when the spans cover it |
| PadWrite.GarbledByteUnseen | internal/core/pad.go:836-859 | a byte outside the spans, garbled when the whole record is sent, passes the check |
| PadWrite.WriteMacroSteps | internal/core/pad_macro.go:294-330 | rewriting a slot's macros leaves every other region, stored or pending; success means the steps are there; on fault-free flash it succeeds exactly when flash can take them |
| PadWrite.FlashHoldsExactly | internal/core/pad_macro.go:294-330 | fault-free flash holds the rewritten steps exactly when every macro after the first only clears bits of what its region held |
| PadWrite.OneMacroAlwaysTakes | internal/core/pad_macro.go:294-330 | rewriting one macro alone always succeeds on fault-free flash |
| PadWrite.SecondMacroRefused | internal/core/pad_macro.go:294-330 | a concrete pair of valid macros, for any layout, that fault-free flash holding zeros does not take in one go |
| PadSections.ButtonsRoundTrip | internal/core/pad_ultimate_bt.go:70-92 | a button map reads back input for input through the first-generation Ultimate's swapped A/B and X/Y places |
| PadSections.DecodeButtons | internal/core/pad.go:346-354 | the place-by-place loop over the stored map gives each input its own target |
| PadSections.PairRoundTrip | internal/core/pad.go:359-366 | stick and trigger ranges read back as stored |
| PadSections.OptionsRoundTrip | internal/core/pad.go:371-373 | the option word reads back as stored |
| PadSections.MotionRoundTrip | internal/core/pad.go:374-380 | motion settings read back in their normal form |
| PadSections.TracingRoundTrip | internal/core/pad.go:381-384 | the tracing effect reads back as stored |
| PadSections.FireRoundTrip | internal/core/pad.go:385-389 | the fire effect reads back as stored for every speed it has |
| PadSections.CustomRoundTrip | internal/core/pad.go:390-394 | the colours of the custom ring read back as stored |
| PadSections.TablesRoundTrip | internal/core/pad_arcade_pro.go:156-194 | the button-light tables read back as stored |
| PadForms.U2Places | internal/core/pad.go:55-103 | where an Ultimate 2's sections are, in numbers |
| PadForms.U2BTPlaces | internal/core/pad.go:55-103 | where an Ultimate 2 Bluetooth's are |
| PadForms.Pro3Places | internal/core/pad.go:55-103 | where a Pro 3's and an Arcade Controller's are |
| PadForms.ArcadeProPlaces | internal/core/pad.go:64-107 | where an Arcade Controller Pro's are |
| PadForms.UltimateBTPlaces | internal/core/pad.go:60-107 | where a first-generation Ultimate Bluetooth's are |
| PadForms.RangeForms | internal/core/pad.go:359-373 | ranges and options byte for byte, and what they are where not set |
| PadForms.MotionForm | internal/core/pad.go:520-534 | motion byte for byte, on and off |
| PadForms.MotionRead | internal/core/pad.go:374-380 | what any stored motion section reads as, out-of-range values as the nearest in range |
| PadForms.TwoColourForms | internal/core/pad.go:535-543 | the tracing and fire sections byte for byte |
| PadForms.CustomForm | internal/core/pad.go:544-550 | the custom ring, a word for each of twenty-four lights |
| PadForms.RingsRead | internal/core/pad.go:381-394 | what any stored ring sections read as, and what they are where not set |
| PadForms.Defaults | internal/core/pad_inputs.go:55-84 | what each input does where nothing is set, on each model and platform, in numbers |
| PadForms.MapForm | internal/core/pad.go:472-481 | where the button map keeps each input's word, on each model |
| PadForms.NoMap | internal/core/pad.go:336-354 | what a map that is not set gives |
| PadForms.TableForm | internal/core/pad_arcade_pro.go:182-194 | the button-light tables byte for byte |
| PadForms.NoTables | internal/core/pad_arcade_pro.go:160-178 | the tables where they are not set |
| PadForms.SlotRead | internal/core/pad.go:317-345 | a slot is in use exactly when its mark says so and has a name only then |
| PadForms.SlotEffect | internal/core/pad_arcade_pro.go:156-163 | the light effect is read whatever the tables' flag says |
| PadCombos.EncodeCombos | internal/core/pad_arcade_pro.go:226-243 | the filling loop leaves the combos in use from the first entry on and zeros after them |
| PadCombos.CombosRoundTrip | internal/core/pad_arcade_pro.go:200-243 | combos read back compacted to the front |
| PadCombos.ReadIsCompact | internal/core/pad_arcade_pro.go:200-222 | combos that were read are compact already, whatever the section holds |
| PadForms.EntryForm | internal/core/pad_arcade_pro.go:226-243 | an entry word for word, the button it is on by its code |
| PadForms.EntryRead | internal/core/pad_arcade_pro.go:200-222 | an entry holds a combo exactly when it is set, names a button other than Star and Home, and presses something |
| PadForms.CombosForm | internal/core/pad_arcade_pro.go:226-243 | the section: used entries first, zeros after |
| PadForms.NoCombos | internal/core/pad_arcade_pro.go:200-205 | a section that is not set, or not there, holds none |
| PadCodec.SectionsApart | internal/core/pad.go:443-560 | for all six layouts no two sections of a record share a byte, of one slot or of two |
| PadCodec.EncodeSlot | internal/core/pad.go:443-560 | the encoder takes an edit exactly when the model can hold it, then leaves the planned record and reports the planned spans |
| PadRules.CheckSlot | internal/core/pad.go:400-437 | the search for something every model refuses passes exactly the valid slots |
| PadRules.CheckArcadePro | internal/core/pad_arcade_pro.go:269-341 | the Arcade Controller Pro's loops over inputs, lights and combos pass exactly the edits it can be given |
| PadRules.CheckPresses | internal/core/pad_arcade_pro.go:325-338 | the loop with its set of pressed buttons passes exactly the presses without gaps, strangers or repeats |
| PadRules.CheckUltimateBT | internal/core/pad_ultimate_bt.go:163-184 | a first-generation Ultimate Bluetooth's loop passes exactly the assignments it can be given |
| PadRules.CheckEdit | internal/core/pad.go:443-519 | an edit passes exactly when the model can hold it |
| PadRules.KnownTargets | internal/core/pad_inputs.go:86-117 | the functions an input can be assigned, in numbers |
| PadRules.ArcadeProTargets | internal/core/pad_arcade_pro.go:76-99 | what each input of an Arcade Controller Pro can be assigned, in numbers |
| PadRules.UltimateBTTargets | internal/core/pad_ultimate_bt.go:133-157 | what each input of a first-generation Ultimate Bluetooth can be assigned, in numbers |
| PadRules.OneOpposite | internal/core/pad.go:514-516 | at most one choice for opposite directions, and none off an arcade controller |
| PadCodec.HeaderKept | internal/core/pad.go:443-560 | editing a slot leaves the crc, platform and active-slot header |
| PadCodec.OtherSlotsKept | internal/core/pad.go:443-560 | editing one slot leaves every other slot decoding as it did |
| PadCodec.SlotFrame | internal/core/pad.go:443-560 | reported spans are disjoint and every byte outside them is unchanged |
| PadCodec.UneditedWritesNothing | internal/core/pad.go:443-560 | an unedited slot reports no span and leaves the record byte for byte |
| PadRoundTrip.SettingsRead | internal/core/pad.go:317-560 | every setting of an accepted edit but name and mark reads back in normal form, combos compacted |
| PadRoundTrip.MarkRead | internal/core/pad.go:551-558 | a slot reads as in use exactly when the edit says so or anything in it changed |
| PadRoundTrip.SlotRoundTrip | internal/core/pad.go:317-560 | an accepted edit that leaves its slot in use decodes to its normal form exactly when the name asked for is storable or the one stored |
| PadRoundTrip.InUseNameReads | internal/core/pad.go:443-470 | a slot already in use keeps its name unless the edit gives it one that cannot be stored |
| PadProfile.CheckProfile | internal/core/pad.go:741-776 | a profile is accepted exactly when every slot and every edited macro is |
| PadProfile.CheckComboFree | internal/core/pad_arcade_pro.go:345-357 | the loops find a macro played from a combo's button exactly when there is one |
| PadProfile.Prepare | internal/core/pad.go:739-776 | the planned record and its spans are computed exactly for the accepted profiles |
| PadProfile.PlannedSlot | internal/core/pad.go:739-776 | a slot that was and stays in use decodes from the planned record to the edit's normal form exactly when its name is storable or was left alone |
| PadProfile.PlannedMacros | internal/core/pad.go:759-776 | the planned macro sections are the edited ones where macros were edited and the old bytes elsewhere |
| PadProfile.PlannedFrame | internal/core/pad.go:739-776 | outside its spans the planned record is the record as read |
| PadApply.ReadMacros | internal/core/pad_macro.go:263-290 | the macros read are those the headers describe with the steps in storage |
| PadApply.ReadProfile | internal/core/pad.go:679-700 | a profile that is read is what record, macro storage and light setting show |
| PadForms.EffectRead | internal/protocol/u2.go:384-393 | the ring effect a profile shows: one of the three, or off for anything else |
| PadApply.SetEffect | internal/core/pad.go:935-943 | selecting an effect succeeds only when the controller shows it, and one that is no effect leaves the light alone |
| PadApply.WriteMacros | internal/core/pad.go:796-801 | writing macro steps, of an edit or of a rollback, commits no record but the stored one and leaves every region no edit is about; success means the steps are there; without faults it succeeds exactly when flash takes the macros of every slot, and storage is what flash makes of them |
| PadApply.WriteEdit | internal/core/pad.go:795-807 | in every commit of an edit a changed record finds the changed macros' steps in storage; success means the wanted spans, steps and effect; without faults it succeeds exactly when flash and lights take it |
| PadApply.Undo | internal/core/pad.go:812-824 | an undo that succeeds leaves the record as before in every span, byte for byte where the check proves it, and every rewritten macro's old steps in storage; its commits too keep headers after steps; its first one has the old record over the macros as the edit left them; without faults it succeeds exactly when flash and lights take the old state back |
| PadApply.CarryOut | internal/core/pad.go:795-831 | under every fault the report is true of what the controller holds; applied means every exchange of it was acknowledged, rolled back that at most one was not; headers come after steps in every commit of edit and rollback unless a rollback that failed, or was not wholly checked, was garbled; without faults both applying and rolling back succeed exactly when flash and lights can take it |
| PadApply.Apply | internal/core/pad.go:712-831 | from any state and under every fault: an error means nothing was written; applied means the planned spans, steps, and the very effect asked for or, with none asked for or no rings, the setting untouched, and nothing else changed; rolled back means the spans, steps and effect shown are as they were, and the stored record byte for byte and the whole profile where the check proves it; either way nothing is left staged, so another apply may follow; applied means every write was acknowledged; a changed header is committed only over its steps, in the rollback too; without faults exactly the accepted edits are taken, exactly those flash can hold applied, and exactly those it can hold again rolled back |
| PadApply.UneditedMacros | internal/core/pad.go:712-831 | after an apply a slot whose macros were not edited reads the same macros |
| PadApply.EditedMacro | internal/core/pad.go:712-831 | after an apply each macro of an edited slot reads as the edit has it exactly when its name is storable and its repeat count fits |
| PadApply.RestoredProfile | internal/core/pad.go:812-830 | storage and lights that were undone read as the profile they held |
| PadHeaders.OldMacroLeft | internal/core/pad_macro.go:294-330 | after flash took a slot's new steps an old macro still reads exactly when it was not rewritten or its steps begin the new ones or go on as the flash does |
| PadHeaders.OldHeadersTold | internal/core/pad.go:795-801 | every old header describes steps that are there, over storage that took an edit, exactly when the new steps leave those of every macro they were written over |
| PadHeaders.RollbackTells | internal/core/pad.go:812-824 | the old record a rollback commits before it writes the old steps describes steps that are there exactly under that condition |
| PadExamples.SecondMacroUncarried | internal/core/pad.go:712-831 | a concrete accepted edit of a blank controller, two valid macros, that fault-free flash does not carry |
| PadExamples.RollbackOverNewSteps | internal/core/pad.go:812-824 | a concrete accepted edit whose rollback commits a header over steps it does not describe |
| PadExamples.GarbledRollback | internal/core/pad.go:812-824 | that edit once more: a rollback whose record write is garbled may commit a changed header without its steps |
| PadRestore.Restore | internal/core/pad.go:863-932 | under every fault a restore that succeeds has the backup in every run that differed, with the controller's own header, and the backup's steps in storage, byte for byte where the check proves it and with nothing left staged; where nothing differs nothing is committed; without faults it succeeds exactly for backups of its own platform whose macros flash can hold |
| PadRestore.RestoredMacros | internal/core/pad.go:863-932 | a restored backup's macros read as they did when it was taken |
| U2Crc.ComputeCrc | internal/protocol/u2.go:78-91 | the two loops, over bytes and over their bits, compute the CRC of its definition |
| U2Crc.CheckValue | internal/protocol/u2.go:78-91 | the digits 1 to 9 have the check value 0x4b37 |
| U2Crc.SmallValues | internal/protocol/u2.go:78-91 | the CRC of [1, 2, 3, 4] is 0x2ba1 and that of nothing 0xffff |
| U2Crc.CheckedMessageIsZero | internal/protocol/u2.go:78-91 | any message with its own CRC after it, low byte first, has CRC 0 (section 6.2.2 of MODBUS over Serial Line V1.02) |
| U2Crc.BitsInjective | internal/protocol/u2.go:78-91 | feeding the same bits never merges two register values |
| U2Crc.TwoBytesDecide | internal/protocol/u2.go:78-91 | from one register value, two bytes are decided by the register after them |
| U2Crc.AdjacentBytesCaught | internal/protocol/u2.go:78-91 | messages of one length that differ only within two adjacent bytes share a CRC exactly when they are equal |
| U2Frames.BuildRequest | internal/protocol/u2.go:95-195 | the frame filled in place is the report the wrapper lays out, in all three wrappers |
| U2Frames.RequestUnderstood | internal/protocol/u2.go:95-195 | in the direct and both counted wrappers the device-side parse of a built request recovers command, argument, length, total and offset; the bytes it carries are the request's data and then 0xcc filler up to the length, and the check is the CRC of exactly those bytes |
| U2Frames.MiscountedRefused | internal/protocol/u2_simulator.go:115-130 | a counted write whose count is not its header's and data's is refused |
| U2Frames.CommitFrame | internal/protocol/u2.go:95-195 | a commit byte for byte |
| U2Frames.SelectFrame | internal/protocol/u2.go:296-303 | a platform selection byte for byte |
| U2Frames.WriteFrame | internal/protocol/u2.go:336-362 | a write of four bytes, with their check, byte for byte |
| U2Frames.ReplyUnderstood | internal/protocol/u2.go:197-212 | a reply answers its own command and no other, and gives the bytes it carries |
| U2Frames.ReplyTaken | internal/protocol/u2.go:197-212 | any response answers a command exactly when it has a reply's marks and the command's number, and gives no more bytes than it says |
| U2Frames.DirectTaken | internal/protocol/u2_simulator.go:131-134 | a direct report is taken exactly by its length and marks |
| JpMacros.Validate | internal/core/keyboard_macro.go:74-117 | the loop over a held-keys map accepts exactly the macros with a legal size, repeat, pauses and every key let go |
| JpMacros.EncodeValue | internal/core/keyboard_macro.go:125-158 | a macro is encoded exactly when it validates |
| JpMacros.ValueForm | internal/core/keyboard_macro.go:125-158 | a value byte for byte: its head, each step in its place, and the pause as one more step |
| JpMacros.StepForms | internal/core/keyboard_macro.go:125-158 | the three bytes of each kind of step, modifiers with their own codes |
| JpMacros.ValueTaken | internal/core/keyboard_macro.go:162-198 | a value is read exactly when it is as long as it says and its steps are of the five kinds |
| JpMacros.PauseRead | internal/core/keyboard_macro.go:192-197 | concrete values: the last wait of several steps is the pause of a macro that plays more than once, a lone one is its step |
| JpMacros.ValueRoundTrip | internal/core/keyboard_macro.go:119-198 | every valid macro's value decodes to the macro, except that one play with an interval comes back with a trailing wait |
| JpMacros.NormalSameValue | internal/core/keyboard_macro.go:119-198 | what comes back is valid and encodes to the very same bytes |
| JpDevice.Keyboard.ReceiveValue | internal/protocol/jp108_simulator.go:143-166 | a value report out of place is dropped, and the last one stores the assembled value trimmed to its step count |
| JpDevice.EncodedIsTaken | internal/protocol/jp108_macro.go:138-141 | every macro that validates encodes to a value the writer takes |
| JpDevice.WriteValue | internal/protocol/jp108_macro.go:182-216 | a value sent in chunks of 25 and 24 bytes is stored whole |
| JpDevice.WriteMacro | internal/protocol/jp108_macro.go:138-216 | a macro is stored exactly when its value and name are legal and a slot is free, and a refused one changes nothing |
| JpDevice.Gather | internal/protocol/jp108_macro.go:62-92 | the reports of a reply are gathered whole, in order |
| JpDevice.ReadValue | internal/protocol/jp108_macro.go:112-134 | a value that was stored reads back as the identical bytes through chunks of another size |
| JpDevice.ReadMacro | internal/core/keyboard.go:454-468 | a valid macro that was stored reads back as its normal form |
| JpNames.NameRoundTrip | internal/protocol/jp108_macro.go:243-284 | a name reads back exactly when it has no zero unit and is not one the old byte order would also explain |
| JpNames.OneIdeographMisread | internal/protocol/jp108_macro.go:243-284 | a name of the one unit 0x4e00 reads as another |
| JpTargets.TargetRoundTrip | internal/core/keyboard_keys.go:273-288 | a target reads back as itself exactly when its key is not one the keyboard's own F13 to F24 numbering has taken |
| JpTargets.AskedEffect | internal/core/keyboard_keys.go:266-288 | a key given a target does it, exactly but for targets that say nothing, which leave the key as printed, and keys taken for F13 to F24 |
| JpTargets.Understood | internal/core/keyboard_keys.go:273-288 | a mapping is read exactly when it is of one of the known types or says nothing |
| JpTargets.StoredTargets | internal/core/keyboard_keys.go:273-288 | the stored forms of concrete targets, in both numberings of F13 to F24 |
| JpTargets.UsageReadAsF13 | internal/core/keyboard_keys.go:273-288 | usage 0x76 on the keyboard that numbers F13 to F24 its own way reads as F13 |
| JpTargets.ReadTargetRewrites | internal/core/keyboard_keys.go:273-288 | a mapping that was read survives being written exactly when what this program reads of it says anything |
| JpTargets.UnreadByteLost | internal/core/keyboard_keys.go:273-288 | a concrete mapping, of type keyboard with only its fourth byte set, that reads as no key and is written as nothing |
| JpTargets.RewriteSameEffect | internal/core/keyboard.go:169-214 | writing a read mapping back leaves the key doing what it did exactly when the mapping survives that |
| JpApply.Board.Rename | internal/protocol/jp108.go:220-237 | renaming may erase any stored mappings and macros, and never adds one |
| JpApply.ReadProfile | internal/core/keyboard.go:169-214 | a profile that is read is what the keyboard holds; a sound keyboard is read exactly when everything on it can be represented |
| JpApply.PrintedEffect | internal/core/keyboard_keys.go:256-273 | a key without a mapping does what is printed on it |
| JpApply.WriteKey | internal/protocol/jp108.go:104-126 | a key write that reports success has the mapping in place, and touches no other key unless a profile had to be created |
| JpApply.WriteKeyMacro | internal/core/keyboard.go:472-503 | a macro write that reports success has the value in place or the macro gone |
| JpApply.WriteChanges | internal/core/keyboard.go:338-392 | a write of changes that succeeds has all of them in place, and what they are not about does what it did even across a rename |
| JpApply.CheckChanges | internal/core/keyboard.go:230-243 | changes are checked before anything is read: exactly the valid macros and volumes pass |
| JpApply.AppliedKeys | internal/core/keyboard.go:256-285 | after a merged rename each key does what the edit asks, or what it did exactly when its mapping survives being written again |
| JpApply.RestoredKeys | internal/core/keyboard.go:302-334 | after an undo each key does what it did exactly when it was not touched or its mapping survives being written again, and every macro plays as before |
| JpApply.Apply | internal/core/keyboard.go:220-298 | even if renaming erases any subset of mappings and macros, success leaves the old mappings and macros overridden by the changes with every request answered, and a successful undo restores every key's effect, for exactly the mappings that survive being rewritten, and every setting but the lock byte's upper five bits, which an undo of the locks clears; a sound keyboard takes exactly the valid edits of what can be read, applies one without a rename exactly when every macro it adds finds a free slot, undoes it otherwise exactly when each old macro finds one where the edit stopped, always undoes one that gave it its first name, and applies one with a rename whenever all macros old and new are valid and fit at once |
| JpApply.NoWayBack | internal/core/keyboard.go:302-379 | a concrete edit of a full keyboard, one macro removed and two added, that fails and whose undo fails with nothing going wrong: the macro removed is written back in id order, before the slot it needs is free |
| Interfaces.PreferChains | internal/core/core.go:235-252 | the preference between interfaces is a weak order: not being preferred chains |
| Interfaces.SamePhysicalMeans | internal/core/core.go:223-233 | two interfaces are one device exactly when their ids agree and their trimmed serials do or, with neither given, their trimmed paths |
| Interfaces.TrimMeans | internal/core/core.go:223-233 | trimming takes blanks alone and leaves none at either end |
| Interfaces.BlankCodes | internal/core/core.go:223-233 | what counts as white space, by code point |
| Interfaces.KnownInterfaces | internal/protocol/hid_transport.go:33-66 | which usage page and usage is the configuration interface, for four products |
| Interfaces.Deduplicate | internal/core/core.go:260-292 | one representative per physical device, the best of its interfaces; interfaces without an identity stand for themselves |
| Interfaces.CollectById | internal/core/core.go:299-311 | the best physical device of each id and how many each id has |
| Interfaces.BuildRows | internal/core/core.go:312-328 | one row per id in strictly rising order, its identity blanked exactly where several devices share the id |
| Interfaces.Addressable | internal/core/core.go:299-328 | the rows are exactly one per id, strictly sorted, each the best interface enumerated for it |
| Interfaces.OrderDoesNotMatter | internal/core/core.go:299-328 | two enumerations that are reorderings give the same rows up to what the comparison ignores |
| Interfaces.SelectInterface | internal/protocol/hid_transport.go:199-278 | the transport opens the first vendor interface; without one, on Linux, the only interface of the target if its usage is unknown, and otherwise none |
| Interfaces.RowIsWhatOpens | internal/core/core.go:299-328 | where a vendor interface exists the one a row stands for is the one the transport opens, but for what neither comparison looks at |
| MouseMacros.RecordsRoundTrip | internal/protocol/mouse.go:539-542 | five-byte records decode to the records they encode |
| MouseMacros.HeaderTaken | internal/protocol/mouse_simulator.go:337-349 | the mouse takes a built header: it moves to that button's macro, keeps cycles, interval and name, and empties its records |
| MouseMacros.NameTaken | internal/protocol/mouse_simulator.go:350-360 | the mouse takes a built name block and puts it at its own place in the name |
| MouseMacros.RecordsTaken | internal/protocol/mouse_simulator.go:361-388 | the mouse takes each built records report, and the last one, whose sixteen-bit sum matches, stores all the records on the macro whose header came last |
| MouseMacros.KnownHeader | internal/protocol/mouse.go:509-559 | a concrete macro's header and name blocks byte for byte |
| MouseMacros.KnownRecords | internal/protocol/mouse.go:509-559 | and its record reports, with their sum |
| MouseMacros.StoredReads | internal/protocol/mouse.go:458-559 | a macro of 1 to 80 records that was stored reads back with the same cycles, interval and records and the first twenty bytes of its name |
| MouseDevice.Mouse.Put | internal/protocol/mouse_simulator.go:273-333 | a setting write changes that setting alone; an honest acknowledgement means it is stored, a sixth rate only when there are six |
| MouseDevice.Mouse.Receive | internal/protocol/mouse_simulator.go:335-393 | a macro report changes at most the macro it is about, and a records report is about the macro whose header came last |
| MouseDevice.Mouse.Ask | internal/protocol/mouse_simulator.go:235-269 | a macro read answers what is stored and changes nothing but the place the next records come from |
| MouseDevice.WriteMacro | internal/protocol/mouse.go:509-559 | storing a macro leaves every other button's macro whatever goes wrong; where acknowledgements are honest success means the whole macro is kept; a faultless mouse takes every macro of 1 to 80 records |
| MouseDevice.ReadMacro | internal/protocol/mouse.go:458-503 | a macro that is read is the one stored for that button, although the records requests name no button |
| MouseCodec.EncodeMacros | internal/core/mouse.go:534-547 | the loop refuses exactly the macro edits the mouse cannot hold and leaves unedited macros as they were |
| MouseCodec.EncodeButtons | internal/core/mouse.go:548-577 | the loop refuses exactly the assignments that cannot be given, a playing button without a macro and a macro without a playing button |
| MouseCodec.EncodeStages | internal/core/mouse.go:578-593 | the loop changes exactly the mask bits and values the edit changes, on each axis |
| MouseCodec.EncodeProfile | internal/core/mouse.go:518-614 | an edit is refused exactly when some part of it cannot be stored, and otherwise gives the state it asks for |
| MouseCodec.CheckCommon | internal/core/mouse.go:408-466 | the checks of name, rate, lift-off, angle, debounce and stages pass exactly the edits whose every changed setting is in range |
| MouseCodec.ValidatePlan | internal/core/mouse.go:468-499 | a macro validates exactly when its name, repeat count, interval, records and held buttons are in range |
| MouseCodec.FunctionOffered | internal/core/mouse.go:67-87 | the loop over spans offers exactly the functions in one of them |
| MouseCodec.WireReads | internal/core/mouse.go:501-514 | a valid macro's stored form shows the macro exactly when its name is storable |
| MouseCodec.ProfileRoundTrip | internal/core/mouse.go:340-614 | what an accepted edit stores shows the edit's normal form exactly when the names it gives are storable |
| MouseCodec.StoredShows | internal/core/mouse.go:340-379 | what stored flags, rate, wheel speed and empty macros show, in numbers |
| MouseCodec.NothingStored | internal/core/mouse.go:310-322 | what a mouse without a profile shows, in numbers |
| MouseCodec.OfferedRates | internal/core/mouse.go:324-330 | which rates a mouse is offered for the count it reports |
| MouseApply.ListParts | internal/core/mouse.go:647-686 | the parts listed are those of the plan's definition, in the order they are written |
| MouseApply.PartsDueAre | internal/core/mouse.go:647-686 | a part is listed exactly when it differs (or all are), and once |
| MouseApply.DueMeans | internal/core/mouse.go:647-668 | which settings each plain part is compared by |
| MouseApply.RateDueMeans | internal/core/mouse.go:637-645 | the rate is compared in every number but a sixth rate that is not there |
| MouseApply.StageDueMeans | internal/core/mouse.go:669-677 | the stage in use is sent exactly when it, its value or a stage's switch changed |
| MouseApply.MacroDueMeans | internal/core/mouse.go:678-686 | a macro is written exactly for a button that is to play one with records, if it is new or another |
| MouseApply.ReadProfile | internal/core/mouse.go:767-818 | a profile that is read is what the mouse shows; only the name is asked of one without a profile, only played macros are read |
| MouseApply.WritePart | internal/core/mouse.go:700-762 | a part write that reports success reads back as written, and touches nothing else whatever goes wrong |
| MouseApply.WriteParts | internal/core/mouse.go:1143-1153 | parts before the failing one are in place and parts after it untouched |
| MouseApply.UndoParts | internal/core/mouse.go:1180-1202 | an undo that succeeds has every part back except macros where there was none |
| MouseApply.AppliedShows | internal/core/mouse.go:647-762 | writing every part due to a mouse that was read makes a re-read show what was wanted |
| MouseApply.CreatedShows | internal/core/mouse.go:1132-1142 | creating a profile makes a re-read show what was wanted exactly when the stage in use was sent or already the wanted one |
| MouseApply.UndoneShows | internal/core/mouse.go:1180-1202 | after a failure at part `done` and an undo of the parts up to it: a re-read shows what was there if no part up to it is the macro of a button that played one without records, does not if one before it is, and if only the failing part is, exactly when that write left nothing |
| MouseApply.SkippedWhen | internal/core/mouse.go:647-686 | such a part is in an accepted edit's plan exactly when the edit keeps the button playing a macro |
| MouseApply.RecordsRestore | internal/core/mouse.go:1180-1202 | where every button that played a macro had records, a successful undo makes a re-read show what was there |
| MouseApply.StageFollows | internal/core/mouse.go:669-677 | if the DPI sent with the stage in use matched the X table before, it matches after honest acknowledgements |
| MouseApply.StageRestored | internal/core/mouse.go:1180-1202 | if that DPI matched before the apply, it matches after an undo whose acknowledgements were honest |
| MouseApply.Apply | internal/core/mouse.go:1094-1175 | under every write fault: an error means nothing changed, applied means a re-read shows what was wanted, restored means it shows what was there, each with its exact condition on the edit, the profile read and the part that failed; a faultless mouse applies exactly the edits that are taken |
| MouseGuarantees.AppliedProfile | internal/core/mouse.go:340-614 | a mouse that shows what was wanted shows the edited profile exactly when the names it gives are storable |
| MouseGuarantees.RestoredProfile | internal/core/mouse.go:340-379 | a mouse that shows what was read shows the same profile as then |
| MouseGuarantees.CreatedStageUnsent | internal/core/mouse.go:669-677 | creating a profile without touching the stages on a mouse whose own stage is another leaves it not showing what was created |
| MouseGuarantees.CreatedOnAnotherStage | internal/core/mouse.go:669-677 | a concrete mouse and accepted edit: every part is in place and it goes on using stage four |
| MouseGuarantees.UndoLeavesAMacro | internal/core/mouse.go:1180-1202 | a concrete mouse and accepted edit of two macros: the second fails, the undo writes back all it does, and the first macro stays |

## Left out

- Real HID input and output, hotplug, timeouts, waits and retry back-off: a request is one call that is answered or not.
- The policy around a write (advanced mode, unlock ceremony, authorization, mock mode) and the wording of errors: an error is a refusal.
- The backup store: a transaction's backup is the profile it read, and restores take one as a parameter.
- Progress events, their order, and recovery from a panic in the transfer; the transfer's image is taken as the one whose hash was just compared.
- FirmwareRun.SendRow: takes at most 254 attempts, because the source's counter is one byte wide and 255 would never end.
- Firmware download, signatures and hashing, the command registry, capability tables, the user interface and the tools.
- KbCodec.EncodeRecord: goes through the record's sections in one uniform loop, where the source writes the same sections one statement after another.
- KbDevice.Keyboard.Prepare: what preparing a slot or the colour block leaves there is taken as unknown; the simulator's check that a slot was prepared is not modelled.
- Controller vibration levels: their float arithmetic is not modelled, and their section is left as it is.
- Controller slots past the last one a layout has: they are refused if edited and nothing else.
- The end of an Arcade Controller Pro's configuration session, whose answer the source ignores.
- PadCodec.EncodeSlot: makes all its checks before it writes, where the source may refuse after patching a copy it then discards.
- PadDevice.Controller.Commit: an acknowledged commit is taken to have stored what was staged; nothing the program reads could show that a later commit promotes leftovers.
- A nil list and an empty one, which the source's deep comparison tells apart, are the same list here.
- PadApply.Apply: the record's header is taken to name the platform the session is on, which the source checks for one model only; what an apply leaves outside its own spans and macros is promised for a controller with nothing staged when it began, as a failed apply may leave writes staged that the next commit stores.
- JpApply.Apply: does not model macro names, the text of the profile name or the paged list of macro keys, and takes a keyboard without a named profile to hold no mappings or macros; on a sound keyboard a rename is proved to succeed when all macros old and new fit at once, and not only then, as renaming may erase some first.
- JpApply.ReadProfile: mapping and macro values come whole; the chunked reports beneath are modelled in `JpDevice`.
- Interfaces.SelectInterface: leaves out the macOS rule that several vendor interfaces must share a serial.
- Interfaces.Deduplicate: leaves out the sort of the representatives, which nothing after it depends on.
- The Riviera mouse, which keeps one record: its writes are the record keyboard's span writes over another layout.
- MouseApply.ReadProfile: each setting is one exchange; that a name travels in two blocks and buttons in pairs is not modelled.
- MouseDevice.Mouse.Receive: an acknowledged macro header is taken to move the mouse to that button's macro, without which a records report could reach another button's.
- Restoring a mouse or JP108 backup: it writes the parts that differ with the members an apply uses.
- Axis, hat and button decoding on top of extracted bits, diagnostics and scorecards: each is a short case analysis.
- TypeText and the key legends of a keyboard: tables.
