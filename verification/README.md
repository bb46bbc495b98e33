# Verification of the Bluetooth dongle firmware

This project models the stateful cores of the USB Bluetooth dongle with PC wake and proves what
they promise over whole runs: the H4 receiver and its UART ring, the USB/HCI bridge, the wake
list and its copy in flash, the advertising matcher, the power supervisor, the standby HCI host,
the BOOTSEL hold and the main loop that decides who owns the Bluetooth controller.

`dafny verify dfyconfig.toml` checks everything.

## How it is laid out

Every core that the firmware updates in place is a class with the firmware's own fields, arrays,
indices and loops. Its methods are proved to be the steps of a specification over sequences, and
the main results are lemmas about those specifications, over every input or every run.

| component | specification and results | as the firmware runs it |
|---|---|---|
| H4 framing | `H4Framing.dfy`, `H4Wire.dfy` | `H4Parser.dfy` |
| UART ring and task | `UartModel.dfy`, `Ring.dfy` | `UartBackend.dfy` |
| USB/HCI bridge | `BridgeModel.dfy`, `BridgeFlow.dfy`, `BridgeQuirks.dfy`, `BridgeHistory.dfy`, `AclReassembly.dfy` | `UsbBthBridge.dfy` |
| wake list, flash, matcher | `WakePeers.dfy`, `WakeStore.dfy`, `WakeImage.dfy`, `Advertising.dfy`, `WakeModel.dfy`, `WakeWire.dfy` | `WakePolicy.dfy` |
| power supervisor | `PowerModel.dfy`, `PowerRuns.dfy`, `PowerLaw.dfy`, `Debouncing.dfy`, `PowerSense.dfy` | `PowerSupervisor.dfy` |
| standby HCI host | `HciHostMinimal.dfy` | `HciHostMinimal.dfy` |
| BOOTSEL hold | `BootselButton.dfy` | `BootselButton.dfy` |
| main loop | `LoopModel.dfy`, `LoopLog.dfy`, `LoopLedger.dfy`, `LoopRuns.dfy`, `LoopLaw.dfy` | `MainLoop.dfy` |

The step functions that the classes are proved against are in turn held to statements that do not
use them: what packets look like byte by byte and what becomes of them (`H4Wire`, `BridgeHistory`,
`WakeWire`, `WakeImage`), and what each step of a run leads to, with times and sizes written out
(`PowerLaw`, `LoopLaw`).

The build modelled is the default one of CMakeLists.txt (`WAKE_ON_*`, `ENABLE_*`, delays and
sizes), with `HCI_BACKEND_cyw43` on for the bridge; the ESP32 UART backend stands beside it.
Everything outside the firmware is an argument of the step that meets it: the time, pin levels,
received bytes and packets, whether a send, a USB transfer or a flash write succeeded. Times are
natural numbers (microseconds for the SDK's absolute times); the 8-, 16- and 32-bit casts and
counters are written out.

Several results the firmware does not have unconditionally are stated with their exact condition.
ACL packets survive being cut across USB transfers if and only if no cut falls inside a packet's
first four bytes. The suppress counters equal sends less swallowed completions if and only if that
difference never passed 255. None of the controller's own completions is passed on, while no more
than 255 are owing, if and only if it never completed more than it was sent. Once the UART ring is
drained every clean byte has been fed if and only if none was dropped. The wait after a wake pulse
ends early if and only if the override is off and each sense input was high the last time it was
steady for 250 ms. Other conditions are only sufficient: the override flags in the pulse spacing,
room in the queue for a batch of ACL packets, and a clean log for completions not to cross between
the two owners of the controller.

The documentation and the code disagree in two places, and the model follows the code.
docs/hardware_wiring.md and README.md say the sense input is not trusted for ten seconds after a
pulse; the code waits only while it does not read high (src/power_supervisor.c:257-264), and
`PowerSense.SettleCutShortExample` is a run in which host mode comes 1.25 seconds after the pulse.
docs/standby_hci_host_mode.md begins the standby sequence with an HCI Reset, which the ESP32 backend
never sends (src/backend_esp32_uart.c:55-70); on CYW43 it is what resetting the controller does
(src/backend_cyw43.c:48-55), and the model logs each reset without saying how it is made.

## Model

| member | source | states |
|---|---|---|
| H4Framing.FeedAllDecodes | src/h4_parser.c:33-111 | on every byte stream, at every capacity from 4 to 65535, the byte-at-a-time parser delivers exactly the packets of a frame-at-a-time reading of the stream, refuses one byte and counts one error per bad frame, and is left in the state of the unfinished frame |
| H4Framing.RoundTrip | src/h4_parser.c:51-111 | any list of well-formed event, ACL and SCO packets that fit, serialised with their type bytes, is delivered back once each, in order, byte for byte, with no byte refused and no error |
| H4Framing.DecodeEncode | src/h4_parser.c:51-111 | the frame-at-a-time reading inverts serialisation and leaves nothing over |
| H4Framing.DeliveredAreLocated | src/h4_parser.c:33-49 | on arbitrary bytes every delivered packet has the length its header declares, fits the buffer, and is a contiguous piece of the stream right after its type byte; pieces are in order and disjoint |
| H4Framing.WrappedLengthNeverDelivers | src/h4_parser.c:33-49 | an ACL header whose 16-bit length wraps (payload 65532 to 65535) delivers nothing: the buffer fills up, one more byte is refused, one error is counted |
| H4Wire.BuiltRoundTrip | src/h4_parser.c:33-111 | any events, ACL and SCO packets built from their fields, with type bytes 4, 2 and 3 and the length in the second byte, the third and fourth, or the third, that fit the buffer come back as built, once each and in order, with no byte refused and no error |
| H4Wire.DeliveredIsBuilt | src/h4_parser.c:33-111 | conversely, on any stream every delivered packet is one of those, built from some fields |
| H4Wire.BadTypeCostsTwo | src/h4_parser.c:63-66 | a byte that is no type byte costs the next one too: one error, one byte refused, nothing delivered |
| H4Wire.OversizeRefused | src/h4_parser.c:33-39 | an ACL header that declares more than fits is refused with its last byte, and the next byte is a type byte again |
| H4Framing.FeedAllConcat | src/h4_parser.c:51-111 | how the stream is cut into calls does not matter |
| H4Parser.Parser.FeedByte | src/h4_parser.c:51-111 | the parser on its header array and packet buffer does what `Feed` says; it returns false exactly when a byte is refused; without a callback nothing is delivered |
| H4Parser.Parser.BeginPayload | src/h4_parser.c:33-49 | a complete header is refused, delivered or starts a payload by its wrapped 16-bit length; the header bytes are copied to the packet |
| H4Parser.Parser.constructor | src/h4_parser.c:13-19 | a new parser waits for a type byte with no errors |
| Ring.UnreadStore | src/backend_esp32_uart.c:40-46 | storing at the head appends to the unread bytes and overwrites none |
| Ring.UnreadTake | src/backend_esp32_uart.c:107-109 | advancing the tail takes the oldest |
| Ring.FullIff | src/backend_esp32_uart.c:40-44 | a store is refused exactly when all slots but one are unread |
| UartModel.AlwaysInOrder | src/backend_esp32_uart.c:32-112 | after every run of words received, bytes taken and given, and resets, in any order: bytes fed are a prefix of bytes accepted, occupancy is at most 4095, clean bytes = accepted + dropped with the counter modulo 2^32, the parser is where the H4 decoding of the bytes fed puts it, and the words are those of the run since the last reset |
| UartModel.OnlyGrows | src/backend_esp32_uart.c:32-112 | between resets what was received, accepted, fed and delivered stays, as the beginning of what comes later |
| UartModel.EndToEnd | src/backend_esp32_uart.c:32-112 | once drained, every clean byte received has been fed iff none was dropped, and then the deliveries are the H4 decoding of the clean bytes; with fewer than 2^32 words none was dropped iff the overflow counter stands where the reset left it |
| UartModel.EachMoveCounts | src/backend_esp32_uart.c:32-112 | after any run, a good byte is dropped and counted exactly when 4095 are unread, taking takes the oldest, giving feeds what is in hand, and a reset empties the path and keeps the counter; at power-up nothing has been received, counted or delivered |
| UartModel.CleanAreGood | src/backend_esp32_uart.c:33-38 | of the words read, each a character with or without any of four errors, exactly the good characters are received |
| UartBackend.Backend.Irq | src/backend_esp32_uart.c:32-48 | of the words read, those without line error that fit the ring are kept in order, the rest are counted or cleared |
| UartBackend.Backend.FetchByte | src/backend_esp32_uart.c:107-109 | the byte read is the oldest that was unread, even when interrupts come between reading it and freeing its slot; what was behind it stays |
| UartBackend.Backend.Task | src/backend_esp32_uart.c:106-112 | with interrupts possible before each access to the ring, the loop ends with the ring empty, having taken in the words of the interruptions that came and taken back nothing |
| UartBackend.Backend.ResetController | src/backend_esp32_uart.c:55-57 | parser and ring start over; the overflow counter stays |
| UartBackend.Backend.RunAll | src/backend_esp32_uart.c:32-112 | the firmware's ring and parser, through any interrupts, interrupted task calls and resets, make a run of the model and are in order after each |
| AclReassembly.CutDoesNotMatter | src/usb_bth_bridge.c:386-415 | for every list of whole ACL packets and every cut of their concatenation, exactly those packets come out if and only if no fragment ends inside a packet's first four bytes; then nothing is left over or discarded |
| AclReassembly.AbsorbWhole | src/usb_bth_bridge.c:386-415 | on arbitrary fragments every completed packet is as long as its own header says (4 to 2048), and every byte is in a packet, in the partial packet or discarded |
| AclReassembly.StartsIffFits | src/usb_bth_bridge.c:53-55 | a header is accepted exactly when its true length is at most 2048; wrapped lengths are refused |
| AclReassembly.WholeIffBuilt | src/usb_bth_bridge.c:53-55 | the packets that can come out are exactly those built as handle, two length bytes with the low one first, and a payload of at most 2044 bytes |
| AclReassembly.HopelessTailDiscarded | src/usb_bth_bridge.c:386-415 | whole packets followed by bytes that cannot begin one: the packets come out and just those bytes are discarded |
| AclReassembly.Absorb | src/usb_bth_bridge.c:386-415 | between calls there is no partial packet, or it has at least 4 bytes, fewer than its declared length, which is at most 2048 |
| BridgeFlow.HandedInOrder | src/usb_bth_bridge.c:417-494 | in every run, since last disabled: accepted = retired ++ queued, handed to USB = retired ++ the head iff in flight; so handed packets are a prefix of accepted ones, each once, under any timeouts and late or spurious callbacks |
| BridgeFlow.SentInOrder | src/usb_bth_bridge.c:431-445 | in every run, since last disabled: packets sent to the controller are a prefix of those accepted, each once; every attempt is for the oldest unsent packet, so failures are retried; no feature request is sent; ACL packets sent are whole |
| BridgeFlow.HeadIsSendable | src/usb_bth_bridge.c:431-436 | the queue never holds a feature request, so the test in the send loop never fires |
| BridgeFlow.DisabledIsEmpty | src/usb_bth_bridge.c:334-344 | while disabled both queues and the partial packet are empty and nothing is in flight |
| BridgeFlow.StepSound | src/usb_bth_bridge.c:330-494 | every entry point keeps conservation and order in both directions |
| BridgeFlow.RunSound | src/usb_bth_bridge.c:330-494 | after any run of entry points from power-up, both directions conserve and order their packets, and a disabled bridge is empty |
| BridgeFlow.AclBatchQueued | src/usb_bth_bridge.c:373-415 | a batch of ACL packets cut outside headers, with room in the queue, is queued exactly, in order |
| BridgeFlow.TaskProgress | src/usb_bth_bridge.c:417-462 | a task call with USB ready sends the queue up to the transport's first refusal, leaves a packet in flight to the host or none queued if USB accepts, and gives up one in flight for more than a second |
| BridgeQuirks.CounterIsOwing | src/usb_bth_bridge.c:245-311 | in every run, across disabling and enabling, each suppress counter is successful sends less swallowed completions if and only if that difference never passed 255 |
| BridgeQuirks.OneCompletePerSend | src/usb_bth_bridge.c:245-311 | in every run each successful send and each completion passed on is offered to the host's queue once; while no more than 255 are owing, none of the controller's own is passed on iff it never completed more than it was sent, so then the host gets one completion per send, less those a full queue refused |
| BridgeQuirks.StepTotals | src/usb_bth_bridge.c:350-371 | no step lets a counter fall behind except at saturation, or passes a completion on while one is owed |
| BridgeHistory.EveryPacketHasItsPlace | src/usb_bth_bridge.c:350-371 | in every run every event and ACL packet that arrives while the bridge is on is in exactly one place, in order: swallowed as an owed completion of one of the four commands, dropped (event 0xff with second byte at least 64), refused (over 2048 bytes, or 31 queued), or queued; with the completions made up, byte for byte, exactly the queued ones were accepted |
| BridgeHistory.EveryCommandIsQueued | src/usb_bth_bridge.c:386-476 | in every run, since last disabled, accepted towards the controller were exactly the command transfers received while on, cut to their length modulo 65536, that are no feature requests and found room, and the ACL packets completed that found room, in order; tried was exactly the queue up to each refusal |
| BridgeHistory.StepFlight | src/usb_bth_bridge.c:417-494 | a packet in flight is retired by its sent-callback or after more than 1000 wrapped milliseconds, and by nothing else; then the oldest left is handed over if USB accepts, its clock starting at that moment |
| BridgeHistory.StepQueues | src/usb_bth_bridge.c:386-476 | what each operation puts in the queue to the controller, what it tries to send, and what it leaves of an ACL packet |
| BridgeHistory.StepSent | src/usb_bth_bridge.c:431-445 | a task call sends as much of the queue as the transport takes in a row, and nothing else sends |
| BridgeHistory.OnIff | src/usb_bth_bridge.c:334-348 | the bridge is on or off as it was last told |
| UsbBthBridge.PacketRing.Push | src/usb_bth_bridge.c:185-195 | a packet over 2048 bytes or a full ring is refused, otherwise it is appended |
| UsbBthBridge.PacketRing.Drop | src/usb_bth_bridge.c:197-203 | the oldest packet leaves the ring |
| UsbBthBridge.UsbBridge.SetEnabled | src/usb_bth_bridge.c:334-344 | disabling empties queues, flight and partial packet and leaves the suppress counters |
| UsbBthBridge.UsbBridge.ShouldDropDelayedQuirkComplete | src/usb_bth_bridge.c:245-276 | a completion is swallowed exactly when its counter is above zero, and then the counter goes down |
| UsbBthBridge.UsbBridge.AfterControllerSendQuirk | src/usb_bth_bridge.c:278-311 | one of the four commands gets a made-up completion and raises its counter unless it is 255 |
| UsbBthBridge.UsbBridge.PreControllerSendQuirk | src/usb_bth_bridge.c:313-328 | a feature request is answered for its page and nothing else is |
| UsbBthBridge.UsbBridge.BackendPacket | src/usb_bth_bridge.c:350-371 | a controller packet is ignored, swallowed, dropped as noise or offered to the host, as the model's step says |
| UsbBthBridge.UsbBridge.AclOutFragment | src/usb_bth_bridge.c:386-415 | the reassembly loop on its buffer is the fragment step of the model, and terminates |
| UsbBthBridge.UsbBridge.SendQueued | src/usb_bth_bridge.c:431-445 | the send loop on the ring drains as the model says, and terminates |
| UsbBthBridge.UsbBridge.Task | src/usb_bth_bridge.c:417-462 | one task call is timeout, drain and hand-over, in that order |
| UsbBthBridge.UsbBridge.HciCommandCallback | src/usb_bth_bridge.c:464-471 | a command transfer, cut to 16 bits of length, is answered or queued |
| UsbBthBridge.UsbBridge.AclDataReceivedCallback | src/usb_bth_bridge.c:473-476 | an ACL transfer is a fragment while enabled and nothing otherwise |
| UsbBthBridge.UsbBridge.SentCallback | src/usb_bth_bridge.c:478-494 | a sent-callback retires the head exactly when one is in flight |
| WakePeers.RecencyIsLastSixteen | src/wake_policy.c:159-211 | after any trace of sightings the list is the last sixteen of start ++ trace with each peer kept only at its last occurrence; it stays duplicate-free and within sixteen |
| WakePeers.TouchSuffix | src/wake_policy.c:163-211 | one sighting seen from the full history, whether the peer is listed, evicted or new |
| WakePolicy.ArrayIsLastSixteenSeen | src/wake_policy.c:42-62 | the sixteen array slots are exactly that list, packed at the front, then zeroes |
| WakePolicy.Policy.RememberBlePeer | src/wake_policy.c:183-211 | a sighting makes the list `Touch` of the list; false, and no change, exactly when the peer is the newest already; a change is to be saved in two seconds |
| WakePolicy.Policy.RemoveKnownBlePeerAt | src/wake_policy.c:163-168 | shifting the array removes that element and keeps it packed |
| WakePolicy.Policy.AppendKnownBlePeer | src/wake_policy.c:170-181 | the peer is added last, the oldest going when sixteen are listed |
| WakePolicy.Policy.ObserveHostPacket | src/wake_policy.c:226-235 | a successful LE connection event is a sighting of its peer, recorded and to be saved, anything else is not |
| WakePolicy.Policy.Task | src/wake_policy.c:150-157 | a change is saved exactly once it is two seconds old; whenever no change waits and the last save was done as asked, loading the flash gives the list |
| WakePolicy.Policy.SaveKnownBlePeers | src/wake_policy.c:95-135 | whatever the driver leaves in the page, save reports success exactly when the checksum read back is the one written; a refused write leaves the flash alone, and a faithful one makes loading give back the list |
| WakePolicy.Policy.LoadKnownBlePeers | src/wake_policy.c:74-93 | the load loop over the flash page gives the specified list, packed |
| WakePolicy.Policy.constructor | src/wake_policy.c:144-148 | initialising restores what the flash holds and has nothing to save |
| WakePolicy.Policy.ClearKnownPeers | src/wake_policy.c:237-242 | clearing empties list and, if the write works, flash |
| WakePolicy.Policy.ChecksumBytes | src/wake_policy.c:47-54 | the checksum loop is FNV-1a |
| WakeStore.SaveLoadRoundTrip | src/wake_policy.c:74-116 | a saved list loads back byte for byte in order |
| WakeStore.OneByteCorruptionRejected | src/wake_policy.c:64-84 | any image that differs from an acceptable one in exactly one byte, the checksum included, is rejected |
| WakeStore.FnvDetectsOneByte | src/wake_policy.c:47-54 | changing one byte of any data changes its hash |
| WakeStore.FnvStepInjective | src/wake_policy.c:49-52 | a hash round is injective in the state for each byte and in the byte for each state |
| WakeStore.TimesPrimeUndone | src/wake_policy.c:51 | multiplying by the prime modulo 2^32 is undone by 0x359c449b |
| WakeImage.SavedLayout | src/wake_policy.c:27-40 | a saved image byte by byte: magic, version 1 and size 144, the checksum of itself with that field zero, the count, then sixteen slots of in-use byte, address type and address |
| WakeImage.SavedPage | src/wake_policy.c:95-130 | the page written is the image and 0xff, and the save succeeds iff the four checksum bytes read back are the image's |
| WakeImage.LoadedLayout | src/wake_policy.c:74-93 | any image loads iff it has that head, at most sixteen counted and its own checksum; then the list is the used ones of the counted slots, in order, else empty |
| WakeImage.FnvVectors | src/wake_policy.c:47-54 | the hash of nothing is 0x811c9dc5 and of the letter a 0xe40c292c |
| Advertising.AdFieldsRoundTrip | src/wake_policy.c:289-344 | AD structures read back as written, up to the first zero or overlong length |
| Advertising.ReportsRoundTrip | src/wake_policy.c:346-463 | of any encoded list of legacy or extended reports the matcher visits exactly those, in order |
| Advertising.JudgeIffSomeReportWakes | src/wake_policy.c:351-391 | a verdict is given iff some report is from a listed peer or carries a name starting with Stadia; a peer is learned only if its report is the first to do either and does it by name |
| Advertising.EncodedPacketVerdict | src/wake_policy.c:465-494 | an advertising packet built from any reports wakes the PC exactly when one of them is of that kind |
| WakeWire.ConnectionLearned | src/wake_policy.c:226-235 | an LE connection event (subevent 1 or 10) built from its fields makes exactly the peer type and address it names the newest, to be saved in two seconds unless it was the newest already, iff its status is 0 |
| WakeWire.OnlyConnectionsLearned | src/wake_policy.c:226-235 | any other packet on its way to the host leaves the wake policy as it is, and so do those of less than 14 bytes |
| WakeWire.SavedAfterTwoSeconds | src/wake_policy.c:150-157 | a call saves iff a change waits and its time has come, once; a faithful write leaves the flash holding the list and a refused one leaves the flash |
| WakeWire.AdvertisingDecides | src/wake_policy.c:289-494 | a legacy or extended advertising event built byte by byte wakes the PC iff one of its reports is from a listed peer or has an AD structure of type 8 or 9 that begins with Stadia; the first that does decides, and its peer is learned iff it is not listed |
| WakeWire.AdvertisingLearned | src/wake_policy.c:380-387 | in standby such an event makes that peer the newest, to be saved in two seconds, and otherwise changes nothing |
| WakeWire.DirectedDecides | src/wake_policy.c:393-413 | a directed event of sixteen-byte reports, the last possibly cut off, wakes the PC iff a declared complete one has event type 1 |
| WakeWire.OthersDecide | src/wake_policy.c:465-494 | a connection request always wakes the PC, and nothing but it and the three advertising subevents ever does |
| WakePolicy.Policy.AdvertisingDataMatches | src/wake_policy.c:289-344 | the AD loop on arbitrary bytes reads only inside the data and finds a Stadia name iff one stands before the first bad length |
| WakePolicy.Policy.ReportMatches | src/wake_policy.c:346-463 | the report loops give that verdict, and change the list only by learning the peer that decided |
| WakePolicy.Policy.DirectedReportMatches | src/wake_policy.c:393-413 | any parameters match iff they are a directed event and one of its complete reports has event type 1 |
| WakePolicy.Policy.PacketMatches | src/wake_policy.c:465-494 | the verdict on any standby packet; the policy changes only by learning the peer that decided |
| PowerRuns.PulsesPaced | src/power_supervisor.c:167-296 | in every run, under any use of the override, each pulse was asked for after the PC was last found off and after the previous pulse's ten-second cooldown; it comes at least 60 s after that unless the override was on since, and at least 61.5 s after the previous pulse unless the override was on in between |
| PowerRuns.PulsesAsked | src/power_supervisor.c:192-198 | no pulse comes unasked: each names the step of the run whose request it serves |
| PowerRuns.RequestsServed | src/power_supervisor.c:192-249 | no request is lost: in every run an accepted one leads within three ticks, two from standby, to a wake pulse, unless the PC is found on before or the override is switched on |
| Debouncing.FlipsIffSteady | src/power_supervisor.c:46-55 | over any sample history a filtered input flips at a sample iff the sample disagrees with it and its run of equal samples began at least 250 ms before |
| Debouncing.FilteredReads | src/power_supervisor.c:46-55 | a filtered input reads high iff it was high the last time it was steady for 250 ms, or never was steady and started high |
| Debouncing.FlipsSpaced | src/power_supervisor.c:46-55 | two flips are at least 250 ms apart |
| PowerSense.InputReads | src/power_supervisor.c:88-99 | in every run, while the override is off, what the supervisor reads of a pin is decided in that way by the samples since power-up or the last use of the override |
| PowerSense.SettleCutShortIffSteadyHigh | src/power_supervisor.c:257-264 | in every run, a look during the wait after a pulse enters host mode iff the override is off and both inputs were high the last time they were steady for 250 ms; otherwise the wait goes on until ten seconds after the pulse |
| PowerSense.SettleCutShortExample | src/power_supervisor.c:257-264 | a run from power-up whose only pulse ends at 60.203 s and which is in host mode at 61.453 s, so the documented ten seconds of distrust do not hold |
| PowerSense.HostLeftIffSteadyLow | src/power_supervisor.c:274-280 | a look leaves host mode iff the override is on or the power input was low the last time it was steady for 250 ms |
| PowerSense.HostLeftOnlyAfterSteadyLow | src/power_supervisor.c:274-280 | with the override off it is left only after power read low at every look for at least 250 ms, or at the first look after the override was let go with the pin low |
| PowerLaw.LookDecides | src/power_supervisor.c:215-296 | in every run, from every state, where each look leads: to host mode whenever both inputs are taken for high from off, standby and both waits; from off to standby when armed; from standby to a pulse iff a request waits; out of the waits 10 s after the pulse and 120 s after the first wait; out of host mode when power is not high; to off 1.5 s after that; a pulse is given by exactly the looks in the pulse state |
| PowerLaw.OnlyLooksDecide | src/power_supervisor.c:140-198 | power-up is host mode iff both pins are high, and between looks no state changes |
| PowerLaw.RequestAcceptedIff | src/power_supervisor.c:192-198 | in every run a request waits afterwards iff it came in standby or off, ten seconds after the last pulse and a minute after the PC was last found off or with the override used since, or one waited already |
| PowerLaw.OverrideAsTold | src/power_supervisor.c:167-180 | in every run the override is on as last told, and letting it go starts both inputs at the levels of their own pins |
| PowerLaw.ButtonHeldIff | src/power_supervisor.c:240-252 | the power button is held by exactly the looks in the pulse state at which the power input is not taken for high |
| PowerSupervisor.Filter.Debounce | src/power_supervisor.c:46-55 | one sample of the in-place filter is the debouncing step |
| PowerSupervisor.Supervisor.Task | src/power_supervisor.c:215-299 | one task call senses, makes at most one transition, pulses exactly in the pulse state and then holds the button unless power is sensed |
| PowerSupervisor.Supervisor.SetState | src/power_supervisor.c:200-213 | entering HOST_OFF arms the delay and forgets requests; other states but standby disarm |
| PowerSupervisor.Supervisor.RequestWake | src/power_supervisor.c:192-198 | a request counts only in standby or HOST_OFF, after the cooldown and when armed |
| PowerSupervisor.Supervisor.DebugForceStandby | src/power_supervisor.c:167-180 | the override forces or restores both inputs, and forcing disarms and forgets |
| PowerSupervisor.Supervisor.constructor | src/power_supervisor.c:140-148 | power-up state, inputs and arming |
| HciHostMinimal.OutcomeIffReplied | src/hci_host_minimal.c:30-64 | a command's wait ends with a status iff some packet delivered before the deadline answers its opcode |
| HciHostMinimal.ReplySays | src/hci_host_minimal.c:102-118 | a Command Complete gives the status in its sixth byte for the opcode in its fourth and fifth, a Command Status the one in its third byte for the opcode in its fifth and sixth, and no other opcode |
| HciHostMinimal.OutcomeIsThatReply | src/hci_host_minimal.c:30-64 | the wait ends with the status of the last reply in the first transport call that delivers one, having heard that call and all before |
| HciHostMinimal.StandbyCommandsAre | src/hci_host_minimal.c:66-91 | the seven standby commands byte by byte |
| HciHostMinimal.SequenceEnds | src/hci_host_minimal.c:80-91 | nothing is sent if the reset fails; otherwise the sequence goes on to the first of the event mask and the two scan commands that fails, and configures the controller iff none does |
| HciHostMinimal.AttemptHears | src/hci_host_minimal.c:66-91 | what an attempt hears is the waits of the commands it sends, each for its own opcode |
| HciHostMinimal.Host.Receive | src/hci_host_minimal.c:102-118 | only a complete or status event for the awaited opcode changes anything |
| HciHostMinimal.Host.SendCmdSync | src/hci_host_minimal.c:21-64 | the command goes out once; the result is the last answer of the first transport call that brings one, or a timeout |
| HciHostMinimal.Host.ConfigureStandbyWake | src/hci_host_minimal.c:66-91 | the standby sequence sends a prefix of seven fixed commands and succeeds iff the reset, the event mask and the two scan commands do |
| BootselButton.OneClearPerLongHold | src/bootsel_button.c:55-78 | over every poll trace there is one clear for each maximal run of at least fifty pressed polls, at its fiftieth, after at least 4900 ms of being seen pressed |
| BootselButton.Button.Task | src/bootsel_button.c:55-78 | a call polls only when the wrapped clock shows 100 ms, and clears exactly at the fiftieth pressed poll in a row |
| BootselButton.WrappedStillElapsed | src/bootsel_button.c:57-59 | a wrapped 32-bit difference of at least 100 ms means at least 100 real ms |
| LoopRuns.AlwaysOneOwner | src/main.c:109-146 | at every moment of every run of passes, debug commands and wake-list clears from power-up: the bridge is enabled iff host mode was dispatched last, standby is configured only in standby, every packet sent was sent by the bridge, enabled, in host mode or by the standby host in standby with the bridge disabled, as was every controller reset, and a disabled bridge holds no packet; after a pass the dispatched state is the supervisor's |
| LoopRuns.EveryPulseCaused | src/main.c:46-52 | in every timely run the supervisor makes the logged steps, and each wake pulse serves a request of the console or for a packet that one of the passes delivered in standby and that, with the wake list as it then was, should wake the PC; it was made after the latest HOST_OFF, after the cooldown and, unless the override was used since, after the arming delay |
| LoopRuns.ListOverRuns | src/wake_policy.c:144-242 | at every moment of every run the wake list is the last sixteen of the stored list and the peers that delivered packets have shown since the last clear, and flash holds it unless a change waits or the last save was not done as asked |
| LoopRuns.NoneCrosses | src/usb_bth_bridge.c:245-311 | in every run, for each of the four quirk commands, whoever sends it: if the controller never completes more than it was sent and nothing is outstanding when an owner takes over, no owner is given more completions than it sent commands; and while no more than 255 are owing to the bridge, none of the controller's own reaches the PC |
| LoopLedger.CleanIsOwn | src/main.c:37-77 | the ledger behind that, over any log in which everything is heard and sent in its owner's session |
| LoopLog.ListIsLastSixteenShown | src/wake_policy.c:159-242 | the same of any log of packets heard, saves and clears |
| LoopRuns.StepEdges | src/power_supervisor.c:215-296 | each supervisor call makes at most one of the listed transitions; requests and the override make none |
| LoopLaw.EveryPassLawful | src/main.c:109-155 | in every run each pass hears, gives to the bridge, sends as the standby host and asks of the supervisor exactly what its inputs say, in order: in host mode two calls of USB, two of the bridge task and every packet received between them; in standby a wake check of every packet and another attempt if not configured; nothing received in the wait after a pulse; and afterwards the wake policy and the configured flag are what these make of them |
| LoopLaw.EveryCommandLawful | src/wake_policy.c:237-242 | the override, a console request and a clear touch only the part they are for |
| LoopLaw.StartsFresh | src/main.c:79-108 | at power-up nothing has been dispatched, configured, heard, sent or asked |
| LoopRuns.BridgingKeeps | src/usb_bth_bridge.c:330-494 | a bridge step keeps conservation, the log of sends and ownership; only its task, enabled and in host mode, sends |
| MainLoop.Loop.RunAll | src/main.c:109-155 | the firmware on its objects, from power-up and through any happenings, is the run of the model, and its controller has one owner |
| MainLoop.Loop.Boot | src/main.c:79-108 | over any flash contents, power-up is where those runs start, with the wake list the flash held |
| MainLoop.Loop.Iterate | src/main.c:109-155 | one pass: the supervisor, the dispatch if the state changed, the work of the state, the delayed save of the wake list |
| MainLoop.Loop.BackendRx | src/main.c:37-53 | a controller packet is a sighting and goes to the bridge in host mode while it is enabled; in standby it is checked for waking; otherwise nothing happens |
| MainLoop.Loop.OfferToHost | src/main.c:45 | a standby packet outside the standby host's waits changes nothing of it |
| MainLoop.Loop.CheckWake | src/main.c:47-51 | a standby packet asks for a wake exactly when its verdict is not to ignore it, and the list learns what the verdict says |
| MainLoop.Loop.ConfigureStandby | src/main.c:71-76 | with the bridge disabled, the standby host sends its commands, then every packet delivered meanwhile is checked for waking |
| MainLoop.Loop.EnterStandbyMode | src/main.c:63-77 | the bridge is disabled, and the standby host is configured unless it is already |
| MainLoop.Loop.EnterHostUsbMode | src/main.c:55-61 | host mode enables the bridge and forgets the standby configuration |
| MainLoop.Loop.FollowSupervisor | src/main.c:111-131 | a changed state is dispatched: host mode, standby, both left, or only the configuration forgotten |
| MainLoop.Loop.RetryStandby | src/main.c:145 | a failed configuration is tried again in the same pass, with replies of its own |

## Left out

- Logging, LEDs, counters kept only for the log, the debug console, USB descriptors, HID key reports and USB connect/disconnect.
- The CYW43 and stub backends: the first wraps an unseen library, the second delivers replies from inside `send`, which the model's `send` does not do.
- The filters that are off by default (any advertisement, connectable, HID, controller name) and the builds that switch the default ones off.
- PowerSupervisor.Supervisor.Task: reads the clock once per call, and once more after holding the power button, where the code reads it anew for each comparison.
- UartBackend.Backend.Task: interrupts come between accesses to the ring; the parser, which the interrupt handler never touches, is fed in one step. Reordering of memory accesses is not modelled.
- UartBackend.Backend.ResetController: an interrupt between the two index writes of a reset.
- WakePolicy.Policy.SaveKnownBlePeers: a failed save is not retried, as in the code, so flash and memory agree only after a faithful write.
- HciHostMinimal.Host.SendCmdSync: the deadline is the end of the list of transport calls; replies delivered inside `send` are not modelled.
- MainLoop.Loop.ConfigureStandby: the log puts an attempt's reset and commands before the packets delivered while they waited.
- MainLoop.Loop.Iterate: what the BOOTSEL poll and the debug console may do at the end of a pass are steps of their own between passes; the standby keyboard is not modelled.
- Stopping the standby scan (src/hci_host_minimal.c:93-100), which nothing calls.
- Resynchronisation of H4 after line noise, which the code does not promise: only well-formedness of what is delivered.
