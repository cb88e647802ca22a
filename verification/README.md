# rmouse: verified models

rmouse lets one mouse and keyboard drive several machines. A server captures input,
keeps one virtual cursor over its own monitors and those of every connected client, and
forwards input to the client under the cursor. This project models the parts of it in
which state, geometry and protocol meet, and proves what they promise:

- **The router** (`internal/app/server/router.go`). `RouterModel` is the grab state machine
  over mathematical integers: grab, hold, release, client switch, disconnect, monitor and
  placement edits. Where the program ranges over a map, an event carries a `Choice`, and
  `Legal` says which choices some iteration order could make. `RouterImpl.Router` is the
  program itself, field for field, on 32-bit integers; every method is proved equal to a
  step of the model, and `Bounded`, part of its `Valid()`, keeps all of its arithmetic
  inside the machine's range. `Scanning` holds its loops over monitor lists, `Geometry`
  what those loops compute.
  - `SessionLaws`: the bracket protocol of every session, over whole runs.
  - `InputLaws`: what clients, host and everybody else hear of buttons, keys and wheel, told by
    the captured events alone.
  - `RosterLaws`: who is registered, with which monitors and placement, told by the events alone.
  - `PointerLaws`: what one pointer sample does, in plain coordinates and distances, not in the
    terms the router's steps are defined in.
  - `LayoutLaws`: exact grab-in, exact release, the wall projection, who may own the cursor.
  - `RunLaws`: placements over whole runs, and where automatic placement puts clients.
  - `OscillationLaws`: server monitors on which no release is followed at once by a grab, and
    what a disconnect leaves remembered.
  - `OscillatingRuns`: runs that oscillate on all other server monitors, and a run whose
    capture is lost under a grab, built event by event from the motions of `TwoClients`.
  - `ReachLaws`: the arithmetic bound over whole runs.
- **The receiving client** (`internal/app/client/client.go`): `Receiver`, and in `EndToEnd` and
  `RemotePointer` what holds of router, wire and client together.
- **The wire codec** (`internal/proto`): `CodecSpec` (the format), `WireFormat` (its frames
  byte for byte), `CodecLaws` (round trips), `CodecImpl` (encoder and decoder as the program
  has them).
- **The relay** (`internal/relay/relay.go`): `Relay.Hub` (the three critical sections) and
  `RelayRuns` (handlers interleaving at them).
- **The clipboard** (`internal/platform/windows/clipboard.go`,
  `internal/clipboardhistory/history.go`): `Dib`, `DibBytes` (bitmaps byte for byte),
  `FileList`, `ClipboardHistory`, with `LittleEndian` for the word layouts.

`Wire` holds the vocabulary all modules share.

## Hypotheses

Each is a named predicate or an explicit `requires`, and only the results that need it ask for it.

- `LayoutLaws.ServerSane`: the server has a monitor, its stored bounding box is the hull of
  its monitors, every monitor is at least 31 by 31 pixels and the box at least 61 by 61
  (`grabHysteresis` is 30).
- `LayoutLaws.ClientsSane`: client monitors are at least 31 by 31 pixels, those of different
  clients do not overlap, and none overlaps the server's bounding box. The program does not
  enforce this: automatic placement looks at other clients' left edges only
  (`RunLaws.AutoPlacementStacks`), and clients of one name share one placement.
- `OscillationLaws.OnDesktop`: the layout is sane and the pointer sample is on a server monitor
  at every motion, as the event type says (`internal/platform/inputevent/inputevent.go:14`), and
  the server's monitors stay what they are.
- `TwoClients.Compact`: no side of the server's box exceeds 2^28 pixels, so that one client
  monitor can surround it; `ReachIsCompact` derives it from `Scanning.InReach`.
- `RouterModel.Legal`: a connection id is not registered twice at the same time; input is
  handled while the capture loop runs.
- `Scanning.InReach`: monitor coordinates and sizes are at most 2^26 in magnitude; seeded or
  dragged placements and absolute positions at most 2^27. Under these every 32-bit sum and
  every 64-bit squared distance of the router is exact.

## Where the code surprises

- `History.Add` is documented to return 0 for a repeated snapshot; the code returns the
  identifier of the existing entry, and so does the model
  (`internal/clipboardhistory/history.go:57-79`).
- A push is documented as two samples at the same position
  (`internal/app/server/router.go:449-452`); the code asks only that both are at the desktop's
  edge on the same side, so a push may drift along the edge: `PushDetectedIff`.
- Automatic placement is documented as flush right of the rightmost client
  (`internal/app/server/router.go:283-286`); the code compares left edges. Until something is
  dragged or the server's monitors change, all clients whose names had no placement at the start
  land on one spot: `AutoPlacementStacks`, `TwoClientsCollide`.
- Releases and grabs can alternate without any new approach to an edge if the server has
  several monitors: a parked cursor may touch an inner edge, and the next event pushes out
  again. `OscillatesIff` says on which monitors, `TallAndLowOscillate` names two.
- `Unregister` parks the cursor too, but only clamps it onto a server monitor and does not pad
  it (`internal/app/server/router.go:351-356`). Cursors off the desktop are all left at an edge
  exactly if nothing adjoins the home monitor, the one they are clamped to
  (`DisconnectLeavesEdgeIff`): so on one monitor always, and on two side by side not
  (`TwinsForgetEdges`).
- The capture loop resets consume mode and the hidden cursor when it is cancelled, and not when
  its channel closes (`internal/app/server/router.go:385-388`); the Windows capturer closes
  that channel on cancellation too. `ConsumeOutlivesLoopIff` says when input stays swallowed,
  `ConsumeCanOutliveLoop` that it can.
- A monitor wider or taller than 65536 pixels cannot be addressed by a position message;
  `PixelsAgreeIffAddressable` says exactly when both sides name the same pixel.
- The relay looks for a peer and joins its queue in two critical sections. `BothWaitIff` and
  `LateJoinHasWindow` say exactly when both sides of a session end up waiting.
- A relay timeout can close a connection already handed to a peer;
  `TimeoutClosesClaimedIff` gives the guard.
- The size check of a bitmap wraps around, and forty bytes suffice to make the image library
  panic on the allocation that follows: `FortyBytesAreHuge`, and `HugeImageIff` for all inputs.
- An input whose UP the client's system refuses during a release sweep is forgotten and stays
  pressed: `StuckButtonIff`, `StuckKeyIff`, and `RefusedSweepStrands` for a session that does it.
- An image of exactly 2^31 rows, which only a top-down header can announce, is packed with a
  height that reads as negative and comes back upside down: `SecondTrip`.

## Model

| member | source | states |
|---|---|---|
| `SessionLaws.RunKeepsProtocol` | internal/app/server/router.go:364-443 | In every state of every run each registered client's log is a series of complete brackets (Grab on, a position, input messages, Grab off) whose UPs all answer DOWNs; a bracket is open exactly for the active client, with exactly the forwarded buttons and keys down; forwarded sets and the settling flag are empty when nobody is active; consume mode is on and the cursor hidden exactly when somebody is, while the loop runs and after its channel closed, and never once it was cancelled; and the host's own system holds no input the user does not hold. |
| `SessionLaws.StepKeepsProtocol` | internal/app/server/router.go:237-443 | The same invariant across any single step: register, unregister, placement, hotplug, button, key, wheel, motion, or the start and both ends of the loop. |
| `SessionLaws.ConsumeOutlivesLoopIff` | internal/app/server/router.go:364-392 | At any time after the loop ended, consume mode is still on if and only if it ended with the capture channel closing while a client held the grab and that client has not left since. |
| `OscillatingRuns.ConsumeCanOutliveLoop` | internal/app/server/router.go:364-392 | On any sane server monitors there is a run, all samples on the desktop, that ends with the channel closing under a grab and consume mode on. |
| `SessionLaws.ScanClosing` | internal/app/server/router.go:685-718 | A release, in whatever order the maps are ranged over, sends one UP for each forwarded input and then Grab off, and closes the session's bracket. |
| `SessionLaws.ScanOpening` | internal/app/server/router.go:652-684 | A grab on a client whose pixels hold the cursor opens a bracket with nothing pressed. |
| `InputLaws.ForwardsExactly` | internal/app/server/router.go:394-443 | In every run, from the step that gives a client the grab on, the button, wheel and key messages added to its log are exactly the presses and wheel turns captured since, in order, and the releases of what was pressed since; a button or key counts as forwarded if and only if its last event since was a press. |
| `InputLaws.GrabCloses` | internal/app/server/router.go:685-718 | A motion that takes the grab away adds just one UP for each button and key still down of those, buttons first, and Grab off. |
| `InputLaws.SilentWithoutGrab` | internal/app/server/router.go:394-743 | Over any stretch of a run a registered client without the grab is sent nothing. |
| `InputLaws.HeldIsWhatIsDown` | internal/app/server/router.go:401-428 | A button or key counts as held if and only if its last captured event was a press. |
| `InputLaws.HostSeesExactly` | internal/app/server/router.go:652-684 | The host's own system holds a button or key if and only if its last captured event was a press and nobody has had the grab from then on. |
| `LayoutLaws.GrabbedMotion` | internal/app/server/router.go:611-743 | Under a sane layout a settled motion ends the grab if and only if the raw position is on a server monitor or leaves the client's box on a side beyond which the whole server box lies; otherwise the same client keeps it, at the raw position if the client covers it and else at a pixel of the client at minimal squared distance; and a release parks the cursor, the memory and the host pointer on a server monitor at least 30 pixels inside the box. |
| `LayoutLaws.GrabbedMotionReport` | internal/app/server/router.go:739-759 | A motion that keeps the grab sends exactly one position message, to the active client, and leaves every other session's log alone. |
| `PointerLaws.PushDetectedIff` | internal/app/server/router.go:472-486 | A push is detected if and only if nobody has the grab, a sample is remembered, and for some side both it and this sample are one pixel short of leaving every server monitor; the two may be at different places. |
| `PointerLaws.FreeMotion` | internal/app/server/router.go:540-548 | Without a push a free pointer takes cursor and memory along and changes nothing else. |
| `PointerLaws.PushOpensExactly` | internal/app/server/router.go:505-584 | On the first pushed side, right before left before bottom before top, a grab opens in that event if and only if some client has a pixel ahead, level with this sample, and then on the owner of the first one, cursor 30 pixels past it and pointer trapped; otherwise only the sample is remembered, with the cursor 30 pixels past the box. |
| `PointerLaws.SettlesIff` | internal/app/server/router.go:594-607 | After a grab opened a sample does nothing, except that the first within 100 pixels of the trap point on both axes ends the waiting. |
| `PointerLaws.StillnessIsIgnored` | internal/app/server/router.go:611-616 | A settled sample at the trap point changes nothing. |
| `PointerLaws.DrivenMotion` | internal/app/server/router.go:611-743 | Under a sane layout any other settled sample moves the cursor by its distance from the trap point; that ends the grab if and only if it leads onto a server monitor or past all of the client on a side beyond which all of the server lies, and then cursor, memory and pointer are parked together: 30 pixels inside the side come in by, on the home monitor, in the nearest place; otherwise the pointer is trapped again and the cursor is there or at the client's nearest pixel. |
| `PointerLaws.PositionNamesFirst` | internal/app/server/router.go:745-759 | A position message names the first monitor that shows the cursor and the place on it modulo 2^16; none is sent if no monitor does. |
| `PointerLaws.DisconnectPulls` | internal/app/server/router.go:327-359 | When the grabbed client leaves, cursor, memory and pointer stay on a server monitor or go to the nearest pixel of the home monitor, the grab ends and nothing counts as forwarded. |
| `PointerLaws.LoopStartsAtCentre` | internal/app/server/router.go:364-376 | The loop starts with the cursor at the trap monitor's centre and changes nothing else. |
| `PointerLaws.OnlyMotionMoves` | internal/app/server/router.go:237-443 | No other event touches cursor, memory, pointer or grab. |
| `PointerLaws.MemoryNeedsSample` | internal/app/server/router.go:458-549 | No sample is remembered before there was one. |
| `LayoutLaws.PushIsExact` | internal/app/server/router.go:505-584 | Once a push is detected, a grab opens in that same event if and only if some client has a pixel ahead on that row or column beyond the server's box, on the owner of the first such pixel. |
| `LayoutLaws.RayFindsFirstPixel` | internal/app/server/router.go:930-993 | The edge the raycast finds is the first client pixel on the ray, and it finds one exactly when there is one, whichever order the clients are visited in. |
| `LayoutLaws.ParkIsSafe` | internal/app/server/router.go:1007-1064 | Clamping and then padding always lands on a server monitor, at least 30 pixels inside the bounding box. |
| `LayoutLaws.RunNeverSwitches` | internal/app/server/router.go:719-737 | No event of any run hands the grab from one client to another, provided the layout is sane whenever the pointer moves, however it was edited in between: the switch branch is never taken. |
| `LayoutLaws.OneOwner` | internal/app/server/router.go:905-916 | Under a sane layout at most one client covers a point, so map order cannot matter to the lookup. |
| `Geometry.WallPointIsProjection` | internal/app/server/router.go:871-902 | The wall hit is a pixel of the union of the monitors, and no pixel of the union is closer to the raw cursor. |
| `Geometry.BoundsTight` | internal/app/server/router.go:185-221 | Each side of the computed bounding box is attained by some monitor (that it contains every monitor is the contract of Bounds). |
| `RunLaws.ClientsSitAtTheirPlacement` | internal/app/server/router.go:307-322 | After any sequence of connects, disconnects, hotplugs and drags every registered client with monitors has its bounding box's top-left corner exactly at the placement stored for its name. |
| `RunLaws.PlacementsPersist` | internal/app/server/router.go:237-300 | Once a name has a placement, only a drag of that name changes it, over any stretch of any run. |
| `RosterLaws.RegisteredIff` | internal/app/server/router.go:237-359 | In every run a client is registered if and only if it registered and has not left since. |
| `RosterLaws.MonitorsAreLatest` | internal/app/server/router.go:253-322 | A registered client's monitors are those of its latest connect or hotplug, and no other event changes them. |
| `RosterLaws.NameIsRegistered` | internal/app/server/router.go:237-249 | Its name is the one it connected under. |
| `RosterLaws.ServerMonitorsAreLatest` | internal/app/server/router.go:185-221 | The server's monitors are those of the latest server hotplug, or the initial ones, and box and trap point follow them. |
| `RosterLaws.PlacementIsLastDrag` | internal/app/server/router.go:267-281 | A name that was ever dragged is stored where it was dragged last. |
| `RosterLaws.FirstPlacement` | internal/app/server/router.go:283-300 | An unseen name is placed at the server's top, at the largest of the server's right edge and all stored left edges, and no other placement changes. |
| `RosterLaws.TrapIsItsCentre` | internal/app/server/router.go:192-213 | The trap point is the centre of the last primary monitor, or of the first if none is primary. |
| `RosterLaws.HomeIsChosen` | internal/app/server/router.go:1035-1064 | Cursors are clamped to the first primary monitor, or to the first if none is primary. |
| `RunLaws.AutoPlacementClearsServer` | internal/app/server/router.go:287-300 | A client of an unseen name is put to the right of the server's box, at its top, touching no server pixel. |
| `RunLaws.AutoPlacementClearsClientIff` | internal/app/server/router.go:283-300 | In every state of every run the box of an automatically placed client begins no further left than that of any registered one, so they are apart if and only if that one ends at or left of its left edge or their rows are disjoint. |
| `RunLaws.AutoPlacementStacks` | internal/app/server/router.go:283-300 | Until the first drag or server hotplug of a run, all names without a placement at the start get one and the same, at the server's top and no further left than its right edge or any seeded placement. |
| `RunLaws.AutoPlacedClientsOverlap` | internal/app/server/router.go:283-300 | So the boxes of any two connected clients with such names overlap. |
| `RunLaws.TwoClientsCollide` | internal/app/server/router.go:237-249 | Two registrations suffice for two clients to cover one pixel. |
| `OscillationLaws.GrabNeedsEdgeMemory` | internal/app/server/router.go:472-486 | Whatever the event, a grab is opened only by a motion sampled at an edge, and only while the remembered sample is at an edge too. |
| `OscillationLaws.ParkingClearIff` | internal/app/server/router.go:1007-1064 | No release, from whatever cursor, parks at an edge if and only if no safe parking place of the monitors is at one. |
| `OscillationLaws.NoOscillation` | internal/app/server/router.go:472-584 | On server monitors with no parking place at an edge, a grab that follows a release by motion is never the next event and is preceded by a new ungrabbed sample at an edge, whatever else happens in between short of a server hotplug. |
| `OscillationLaws.NoOscillationOnOneMonitor` | internal/app/server/router.go:472-486 | A single server monitor, in a box of at least 61 by 61, is such a layout. |
| `OscillationLaws.NoOscillationOnDesktop` | internal/app/server/router.go:458-743 | For runs whose samples are on the desktop the same follows from the weaker condition that no landing such samples can reach is parked at an edge. |
| `OscillationLaws.ReleaseLands` | internal/app/server/router.go:685-718 | A release by a motion sampled on the desktop, with the grabbed cursor outside the server's box, lands on a server monitor, anywhere but at the trap point mirrored through the box, or 30 pixels inside one of its sides, and parks from there. |
| `OscillationLaws.OnlyMirrorDiffers` | internal/app/server/router.go:1007-1064 | The two conditions differ about no parking place but the mirrored trap point. |
| `OscillatingRuns.OscillatesIff` | internal/app/server/router.go:458-743 | On sane server monitors there is a run, with all pointer samples on the desktop, a sane layout at each and no hotplug, in which a release by motion is followed at once by a grab if and only if some reachable landing is parked at an edge; the run built starts from a fresh router, connects two clients and walks the cursor. |
| `OscillatingRuns.TallAndLowOscillate` | internal/app/server/router.go:685-718 | Two monitors side by side, 100 and 60 pixels high, have such a run. |
| `OscillationLaws.DisconnectForgetsEdgesIff` | internal/app/server/router.go:327-359 | With one server monitor, what a disconnect of the grabbed client leaves remembered is at no edge if and only if the cursor was strictly inside the box. |
| `OscillationLaws.DisconnectLeavesEdgeIff` | internal/app/server/router.go:327-359 | On any server monitors the clamp of a disconnect leaves every cursor off the desktop at an edge if and only if every border pixel of the home monitor is at one. |
| `OscillationLaws.DisconnectLeavesEdge` | internal/app/server/router.go:351-356 | On such monitors a disconnect with the cursor on the disconnecting client leaves an edge remembered. |
| `OscillationLaws.TwinsForgetEdges` | internal/app/server/router.go:351-356 | With two monitors side by side it may leave none remembered. |
| `ReachLaws.RunStaysBounded` | internal/app/server/router.go:458-903 | Every state of a run whose monitors, placements and pointer samples are in reach satisfies the bound under which no 32-bit operation of the router overflows. |
| `RouterImpl.Router.HandleEvent` | internal/app/server/router.go:394-443 | One captured event takes the router's 32-bit state exactly to the model's next state under a legal choice and keeps the arithmetic bound. |
| `RouterImpl.Router.StopCapture` | internal/app/server/router.go:378-384 | Cancellation ends the loop with consume mode off and the cursor shown. |
| `RouterImpl.Router.LoseCapture` | internal/app/server/router.go:385-388 | The closed channel ends the loop and changes nothing else. |
| `RouterImpl.Router.ResolveRegion` | internal/app/server/router.go:649-743 | Looking up the region under the cursor opens, closes, switches or keeps the grab exactly as the model says. |
| `RouterImpl.Router.RaycastClient` | internal/app/server/router.go:930-993 | Loops over clients and monitors in any order and finds the nearest edge a ray hits, if any. |
| `RouterImpl.Router.ClientAt` | internal/app/server/router.go:905-916 | Finds a client covering the point if and only if there is one. |
| `RouterImpl.Router.Unregister` | internal/app/server/router.go:327-359 | Disconnecting the grabbed client drops the grab without sending and clamps the cursor; any other disconnect only removes the client. |
| `RouterImpl.Router.Register` | internal/app/server/router.go:237-249 | Adds a client at its stored or automatic placement, with an empty log. |
| `RouterImpl.Router.UpdateMonitors` | internal/app/server/router.go:253-262 | A client hotplug re-applies the stored placement to the new monitor list; an unknown id changes nothing. |
| `RouterImpl.Router.SetPlacement` | internal/app/server/router.go:267-281 | Stores the placement and moves every connected client of that name, and no other. |
| `RouterImpl.Router.UpdateServerMonitors` | internal/app/server/router.go:185-221 | Replaces the server's monitors, box and trap point together. |
| `RouterImpl.Router.ReleaseGrab` | internal/app/server/router.go:685-718 | Releases every forwarded input, in some order, then the grab, and parks the cursor. |
| `RouterImpl.Router.AcquireGrab` | internal/app/server/router.go:652-684 | Lifts held input off the host, starts an empty forwarding record and tells the client where the cursor is. |
| `Scanning.WallHit` | internal/app/server/router.go:871-902 | The 32-bit loop with its 64-bit squared distances returns the projection of the model, without overflow. |
| `Scanning.ConfineCursor` | internal/app/server/router.go:767-903 | The clamp of a grabbed cursor: the raw position, the gap teleport or the wall hit, in the program's order. |
| `Scanning.ClampToServerScreens` | internal/app/server/router.go:1035-1064 | Leaves a point on a server monitor alone and clamps any other, coordinate by coordinate, into the first primary monitor, or the first; with no monitor it is the origin. |
| `Scanning.Extents` | internal/app/server/router.go:307-322 | The min/max loop over a monitor list computes the hull of its rectangles. |
| `Scanning.TrapPoint` | internal/app/server/router.go:120-170 | The trap point is the centre of the last primary monitor, or of the first monitor if none is primary. |
| `EndToEnd.NoStuckInput` | internal/app/client/client.go:358-409 | In every state of every run, a client that applied its session's messages holds pressed exactly the forwarded inputs if it is active, and nothing otherwise. |
| `EndToEnd.PressedFollowsUser` | internal/app/client/client.go:358-409 | All through its grab the client holds pressed exactly what the user pressed since it took the cursor and has not released. |
| `EndToEnd.WheelFollows` | internal/app/client/client.go:358-409 | The wheel turns it has injected by then are those from before its grab and then exactly the wheel events captured since, in order. |
| `EndToEnd.SessionDeathReleasesAll` | internal/app/client/client.go:453-475 | After any messages at all, from anyone, with any injections refused outside a release sweep, the sweep at session death leaves pressed exactly the remembered inputs it is refused, hence nothing if it is refused none. |
| `EndToEnd.NoStuckInputDespiteRefusals` | internal/app/client/client.go:358-475 | In every state of every run a registered client that is not active holds nothing pressed, whatever its system refused outside the sweeps. |
| `EndToEnd.ClosedLeavesNothing` | internal/app/client/client.go:358-475 | A log whose brackets are all closed leaves nothing pressed under the same refusals. |
| `EndToEnd.StuckButtonIff` | internal/app/client/client.go:416-475 | With any refusals at all, sweeps included, a button is pressed and forgotten if and only if some sweep was refused for it while it was remembered and nothing of it was accepted since. |
| `EndToEnd.StuckKeyIff` | internal/app/client/client.go:416-475 | The same for a key. |
| `EndToEnd.RefusedSweepStrands` | internal/app/client/client.go:416-475 | For any button and key there is a complete session that leaves both pressed and forgotten when their UPs and the sweep are refused. |
| `EndToEnd.MemoryMatchesReality` | internal/app/client/client.go:416-447 | What the client remembers as pressed is what its system holds pressed, as long as no release sweep is refused. |
| `EndToEnd.ReplayFollowsScan` | internal/app/client/client.go:358-475 | The dispatcher interprets an unbroken session log as the bracket automaton does. |
| `EndToEnd.SessionArrivesIntact` | internal/proto/codec.go:32-91 | Decoding the frames of a session's log, followed by any bytes, gives exactly the messages the router sent, in order, and leaves those bytes. |
| `RemotePointer.PixelsAgreeIffAddressable` | internal/app/client/client.go:480-487 | For disjoint monitors with distinct ids, sender and receiver name the same pixel everywhere if and only if no monitor is wider or taller than 65536. |
| `RemotePointer.MotionMovesRemotePointer` | internal/app/server/router.go:745-759 | Whatever the layout, a settled motion that leaves the grab with its client moves that client's pointer, by exactly one message, to the pixel the virtual cursor is on in the client's own coordinates. |
| `RemotePointer.OpeningMovesRemotePointer` | internal/app/server/router.go:555-584 | A push that opens a grab sends the new owner exactly Grab on and one position, which puts its pointer on the pixel the virtual cursor entered. |
| `RemotePointer.PointerFollows` | internal/app/server/router.go:555-759 | From any state with nobody active on, in every state of the run, replaying the active client's log leaves its pointer on the pixel under the virtual cursor, whatever the layout, unless its own monitors or placement were edited during a grab. |
| `RemotePointer.MotionRestoresTracking` | internal/app/server/router.go:745-759 | After an edit the next motion that pushes or drives the cursor puts the pointer back under it. |
| `RemotePointer.DragKeepsTrackingIff` | internal/app/server/router.go:267-281 | Dragging the active client breaks that agreement if and only if it changes the placement. |
| `Receiver.InjectedState.DispatchIncoming` | internal/app/client/client.go:358-409 | Applying one message changes the pressed sets, the memory, the pointer and the injected wheel turns and relative motions as the specification says, for any set of refused injections. |
| `Receiver.InjectedState.ReleaseEverything` | internal/app/client/client.go:453-475 | The sweep sends an UP for each remembered input, in some order, and forgets them all. |
| `Receiver.FindPixel` | internal/app/client/client.go:480-487 | The loop over monitors resolves a position against the first monitor with the id, wrapping as 32-bit addition does, and fails for an unknown id. |
| `WireFormat.FramesAreExact` | internal/proto/codec.go:30-47 | The frame of every message is its length, type number and fields in order, little-endian and two's complement, spelled out byte by byte, after cutting strings to their first 65535 bytes and lists to their first 16 monitors. |
| `WireFormat.FitsIff` | internal/proto/codec.go:20-26 | A message may be sent if and only if type byte and body take at most 16 MiB for clipboard updates and 1 MiB for all others. |
| `WireFormat.HeaderDecides` | internal/proto/codec.go:52-83 | The first five bytes of any input decide between short read, empty frame, too large for all types, too large for this type, and unknown type, and how much of the input is used up. |
| `WireFormat.FlagsRead` | internal/proto/codec.go:168-168 | Any byte but zero reads as true. |
| `WireFormat.TooManyDisplays` | internal/proto/messages.go:77-90 | A list announcing more than 16 monitors fails, whatever follows. |
| `CodecLaws.FrameRoundTrip` | internal/proto/codec.go:32-91 | Reading a written frame gives the message, truncated to what the format carries, and leaves exactly the bytes that followed. |
| `CodecLaws.StreamRoundTrip` | internal/proto/codec.go:32-91 | For every list of messages that fit, reading the concatenated frames returns the list and leaves the tail. |
| `CodecLaws.InRangeIsNormal` | internal/proto/messages.go:46-90 | A message survives the trip unchanged if and only if its strings are at most 65535 bytes and its list at most 16 monitors. |
| `CodecLaws.AcceptedIsRewritable` | internal/proto/codec.go:52-91 | On arbitrary bytes, an accepted message has consumed exactly its 4 + length bytes, is within the limits, and re-encodes to a frame of the same length that decodes to the same message. |
| `CodecLaws.ProperPrefixRefused` | internal/proto/codec.go:52-91 | Every proper prefix of a written frame is refused as too short. |
| `CodecLaws.FramesArePrefixFree` | internal/proto/codec.go:32-47 | No frame of an in-range message is a prefix of a frame of a different one. |
| `CodecLaws.BodyLength` | internal/proto/messages.go:77-90 | Whatever the bytes, a body that decodes is within the limits and consumed exactly as many bytes as encoding it takes. |
| `CodecLaws.ClipboardAlwaysFitsIff` | internal/app/client/client.go:538-548 | Every clipboard payload accepted for sending fits its frame if and only if the origin is at most 240 bytes. |
| `CodecImpl.Write` | internal/proto/codec.go:32-47 | Refuses exactly the messages beyond the cap of their type, writing nothing; otherwise writes the whole frame, or some beginning of it if the connection fails. |
| `CodecImpl.Read` | internal/proto/codec.go:52-91 | Total on every byte string: result and bytes left are those of the format's reader, error cases included. |
| `CodecImpl.Parse` | internal/proto/codec.go:79-90 | One payload: unknown type, malformed, trailing bytes or the message. |
| `CodecImpl.Decoder.Decode` | internal/proto/messages.go:119-360 | The position-and-latched-error decoder reads each type as the format says and stays within its buffer. |
| `CodecImpl.Encoder.Encode` | internal/proto/messages.go:119-325 | The encoder appends exactly the body of the message. |
| `CodecImpl.Decoder.MonitorList` | internal/proto/messages.go:77-90 | Reads the counted list, or fails as a whole on more than 16 entries or on any failing entry. |
| `Relay.Hub.TryPair` | internal/relay/relay.go:74-89 | Claims the oldest waiter of the same session's other side exactly when there is one, closes its channel for the first time, and leaves no key with an empty queue. |
| `Relay.Hub.Enqueue` | internal/relay/relay.go:93-97 | Appends to the connection's own queue and to no other. |
| `Relay.Hub.Remove` | internal/relay/relay.go:98-111 | Takes exactly the one connection out if it still waits, and otherwise changes nothing. |
| `RelayRuns.StepKeepsInv` | internal/relay/relay.go:74-151 | Each lock-protected step keeps: no empty queues, each waiter enqueued and in one queue once, first in first out, claims and removals exclusive, the pairs a matching. |
| `RelayRuns.PairsAreAMatching` | internal/relay/relay.go:127-151 | Under every interleaving the two of a pair named the same session and different sides, and nobody is in two pairs. |
| `RelayRuns.EarlierIsClaimedFirst` | internal/relay/relay.go:74-112 | Of two connections enqueued on one key and not removed, the earlier is claimed whenever the later is. |
| `RelayRuns.ClaimsAreFresh` | internal/relay/relay.go:74-112 | A removed connection is never claimed afterwards, and the head of a queue never has a closed channel, so no channel is closed twice. |
| `RelayRuns.QueuedOrClaimed` | internal/relay/relay.go:93-151 | A waiter is still in its queue or has been claimed, and never both: nobody is lost. |
| `RelayRuns.BothWaitIff` | internal/relay/relay.go:127-135 | In every run, both sides of some session ever wait at once if and only if some connection joins its queue while the other side already waits. |
| `RelayRuns.LateJoinHasWindow` | internal/relay/relay.go:127-135 | Such a join is preceded by the connection's own look at an empty queue and, in between, by a join of the other side. |
| `RelayRuns.AdjacentSectionsSuffice` | internal/relay/relay.go:127-135 | Were every join immediately preceded by its own look, no two sides would ever wait. |
| `RelayRuns.TimeoutClosesClaimedIff` | internal/relay/relay.go:138-151 | On a timeout the handler closes a connection that has been handed to a peer if and only if its remover finds nothing in the queue. |
| `RelayRuns.Look` | internal/relay/relay.go:127-132 | The hub's claim is the model's look for a peer, pairs included. |
| `RelayRuns.Join` | internal/relay/relay.go:133-136 | The hub's enqueue is the model's join. |
| `RelayRuns.Expire` | internal/relay/relay.go:147-151 | The hub's remover is the model's. |
| `RelayRuns.BothSidesCanWait` | internal/relay/relay.go:127-135 | A run in which both sides of one session are queued at once. |
| `RelayRuns.TimeoutCanRaceClaim` | internal/relay/relay.go:138-151 | A run in which a waiter's timer fires, a peer claims it, and its handler still closes it. |
| `DibBytes.StrideIsPadded` | internal/platform/windows/clipboard.go:429-429 | A row takes the bytes of its pixels rounded up to a multiple of four. |
| `DibBytes.AcceptedIff` | internal/platform/windows/clipboard.go:395-433 | On a buffer of less than 2^47 bytes the first failing header check, read off the bytes in the program's order, is the error; if none fails the bitmap is accepted if and only if header and padded rows are all there, with the dimensions, row order, depth and offset its bytes say. |
| `DibBytes.UnpackedBytes` | internal/platform/windows/clipboard.go:434-463 | Pixel (x, y) of an unpacked image, for 24 and 32 bits and both row orders, has blue, green and red from three named bytes of the buffer, and alpha from the fourth if any alpha byte is non-zero. |
| `DibBytes.PackedBytes` | internal/platform/windows/clipboard.go:481-508 | Header field by field and pixel by pixel, where each byte of a packed image comes from. |
| `Dib.ReadLayout` | internal/platform/windows/clipboard.go:395-433 | An accepted header has positive dimensions, depth 24 or 32 and a header of at least 40 bytes, and all of its rows lie within the buffer, although the size check multiplies in wrapping 64-bit integers. |
| `Dib.StartsApart` | internal/platform/windows/clipboard.go:440-463 | Different pixels of a bitmap occupy disjoint bytes, for either depth and row order. |
| `Dib.RowOrder` | internal/platform/windows/clipboard.go:440-463 | A top-down bitmap starts with its first row and a bottom-up one with its last; rows are a stride apart and pixels a depth apart. |
| `Dib.HugeImageIff` | internal/platform/windows/clipboard.go:395-434 | On a buffer of less than 2^47 bytes unpacking stops on the allocation if and only if the header checks pass, the true size is 2^63 or more, and the wrapped size is no more than the buffer. |
| `Dib.FortyBytesAreHuge` | internal/platform/windows/clipboard.go:428-434 | A bare 40-byte header does that. |
| `Dib.HugeOnlyAfterWrap` | internal/platform/windows/clipboard.go:428-434 | That takes a dimension of 2^28 or more. |
| `Dib.Unpack` | internal/platform/windows/clipboard.go:395-463 | Fails with the first failing header check, and otherwise yields the bitmap's pixels, opaque if all of their alpha bytes are zero. |
| `Dib.Pack` | internal/platform/windows/clipboard.go:481-508 | Fails for an empty image only, and otherwise yields a header and bottom-up rows holding the image's pixels. |
| `Dib.DimensionsSurviveIff` | internal/platform/windows/clipboard.go:500-508 | The packed header is accepted and reads back as the image's own dimensions, bottom-up, if and only if both are below 2^31. |
| `Dib.PackThenUnpack` | internal/platform/windows/clipboard.go:395-508 | Unpacking a packed image returns the same pixels if some alpha is non-zero, and otherwise the same colours with alpha 255; row by row, save that 2^31 rows come back in reverse. |
| `Dib.SecondTrip` | internal/platform/windows/clipboard.go:395-508 | An image that came from any accepted bitmap survives packing and unpacking pixel for pixel, except that one of exactly 2^31 rows is turned upside down. |
| `FileList.ParseMultiSZ` | internal/platform/windows/clipboard.go:300-314 | The loop returns the strings up to the first empty one or the last NUL. |
| `FileList.MultiSZRoundTripIff` | internal/platform/windows/clipboard.go:271-277 | Packing paths and parsing them back, whatever code units follow, gives the same list if and only if each path is non-empty and free of NULs. |
| `FileList.WriteFiles` | internal/platform/windows/clipboard.go:263-289 | Fails for an empty list only; otherwise header and code units hold the paths. |
| `FileList.ReadFiles` | internal/platform/windows/clipboard.go:229-252 | Checks size, width and offset in the program's order, then parses the code units from the offset. |
| `FileList.WrittenBytes` | internal/platform/windows/clipboard.go:273-289 | A written payload is offset 20, twelve zero bytes, flag 1, and the code units low byte first. |
| `FileList.ReadBytes` | internal/platform/windows/clipboard.go:229-252 | Which bytes decide each error of reading, and which code units are parsed otherwise. |
| `FileList.FilesRoundTripIff` | internal/platform/windows/clipboard.go:229-289 | Writing paths and reading the payload back, whatever bytes the allocator left behind it, gives the same paths if and only if each is non-empty and NUL-free. |
| `ClipboardHistory.History.Add` | internal/clipboardhistory/history.go:60-99 | Takes the history to the state after one more call; returns 0 for empty data and else the identifier of the item that now stands for it. |
| `ClipboardHistory.HoldsLatestRuns` | internal/clipboardhistory/history.go:60-99 | After any calls the history's items are the latest runs, up to the capacity, of the non-empty snapshots since the last Clear, each with its run's content, its latest origin and its own number. |
| `ClipboardHistory.RunsAreMaximal` | internal/clipboardhistory/history.go:65-79 | The runs cut the snapshots into consecutive pieces of one content, and the content changes from each to the next. |
| `ClipboardHistory.AfterRefines` | internal/clipboardhistory/history.go:60-135 | The step-by-step history is the run-based one, for every sequence of Add and Clear. |
| `ClipboardHistory.IdsAreDistinct` | internal/clipboardhistory/history.go:80-87 | Identifiers strictly increase until the 64-bit counter wraps, and no two retained items ever share one. |
| `ClipboardHistory.IdsAreForever` | internal/clipboardhistory/history.go:80-135 | In fewer than 2^64 calls an identifier never comes to stand for another snapshot, clears included. |
| `ClipboardHistory.RepeatKeepsId` | internal/clipboardhistory/history.go:65-79 | Adding what the history already ends with changes the origin of its last item and nothing else. |
| `ClipboardHistory.History.Snapshot` | internal/clipboardhistory/history.go:104-112 | A fresh array of the items, newest first. |
| `ClipboardHistory.History.Get` | internal/clipboardhistory/history.go:115-124 | Finds an item if and only if its identifier is retained, and then that item. |
| `ClipboardHistory.BytesEqual` | internal/clipboardhistory/history.go:137-147 | The loop decides equality. |

## Left out

- RouterImpl.Router: clients are values in the `clients` map, not shared objects; the program's `active` is a pointer to one of them, here its id. A client pointer kept across a re-registration of its id is not captured, which is why ids must be fresh.
- RouterImpl.Router.HandleEvent: sends always succeed and the injector is present; the program ignores send errors and skips injection without an injector.
- SessionLaws.RunKeepsProtocol: whether the host itself sees a captured input is decided by the consume flag at the time the event is handled.
- RemotePointer.MotionMovesRemotePointer: the client's monitor list is the one the router has; how a hotplug report travels is not part of the model.
- LayoutLaws.PushIsExact: at a corner only the first direction of the switch is tried, in the program and in the model; no claim is made for the others.
- LayoutLaws.GrabbedMotion: a placement edit can move a client out from under a grabbed cursor; the claim is about the next settled motion, not the time in between.
- OscillationLaws.NoOscillation: a server hotplug between release and grab is excluded, because it can move an edge under the remembered sample.
- CodecImpl.Read: reading fails only by running out of bytes.
- Dib.ReadLayout: the runtime's refusal of buffers above 2^48 bytes stands for the panic of the image library, as an error value.
- FileList.WriteFiles: paths are sequences of UTF-16 code units; transcoding, JSON and the global-memory calls are library or system code.
- Receiver.InjectedState.DispatchIncoming: refusals are tracked for buttons and keys only; clipboard messages are not applied to the desk.
- Locks are modelled by making each locked section one step; the router's methods are single-threaded in the model as they are under its mutex.
- Clipboard echo suppression (`clipboardHub`, `clipboardSyncState`): it depends on wall-clock windows.
- The preamble, TLS, dialing, reconnects, heartbeats and the relay's byte splicing: network plumbing.
- Timestamps, change callbacks, logging and persistence of placements.
- The PNG codec and colour conversion: an image is a grid of NRGBA pixels.
- Windows hooks, injection, X11 tools and the key tables: foreign calls and finite tables.
- The graphical interface, including drag and snap of client rectangles.
