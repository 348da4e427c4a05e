# SimpleClient, verified

SimpleClient boots a machine straight into a remote desktop session. This
project models the parts of it where state, concurrency or arithmetic make a
mistake easy, and proves what they promise. Each module follows one source file
or one protocol of it.

**The session engine (C).** `Rects` and `Regions` are the rectangle sets of
`engine/kms.c`, `Desktop` what a display should show, `Scanout` the loops that
draw it, `Clamp` the pointer's way back onto a display. `Presenter` is the
protocol around them as a state machine: FreeRDP paints, the pointer moves and
one thread per display takes its damage, fills, draws and shows, interleaved at
their critical sections; a page flip is done at any time or never, its event
comes later still, and a mode set, a cursor plane and a driver that copies answer
as they like. `PresenterSafety` proves what the buffers hold in every run,
`Panels` what is seen, `PointerPlane` where the pointer is seen, `Settling` that
all this comes to an end, with the present on every display; `TearingRun` and
`PointerRun` are runs that show what goes wrong. `Simd`, `Yuv` and `YuvRows` are
the colour conversion of `engine/yuv.c`, instruction by instruction. `Lines` and
`Input` are the command pipe of `engine/sc-rdp.c`.

**The kiosk (Go).** `Unpack` and `Slots` are the A/B update with a power cut
possible at any step; `Grubenv` and `Graphics` the boot environment's file and
the counting of boots in it; `Dvc`, `DvcRoundTrip` and `DvcSession` the dynamic
virtual channels (section 2.2.3 of [MS-RDPEDYC]); `Rdpsnd` the sound channel
(section 2.2.3 of [MS-RDPEA]); `Wifi`, `WifiWatch` and `WifiSaved` the wireless
dialog's protocol, `WifiList` its list and `WifiConf` the file it keeps a network
in; `Tiles` the session picture with its pointer, `SoftPointer` and `Scaled` the
kiosk's own screens; `Drives`, `Hosts` and `Cidr` the USB drives, the server list
and the addresses a scan tries. `Helpers` and `Strings` hold what several of them
need.

Objects the source updates in place are classes with methods; each method is
proved against a function of the old state, and lemmas are proved about that
function. What the disk, the kernel, the network or another process answers is
a parameter or a freely chosen part of a step. `dafny verify dfyconfig.toml`
checks everything.

Fourteen things turned out not to hold as the source says or suggests; each has a
lemma or a method that shows it, and where there is a condition, the exact one:

- A flip that is not done within half a second is no longer waited for, though
  it may be done later. While it is outstanding an idle display shows an old
  frame, and the next frame is drawn into the buffer on the screen, a picture of
  no instant (`TearingRun.StalePanel`, `TearingRun.TornPanel`). Torn is a display
  that flips where it is being filled, its buffer scanned directly, with such a
  flip outstanding, and nowhere else (`Panels.TornIffLate`); an idle one scans its
  front buffer, which is the present, if and only if there is none
  (`Panels.IdleShowsThePresent`).
- The kernel's answer to taking the pointer off a cursor plane is ignored. A plane
  that keeps it shows it beside the one drawn into the frames, or on another
  plane (`PointerRun.SeenTwice`); a plane that is not to show the pointer shows it
  if and only if it was so kept (`PointerPlane.PointerIsSomewhere`), so it is seen
  once, in its place, where those calls work (`PointerPlane.PointerIsOnce`).
- A power cut among the renames leaves a slot that holds part of a release, if
  and only if it comes after the first and before the last
  (`Unpack.PowerCutAmongRenames`), although the comment at
  `internal/update/update.go:342-343` says it never does; every unpack that works
  goes through all of them (`Unpack.Slot.Unpack`). It is never the slot the boot
  loader falls back on (`Slots.SafeAtEveryStep`).
- TryOther can fail with `sc_try` written. The next update then empties the slot
  it names (`Slots.TryLost`). A try can be lost before GRUB gets to it if and only
  if its update has not got past TryOther or another has been started
  (`Slots.TryCanBeLost`).
- Settle can blame a release that was marked good (`Slots.BlamedWrongly`); it
  blames rightly if and only if `sc_boot` does not name the slot that was tried
  (`Slots.BlamedRightly`).
- A network can be kept that the interface was not on with the settings kept:
  a goroutine putting an earlier network back is not waited for
  (`Wifi.KeptIsInEffect`, and a run from a fresh start, `Wifi.KeptOnAnother`).
- A join whose apply fails is undone in the file only: wpa_supplicant keeps the
  network that could not be joined if and only if it had read it before the apply
  failed (`WifiWatch.FailedJoin`).
- A network forgotten is the one joined at the next boot if it was still being
  saved as it was forgotten (`WifiSaved.ForgottenComesBack`), and only then
  (`WifiSaved.ForgottenForGood`).
- A row clicked in the server list is the row shown if and only if the window's
  top is not -1, which a key on the empty list makes it
  (`Hosts.List.Click`, `Hosts.KeyBeforeTheFirstHost`).
- A line of the command pipe of 8192 bytes or more loses whole buffers
  (`Lines.NextIsTheLine`).
- A channel message of 2^32 bytes or more is cut short
  (`DvcRoundTrip.ArrivesIffShort`).
- A sound block whose size does not fit the 16-bit field is cut short, unless
  what is left of the size is too small to be one (`Rdpsnd.TwoHalves`).
- A variable whose name starts with `#` is lost from the boot environment
  (`Grubenv.RoundTrip`).
- A password or user name that makes a line of 65536 bytes ends the reading of
  the wireless configuration (`WifiConf.RoundTrip`).

## Model

| member | source | states |
|---|---|---|
| Rects.ClipIsIntersection | engine/kms.c:62-66 | a clipped rectangle has exactly the pixels of both, and is empty just when they share none |
| Rects.UnionIsBoundingBox | engine/kms.c:53-60 | the union holds both rectangles and lies in every rectangle that does |
| Regions.AddCovers | engine/kms.c:89-118 | every pixel covered before, and every one of the new rectangle, is covered after, merges and overflow included |
| Regions.AddKeeps | engine/kms.c:81-118 | a region of at most 16 non-empty rectangles no two of which touch stays one, and inside any box that holds the region and the new rectangle |
| Regions.AddIs | engine/kms.c:89-118 | an empty rectangle adds nothing, one that touches none goes to the end, one that touches the first rectangle that it touches takes that one's place and is added again as their union |
| Regions.AddWhenFull | engine/kms.c:103-116 | in a full region, the rectangle that gives way to its union with the new one is the one that wastes the least area, the first of equals |
| Regions.CheapestIsLeast | engine/kms.c:103-116 | the rectangle chosen to grow when the region is full wastes the least area, the first of equals |
| Regions.Region.Add | engine/kms.c:89-118 | the array in place becomes AddTo of what it was: the merge loop, the removals that fill the hole with the last rectangle, and the recursion end with that |
| Regions.Region.TakeOut | engine/kms.c:96-99 | rectangle i is taken out, its place taken by the last, and what comes back is its union with the new one |
| Clamp.ClampedIsNearest | engine/kms.c:690-692 | clamping each coordinate gives a shown point of the display, and none is nearer |
| Clamp.KmsClamp | engine/kms.c:682-702 | a shown point stays; any other goes to a shown point to which no point of any display is nearer, on the first display that has one |
| Clamp.OutputAt | engine/kms.c:672-680 | the first display that shows the point, or -1 exactly when none does |
| Desktop.BlendIsTheRoundedMean | engine/kms.c:781-806 | blending a premultiplied pointer pixel is the rounded mean it stands for, never cut off, and a clear one changes nothing |
| Desktop.BlendIsByColour | engine/kms.c:793-803 | each colour of a blend is the rounded mean of that colour of the pointer and of the source, a clear pixel leaves all three, an opaque one is itself |
| Desktop.FrameHasPointer | engine/kms.c:767-805 | image pixel (i, j) lies i right of and j below the hot spot's corner, on any display, blended over the desktop there; every other pixel is the desktop's |
| Desktop.SessionLies | engine/kms.c:752-758 | source pixel (i, j) lies at the origin plus (i, j) on every display; off the source it is black |
| Desktop.SessionIsCentred | engine/kms.c:998-1012 | a session is centred to within a pixel, on the first display alone where it fits there |
| Scanout.FillBlack | engine/kms.c:712-720 | exactly the rectangle is black, no other pixel is written |
| Scanout.Kms.Fill | engine/kms.c:725-749 | whatever the buffer held, the rectangle shows the desktop, black where the session does not reach, and nothing outside it is written |
| Scanout.Kms.DrawPointer | engine/kms.c:781-806 | over a buffer of any content, exactly the pointer rectangle gets the pointer blended over the source (not over what the buffer held) |
| Scanout.Kms.SourceWord | engine/kms.c:752-758 | the source's pixel, or black off the source |
| PresenterSafety.StepKeeps | engine/kms.c:808-1144 | every step of FreeRDP, of the pointer, of every display's thread and of the kernel keeps the invariant |
| PresenterSafety.RunKeeps | engine/kms.c:1014-1037 | the invariant holds at every point of every run from kms_start on |
| PresenterSafety.BuffersAreCoherent | engine/kms.c:936-993 | in both buffers of every display, always, a pixel outside the buffer's damage and pointer rectangle is the desktop's, but for what is being painted and not declared yet; the buffer being filled has its remaining rectangles instead |
| PresenterSafety.IdleHasThePresent | engine/kms.c:936-980 | no lost update: a thread that waits with nothing to do has an undamaged front buffer that is the present desktop with the present pointer, whether it flips, draws in place, or fell back after a failed flip |
| PresenterSafety.DrawnFrameIsExact | engine/kms.c:962-968 | a frame drawn is, pixel for pixel, the desktop of the instant it was drawn with the pointer over it |
| Panels.StepSeen | engine/kms.c:515-543 | every step, a flip done late and an event that comes for an earlier flip among them, keeps which buffer is scanned out, what frame each buffer is of and where a driver's copy lags |
| Panels.TornIffLate | engine/kms.c:808-827 | a display that flips has a pixel torn if and only if it is being filled there, the panel is the buffer itself, and a flip no longer waited for has still to be done |
| Panels.FlippedPanelsShowOneInstant | engine/kms.c:875-934 | no tearing otherwise: its panel is one instant of the run, whole |
| Panels.PanelsShowOneInstant | engine/kms.c:875-934 | any lit panel shows one instant of the run, except where a buffer on the screen is being filled, or was drawn in place and its driver not told, or told in vain |
| Panels.IdleShowsThePresent | engine/kms.c:808-934 | the panel of a display with nothing to do: a flip no longer waited for is outstanding if and only if the buffer scanned is not the front one; if none is, the panel is the present, but where a driver was told in vain; if one is, an earlier instant, whole |
| Panels.PushedIsAll | engine/kms.c:921-933 | the eighteen rectangles a driver is told of are always all that was drawn, and sixteen bits hold them |
| Panels.ShownIsUp | engine/kms.c:873-934 | for every display and every answer, what showing puts on the panel: the frame drawn, whole, at once or when the flip is done; nothing, where the first mode set fails; and where the driver that copies is behind |
| Settling.ComesToAnEnd | engine/kms.c:936-980 | left alone by FreeRDP and the pointer, the threads and the kernel do no more than a stated number of steps, in whatever order and however answered |
| Settling.NobodyIsStuck | engine/kms.c:949-970 | no deadlock: while FreeRDP does not hold the source, a display that is not idle means some thread has a step |
| Settling.AtRestIsThePresent | engine/kms.c:936-980 | when none of them has a step left, every display is idle and every panel lit is, to the pixel, the present desktop and pointer, but where a driver was told in vain |
| Settling.PresentIsAsTold | engine/kms.c:1039-1144 | in every run that present is the source as last given with what was painted since, and the pointer as last loaded, moved and hidden, whatever the threads and the kernel do; undeclared is what was painted and neither declared nor given anew since |
| Settling.RestIsReached | engine/kms.c:936-980 | from any point of any run at which FreeRDP has given the source back, there is such an end, no more than that many steps away |
| Settling.FlipsAreAccounted | engine/kms.c:525-543 | in every run each flip the kernel has taken is not done, done with its event to come, or delivered, exactly one of these |
| TearingRun.StalePanel | engine/kms.c:810-827 | a run after which an idle display's panel is not the present |
| TearingRun.TornPanel | engine/kms.c:905-912 | a run after which a flipping display's panel is no instant of the run |
| Panels.OnScreenIsPast | engine/kms.c:875-980 | what a buffer was drawn with, and what a driver copied, is an instant that was |
| PresenterSafety.DamageIsNoted | engine/kms.c:1047-1061 | a pixel of any display whose source point is declared is in the damage of both its buffers, a frame is asked for, and no picture is touched |
| PresenterSafety.DamageElsewhere | engine/kms.c:1047-1061 | a display of which no pixel is declared is left as it was |
| PresenterSafety.DamageRectIsTheChange | engine/kms.c:1047-1061 | a point changed is declared only where the rectangle damages it on the display |
| PresenterSafety.SwitchIsNoted | engine/kms.c:983-996 | a new source damages every pixel of both buffers of a display and asks for a frame |
| PresenterSafety.CursorAsks | engine/kms.c:1093-1144 | whether the pointer is loaded, hidden or moved, a frame is asked for of every display on which any pixel changes by it, and nothing but its cursor plane changes besides |
| PresenterSafety.CursorAsksOnly | engine/kms.c:1091-1098 | and of no display but those the pointer was drawn on before or is to be now |
| PointerPlane.PointerIsSomewhere | engine/kms.c:829-871 | in every run, whatever the kernel answers: a pointer to be shown is drawn into the frames, or the plane of the display its hot spot is on shows its image, in its place unless the last move failed; any other plane shows a pointer if and only if the kernel did not let go of it when it was asked to |
| PointerPlane.PointerIsOnce | engine/kms.c:845-871 | where the kernel moves and lets go of pointers when asked to, it is seen once, in its place: in the frames and on no plane, or on the plane of its display and on no other |
| PointerRun.SeenTwice | engine/kms.c:838-843 | a run from kms_start, a plane that does not let go of the pointer, after which it is drawn into the frames and still on that plane |
| PointerPlane.HotSpotsDisplay | engine/kms.c:849-857 | the display it is placed on shows the hot spot, if any display does |
| PointerPlane.SetIsPlaced | engine/kms.c:1071-1089 | a pointer loaded goes to the plane if and only if its display has a mode and a plane that it fits and that takes it; else it is drawn into the frames |
| PointerPlane.MoveIsPlaced | engine/kms.c:858-871 | one moved is on a plane if and only if its new display has a mode and a plane that it fits, and that has it already or takes it |
| PointerPlane.RefusedIsDrawn | engine/kms.c:1093-1098 | if it is not, a frame is asked for of every display it is to be drawn on |
| PresenterSafety.TakeLosesNothing | engine/kms.c:953-960 | every pixel of the damage taken, and every one of the pointer drawn in that buffer before, is to be filled |
| PresenterSafety.ShowKeeps | engine/kms.c:875-934 | showing keeps what is known of the buffers however the mode set, the flip, the driver and the cursor plane answer |
| Yuv.TailIsFreeRdp | engine/yuv.c:15-50 | the scalar arithmetic, shift on the chroma alone, is FreeRDP's clipped (256 Y + ...) >> 8 for every byte |
| Yuv.ChannelIsExact | engine/yuv.c:52-94 | mulhi of E << 8 by 403 or 475 is floor(k E / 256), with no 16-bit lane overflowing |
| Yuv.GreenIsExact | engine/yuv.c:52-94 | the green sum fits its lanes, and its arithmetic shift floors |
| Yuv.SplitIsTail | engine/yuv.c:52-94 | the packed blue, green and red of sixteen pixels are the scalar code's, each chroma sample serving two |
| Yuv.WeaveIsBgrx | engine/yuv.c:84-91 | the two rounds of interleaving leave each pixel's B, G, R, 0xff side by side, the pixels in order |
| Yuv.ConvertsEveryByte | engine/yuv.c:52-94 | every byte of a block of sixteen pixels is the byte the scalar code would write |
| YuvRows.TailRow | engine/yuv.c:40-50 | from any pixel on, exactly the row's bytes are written, each FreeRDP's |
| YuvRows.RowSse2 | engine/yuv.c:52-94 | at every width, exactly 4 w bytes are written, each FreeRDP's |
| YuvRows.RowAvx2 | engine/yuv.c:96-150 | the same, thirty-two pixels at a time, by lanes that work within their 128-bit halves |
| YuvRows.WideningKeepsOrder | engine/yuv.c:104-117 | the widened chroma has the same words in each half as two loads of eight samples |
| YuvRows.StoreHalves | engine/yuv.c:138-148 | after the permutations the low half's pixels lie first, then the high half's, and nothing else is written |
| YuvRows.ConvertImage | engine/yuv.c:163-176 | of a frame of any size, with either row, every byte of every row is FreeRDP's, and nothing beyond 4 w of a row is written |
| Lines.NextIsTheLine | engine/sc-rdp.c:97-123 | the next line comes whole if and only if it has at most 8191 bytes; of a longer one what follows its whole buffers |
| Lines.Reader.NextLine | engine/sc-rdp.c:99-123 | however the pipe cuts the stream up, the line returned is the stream's next, ended by a zero in the buffer, what remains is what follows it, and every access is within the buffer |
| Lines.Reader.LineReady | engine/sc-rdp.c:126-129 | true just when a newline is buffered, and then the next line can be had without reading |
| Input.Run | engine/sc-rdp.c:568-651 | for every way the pipe is cut up, the events sent are the lines' with only moves left out that another move follows at once |
| Input.ScriptEnds | engine/sc-rdp.c:568-651 | those lines are all up to the first that says quit, or up to the pipe's end |
| Input.CoalescingKeepsTheMeaning | engine/sc-rdp.c:566-567 | leaving those moves out changes nothing for the server: the same events, in order, each with the pointer where it was, and the pointer ends where it did |
| Input.LastMoveIsSent | engine/sc-rdp.c:599-606 | a move that is the last complete line is sent |
| Input.ActSays | engine/sc-rdp.c:608-645 | a line short of numbers, of no known button or of no notch sends nothing; of any other every event says what the line does, at its point, and there is one, or one for each notch |
| Input.KioskIsUnderstood | internal/rdp/engine.go:347-378 | each line the kiosk writes sends exactly what it asks for, if and only if a button it names is one of the five |
| Input.Wheel | engine/sc-rdp.c:558-564 | one event per notch, in the notches' direction |
| Input.ToSessionIsNearest | engine/sc-rdp.c:545-556 | a point of the screen goes to a point of the session, and none is nearer |
| Unpack.PendingNeverCollides | internal/update/update.go:344-389 | a pending path is never a file's own name nor lost+found, and two are the same only for the same file |
| Unpack.ValidNameIs | internal/update/update.go:420-430 | a name is taken if and only if it has 1 to 64 characters, all of them among the thirty-nine written out, starts with neither dot nor dash and does not end in .part; no such name leads out of the slot |
| Unpack.SkippedIs | internal/update/update.go:403-405 | what is passed over is the directory itself, under its two names, and nothing else |
| Unpack.Slot.ClearSlot | internal/update/update.go:467-481 | it works if and only if the directory can be read and every removal does; everything but lost+found then goes, in any order, else what cannot be removed stays, and nothing is gone if it cannot be read |
| Unpack.Slot.Extract | internal/update/update.go:393-416 | the names and pending files are exactly the archive's regular files; a bad name, kind, repeat, size or count stops it, and nothing else but the stream or a write |
| Unpack.Slot.Unpack | internal/update/update.go:344-389 | all or nothing: exactly the archive's files, of the release asked for, or an empty slot once the download had begun and files can be removed; it fails for no other reason than those named; at every moment on the way the slot is what is left of the old one, holds no file under its own name, or, the download being the release asked for, files of it; and when it works, every number of renames has been a moment |
| Unpack.UpdateIsComplete | build/Dockerfile:559-570 | an archive as a release packs it, of version and slot.cfg, is one unpack takes, for every tag with no white space around it and every slot.cfg |
| Unpack.UnpackUpdate | internal/update/update.go:344-389 | such an archive, every call working, is unpacked: the slot then holds exactly those two files, with those contents |
| Unpack.Slot.Check | internal/update/update.go:450-464 | a release is accepted just when its files are there and its version is the tag |
| Unpack.PowerCutAmongRenames | internal/update/update.go:378-388 | after k renames GRUB sees no file if and only if k is none, and the release if and only if it is all, pending files being none to it |
| Slots.StepKeeps | internal/update/update.go:299-330 | every step of Install, TryOther, whether it works, fails, or fails after its write, MarkGood, GRUB and the power keeps the invariant |
| Slots.SafeAtEveryStep | internal/update/update.go:299-330 | at every step of every run, power cuts anywhere, sc_boot names a slot that holds one whole release, and no step writes to that slot or the running one |
| Slots.TryIsWhole | internal/update/update.go:303-330 | while no update is started with a try set, a set sc_try names a slot that holds one whole release |
| Slots.TryCanBeLost | internal/ui/update.go:236-268 | a try made can be lost before GRUB gets to it if and only if the kiosk runs and its update has not got past TryOther, or another was started |
| Slots.TryLost | internal/bootenv/bootenv.go:107-123 | a run from any install in which TryOther fails after its write and the next update empties the slot sc_try names |
| Slots.TriedOnce | internal/bootenv/bootenv.go:424-433 | a boot of the other slot that neither marks itself good nor sets a try is followed by one of the known-good slot |
| Slots.SettledOnTheRelease | internal/update/update.go:570-582 | when Settle says this boot is the release tried, the running slot holds that very release |
| Slots.BlamedRightly | internal/update/update.go:560-582 | a release remembered as failed never was marked good if and only if sc_boot does not name its slot |
| Slots.BlamedWrongly | internal/update/update.go:560-592 | a run in which a release marked good is remembered as failed |
| Slots.KeptIsNotBlamed | internal/update/update.go:584-592 | once a release is kept, no try is on record and none is blamed until another update is tried, whatever boots come between |
| Slots.BlamedWasTried | internal/update/update.go:570-582 | a release newly blamed is the one last put on record, by an update that was not kept since |
| Slots.TryStaysOnRecord | internal/update/update.go:567-569 | a try stays on record through every boot, until it is kept, blamed or another is tried |
| Slots.UpdateIsKept | internal/update/update.go:299-330 | from any installed slot and for any release there is a run that ends with it kept: booted from the other slot, marked good, nothing on record, none blamed |
| Slots.UpdateIsBlamed | internal/update/update.go:570-582 | and one, in which it never comes up, that ends with it blamed and the old slot running, to be updated again |
| Slots.DoneIsUnpacked | internal/update/update.go:344-389 | what unpack leaves when it is done is what the update's next step waits for |
| Grubenv.Parse | internal/bootenv/bootenv.go:37-53 | the loop reads what the specification says line by line, or refuses a file without the header |
| Grubenv.Encode | internal/bootenv/bootenv.go:55-78 | exactly size bytes, header, sorted lines, padding; an error just when a variable cannot be stored or they do not fit |
| Grubenv.OneOrder | internal/bootenv/bootenv.go:55-62 | the same variables always make the same file: there is one sorted order |
| Grubenv.RoundTrip | internal/bootenv/bootenv.go:37-78 | Parse gives back what Encode wrote if and only if no name starts with '#' |
| Grubenv.NoComments | internal/bootenv/bootenv.go:44-51 | no name Parse gives starts with '#' |
| Grubenv.File.Modify | internal/bootenv/bootenv.go:90-123 | the file never changes its length and reads back as what was made of its variables just when every call works; untouched if it is no environment, nothing changed or the new one does not fit; else, where a write, sync or close fails, as many bytes as were written are the new ones |
| Graphics.CompactGPUs | internal/bootenv/bootenv.go:219-233 | the loop computes the first of each set, no empty one and no "once", the newest six |
| Graphics.CompactedTwice | internal/bootenv/bootenv.go:219-233 | at most six distinct sets, and compacting again changes nothing |
| Graphics.CompactedKeeps | internal/bootenv/bootenv.go:215-233 | only sets that were listed, and all of them while there are no more than six |
| Graphics.CompactedNewest | internal/bootenv/bootenv.go:215-233 | they are the newest: a set listed first after one that stays, stays too, and after it |
| Graphics.CompactedSize | internal/bootenv/bootenv.go:219-233 | as many as there are, or six |
| Graphics.SafeGraphics | internal/bootenv/bootenv.go:178-189 | true just when the menu asked once or these adapters are listed |
| Graphics.LeftSafe | internal/bootenv/bootenv.go:364-377 | true just when they are listed and the menu did not ask |
| Graphics.Environment.MarkGood | internal/bootenv/bootenv.go:303-335 | on every boot the slot that came up is the one to keep, if there is one, and its kernel, if it is one of the two; the count of failed kernels and the try are reset; the rest is Marked of the old environment; a restart is asked for just when new boot rules give the adapters their driver back |
| Graphics.EveryBoot | internal/bootenv/bootenv.go:308-333 | the same of Marked, for every environment, boot, adapters and boot rules |
| Graphics.Environment.RetryGPUs | internal/bootenv/bootenv.go:337-351 | the new environment is Retried of the old |
| Graphics.OtherBoots | internal/bootenv/bootenv.go:309-318 | new boot rules leave no adapters safe and hold nothing against any; a boot neither new nor left safe leaves the counts, and the list's sets, all of them up to six |
| Graphics.RetriedList | internal/bootenv/bootenv.go:337-351 | exactly that set is taken off the list |
| Graphics.OneBoot | internal/bootenv/bootenv.go:319-327 | a boot left safe counts one more, keeps the list's sets and changes no failure counted; the tenth takes its set off, counts one failure and drops the count |
| Graphics.TenBoots | internal/bootenv/bootenv.go:296-335 | over any run of boots left safe for the same adapters the count stays below ten, and there are never more than ten such boots |
| Dvc.ReadsWhatWasWritten | internal/dvc/dvc.go:241-277 | a variable-length number reads back as what was written, with what follows untouched, for every 32-bit value |
| Dvc.ShortestLength | internal/dvc/dvc.go:241-265 | a number takes as few of one, two and four bytes as hold it, and its code says how many |
| Dvc.EveryPduFits | internal/dvc/dvc.go:206-239 | every PDU a message is cut into has at most 1600 bytes |
| Dvc.Transport.SendData | internal/dvc/dvc.go:208-239 | the loop ends, having written exactly the message's fragments |
| Dvc.Transport.Process | internal/dvc/dvc.go:90-192 | open channels, listeners' events and replies become what Step and Reply say, for every PDU, malformed ones included; what those are is read off the bytes in the rows of DvcSession |
| Dvc.Transport.CloseAll | internal/dvc/dvc.go:79-87 | every channel that was open is closed once |
| DvcRoundTrip.MessageArrives | internal/dvc/dvc.go:133-173 | fed its own fragments, a channel hands over the message once, unchanged, and is idle again |
| DvcRoundTrip.ArrivesIffShort | internal/dvc/dvc.go:206-239 | a message arrives unchanged if and only if it has fewer than 2^32 bytes |
| DvcRoundTrip.ChannelsDoNotMix | internal/dvc/dvc.go:90-192 | in any mixture of PDUs each channel sees its own, in order, and nothing else |
| DvcRoundTrip.EveryChannelGetsItsMessages | internal/dvc/dvc.go:90-192 | in any mixture of PDUs a channel is handed exactly its messages, in order |
| DvcSession.CreateOpens | internal/dvc/dvc.go:106-130 | a Create read off its bytes: with a listener of that name the channel is open and idle, Opened is told once and the answer carries the number and status 0; without one nothing changes and the answer is not found |
| DvcSession.CloseCloses | internal/dvc/dvc.go:176-191 | a Close: the channel is not open, others are as before, and Closed is told and a Close that names it answered just when it was open |
| DvcSession.CapsAnswered | internal/dvc/dvc.go:101-104 | capabilities are answered with version 2 and change nothing |
| DvcSession.DataIs | internal/dvc/dvc.go:155-173 | data of a channel not open is dropped, of an idle one handed over, of one with a message begun added to it, handed over once as long as announced |
| DvcSession.FirstIs | internal/dvc/dvc.go:133-154 | a first fragment begins a message anew, or is one when it is all of it |
| DvcSession.NonsenseIsDropped | internal/dvc/dvc.go:90-105 | an empty PDU, one of no known command or one cut short in its numbers changes nothing and is not answered |
| DvcSession.CutMessageArrives | internal/dvc/dvc.go:133-173 | however the server cuts a message, it arrives once, unchanged, and the channel is idle again |
| DvcSession.ChannelsLife | internal/dvc/dvc.go:90-192 | Create, any messages cut in any way, Close, mixed in any way with what is for other channels: told exactly Opened, the messages in order, Closed, and the channel not open |
| DvcSession.NoListenerNoLife | internal/dvc/dvc.go:113-121 | without a listener of that name: told nothing, and the channel never open |
| DvcSession.FragmentsSend | internal/dvc/dvc.go:206-239 | what this side sends is a message so cut, every PDU but the last as large as it may be |
| Rdpsnd.TwoHalves | internal/rdpsnd/rdpsnd.go:199-233 | a block in two PDUs is whole again, the four bytes in WaveInfo first, if and only if its size fits the field or is too small to count |
| Rdpsnd.EveryBlockArrives | internal/rdpsnd/rdpsnd.go:104-129 | of any stream of blocks in either form, with other PDUs and new format lists between them, every block arrives once, in order, its samples the server's, its format of the last list |
| Rdpsnd.Channel.Process | internal/rdpsnd/rdpsnd.go:104-129 | the parsing state and the blocks completed are the specification's; each block completed joins the end of the queue, or, the queue full, is confirmed at once with its time plus that spent here, or, closed, dropped |
| Rdpsnd.Channel.Enqueue | internal/rdpsnd/rdpsnd.go:270-303 | a block is queued, or confirmed at once if 64 are waiting; after Close it is neither; what is sent is that confirmation and nothing else |
| Rdpsnd.Channel.Take | internal/rdpsnd/rdpsnd.go:282-283 | the oldest block goes from the queue to playing |
| Rdpsnd.Channel.Done | internal/rdpsnd/rdpsnd.go:284-303 | the block playing is played in the format offered, if it was, and confirmed either way, by its number and its time plus that spent here |
| Rdpsnd.LatencyIsMeasured | internal/rdpsnd/rdpsnd.go:294-303 | from a confirmation's time the server gets, modulo its sixteen bits, exactly how long the block was here |
| Wifi.StepKeeps | internal/ui/wifi.go:248-421 | every poll, join, forget and background goroutine keeps the invariant |
| Wifi.KeptNow | internal/ui/wifi.go:290-332 | a poll keeps a network only if its join wrote it, applied it and was done before that poll began, and the poll read the interface to be on it |
| Wifi.KeptOnceOn | internal/ui/wifi.go:252-389 | the kept network never changes in any other way, except by forgetting it |
| Wifi.SavedOnceKept | internal/ui/wifi.go:330-355 | nothing is saved for the next boot that did not become the kept network so before |
| WifiWatch.PollDecides | internal/ui/wifi.go:290-332 | when a poll of the present generation ends with no job under way, a network followed is kept if and only if the interface was read to be on it, given up and the kept one put back if and only if it was not and the time is up or it was refused, and followed on if and only if neither |
| WifiWatch.OtherPolls | internal/ui/wifi.go:267-280 | any other poll decides nothing, and one of an earlier generation does not say how the interface is either |
| WifiWatch.GivenUpIsUndone | internal/ui/wifi.go:315-325 | once the goroutine that undoes it is done, polls between, the kept network is the one in RunPath and the one wpa_supplicant has |
| WifiWatch.UndoneInTwo | internal/ui/wifi.go:317-325 | and it is done after its two calls |
| WifiWatch.UndoneJoin | internal/ui/wifi.go:366-372 | a join undone has the kept network in RunPath again |
| WifiWatch.WholeJoin | internal/ui/wifi.go:357-389 | a join by itself, however its calls answer: followed if and only if they work, with the network to go back to; what is then in RunPath and what wpa_supplicant has |
| WifiWatch.JoinCan | internal/ui/wifi.go:357-389 | and from any state with no join under way every such join can happen, for every network and every answer |
| WifiWatch.WholeForget | internal/ui/wifi.go:391-421 | a forget by itself: forgotten if and only if its calls work; what is then saved, in RunPath and read |
| WifiWatch.ForgetCan | internal/ui/wifi.go:391-421 | and every such forget, of any network kept |
| WifiWatch.FailedJoin | internal/ui/wifi.go:366-372 | after a join undone wpa_supplicant has the kept network if and only if the apply failed before it read the other |
| Wifi.PutBackIsKept | internal/ui/wifi.go:305-325 | what is put back is the kept network, which the join given up left as it was |
| Wifi.KeptIsInEffect | internal/ui/wifi.go:315-389 | that the interface was on with the very settings kept is certain if and only if, as the join begins, no goroutine has still to write other settings of the same name |
| Wifi.KeptOnAnother | internal/ui/wifi.go:305-325 | a run from a fresh start, a refused password and a second try, after which settings are kept that the interface was not on with |
| WifiSaved.SavedIsKept | internal/ui/wifi.go:334-355 | in every run whose calls work and that never changes the kept network while one is being saved, what is saved at rest is the kept network |
| WifiSaved.SettlesOnKept | internal/ui/wifi.go:334-355 | however the goroutines left take turns, what is saved in the end is the kept network if and only if it is all they have to save, and is saved already if there is nothing |
| WifiSaved.ForgottenForGood | internal/ui/wifi.go:391-421 | a network forgotten is not saved at rest, for certain, if and only if it is not being saved as the forget begins |
| WifiSaved.ForgottenComesBack | internal/ui/wifi.go:391-421 | a run from a fresh start that ends at rest with no network kept and the forgotten one saved |
| WifiList.List.Scroll | internal/ui/wifi.go:161-169 | the selection is in a full window, the window moved no further than it had to |
| WifiList.List.Move | internal/ui/wifi.go:155-158 | the selection moves, clamped; the window stays if it can |
| WifiList.List.SetNetworks | internal/ui/wifi.go:173-188 | the selection stays on its network, or on the hidden network's row, or goes to the first; and stays in view |
| WifiConf.UnhexOfHex | internal/wifi/wifi.go:309-333 | hex reads back as the bytes it was made of |
| WifiConf.Parse | internal/wifi/wifi.go:335-386 | the loop reads what the specification says line by line |
| WifiConf.NewConfigIs | internal/wifi/wifi.go:247-274 | a network is made if and only if its name has 1 to 32 bytes and what its kind takes was typed, else the error says which; it has the name, the kind, the identity for EAP alone, and the key: the passphrase, its derived key in hex, or its hash in hex |
| WifiConf.FixedLines | internal/wifi/wifi.go:313-333 | the lines written around a network's own, and their order |
| WifiConf.KindLines | internal/wifi/wifi.go:320-324 | the lines of an open network and of one with a derived key |
| WifiConf.SaeLines | internal/wifi/wifi.go:325-326 | those of an SAE network |
| WifiConf.EapLines | internal/wifi/wifi.go:327-330 | those of an EAP network |
| WifiConf.ScanOfLines | internal/wifi/wifi.go:339-341 | the scan yields the encoded lines up to the first that is too long |
| WifiConf.RoundTrip | internal/wifi/wifi.go:247-386 | every network NewConfig makes reads back as itself if and only if its one line of free length fits the scanner's buffer |
| WifiConf.NoneRoundTrip | internal/wifi/wifi.go:309-386 | no network reads back as no network |
| Tiles.FrameWriter.WriteUpdate | internal/rdp/framewriter.go:59-98 | after any update every pixel some tile has covered shows the last tile painted there, except exactly the pointer's pixels on the screen |
| Tiles.FrameWriter.MoveCursor | internal/rdp/framewriter.go:100-118 | the same after any move; no trail is left on what tiles have covered |
| Tiles.FrameWriter.HideCursor | internal/rdp/framewriter.go:120-130 | the same with no pointer |
| Tiles.FrameWriter.PaintCursor | internal/rdp/framewriter.go:141-155 | exactly the crosshair's pixels on the screen change, the middle one to the dot |
| SoftPointer.Pointer.Render | internal/ui/render.go:10-48 | a full render shows the screen with the pointer over it, and saves what it hides |
| SoftPointer.Pointer.MovePointer | internal/ui/render.go:50-91 | two squares on the device, and it shows what a full render with the pointer there would, at any place on or off the screen |
| SoftPointer.DrawCursor | internal/ui/draw.go:211-227 | exactly the sprite's pixels on the image are blended, each once |
| Scaled.ScaleIsLargest | internal/framebuffer/scaled.go:8-15 | the factor is the largest of one to four that leaves 1920 by 1080 |
| Scaled.Scaled.BlitRect | internal/framebuffer/scaled.go:61-84 | device pixel (x, y) is image pixel (x/f, y/f) for exactly the pixels of the rectangle on the screen and in the image |
| Scaled.Scaled.WritePixel | internal/framebuffer/scaled.go:86-95 | exactly a pixel's square on the device changes, and none for a pixel off the screen |
| Drives.FreeName | internal/usb/drives.go:393-405 | it ends, with the first of name, name-2, name-3... that no drive has |
| Drives.Drives.Hold | internal/usb/drives.go:121-132 | exactly the disk's drives are unmounted |
| Drives.Drives.Look | internal/usb/drives.go:147-170 | a device that is not mounted, of a disk not held and without three failures in a row with this medium is tried once, and no other is; it is mounted just when the try works, under the first name free |
| Drives.Drives.Poll | internal/usb/drives.go:136-171 | a wanted device is mounted if and only if it stays, or is due, its disk not held and fewer than three failures, and has a file system; nothing else is mounted; directories are distinct and no medium has failed more than three times in a row |
| Hosts.StayingIs | internal/ui/state.go:416-437 | what stays of a list without repeats is exactly its hosts found or kept |
| Hosts.List.AddHost | internal/ui/state.go:194-214 | the host is in the list once, its row returned, a known name kept |
| Hosts.List.HostFound | internal/ui/state.go:368-393 | a listed host takes what the scan found and keeps its name if that found none; another is added |
| Hosts.List.ScanComplete | internal/ui/state.go:416-437 | exactly the hosts found or kept stay, in order; the cursor stays on its host if that does, else on its row, and in a window it was in, whose top stays unless the cursor is above it |
| Hosts.List.WholeScan | internal/ui/state.go:368-437 | after a whole scan, whatever it finds and in whatever order, the list is of exactly the hosts found and those kept that were in it |
| Hosts.List.Connect | internal/ui/loop.go:603-604 | the cursor is on the server typed in, which is in the list once |
| Hosts.List.NewPort | internal/ui/netdialog.go:237-247 | the list is empty and the window back at the top, in range |
| Hosts.List.VisibleHosts | internal/ui/state.go:347-362 | in every reachable state it slices in range, and gives as many rows as there are |
| Hosts.List.MoveSelection | internal/ui/state.go:439-457 | the cursor moves, clamped, and the window follows only as far as it has to |
| Hosts.List.Click | internal/ui/loop.go:474-484 | a click picks the row shown there if and only if the window's top is not -1 |
| Hosts.KeyBeforeTheFirstHost | internal/ui/state.go:439-457 | a key on the empty list leaves the window's top at -1 when hosts come |
| Cidr.NextIsOneMore | internal/scanner/cidr.go:36-43 | carrying byte by byte is adding one, modulo the size of the address space |
| Cidr.Inc | internal/scanner/cidr.go:36-43 | the loop in place is that carry |
| Cidr.MaskedIsFirst | internal/scanner/cidr.go:17 | masking an address takes it to the first of its block |
| Cidr.InBlockIs | internal/scanner/cidr.go:17 | being in the block, bit by bit, is being one of its numbers |
| Cidr.BroadcastIs | internal/scanner/cidr.go:45-51 | being the broadcast address, bit by bit, is being the last of them |
| Cidr.ExpandCIDR | internal/scanner/cidr.go:10-28 | for every prefix of 1 to 32 it ends with all addresses strictly between the first and the last, ascending, once each, at the top of the address space too |
| Cidr.SlashZeroHasThemAll | internal/scanner/cidr.go:17 | with no prefix bits every address is in the block, so its loop has no end |

## Left out

- The kernel's display interface: ioctls, mmap and mode choice; only whether a call works is kept, as a free choice. It takes a flip only with none outstanding, and a mode set that works comes after one that is. kms_close is not modelled.
- A display that refuses both a page flip and the mode set that replaces it: no claim is made about its panel, which shows an older frame.
- FreeRDP declares with kms_damage everything it painted before it releases the source lock: Presenter's Unlock supposes that.
- PointerPlane.PointerIsSomewhere: a plane's picture is its image and place; how the hardware blends it, the hot spot told to it, and a cursor image that there is no memory for, which leaves the old one, are not modelled.
- Pixel words are four channels and pitches are in pixels; conversion to other framebuffer formats is not modelled, in Scanout, Tiles or SoftPointer.
- Integers of C and Go are unbounded where the source's values cannot reach their limits (screen coordinates, lengths); lanes of vector registers, the 16- and 32-bit fields of the protocols and the bytes of addresses are bounded as they are.
- Clamp.KmsClamp: asks that the distances fit a long, as the C arithmetic does.
- Lines.Reader.NextLine: does not model a read interrupted by a signal, which only reads again, nor a NUL byte inside a line, at which C string functions stop.
- Input.Run: sscanf and kms_clamp are given functions; the status line that tells the kiosk where the pointer is, the moving of the pointer on the screen and the translation of flags are not modelled, and points are the screen's until ToSession.
- Unpack.Slot.Unpack: the SHA-256 of the stream is a field of the download, the watchdog a flag of it, and progress reports are left out; HTTP and gzip are not modelled, and white space around a version is ASCII.
- Slots.SafeAtEveryStep: the boot environment is written all or not at all, as GRUB and the kiosk assume, though Grubenv.File.Modify has a write cut short; a slot partly written is taken never to come up far enough to be marked good; what GRUB does is the rule documented at internal/bootenv/bootenv.go:424-427.
- The choice of an update: fetching the release list, comparing versions and reading checksums.
- Grubenv.Encode: strings are characters; escaping, which GRUB would need for a backslash, is refused as in the source.
- Graphics.TenBoots: the variables MarkGood knows are fields of a record; a count beyond the range of a 64-bit integer, which nothing writes, is not modelled.
- Copying the boot script to the ESP, reading /sys and /proc, and mounting: their answers are parameters.
- Dvc.Transport.Process: whether a listener exists is a set of names; listeners do not fail.
- Rdpsnd.Channel.Process: the format list's parsing is a given function, and log lines, training and volume PDUs, which keep nothing, are left out; when the queue is closed the goroutine still confirms what it had.
- WifiSaved.SavedIsKept: is of a kiosk that can write for the next boot; one that cannot says so.
- Wifi.KeptOnceOn: the interface stays the same, as a change starts the dialog afresh; the wall clock is a free choice of whether the time is up.
- Wifi.KeptIsInEffect: supposes that a status naming a network is of the network wpa_supplicant last read, which the source supposes too.
- WifiConf.RoundTrip: PBKDF2 and MD4 are given functions of the right lengths, strings are of bytes, and only ASCII white space is trimmed.
- Scan results: unescaping names, keeping the strongest of a name, and sorting, which would add easy members.
- Tiles.FrameWriter.WriteUpdate: a pixel no tile has covered yet is claimed only where the pointer is.
- Drives.Drives.Poll: an unmount that fails is forgotten as in the source, so mounted means mounted as the kiosk knows it; recognising SimpleClient's own media and making a directory's name from a label are not modelled.
- Hosts: endpoints are numbers, one for each address and port; scan progress, times and the banner are left out.
- Cidr.ExpandCIDR: is of IPv4 addresses; parsing the text of a block is not modelled, and IPv6 blocks, which are never scanned, are left out.
- Concurrency is one step per critical section or call outside one; the memory models of C and Go are not modelled.
- Rendering, fonts, message catalogues, key tables and the rest of the user interface.
