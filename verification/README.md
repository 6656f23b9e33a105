# NWinfo: verified models of its core algorithms

The project models the parts of NWinfo whose behaviour depends on loops, recursion, in-place
updates or two parties acting at once, and proves what they promise.

* **Option parser** (`CStrings`, `OptScan`, `Optparse`, `Scanner`, `OptPrint`, `OptWrite`). `optparse.h` is a class whose
  methods shift `argv` in place and recurse past non-options. It is proved against functions of the
  argument words. One call moves the words it consumed in front of those it skipped and touches nothing
  else. The option loop of `nwinfo.c` returns what one left-to-right scan that moves nothing returns,
  and leaves a stable partition of the command line. The permuted command line is a normal form, and
  options written in any
  form, with `--` or `/`, a joined value or one of its own, parse back to what they mean.
* **Background refresh** (`Refresh`, `RefreshRun`, `RefreshResults`, `RefreshServed`, `RefreshCopies`). The UI thread
  and the worker of `gnwinfo/context.c` take interleaved atomic steps. The Win32 semantics of the auto-reset event, of
  `WaitForMultipleObjects` (lowest signalled index) and of the slim lock are taken as given. The
  handlers are programs of lock, build, swap and free actions. One inductive invariant gives the results: no
  posted bit is lost, every snapshot is freed exactly once, what is drawn stays live, and the join ends. When a
  handler has run to its end each slot it replaces holds a snapshot made during that run, or null if its build failed.
* **SMU mailbox** (`SmuMailbox`). `WR0_SendSmuCmd` runs against firmware that may act before every register
  access. A command is sent only when none is outstanding, so over any run a late reply to a timed-out call
  never becomes the result of a later one.
* **PCI scan** (`PciScan`). The triple loop of `WR0_FindPciByClass` indexes the only ordered enumeration of the functions
  whose class register starts with the three bytes asked for; functions 1 to 7 count only in a device whose function 0
  has bit 7 of its header type set
  (section 6.2.1 of the PCI Local Bus Specification, revision 3.0).
* **Id databases** (`IdsLines`, `IdsTree`, `IdsLookup`, `Hwid`). The cursor lookups of `ids/ids.c` on the text of a
  vendor or class tree give the names in the tree; the hardware id parser in front of them is included.
* **JEDEC list** (`Numbers`, `Jep106`, `Jep106Pages`). The list that `parse_jep106.py` writes is looked up by
  `NWL_GetSpdManufacturer`: from the lines of the document's pages to the name found, writer and reader agree on every
  bank and id.
* **Buffers and text** (`Utf8`, `HumanSize`, `TrimText`, `MultiSz`, `ArgFilter`, `ArgFilterBits`, `ArgSet`). UTF-16 to
  UTF-8, human-readable sizes and reading them back, trimming, appending to a REG_MULTI_SZ value, and the comma-separated filters and sets of `nwinfo.c`.

Where the C code changes objects or buffers, the model has classes, arrays and loops with the same branches;
each such method is tied to a function, and the promises are lemmas about that function.

## What the proofs found

* `OptPrint.PrintParse`: the round trip holds exactly when every use is printable. An entry with the empty
  long name prints a bare use as `--`, which ends the options.
* `IdsLookup.VendorKeyExactIff`: a vendor lookup also matches class lines. Over files of vendors and classes it is exact
  for a key unless the key reads like the start of a class line (`C 03`, say); then it can return a class name.
  With further sections behind, as in the USB list, it is exact only for four hex digits and for keys no line can
  start with (`VendorKeyExactWithOthersIff`).
* `HumanSize.OneHundredthExactly`: for a base of at least 100 whose hundredfold fits 64 bits the printed value is less than one hundredth low for every
  64-bit size exactly when 100 divides the base or the smallest size that misses, `FirstMiss(base)`, does not fit 64
  bits. It is always less than (base - g + 100)/base hundredths low for a common divisor g of 100 and the base
  (`SharpSlack`), and for the greatest one no smaller numerator will do (`SlackIsSharp`). With base 1024 that
  is 1.09375, and 1059062 bytes, printed as 1.00 MB, is the first miss (`KibiMisses`).
* `MultiSz.AppendExactlyWhenNonempty`: appending keeps the value a well-formed list exactly when the old list was not empty.
  On an empty list the code writes a single NUL, and the result is no list.
* `ArgFilter.EmptyTokenDoesNotStop`: an empty token in the middle (`a,,b`) does not end the filter list; only the
  end of the string does. The flags are those of the tokens before the first empty one, for all
  tables, exactly when the later tokens repeat earlier ones; `EmptyTokenAndPrefix` says when the returned token is
  the one found before it.
* `RefreshResults.ServedExactly`: a post that finds its bit already in the mask is merged into the one before. With nothing
  pending a handler has started as often as its bit was posted exactly when no post found the bit set;
  `MergedRun` reaches a state with two posts and one start.
* `RefreshCopies.UnlockedReadSafeExactly`: a snapshot read without the lock, as the tray menu reads the battery
  (gnwinfo/systray.c:71 and 152), stays live whatever the worker does meanwhile exactly when no posted bit of its
  slot is unserved and no handler in hand has the slot's swap ahead. `UnlockedCopyDies` is a run from the start in
  which the battery snapshot is freed.
* `SmuMailbox.Mailbox.SendSmuCmd`: a register that holds 0xFFFFFFFF reads as a failure. With no driver failure a call succeeds
  exactly when its reply came within the polls and neither its status nor one of its six words is 0xFFFFFFFF; otherwise
  the arguments stop at the first such word. A status of 0xFFFFFFFF stays in RSP, and every later call returns -2
  without sending anything. `AllOnesReply` is such a run.

## Assumptions

* Mailbox: RSP is nonzero at the start; configuration writes take effect; no other agent uses the
  mailbox or the index/data window; the firmware stores its reply words before it sets RSP; the
  eight mailbox registers have different addresses. Reads may fail at any time.
* PCI: what a function answers does not change during a scan.
* Refresh: the worker thread exists and its waits do not fail.
* Text: the C locale for case folding and character classes; `malloc` and `_strdup` succeed; an id file fits a DWORD.

## Model

| member | source | states |
|---|---|---|
| CStrings.StrniEqPrefix | optparse.h:198 | `_strnicmp(a, b, n) == 0` with n at most the length of a means that b has at least n characters and the first n agree ignoring case |
| CStrings.StrniEqShort | optparse.h:198 | a string shorter than the bound never equals a longer one |
| CStrings.SearchFirst | ids/ids.c:155 | the search gives the first occurrence of the needle, and nothing exactly when there is none |
| OptScan.MatchIsTextBeforeEq | optparse.h:190-202 | a "="-free name matches exactly when it is the text before the first "=", ignoring case |
| OptScan.BeforeEqShape | optparse.h:204-213 | the text splits at its first "=" into the name part and the argument part |
| Optparse.Parser.constructor | optparse.h:139-149 | a fresh parser permutes, stands behind the program name and has no argument or message |
| Optparse.Parser.Error | optparse.h:123-137 | the buffer reads as message, separator and data cut so that quote and terminator fit 64 bytes; the result is the error code |
| Optparse.Parser.Permute | optparse.h:174-182 | the in-place shift moves exactly the word at index behind those up to optind |
| Optparse.Parser.OptsArg | optparse.h:204-213 | the part after the first "=", or NULL |
| Optparse.Parser.HandleShortopt | optparse.h:215-274 | return value, slots consumed, optopt, optarg and message of a short option word, in every branch |
| Optparse.Parser.HandleLongopt | optparse.h:276-319 | the same for a long option word, with `--` or `/` in front; `OptWrite.WrittenEffect` says what that effect is |
| Optparse.Parser.Parse | optparse.h:321-358 | one call that skips k non-options and consumes m slots returns the effect of the option behind them (`OptWrite.WrittenEffect`, `OptPrint.ShortWord`), leaves the m slots first, the k words next in order and all other words in place, and advances optind by m; error returns included |
| Optparse.Parser.ParsePastNonoption | optparse.h:346-353 | the permuting tail of the recursion keeps that contract |
| Optparse.MoveBehindExtendsMoved | optparse.h:348-351 | the step of the unwinding recursion: moving one more skipped word behind the consumed ones |
| Optparse.ErrorTextShape | optparse.h:126-136 | a buffer filled by the three copy loops reads back as the error text |
| Scanner.CallSkips | optparse.h:321-358 | a call is a maximal run of non-options followed by the effect of the first option behind it |
| Scanner.ScanSkips | optparse.h:346-353 | leading non-options do not change the rest of a scan that moves nothing |
| Scanner.ScanAtOption | optparse.h:321-358 | the scan of skipped words followed by an option is that option's effect followed by the scan of the words left over |
| Scanner.CallIsScanStep | optparse.h:321-358 | a call returns the scan's first option, and the scan of the words it leaves is the scan's remainder |
| Scanner.ScanPartitions | optparse.h:321-358 | for every argv the consumed words and the words left over are a stable partition of the input |
| Scanner.ScanPermutes | optparse.h:321-358 | no word is lost or duplicated |
| Scanner.ConsumedReparse | optparse.h:321-358 | behind the consumed words, any words that stop at "--" or hold no option leave the parse as it was |
| Scanner.PermutedReparse | optparse.h:321-358 | parsing the permuted command line again gives the same options and the same remaining words |
| Scanner.TurnWithOption | nwinfo.c:367-373 | a turn of the option loop takes the next item of the scan and keeps the words behind it scannable |
| Scanner.TurnAtEnd | nwinfo.c:367-377 | a turn that returns DONE or an error stands at the end of the scan, with argv fully permuted |
| Scanner.ParseOptions | nwinfo.c:364-381 | the options applied are the scan's options up to the first help option (entry 0 or 1 of the table), those `OptWrite.WrittenParse` reads off the words; an error gives its message; at the end argv is the consumed words, the skipped ones in order and what follows "--", and optind is behind the consumed ones |
| OptPrint.EqSplitsAppended | optparse.h:190-213 | a "="-free name followed by "=value" splits back into the two, whatever the value |
| OptPrint.FindsPrinted | optparse.h:289-292 | a printed option selects exactly the entry it was printed from, when names are "="-free and distinct ignoring case |
| OptPrint.PrintedEffect | optparse.h:276-319 | the effect of a printed word before any other words, and that it is wrong if the use is not printable |
| OptPrint.PrintedScan | optparse.h:321-358 | a printable word scans to its use and leaves the scan of the words behind it; any other gives no use or a wrong value |
| OptPrint.PrintParse | optparse.h:190-358 | parsing a printed list of uses gives the list back exactly when every use is printable |
| OptPrint.ShortWord | optparse.h:215-274 | a short name in either case selects exactly its entry and takes exactly the value attached to it or the word behind it; a missing or forbidden value is an error that consumes nothing |
| OptWrite.WordKinds | optparse.h:151-172 | the four kinds of words by their text: a word with "/" and at least one more character is a long option |
| OptWrite.WrittenEffect | optparse.h:276-319 | an option written with "--" or "/", its name in any case, its value joined by "=" or in the next word, gives its entry and exactly that value and consumes exactly its words; in any form that does not fit the entry it does not |
| OptWrite.WrittenScan | optparse.h:321-358 | such an option scans to what is meant and leaves the scan of the words behind it |
| OptWrite.WrittenParse | optparse.h:276-358 | parsing any mixture of such options, before nothing or before "--" and any words, gives exactly what is meant and leaves those words alone if and only if every option is written in a form its entry takes |
| OptWrite.NextWord | optparse.h:307-314 | a required value standing in the next word is taken whatever it looks like, and two slots are consumed |
| OptWrite.ErrorReads | optparse.h:123-137 | a message reads "text -- 'data'" and is cut to 63 characters in all, the closing quote kept |
| OptWrite.UnknownWord | optparse.h:215-319 | a word that names no entry is an error with its name; a long word is consumed, a short one is not |
| OptWrite.WrongValue | optparse.h:299-312 | a missing value and a value that is not taken are errors with the name |
| OptWrite.HelpAsked | nwinfo.c:364-381 | "/?", "--help" and "-h", in either case, end the loop with the usage text and nothing applied |
| Refresh.HandlersDisciplined | gnwinfo/context.c:43-214 | every handler of the table swaps only under the exclusive lock, releases what it acquires and leaves no built or stale snapshot behind; what it publishes is `RefreshServed.HandlerPublishes` |
| Refresh.SecondPlanNeedsNothing | gnwinfo/context.c:60-115 | both branches of the 1 s handler do so |
| RefreshRun.MemStepSound | gnwinfo/context.c:43-199 | every action of a disciplined handler keeps each live snapshot held by exactly one pointer and each freed one freed once |
| RefreshRun.AllocSound | gnwinfo/context.c:82-90 | building a snapshot keeps that |
| RefreshRun.MoveSound | gnwinfo/context.c:122-125 | moving a pointer keeps that |
| RefreshRun.FreeSound | gnwinfo/context.c:127 | freeing the old snapshot keeps that |
| RefreshRun.OwedMeans | gnwinfo/context.c:240-246 | a bit is not owed exactly when each of its posts is followed by a start of its handler |
| RefreshRun.MergedMeans | gnwinfo/context.c:266 | no post of a bit was merged exactly when each found the bit clear in the mask |
| RefreshRun.ResetServedMeans | gnwinfo/context.c:134-248 | no resetting handler has finished since the last drain exactly when a drain has ended after each that finished |
| RefreshRun.HandlerResets | gnwinfo/context.c:130-199 | the disk, display and memory-module handlers reset init_done exactly once, the others never |
| RefreshRun.StartedFinishes | gnwinfo/context.c:216-224 | a handler that started is running or has finished |
| RefreshRun.InitHolds | gnwinfo/context.c:280-287 | the invariant holds when the first bit is posted |
| RefreshRun.BitsKeptStep | gnwinfo/context.c:240-267 | every step keeps each posted and unserved bit in the mask or in the worker's hands, and accounts for every post: served, merged, or standing there still |
| RefreshRun.BitsSignalledStep | gnwinfo/context.c:232-268 | every step keeps: a nonempty mask means a signalled event, a poster before its SetEvent, or a worker that will exchange the mask again; and the stop order |
| RefreshRun.InitTrackedStep | gnwinfo/context.c:134-248 | every step keeps init_done in agreement with the last reset and drain |
| RefreshRun.InitPlacedStep | gnwinfo/context.c:134-248 | every step keeps: init_done is set exactly when a drain has ended, no resetting handler is past its reset, and none has finished since |
| RefreshRun.HandlersTrackedStep | gnwinfo/context.c:216-224 | every step keeps handlers running one at a time, each finishing as the one that started |
| RefreshRun.OwnedWork | gnwinfo/context.c:43-251 | every worker action keeps lock and memory as the rest of its handler needs them |
| RefreshRun.OwnedUi | gnwinfo/gnwinfo.c:435-453 | so does every action of the UI thread, including the frees at exit |
| RefreshRun.StepKeepsInv | gnwinfo/context.c:226-268 | the whole invariant is kept by every step of either thread |
| RefreshRun.RunKeepsInv | gnwinfo/context.c:226-268 | and so holds over every run |
| RefreshResults.NoPostIsLost | gnwinfo/context.c:226-268 | when the worker has exited, every post of a table bit is followed by a start and a finish of its handler |
| RefreshResults.JoinedAfterAllPosts | gnwinfo/context.c:403-414 | when the join returns, the worker has left with an empty mask, nothing is owed and the lock is free |
| RefreshResults.PostsWakeTheWorker | gnwinfo/context.c:232-268 | in every reachable state a nonempty mask will be exchanged; an owed bit stands in the mask or in the worker's hands; a sleeping worker with no signal under way owes nothing |
| RefreshResults.ServedExactly | gnwinfo/context.c:240-267 | each post has been served, merged or is pending; with nothing pending, starts equal posts exactly when no post found its bit set |
| RefreshResults.MergedRun | gnwinfo/context.c:240-267 | a reachable state in which two posts have been served by one start |
| RefreshResults.InitDoneExactly | gnwinfo/context.c:134-248 | init_done is set exactly when a drain has ended, no disk, display or memory-module handler is past its reset, and a drain has ended after each that finished; one in hand then has its reset ahead |
| RefreshResults.WaitingHoldsNoLock | gnwinfo/context.c:232-249 | outside handlers the worker holds no lock; init_done agrees with the last reset and drain of the history |
| RefreshResults.PublishedLive | gnwinfo/context.c:92-128 | in every reachable state published pointers are null or live, and no snapshot has been freed twice |
| RefreshResults.FreedExactlyOnce | gnwinfo/context.c:426-441 | after exit every snapshot ever built has been freed exactly once |
| RefreshResults.DrawSafe | gnwinfo/gnwinfo.c:434-445 | while the UI holds the lock, whatever the worker does, a snapshot it sees stays published and live |
| RefreshResults.DrawMem | gnwinfo/context.c:43-199 | no action of a handler outside the lock touches a published snapshot |
| RefreshResults.DrawStep | gnwinfo/gnwinfo.c:434-445 | one step of that |
| RefreshServed.HandlerPublishes | gnwinfo/context.c:43-214 | whatever the UI does meanwhile, when a handler has run from its start to its end each slot it replaces holds a snapshot made during that run, or null if its build failed; on the sensor view the GPU list is made if there was none; every other slot is as it was |
| RefreshServed.HandlerEnds | gnwinfo/context.c:43-214 | while the UI leaves the lock alone the worker can run any handler to its end, whatever its builds come to |
| RefreshServed.HandlerOutcome | gnwinfo/context.c:43-214 | what the actions of a handler make of one slot, for each handler, view and outcome of the builds |
| RefreshServed.ServingRun | gnwinfo/context.c:43-214 | over any run inside a handler the memory is what its remaining actions need for that outcome |
| RefreshServed.AgreesStep | gnwinfo/context.c:82-128 | what one action does to the published and the local pointer of a slot |
| RefreshServed.FreshIsLive | gnwinfo/context.c:92-128 | a snapshot published so is live |
| RefreshCopies.SwapReplaces | gnwinfo/context.c:122-127 | a handler that has built its snapshot publishes exactly that one and frees the one before within four actions |
| RefreshCopies.CopyStaysExactly | gnwinfo/context.c:92-180 | lock or no lock, over any run a snapshot seen published is still published if and only if no step swapped or took it or freed that slot at exit, and is live as long as that |
| RefreshCopies.BatteryRun | gnwinfo/context.c:117-128 | a reachable state with a published battery snapshot and the next one built, the lock free and the UI idle |
| RefreshCopies.UnlockedCopyDies | gnwinfo/systray.c:71 | a run that frees the battery snapshot the UI could read without the lock |
| RefreshCopies.HandlerSwaps | gnwinfo/context.c:43-214 | a handler of the table takes away what is published in a slot exactly when its bit is one of the slot's; what stands there in the end is `RefreshServed.HandlerPublishes` |
| RefreshCopies.AheadStep | gnwinfo/context.c:216-246 | an action of the worker puts no replacement ahead, and what is ahead stays ahead or is done, on the branch to the view that shows the slot |
| RefreshCopies.AheadMeans | gnwinfo/context.c:216-246 | a replacement is ahead exactly when a bit of the slot stands in the mask or in the worker's hands or the handler in hand still swaps or takes the slot |
| RefreshCopies.DoomedDies | gnwinfo/context.c:216-246 | a published snapshot with a replacement ahead is freed by some run of the worker alone |
| RefreshCopies.UnlockedReadSafeExactly | gnwinfo/systray.c:71 | with the UI idle and off the lock, a published snapshot is live after every run of the worker if and only if no replacement of its slot is ahead |
| RefreshResults.HandlerWeights | gnwinfo/context.c:43-214 | every handler takes a bounded number of actions |
| RefreshResults.WorkerProgress | gnwinfo/context.c:232-249 | while the UI does not hold the lock every action of the worker lowers a bound |
| RefreshResults.WorkerRunsEnd | gnwinfo/context.c:232-249 | from every such state the worker's runs are bounded and end only in its exit or in a sleep with nothing owed, unless a post is half done |
| RefreshResults.JoiningProgress | gnwinfo/context.c:409-411 | while the UI waits for the join the worker can always act, and each action brings its exit nearer |
| RefreshResults.JoinTerminates | gnwinfo/context.c:409-411 | every run of the worker during the join is bounded and only its exit ends it |
| SmuMailbox.PairedAlternates | ioctl/ioctl.c:1275-1319 | in a log whose entries fit, commands and replies alternate, and each reply carries the number and arguments of the command just before it |
| SmuMailbox.Mailbox.FirmwareStep | ioctl/ioctl.c:1299-1309 | a firmware step keeps the invariant, does nothing while no command is outstanding, and otherwise takes up, stores or sets the reply chosen |
| SmuMailbox.Mailbox.StoreWord | ioctl/ioctl.c:1299-1309 | storing a reply word changes nothing else |
| SmuMailbox.Mailbox.SetStatus | ioctl/ioctl.c:1299-1309 | setting RSP completes the reply, whose words then stand in the argument registers |
| SmuMailbox.Mailbox.Interfere | ioctl/ioctl.c:1275-1319 | any number of firmware steps answer at most the outstanding command |
| SmuMailbox.Mailbox.Store | ioctl/ioctl.c:1145-1149 | a store through the window changes one register; a store to CMD sends the command with the arguments standing in ARG |
| SmuMailbox.Mailbox.WrPciConf32 | ioctl/ioctl.c:1134 | a write of the index or the data register, one access |
| SmuMailbox.Mailbox.RdPciConf32 | ioctl/ioctl.c:1135 | a read of the data register gives the register the window points at, or all ones when the driver fails it |
| SmuMailbox.Mailbox.ReadSmn | ioctl/ioctl.c:1131-1143 | succeeds exactly when the driver reads the register and it does not hold 0xFFFFFFFF; then gives its value; two accesses |
| SmuMailbox.Mailbox.WriteSmn | ioctl/ioctl.c:1145-1151 | the register takes the value; two accesses |
| SmuMailbox.Mailbox.PollRsp | ioctl/ioctl.c:1275-1288 | success means that the firmware is idle and RSP neither 0 nor 0xFFFFFFFF; a failure without a driver failure means RSP is 0xFFFFFFFF; a timeout comes after exactly 8096 reads, with RSP still 0 behind the last, so a reply that is there by the 8096th read is taken |
| SmuMailbox.Mailbox.ArgRegsApart | ioctl/ioctl.c:1290-1321 | the six argument registers stand four bytes apart from ARG on |
| SmuMailbox.Mailbox.PutCommand | ioctl/ioctl.c:1290-1300 | sends the command with exactly the given arguments |
| SmuMailbox.Mailbox.TakeReply | ioctl/ioctl.c:1314-1321 | the arguments become a prefix of the reply followed by the old suffix; without a driver failure the prefix ends at the first 0xFFFFFFFF word; all six exactly on success |
| SmuMailbox.Mailbox.AwaitReply | ioctl/ioctl.c:1302-1321 | the wait for the reply and its reading, with the exact outcome when the driver does not fail |
| SmuMailbox.Mailbox.SendIdle | ioctl/ioctl.c:1290-1321 | the call from the first nonzero RSP on |
| SmuMailbox.Mailbox.SendSmuCmd | ioctl/ioctl.c:1221-1326 | at most one late reply, one command and its reply are added to the log; 0 exactly when all six arguments are the reply to this command; without a driver failure, 0 exactly when the reply came within the polls with no 0xFFFFFFFF status or word, -3 exactly when a command is left outstanding; failures leave a reply prefix and the old suffix; once RSP holds 0xFFFFFFFF nothing is sent; at call boundaries RSP is 0 exactly when a command is outstanding; accesses bounded |
| SmuMailbox.Mailbox.Answer | ioctl/ioctl.c:1299-1309 | the firmware can answer a command with any reply of nonzero status |
| SmuMailbox.Mailbox.AllOnesReply | ioctl/ioctl.c:1290-1321 | a run in which the reply has an all-ones status or word and the call returns -2, cut off at the first such word |
| SmuMailbox.Mailbox.NextCall | ioctl/ioctl.c:1223-1326 | a successful call after any firmware activity finds its own command and the reply to it in the log |
| SmuMailbox.Mailbox.RunCalls | ioctl/ioctl.c:1223-1326 | over any run of calls, each call that succeeds got the reply to its own command, in call order; no reply serves two calls |
| PciScan.Address | ioctl/ioctl.h:56 | the address is below 65536, its low three bits are the function, and the rest is 256 times the bus plus 8 times the device |
| PciScan.AddressOrder | ioctl/ioctl.h:56 | addresses are ordered by bus, then device, then function, and differ for different triples |
| PciScan.HitsEnumerate | ioctl/ioctl.c:1008-1038 | the enumeration lists exactly the functions below an address whose class register has the three bytes on top, with bit 7 of the header type of function 0 for functions 1 to 7, each once, in bus, device, function order |
| PciScan.OneEnumeration | ioctl/ioctl.c:1008-1038 | there is only one such list |
| PciScan.CountsWanted | ioctl/ioctl.c:1018-1027 | the comparisons of the scan are that test of the bytes |
| PciScan.ClassOfRegister | ioctl/ioctl.c:1026-1027 | a class register put together from four bytes has exactly the class of its upper three; the revision is ignored |
| PciScan.RestOfDevice | ioctl/ioctl.c:1015-1016 | in a device without the multifunction bit functions 1 to 7 do not count |
| PciScan.HitsNext | ioctl/ioctl.c:1017-1034 | where the next counting function stands in the whole enumeration |
| PciScan.HitsSkip | ioctl/ioctl.c:1015-1016 | leaving the inner loop skips only functions that do not count |
| PciScan.FindPciByClass | ioctl/ioctl.c:996-1041 | the result is the index-th function of such a list over all 65536 addresses, or 0xFFFFFFFF when the driver is not usable or the list is shorter |
| IdsLines.Getline | ids/ids.c:15-40 | the line at the offset and an offset strictly behind it, so that repeated calls deliver all lines; NULL only at the end |
| IdsLines.LinesOfText | ids/ids.c:15-40 | reading a text line by line gives the lines it was printed from, with any runs of line ends |
| IdsLines.LinesOfFile | ids/ids.c:15-40 | in particular with LF, CR or CR LF behind each line |
| IdsTree.FindDistinct | ids/ids.c:68 | with ids of one length that are distinct ignoring case the key of an entry finds that entry |
| IdsTree.VendorLines | ids/ids.c:55-146 | the lines of a vendor, a device and a subsystem: `vvvv  name`, a tab and `dddd  name`, two tabs and `vvvv dddd  name` |
| IdsTree.ClassLines | ids/ids.c:242-334 | the lines of a class, a subclass and a programming interface: `C cc  name`, a tab and `ss  name`, two tabs and `pp  name` |
| IdsTree.NamelessLines | ids/ids.c:62-319 | a line without a name is no vendor, device or class; a subclass scan and every third-level scan end at one |
| IdsTree.ScansIgnoreComments | ids/ids.c:55-60 | comment and empty lines anywhere change no scan of any level |
| IdsTree.NamesIgnoreComments | ids/ids.c:55-104 | nor any lookup |
| IdsTree.StripKeeps | ids/ids.c:55-60 | the lines ignored so are the empty ones and those that start with # |
| IdsTree.LeafScanRendered | ids/ids.c:135-148 | a third-level scan finds exactly the entries of its own block |
| IdsTree.MidScanRendered | ids/ids.c:107-133 | a second-level scan finds exactly the entries of its own block and stands before the kids of the one found |
| IdsTree.TopScanRendered | ids/ids.c:51-79 | a top-level scan finds the first entry with the key and stands before its kids |
| IdsTree.RenderedNames | ids/ids.c:42-150 | lookup in rendered lines is lookup in the tree |
| IdsLookup.VendorNames | ids/ids.c:42-150 | vendor, device and subsystem names read from a file are those of the tree, never those of another block, for a vendor key that no class and no other section matches |
| IdsLookup.VendorNamesOf | ids/ids.c:42-150 | the same on the lines of the file |
| IdsLookup.HexKeyMisses | ids/ids.c:55-68 | four hex digits match no class and no other section of a file |
| IdsLookup.ClassNames | ids/ids.c:242-334 | class, subclass and programming interface names read from a file are those of the class tree, whatever lines that start no class stand before it and whatever sections behind it |
| IdsLookup.DatabaseHasClasses | ids/ids.c:242-334 | a file of vendors, classes and other sections is such a file |
| IdsLookup.VendorKeyExactIff | ids/ids.c:55-68 | over files of vendors and classes, vendor lookup by a key is exact if and only if the key does not read like the start of a class line |
| IdsLookup.VendorKeyExactWithOthersIff | ids/ids.c:55-68 | over files with other sections too, it is exact if and only if the key is four hex digits or no line can start with it |
| IdsLookup.TextIsDatabase | ids/ids.c:15-40 | a text printed from the rendered lines, with comments anywhere, is such a file |
| IdsLookup.FindVendor | ids/ids.c:42-81 | found exactly when the top-level scan hits; then the name is set and the offset stands before the rest of the block |
| IdsLookup.FindId | ids/ids.c:83-150 | the attributes are those of the nested scans |
| IdsLookup.FindDevice | ids/ids.c:95-149 | the second half of that lookup, from the line behind the vendor |
| IdsLookup.FindClass | ids/ids.c:242-334 | the attributes are those of the nested scans for a 2, 4 or 6 digit class string; `IdsLookup.ClassString` says which names they are |
| IdsLookup.FindSubclass | ids/ids.c:291-332 | the second half of that lookup, from the line behind the class |
| IdsLookup.PendingLine | ids/ids.c:106-148 | what one line of a block does to the attributes still to be set, for each of the two found-flags |
| IdsLookup.AttrsAreNames | ids/ids.c:71-146 | those attributes are the names on the path, under the attribute names in order |
| IdsLookup.ClassAttrsFromTree | ids/ids.c:242-334 | the nested scans of the class lookup set exactly the names on the path through the class tree, for any three keys |
| IdsLookup.ClassString | ids/ids.c:242-334 | the class strings cc, ccss and ccsspp set exactly the names of class cc, subclass ss and programming interface pp of the class tree, under "Class", "Subclass" and "Prog IF" or "Protocol" |
| IdsLookup.ClassBy | ids/ids.c:255-256 | a class string of any length: from four characters on the subclass key starts at the third, from six on the interface key at the fifth |
| IdsLookup.ByTwo | ids/ids.c:268-323 | only the first two characters of each key count |
| IdsLookup.IdAttrsFromTree | ids/ids.c:83-150 | on a database the id lookup sets exactly the names on the path through the vendor tree |
| Hwid.ParseHwidId | ids/ids.c:152-168 | the id behind the needle and the string behind the id, or failure |
| Hwid.ParseSubsys | ids/ids.c:170-192 | "vendor device" and the vendor of the eight characters behind SUBSYS_, or failure if there are fewer |
| Hwid.ParseHwid | ids/ids.c:194-240 | fails without setting anything exactly when a needle is missing; else sets ids and looked-up names |
| Hwid.IdBehindAt | ids/ids.c:155-166 | a needle, an underscore and a four-digit id give that id |
| Hwid.IdRightBehind | ids/ids.c:155-166 | so does an id right behind the needle; fewer than four digits at the end of the string give a shorter id |
| Hwid.SubsysBehindAt | ids/ids.c:173-190 | a subsystem part gives its two ids in swapped order |
| Hwid.PciWithSubsys | ids/ids.c:194-240 | a PCI hardware id with a subsystem sets its ids and exactly the names of the tree, subsystem vendor included |
| Hwid.WithoutSubsys | ids/ids.c:194-240 | a PCI or USB hardware id without one sets the two ids and the names of vendor and device |
| Hwid.RootHub | ids/ids.c:194-240 | the documented form of a root hub, without underscores, sets the same as any USB id |
| Numbers.Decimal | parse_jep106.py:134 | digits that read back as the number |
| Numbers.Hex2Value | ids/ids.c:399-400 | two upper-case digits below 256, and as many as it takes from there on, that read back in base 16 as the number |
| Numbers.CharClasses | ids/ids.c:378-388 | the characters of isdigit and isspace in the C locale |
| Jep106.GetSpdManufacturer | ids/ids.c:361-401 | the attribute is the name the two nested scans find, else both numbers in hexadecimal; bank numbers wrap at 32 bits |
| Jep106.FindSpdItem | ids/ids.c:376-394 | the inner scan, which stops at the first line that is no item |
| Jep106.ItemScanWritten | ids/ids.c:376-394 | the scan of one written bank finds exactly the first item with the id, and nothing of the next bank |
| Jep106.BankScanBank | ids/ids.c:371-398 | the scan of one bank and the banks behind it |
| Jep106.BankScanWritten | ids/ids.c:371-398 | the scan of written banks reaches exactly the bank asked for |
| Jep106.LookupWritten | ids/ids.c:361-401 | looking up (bank, id) in the written list gives the item of that bank, or, if there is none, the bank and then the id in upper-case base 16 |
| Jep106.LookupFile | ids/ids.c:361-401 | the same through the text of the file and the cursor |
| Jep106.FourDigits | ids/ids.c:399-400 | for a bank and an id below 256 that fallback is two digits of the bank and two of the id |
| Jep106.ItemForm | ids/ids.c:376-394 | an item line may use any white space before and behind its digits |
| Jep106.OtherForm | ids/ids.c:378-382 | a line that does not start with white space and a digit ends the bank |
| Jep106.ListText | parse_jep106.py:107-178 | the lines of a list of two banks with one item each, written out |
| Jep106.WriteList | parse_jep106.py:107-178 | the written lines are the header and the banks with the items of all pages before the annex; which these are is `Jep106Pages.PagesFiled` and `PageListed` |
| Jep106.WritePage | parse_jep106.py:143-176 | a page adds its items to the current bank; continuation lines join the name before them |
| Jep106.BankLinesExtend | parse_jep106.py:175 | writing an item line adds the item to the last bank |
| Jep106Pages.PageListed | parse_jep106.py:143-176 | the items of a page are its entries without "Continuation Code", in order, each with its id and the cleaned name, to which a text line right behind it belongs |
| Jep106Pages.PagesFiled | parse_jep106.py:120-141 | there is one bank more than announcements before the annex, and each bank holds the items of exactly the pages up to which that many announcements were made |
| Jep106Pages.EntryLookedUp | parse_jep106.py:107-178 | the lookup in the list written from the pages: the first entry with the id on the pages of the bank gives its whole name, cleaned |
| Jep106Pages.EntryMissing | ids/ids.c:399-400 | without such an entry it gives the two numbers in hexadecimal |
| Jep106Pages.PagesLookedUp | ids/ids.c:361-401 | both, for every bank and id |
| Utf8.DecodeUnit | cditest/disklib.c:525-541 | the bytes of one unit decode to it (section 3 of RFC 3629) and hold no zero byte unless the unit is zero |
| Utf8.DecodeEncode | cditest/disklib.c:521-542 | the bytes of any text without surrogates decode to that text |
| Utf8.Taken | cditest/disklib.c:521-524 | the units taken end at the first NUL or surrogate, or at 21845 |
| Utf8.EncodeUnit | cditest/disklib.c:525-541 | one to three bytes a unit |
| Utf8.Examples | cditest/disklib.c:525-541 | the examples of RFC 3629, section 7, without surrogates |
| Utf8.Boundaries | cditest/disklib.c:523-541 | the first and last unit of one, two and three bytes, and the ends of the surrogate range |
| Utf8.Put | cditest/disklib.c:525-541 | the bytes of one unit are appended inside the buffer |
| Utf8.Ucs2ToUtf8 | cditest/disklib.c:512-545 | the buffer holds the encoding of exactly the units taken and zeros behind it, terminator included |
| Utf8.WrittenText | cditest/disklib.c:512-545 | what a reader of the buffer finds before the first zero byte decodes to the units taken |
| HumanSize.GetHumanSize | cditest/disklib.c:547-574 | the text reads as whole units, exactly two digits of hundredths and the unit (bytes without a point); the value is the size's quotient by a power of the base with the next digit in hundredths; for base at least 100 whose hundredfold fits 64 bits it is at most the size and less than two hundredths below, one if 100 divides the base or there was one division; fewer than base units unless divided five times; two digits behind the point for every base; the text fits the buffer |
| HumanSize.ReadsOnce | cditest/disklib.c:564-573 | a text reads as one result only |
| HumanSize.Parts | cditest/disklib.c:564-573 | the digits up to the first other character are the whole units; behind a point two digits are the hundredths and the letter behind the space tells KB, MB, GB, TB and PB apart |
| HumanSize.ShowReads | cditest/disklib.c:564-573 | the text printed reads as the result, for every number of divisions |
| HumanSize.HumanBounds | cditest/disklib.c:555-569 | those bounds from the last quotient and remainder |
| HumanSize.SplitMore | cditest/disklib.c:557-559 | one more division keeps size = (whole * base + remainder) * base^(units - 1) + low |
| HumanSize.HumanIs | cditest/disklib.c:555-560 | the outcome of the division loop is that quotient and digit |
| HumanSize.TwoDigits | cditest/disklib.c:567 | two digits even where the 64-bit product overflows |
| HumanSize.SharpSlack | cditest/disklib.c:555-569 | for a positive base whose hundredfold fits 64 bits the printed value is low by less than (base - g + 100)/base hundredths for any common divisor g of 100 and the base |
| HumanSize.SlackIsSharp | cditest/disklib.c:555-569 | for a base of at least 100 and its greatest common divisor with 100, some size is low by (base - g + 99)/base hundredths or more |
| HumanSize.FirstMissIsFirst | cditest/disklib.c:555-569 | for a base that 100 does not divide, no size below FirstMiss is printed a hundredth or more too low |
| HumanSize.FirstMissFails | cditest/disklib.c:555-569 | that size is printed as 1.00 of the second unit, a hundredth or more too low |
| HumanSize.OneHundredthExactly | cditest/disklib.c:555-569 | every 64-bit size is printed less than one hundredth too low if and only if 100 divides the base or FirstMiss does not fit 64 bits |
| HumanSize.KibiMisses | cditest/disklib.c:555-569 | with base 1024 the slack is 1120/1024 of a hundredth, and 1059062 bytes is the first size to miss |
| HumanSize.OneHundredthFails | cditest/disklib.c:555-569 | with base 1024 the result for 1269736 bytes is 1.20 MB, more than a hundredth too low |
| TrimText.TrimString | cditest/disklib.c:258-280 | the string becomes its trimmed form in place and nothing behind its old end changes |
| TrimText.TrimmedBetween | cditest/disklib.c:264-278 | the trimmed form is the printable form of the text between the blanks at both ends |
| TrimText.TrimmedPadded | cditest/disklib.c:258-280 | spaces and tabs around a text go, everything between stays in place, and only characters outside 0x20 to 0x7E become question marks |
| TrimText.PlainUnchanged | cditest/disklib.c:258-280 | a text of the characters 0x20 to 0x7E without a blank at its ends is unchanged |
| TrimText.TrimmedTwice | cditest/disklib.c:258-280 | it is printable throughout, and trimming again changes nothing |
| MultiSz.AppendRegMultiSz | gnwinfo/memory.c:90-122 | exactly what is written back in every branch, with every copy inside the allocation; nothing for another value type |
| MultiSz.Build | gnwinfo/memory.c:108-115 | the buffer after the two copies and the terminator |
| MultiSz.ParseWritten | gnwinfo/memory.c:103-115 | a printed list of nonempty NUL-free strings reads back |
| MultiSz.ParsedIsWritten | gnwinfo/memory.c:103-115 | a buffer that reads as a list is that list printed |
| MultiSz.TwoStrings | gnwinfo/memory.c:103-115 | a list of two strings as it stands in the registry |
| MultiSz.AppendsToList | gnwinfo/memory.c:103-115 | the new value is the list followed by s exactly when the old value, its last character taken as the closing NUL, is that list |
| MultiSz.AppendExactlyWhenNonempty | gnwinfo/memory.c:103-115 | on a well-formed list the result is that list followed by s exactly when the list is nonempty; on the empty list it is no list |
| ArgFilter.StartsIsStrnicmp | nwinfo.c:274 | the bounded comparison is the test for the prefix |
| ArgFilter.CutToken | nwinfo.c:270-272 | the token before the next comma is cut off in place and the rest stays to be read |
| ArgFilter.AddFlag | nwinfo.c:281-288 | the flag of the first filter equal to the token ignoring case is added, if any |
| ArgFilterBits.OwnFlag | nwinfo.c:281-288 | with names distinct ignoring case a token has exactly the flag of the entry it equals |
| ArgFilterBits.NoName | nwinfo.c:281-288 | a token that equals no entry has none |
| ArgFilter.GetOpts | nwinfo.c:253-295 | the flag word is its old value or'ed with the flags of all tokens that do not start with the prefix, and the result is the last token that does |
| ArgFilterBits.SumHas | nwinfo.c:253-295 | with distinct names a bit of the result is set exactly when it was set before or some token that does not start with the prefix is the name of an entry with that bit |
| ArgFilterBits.LastStartIs | nwinfo.c:274-278 | the token returned is the last one that starts with the prefix |
| ArgFilterBits.JoinTokens | nwinfo.c:266-291 | tokens joined by commas are read back, unless the last one is empty; a comma behind them adds none |
| ArgFilter.FlagsPermute | nwinfo.c:268-291 | the flags do not depend on the order of the tokens |
| ArgFilter.EmptyTokenDoesNotStop | nwinfo.c:268-291 | for all tables the flags are those of the tokens before the first empty one exactly when the later tokens repeat earlier ones |
| ArgFilter.EmptyTokenExample | nwinfo.c:268-291 | "a,,b" has b among its tokens |
| ArgFilter.EmptyTokenAndPrefix | nwinfo.c:268-291 | the token returned is the one found before the first empty token exactly when no later token starts with the prefix or the last that does has the same text |
| ArgFilter.EmptyTokenPrefixExample | nwinfo.c:268-291 | "a,,x1" gives x1 for the prefix x, which stands behind an empty token |
| ArgSet.ParseArgSet | nwinfo.c:296-329 | the set gains exactly the keys of the nonempty tokens that are names, or that read as a number to their end |
| ArgSet.ReadsDecimal | nwinfo.c:323-326 | a 64-bit number printed in decimal reads back to its end |
| ArgSet.ReadsBases | nwinfo.c:323-326 | digits behind 0x are read in base 16, behind 0 in base 8, others in base 10 |
| ArgSet.ReadsSigned | nwinfo.c:323-326 | a plus sign changes nothing, a minus sign negates in 64 bits |
| ArgSet.ReadsSpaced | nwinfo.c:323-326 | white space in front is passed over |
| ArgSet.ReadsTooLarge | nwinfo.c:323-326 | a number beyond 64 bits is read as the greatest one |
| ArgSet.FoundExactlyIfListed | libnw/node.c:437-451 | a name is found in the set exactly when a listed name agrees with it in the first eight characters |
| ArgSet.StrKeySame | libnw/node.c:437-451 | two names have one key exactly when they agree in their first eight characters |
| ArgSet.StrKeyText | libnw/node.c:437-451 | the key of a name is its first eight characters, with zeros behind a shorter one |
| ArgSet.ShortNamesFound | libnw/node.c:437-451 | with names of at most eight characters exactly the listed names are found |
| ArgSet.NumbersFoundExactlyIfListed | nwinfo.c:296-329 | from a printed list of numbers exactly those numbers are found in the set |
| ArgSet.StrKeyInjective | libnw/node.c:437-451 | two names of at most eight characters with one key are equal |
| ArgSet.U64KeyReadsBack | libnw/node.c:430-435 | the key of a number is its eight bytes, lowest first |
| ArgSet.U64KeyInjective | libnw/node.c:430-435 | two 64-bit numbers with one key are equal |

## Left out

- Win32, driver, registry and file access: `DeviceIoControl`, service control, PawnIO, file loading and the PDF library appear only as parameters or given semantics.
- Refresh.HandlersDisciplined: the context is a value stepped by two threads and not a class with fields; compiler and memory-order effects below the interlocked operations are not captured.
- RefreshResults.NoPostIsLost: assumes the worker exists and its waits succeed; the fallback that runs handlers on the UI thread (gnwinfo/context.c:260-264) and a failed wait are not modelled.
- RefreshResults.DrawSafe: covers what is read under the lock; `RefreshCopies.UnlockedReadSafeExactly` says when an unlocked read is safe.
- Refresh.SecondPlanNeedsNothing: building the sensor view may first create the GPU list (libnw/sensor/gpu_sensors.c:10-13); that is one action here, and other data under `g_ctx.lib` is not modelled.
- SmuMailbox.Mailbox.SendSmuCmd: the PawnIO and CPU-Z drivers, which pass the whole command to the driver, are not modelled; `usable` stands for the checks of handle and type.
- `WR0_FindPciById`, `read_smn` on other register pairs, and the microarchitecture and offset tables.
- Optparse.Parser.Parse: `longindex` is NULL as in nwinfo.c; an argument type outside the three enumerators and `optparse_arg` are not modelled.
- Scanner.ParseOptions: what the option loop stores for each option is the list of applied options; the switch bodies behind it are not modelled.
- `NWL_GetPnpManufacturer` and the date of an id file, which are one flat scan each.
- Hwid.ParseHwid: characters above 0x7F, which the code cuts to a byte, are covered by the contract of the method, not by the lemmas on the documented formats.
- Jep106.WriteList: page texts arrive as classified lines and the name cleaning is a parameter; the regular expressions are not modelled.
- Utf8.Ucs2ToUtf8: the static buffer is a parameter; two results in use at once are not modelled.
- HumanSize.GetHumanSize: the base is positive; the source divides by it.
- TrimText.TrimString: bytes above 0x7E count as not printable, as in the C locale.
- MultiSz.AppendRegMultiSz: lengths are bounded so that the DWORD sizes in bytes do not wrap; an odd trailing byte of the value is dropped beforehand.
- ArgSet.ParseArgSet: the table behind the set is a set of eight-byte keys; where `_strtoui64` stops inside a token is not modelled, only whether it reads the token to its end.
- Wide characters are `char` values, so surrogates occur only in `Utf8`, where units are 16-bit vectors.
- Drawing, style, settings and translation code, the sensor libraries, libcdi and libcpuid, and constant tables.
