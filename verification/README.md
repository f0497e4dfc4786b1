# headroom-go: a verified model of the live-zone proxy and its compressors

headroom-go sits between a coding agent and a model provider and shrinks what
the agent sends. A client re-sends its whole conversation, in original form, on
every request; the provider caches by exact prefix. So the proxy must shrink a
block once, and from then on put the same shrunken bytes in its place wherever
the block now sits, while everything it removed stays retrievable from a
content-addressed store. This project models that protocol, and the compressors
whose output has to be readable back or selected under a budget, and proves what
they promise.

`dafny verify dfyconfig.toml` checks everything.

## How it is laid out

Code that works step by step is a method, often of a class with the original's
fields, proved equal to a function of its inputs or its old state; the promises
are then lemmas about that function. One module stands for each source file,
with proofs split off where they are long. Where a specification decides something by
a rule of its own (which blocks are hot, which lines match, where a tag ends), another
module says what the rule means in terms of the input alone, and proves the two equal.

**The replay protocol.** `Splice` is the byte surgery, `Marker` the search for
retrieval hashes, `Replay` the per-session table with its handles, `LiveZone`
the planner, the token gate with its staging store, the replay pass, the fresh
pass and `Dispatch`. `BodyLayout` shows that splicing slot replacements rewrites
exactly those slots; `PrefixStability` and `ReplayRuns` say what the two passes of a
turn do, and `StableRuns` when the cached prefix is stable, from what is known
before before each call; `UnsteadyExample` has has a run that changes its prefix and one that
keeps it. `DispatchSafety` holds the retrieval and token-saving theorems, `NoOrphans`
what a dispatch leaves in the store, `SharedKeys` where image and text keys meet.
`ProxyTurn` joins the table and `Dispatch` into one request; `Interleaving` is what any
table of sessions makes of interleaved requests, and `ProxyRuns` applies it to this one.
`FrozenBlocks` says which blocks a dispatch may touch at all, and `DispatchReport` what it
reports. `InMemoryStore` is the store's default backend. `Image` and `ImageSizes` are the
visual-token arithmetic, `Boxes`, `PixelColour` and `Downsample` the down-sampler.

**Printers and readers.** `TagLex`, `TagProtect` and `TagRestore` swap tag regions
for placeholders and back; `TagMatch` says which regions those are, without the stack.
`LogTemplate`, `LogTemplateText`, `LogTemplateRead` and `LogTemplateOutput` mine, print
and read log templates; `LogRuns` says which lines make a template, and
`LogTemplateExample` has two logs that do not read back. `Compaction`,
`CompactionLossless` and `Csv` build tables from arrays of objects, read them back, and
print them; `TableShape` says where everything stands in one. `SearchLine` parses and
prints one search hit, `SearchParse` says what that means, and `SearchOutput` is about
whole results.

**Selection under a budget.** `IntSets`, `Orchestration` and `Outliers` are
SmartCrusher's index sets, with `SamplePlan` and `RareRows` on which rows those are;
`LogSelect` is the log compressor's selection, and `LogKept` says which lines it keeps.

`Common` and `Text` hold small shared definitions.

## What the code does that its comments do not say

Each of these has an exact condition or a concrete input below.

- The conversation prefix is *not* always stable. When two copies of a text arrive
  and the newer is compressed, the older goes out as it came and is rewritten one
  turn later. `StableRuns.PrefixStableIff` gives the exact condition over the inputs
  of the turn (every copy of a text that is rewritten now is rewritten with it),
  `StableRuns.RunPrefixStableIff` that of a run, and `UnsteadyExample.PrefixCanChange`
  a run with the store on.
- The staleness clock is the handle's. A handle left over from an earlier turn moves an
  entry's clock backwards, so an entry looked up on the current turn can be swept by
  the next (`Replay.StragglerAgesAnEntry`).
- Image and text keys are said never to collide. A text that spells an image's key
  payload out has the image's key; once the image is recorded, quoting its payload sends
  the resized base64 in place of the quotation (`SharedKeys.QuotationIsReplaced`).
- The standard image tier is said to degenerate above 3136:1; it already does at 3136:1,
  and at 1:3136, because half rounds to even (`Image.DegeneratesFrom3136`).
- Restoring protected tags can fail when a text names all seventeen candidate prefixes,
  since the eighteenth is used unchecked (`TagProtect.CrowdedIsNotRestored`).
- Log templating loses the last line of an input that ends in a bare carriage return
  after a newline, unless the input is forwarded as it is: that line is empty once its
  carriage return is dropped, and so is the newline that would open it
  (`LogTemplateOutput.OutputReadsBackIff`, `LogTemplateOutput.BareCRIsLost`).
- Collapsed log lines that have the token `<*>` at one place in every line of the run do
  not survive the reader in the repository's own test; a verbatim `<*>`, or one among
  values that vary, does. `LogTemplateRead.ReadsBackIff` and
  `LogTemplateOutput.OutputReadsBackIff` give the exact condition over the lines,
  `LogTemplateExample.StarsAreLost` a log that fails under the default configuration.
- A line that looks like a template header is read as one. Such a line announcing no
  rows is lost as soon as the rest of the log collapses (`LogTemplateRead.ImitationIsLost`,
  `LogTemplateExample.LookalikeIsLost`).
- An empty object that precedes a non-empty one under the same key is swallowed by
  flattening: an empty canonical key list is still nil, so the next object replaces it
  (`CompactionLossless.EmptyObjectLost`).
- The stringified-JSON branch of the compactor is commented as unreachable, but the
  classifier does return that class, so the model follows the branch.
- An opaque cell's marker has commas and is not quoted, so its row reads back with
  more fields than it has columns; a table without columns loses its rows
  (`Csv.BodyRoundTripIff`).
- Picking log lines "up to" a limit of one yields two when first and last are
  both forced (`LogSelect.PickExceedsIff`).

## Model

| member | source | states |
|---|---|---|
| Splice.StableSortContract | internal/livezone/splice.go:28-33 | the order replacements are applied in: ascending by start, a permutation of the input, equal starts in input order |
| Splice.ApplyReplacements | internal/livezone/splice.go:24-57 | the cursor loop yields exactly the body with the accepted replacements put in, and reports exactly their ranges |
| Splice.AcceptIsDisjoint | internal/livezone/splice.go:38-47 | whatever is passed in, out of range or overlapping, the accepted ranges are ascending, disjoint and inside the body |
| Splice.EveryReplacementAccountedFor | internal/livezone/splice.go:38-47 | nothing is invented, and a replacement is refused only if malformed, out of range, or starting inside an accepted one |
| Splice.SpliceIsFaithful | internal/livezone/livezone.go:47-54 | walking input and output in lockstep finds the same untouched bytes between the ranges, the replacements in them, and enough to rebuild the original |
| Splice.LengthAccounting | internal/livezone/splice.go:24-57 | the length changes by the sum of the reported new lengths minus the ranges they replace |
| Splice.OrderDoesNotMatter | internal/livezone/splice.go:17-33 | disjoint, non-empty, in-range replacements are all applied, and to the same effect in any input order |
| Marker.HashesIn | internal/ccr/marker.go:54-68 | the search loop returns the hashes the text names in order of first appearance |
| Marker.FirstOccurrencesContract | internal/ccr/marker.go:54-68 | dropping repeats keeps exactly the same hashes, each once |
| Marker.FirstOccurrencesOrder | internal/ccr/marker.go:59-66 | of two hashes reported, the first occurs before the other does |
| Marker.HashesInExactly | internal/ccr/marker.go:41-68 | a hash is reported if and only if the text names it somewhere, in either marker surface, and once |
| Marker.HashesAre | internal/ccr/marker.go:46-46 | the hashes named are the 24 lowercase hex digits that follow `<<ccr:` or `hash=` anywhere in the text |
| Marker.NoOverlap | internal/ccr/marker.go:41-68 | two naming occurrences never overlap, so the leftmost search skips none |
| Marker.MarkerIsNamed | internal/ccr/marker.go:19-19 | a canonical marker appended to any text is found again |
| Marker.MarkedNames | internal/ccr/marker.go:41-68 | a marker on a line of its own adds its own hash to the ones a text names, and no other |
| Replay.ReplaySession.Sweep | internal/cachestab/replay.go:88-98 | the session becomes its swept value: entries older than the cutoff go, all others and both counters stay |
| Replay.ReplayState.constructor | internal/cachestab/replay.go:102-107 | a new table is empty, with the default capacity for zero or less |
| Replay.ReplayState.Len | internal/cachestab/replay.go:110-114 | counts the live sessions |
| Replay.ReplayState.Begin | internal/cachestab/replay.go:119-141 | opening a session is one step of the table's state machine, and the handle carries the old floor, whether it is new, and the turn |
| Replay.SessionReplay.Lookup | internal/cachestab/replay.go:174-184 | returns the recorded text and refreshes the entry's clock with the handle's turn; one step of the machine |
| Replay.SessionReplay.Record | internal/cachestab/replay.go:188-192 | one step of the machine: the entry is replaced and stamped with the handle's turn |
| Replay.SessionReplay.Forget | internal/cachestab/replay.go:196-200 | one step of the machine: the entry is dropped |
| Replay.SessionReplay.EntryCount | internal/cachestab/replay.go:204-208 | counts the session's entries |
| Replay.RunKeepsInv | internal/cachestab/replay.go:119-141 | in every interleaving over any handles, the order list is duplicate-free, lists exactly the live sessions and stays within capacity |
| Replay.NonInterference | internal/cachestab/replay.go:119-200 | a session ends every interleaving as if its own operations had run alone, even after its eviction |
| Replay.EntryIsLastRecorded | internal/cachestab/replay.go:174-200 | an entry holds the text last recorded and not since forgotten, and the turn of its last touch |
| Replay.EntryIsThereIff | internal/cachestab/replay.go:88-200 | a session holds a key if and only if some recording of it was not forgotten since and no turn was opened more than three after its last touch |
| Replay.LookupReturnsLastRecorded | internal/cachestab/replay.go:174-184 | through any handle, in any interleaving, a lookup yields only the text last recorded for that key in that session |
| Replay.SweepIsExact | internal/cachestab/replay.go:88-98 | opening turn t removes exactly the entries last touched before turn t - 3, and changes none it keeps |
| Replay.UntouchedEntryExpires | internal/cachestab/replay.go:40-57 | an entry last touched on turn r is there through turn r + 3 and gone from r + 4 on |
| Replay.LiveEntrySurvives | internal/cachestab/replay.go:43-51 | an entry looked up every turn survives runs of any length with its text unchanged |
| Replay.StragglerAgesAnEntry | internal/cachestab/replay.go:174-184 | a counterexample: a lookup through an old handle ages an entry that was just seen |
| Image.ResizedSize | internal/livezone/image.go:30-70 | the binary search returns the size of the largest fitting long edge, as an exhaustive reference search finds it |
| Image.SearchLandscape | internal/livezone/image.go:39-52 | the landscape branch agrees with the reference search |
| Image.SearchPortrait | internal/livezone/image.go:53-66 | the portrait branch agrees with the reference search |
| Image.BestEdgeIsLargest | internal/livezone/image.go:24-26 | the reference edge fits and every longer one does not |
| Image.FittingIsDownClosed | internal/livezone/image.go:44-51 | with rounding half to even and ceilings, every edge shorter than a fitting one fits, which makes the binary search sound |
| Image.NeverUpscales | internal/livezone/image.go:24-70 | neither axis ever grows, although the search may reach past the long edge |
| Image.TighterTierIsCheaper | internal/livezone/image.go:164-182 | a tier with smaller limits never costs more tokens |
| Image.ResizedIsStable | internal/livezone/image.go:164-182 | a resized image fits every looser tier as it is |
| Image.DegeneratesFrom3136 | internal/livezone/image.go:165-169 | the standard tier yields a zero axis if and only if the ratio is at least 3136:1, landscape or portrait |
| ImageSizes.ResizedIsLargest | internal/livezone/image.go:20-70 | a size within the tier is kept, any other becomes the one with the longest edge within it, tokens counted in patches of 28 pixels and the short edge the nearest integer, even when halfway |
| ImageSizes.FittedIff | internal/livezone/image.go:136-216 | a payload is replaced if and only if type and format agree, it has pixels and not too many, the standard tier gives it another size of fewer tokens, and the encoding is shorter |
| Boxes.BoxesTile | internal/livezone/image.go:83-87 | every source position lies in exactly one box of its axis |
| Boxes.BoxesNonEmpty | internal/livezone/image.go:83-87 | no box is empty when the target is no longer than the source |
| Boxes.BoxSumsConserve | internal/livezone/image.go:80-101 | summed over all destination pixels, a channel's box sums are the whole source's sum |
| Downsample.SumBox | internal/livezone/image.go:89-101 | the inner loops compute the exact box sums in 64 bits without wrapping at the 100-megapixel cap |
| Downsample.UnPremultiply | internal/livezone/image.go:108-123 | the straight channel value, every intermediate within 64 bits, clamped to 8 bits |
| Downsample.BoxDownsample | internal/livezone/image.go:76-130 | every destination pixel averages exactly its own box: where the box has one colour it keeps that colour channel by channel, and where the box is opaque each channel stays between its own least and greatest value |
| PixelColour.AverageKeepsColour | internal/livezone/image.go:103-126 | a box of one colour gives the straight 8-bit form of that colour, nothing when transparent, and an opaque one never leaves its range |
| Boxes.FlatBoxKeepsColour | internal/livezone/image.go:103-126 | an opaque box of one colour keeps that colour to 8 bits |
| Image.FittingIsPricedAsReplay | internal/livezone/image.go:175-239 | the token counts a fit reports are those replay later counts for the same payloads, and they fall, as does the length |
| LiveZone.FindLatestUserMessage | internal/livezone/plan.go:62-74 | the backward loop finds the highest-numbered user message at or above the floor, or none |
| LiveZone.PlanBlocks | internal/livezone/plan.go:115-235 | one slot per recognised block in body order, with kind, absolute offsets, text and indices |
| FrozenBlocks.PlannedIff | internal/livezone/plan.go:91-235 | a slot is open to replay and compression if and only if it is a whole-string message, or a located text, image or tool_result string that is neither hot nor marked while nested, with at least 512 characters |
| FrozenBlocks.KindIs | internal/livezone/plan.go:115-235 | how every other block is filed: frozen, without a payload, or too short |
| FrozenBlocks.FrozenIsUntouched | internal/livezone/plan.go:162-175 | whatever the session and the store hold, tool calls, thinking, compactions, nested blocks with a cache_control and every other part not open to change lie outside every range a dispatch rewrites |
| FrozenBlocks.FrozenGoesOut | internal/livezone/plan.go:162-175 | so on every turn of a run they go out as they came |
| LiveZone.StoreResolves | internal/livezone/livezone.go:208-218 | true exactly when the canonical entry reads back as the original and every hash the replacement names reads back |
| LiveZone.StagingStore.Put | internal/livezone/compress.go:117-127 | a staged write is visible at once, leaves the backing store alone, and keeps first-Put order |
| LiveZone.StagingStore.Get | internal/livezone/compress.go:129-134 | reads a staged write first and the backing store otherwise |
| LiveZone.StagingStore.Commit | internal/livezone/compress.go:139-143 | puts exactly the staged writes into the backing store, in order |
| DispatchReport.StagedInOrder | internal/livezone/compress.go:117-127 | what is staged are the hashes written, each once, in the order of their first writes |
| DispatchReport.StagedIsLast | internal/livezone/compress.go:117-127 | and each holds what was written under it last |
| LiveZone.CompressBlock | internal/livezone/compress.go:50-99 | the gate's verdict counts the marker's tokens; staged writes reach the store only when it accepts |
| DispatchReport.AcceptedIff | internal/livezone/compress.go:25-99 | a block is accepted if and only if the router changed it and the changed text, with the marker for its original on a line of its own, counts fewer tokens |
| LiveZone.ReplayOne | internal/livezone/replay.go:42-139 | one slot: look up, refresh what the text names, read it all back, replace or forget |
| LiveZone.ReplayAll | internal/livezone/replay.go:30-142 | the pass over the whole conversation is that step for every slot in order, threading session, store and token counts |
| LiveZone.KeepIfResolved | internal/livezone/livezone.go:369-381 | a replacement is recorded for later turns only after everything it names was read back |
| LiveZone.FreshTextOne | internal/livezone/livezone.go:337-385 | one text slot of the fresh pass with all its outcomes |
| LiveZone.CompressFresh | internal/livezone/livezone.go:272-386 | the fresh pass visits the live message's slots in order and skips what replay claimed |
| LiveZone.Dispatch | internal/livezone/livezone.go:227-413 | malformed bodies pass through untouched; otherwise replay, then the live zone above the floor, then the splice, with the reasons and counts of every exit |
| DispatchReport.TotalsAreSums | internal/livezone/livezone.go:388-413 | the token totals are the sums over the reported blocks that were rewritten; without one the body is as it came |
| DispatchReport.ReasonsAre | internal/livezone/livezone.go:388-400 | the reason given says whether something was rewritten, no user message is live, a block failed the gate, or neither |
| BodyLayout.PlanAtIsSlot | internal/livezone/plan.go:109-114 | a planned slot brackets a whole string slot of the body, inside its own message |
| BodyLayout.PlanAscends | internal/livezone/plan.go:109-114 | planned slots come in ascending, non-overlapping order |
| BodyLayout.SpliceIsStructural | internal/livezone/livezone.go:402-402 | splicing slot replacements applies all of them and changes exactly those slots of the rendered conversation |
| ReplayRuns.KnownSlot | internal/livezone/replay.go:61-64 | a slot whose key the session knew goes out as recorded and its entry is refreshed |
| ReplayRuns.UnknownSlot | internal/livezone/livezone.go:272-386 | a slot with an unknown key is rewritten only in the live message, and its key is recorded with it |
| ReplayRuns.StableIffSteady | internal/livezone/livezone.go:256-386 | whatever the store does short of declining a replay, this turn's messages go out again unchanged if and only if everything recorded this turn was sent as recorded |
| ReplayRuns.SteadyRunIsStable | internal/livezone/replay.go:12-23 | over a run of any length, without anything known of the router's or the entries' names, every later turn sends turn n's messages again when every turn sends what it records |
| ReplayRuns.ForwardedBody | internal/livezone/livezone.go:388-412 | the forwarded body is head, rewritten messages and tail, rewritten or not |
| StableRuns.RefreshResolves | internal/livezone/replay.go:66-106 | whatever the store has lost since, a replayed text that names only its original's two digests resolves after the refresh |
| StableRuns.AcceptedResolves | internal/livezone/livezone.go:360-374 | what the gate accepts reads back, when the store keeps the digests written during the call |
| StableRuns.FreshSlotsExact | internal/livezone/livezone.go:272-386 | the fresh pass rewrites and records exactly the unclaimed slots that pass their gate, each with its own value |
| StableRuns.TurnIsCalm | internal/livezone/replay.go:41-142 | no replay is declined on any turn of a session whose entries name only their originals' digests |
| StableRuns.TurnKeepsNames | internal/livezone/livezone.go:337-381 | a turn keeps that property of the entries |
| StableRuns.SteadyIff | internal/livezone/livezone.go:256-386 | everything recorded this turn is sent as recorded if and only if every copy of a text rewritten now is itself in the live message and rewritten to the same bytes |
| StableRuns.PrefixStableIff | internal/livezone/livezone.go:256-386 | this turn's messages go out again unchanged on the next turn if and only if copies agree in that sense |
| StableRuns.EarlierCopyIsRewritten | internal/livezone/replay.go:41-142 | a copy in another message of a text rewritten now goes out as it came now and as the rewritten text one turn later, and the two differ |
| StableRuns.RunPrefixStableIff | internal/livezone/replay.go:12-23 | over a whole run, every later turn sends turn n's messages again, for every n, if and only if copies agree on every turn but the last |
| StableRuns.RunBodiesSharePrefix | internal/cachestab/replay.go:20-26 | with an unchanged head, all of turn n's body up to the end of its messages opens every later body of such a run |
| StableRuns.NoCopiesStable | internal/livezone/replay.go:12-23 | every run over conversations that hold each text once is stable |
| UnsteadyExample.PrefixCanChange | internal/livezone/livezone.go:256-386 | a run with one router and one answering store that meets all assumptions and whose prefix changes |
| UnsteadyExample.PrefixStays | internal/livezone/replay.go:66-106 | a run that meets all assumptions, rewrites a text, and replays its bytes after the store has lost the entry |
| DispatchSafety.EveryMarkerResolves | internal/livezone/livezone.go:199-218 | whatever writes the store drops, what stands in each rewritten range of the forwarded body is the recorded or the freshly made text of one slot, its original under its key and every hash it names present |
| NoOrphans.DispatchLeavesNoOrphan | internal/livezone/compress.go:101-108 | every entry a dispatch adds to the store belongs to a block the gate accepted or one the session has recorded |
| DispatchSafety.DispatchIsThrifty | internal/livezone/livezone.go:307-385 | each replacement of a dispatch, replayed ones included, saves at least one token, and recorded entries stay cheaper than their originals |
| DispatchSafety.RunStaysCheap | internal/livezone/replay.go:116-139 | over any run every recorded text or image stays cheaper than its original |
| DispatchSafety.AppliedMeansFewerTokens | internal/livezone/livezone.go:402-412 | on every turn of every run, an applied dispatch reports strictly fewer tokens after than before |
| SharedKeys.PayloadsDiffer | internal/livezone/image.go:217-222 | two images are hashed alike only with the same media type and the same base64 |
| SharedKeys.SpeltPayloadIsReplaced | internal/livezone/replay.go:47-64 | a text that spells an image's key payload goes out as the image's recorded base64, in any message, once the session holds the image |
| SharedKeys.QuotationIsReplaced | internal/livezone/image.go:217-222 | a two-turn run: an image is resized and recorded, and quoting its payload on the next turn sends the resized base64 |
| ProxyTurn.DispatchHeld | internal/proxy/forward.go:105-113 | dispatching through a handle changes its own session only, as one turn of the run model |
| ProxyTurn.ForwardTurn | internal/proxy/forward.go:101-113 | one request end to end is one turn of the run model, in result, session and table |
| ProxyTurn.TurnLeft | internal/proxy/forward.go:101-113 | after the request the table is intact, its session holds the turn's state and no other changed |
| Interleaving.SessionsRunAlone | internal/cachestab/replay.go:119-141 | in any table that may drop other sessions at each request, a live session is what its own turns since admission make of a fresh one |
| Interleaving.RequestsAreTurns | internal/cachestab/replay.go:119-141 | two requests of a session that stays are two turns, in order, of one run of it |
| ProxyRuns.HistoryIs | internal/proxy/forward.go:101-113 | every list of requests of any sessions has its tables, one after each request |
| ProxyRuns.OnlyOwnTurnsCount | internal/proxy/forward.go:101-113 | after any requests of any sessions, a session in the table is what its own turns since admission make of a fresh one |
| ProxyRuns.RequestsSharePrefix | internal/livezone/replay.go:12-23 | while a session stays in the table, each of its bodies opens with the earlier ones up to the end of their messages, under the run's condition and whatever other sessions do |
| ProxyRuns.NoneIsEvicted | internal/cachestab/replay.go:119-141 | while the sessions named fit the capacity, all of them are in the table |
| ProxyRuns.OwnTurnsAreAll | internal/cachestab/replay.go:119-141 | and then each session's run is all of its requests |
| InMemoryStore.InMemory.Put | internal/ccr/backends/inmemory.go:38-53 | map, list and entry fields together make one step on an insertion-ordered list with deadlines |
| InMemoryStore.InMemory.Get | internal/ccr/backends/inmemory.go:55-69 | returns the unexpired payload, and drops an expired entry from map and list |
| InMemoryStore.InMemory.Len | internal/ccr/backends/inmemory.go:71-75 | the map and the list agree on the number of entries |
| InMemoryStore.RePutStaysInPlace | internal/ccr/backends/inmemory.go:36-45 | putting a known hash again keeps every entry's place and every other entry, and is found with its new text |
| InMemoryStore.SurvivesFreshPuts | internal/ccr/backends/inmemory.go:38-69 | over any run keys stay distinct and within capacity, and an entry survives fewer fresh insertions than it has room behind it, in place and with the text and deadline of its own last Put |
| InMemoryStore.StoredIsFound | internal/ccr/backends/inmemory.go:38-69 | a stored text is found again after fewer than capacity fresh insertions, before its deadline |
| InMemoryStore.FoundUntilDeadline | internal/ccr/backends/inmemory.go:77-82 | a text is found up to its time to live after its Put and not later, and for ever without one |
| InMemoryStore.LateGetDrops | internal/ccr/backends/inmemory.go:55-69 | a lookup past the deadline takes out that entry and no other; any other lookup changes nothing |
| TagLex.ParseTagAt | internal/tagprotect/tagprotect.go:101-158 | the lexer's verdict at a '<', by where names, spaces, quotes and attributes end |
| TagLex.ParseAttrs | internal/tagprotect/tagprotect.go:130-157 | the attribute loop finds the first '>' outside quotes, or none |
| TagLex.OpenTagIff | internal/tagprotect/tagprotect.go:107-157 | an open tag ends at the first '>' that stands outside quotes, and closes itself when a '/' outside quotes stands right before it |
| TagLex.UnclosedIff | internal/tagprotect/tagprotect.go:129-157 | a name without a '>' outside quotes behind it is no tag |
| TagLex.CloseTagIff | internal/tagprotect/tagprotect.go:118-127 | a close tag is its name, spaces and '>' |
| TagProtect.ChoosePrefix | internal/tagprotect/tagprotect.go:161-172 | the first free candidate, and whether a collision was avoided |
| TagProtect.PrefixIsAbsent | internal/tagprotect/tagprotect.go:160-172 | the chosen prefix is absent from the text unless the text names all seventeen candidates |
| TagProtect.PrefixIsFirst | internal/tagprotect/tagprotect.go:161-172 | the plain prefix when it is free, and otherwise the salted one with the lowest free salt |
| TagProtect.CollectSpans | internal/tagprotect/tagprotect.go:197-269 | the index-driven walk gathers exactly the spans of the tag-by-tag walk |
| TagProtect.VisitTag | internal/tagprotect/tagprotect.go:219-267 | one tag's effect on stack and spans in both modes |
| TagProtect.KeptIsPrefix | internal/tagprotect/tagprotect.go:255-263 | on ascending spans the in-place filter keeps a prefix: exactly the spans before the block |
| TagProtect.SpansAreGood | internal/tagprotect/tagprotect.go:271-271 | as blocks swallow inner spans, spans stay ascending and disjoint, each from a '<' to a '>' |
| TagProtect.SpansAreJustified | internal/tagprotect/tagprotect.go:174-178 | only custom tags, and regions they enclose, are ever protected |
| TagProtect.CoverSurvives | internal/tagprotect/tagprotect.go:254-264 | what one span covers stays covered whatever the walk swallows later |
| TagProtect.VisitedIsProtected | internal/tagprotect/tagprotect.go:197-269 | every custom tag the walk meets ends up protected as its mode owes it |
| TagMatch.MetIff | internal/tagprotect/tagprotect.go:197-218 | the tags met are those the lexer finds outside every earlier tag |
| TagMatch.MarkersAreExact | internal/tagprotect/tagprotect.go:219-267 | with markers, exactly the self-closing tags, the open tags and the close tags that end one are protected |
| TagMatch.RegionsAreOutermost | internal/tagprotect/tagprotect.go:219-267 | in block mode, exactly the self-closing tags and matched pairs that lie in no other, a close tag matching the last open tag of its name that no other close has passed |
| TagProtect.GapsAndRegions | internal/tagprotect/tagprotect.go:271-285 | the text is its gaps interleaved with its regions |
| TagProtect.Emit | internal/tagprotect/tagprotect.go:275-285 | the output is the same gaps interleaved with numbered placeholders |
| TagProtect.ProtectTags | internal/tagprotect/tagprotect.go:179-288 | output and input share their gaps; the blocks pair each placeholder with its region |
| TagProtect.RoundTripIff | internal/tagprotect/tagprotect.go:290-293 | restoring gives the text back if and only if no gap holds an issued placeholder and no region a later one |
| TagProtect.EditedRoundTrip | internal/tagprotect/tagprotect.go:290-318 | in either mode, any prefix-free rewrite of the gaps is restored around the original regions |
| TagProtect.RoundTrip | internal/tagprotect/tagprotect.go:290-318 | unless all candidates are taken, restoring what was protected gives the text back |
| TagProtect.CrowdedIsNotRestored | internal/tagprotect/tagprotect.go:165-171 | with all candidates taken and the fallback's placeholder in the text, restoring gives another text |
| TagProtect.CrowdedExists | internal/tagprotect/tagprotect.go:165-171 | such a text exists |
| TagRestore.RestoreTags | internal/tagprotect/tagprotect.go:300-318 | the loop replaces the placeholders one after the other and skips a missing one |
| TagRestore.RestoreComputes | internal/tagprotect/tagprotect.go:300-318 | what any prefix of the restore loop makes of any texts between the placeholders |
| TagRestore.RestoreInvertsIff | internal/tagprotect/tagprotect.go:290-318 | restore is the inverse, for any gaps, if and only if placeholders and gaps do not mix |
| TagRestore.PrefixFreeRoundTrip | internal/tagprotect/tagprotect.go:290-293 | it suffices that neither gaps nor regions hold the chosen prefix |
| LogTemplate.MergedIs | internal/reformats/log_template.go:179-185 | merging leaves a slot constant if and only if every line of the run agrees on it |
| LogTemplate.FlushExpands | internal/reformats/log_template.go:189-243 | flushing a run, collapsed or verbatim, emits exactly its lines' tokens |
| LogTemplate.TemplatesAreExact | internal/reformats/log_template.go:189-243 | templates are numbered from 1, each over enough lines with enough constants and something varying, wild exactly where the lines differ |
| LogRuns.RunsAreExact | internal/reformats/log_template.go:99-209 | the output is the input cut into blank lines and runs as long as they go: a line joins while it is as long as the run's first and agrees with the run at enough positions, those that vary counting as agreement; a run collapses if and only if it is worth it |
| LogTemplate.Lossless | internal/reformats/log_template.go:82-150 | expanding what is emitted gives every input line's tokens, in order, once |
| LogTemplateText.Run.constructor | internal/reformats/log_template.go:153-159 | a run starts with its first line as an all-constant template |
| LogTemplateText.Run.ExtendsRun | internal/reformats/log_template.go:163-175 | a line extends a run if it has as many tokens and enough of them match, a wild slot matching anything |
| LogTemplateText.Run.MergeIntoTemplate | internal/reformats/log_template.go:179-185 | slots that differ from the line become wild in place; no slot becomes constant |
| LogTemplateText.EmitTemplate | internal/reformats/log_template.go:215-243 | header and variant rows are the printed form of the template segment |
| LogTemplateText.FlushRun | internal/reformats/log_template.go:189-243 | prints exactly what the mined segments prescribe and advances the template number with them |
| LogTemplateText.Mine | internal/reformats/log_template.go:99-134 | the loop over lines with its mutable run prints exactly the mined segments |
| LogTemplateText.Apply | internal/reformats/log_template.go:82-150 | when it is skipped, that the output is the mined text or the input, and that it is never longer than the input |
| LogTemplateRead.FieldsJoin | internal/reformats/log_template.go:96-96 | tokens joined by one space split back into the same tokens |
| LogTemplateRead.HeaderReads | internal/reformats/log_template_test.go:57-71 | a printed header passes the reader's three string checks and reads back as its slots and its count |
| LogTemplateRead.RowReadsIff | internal/reformats/log_template_test.go:73-86 | a row fills back to its line if and only if no constant slot is the text "<*>" |
| LogTemplateRead.SegsRead | internal/reformats/log_template_test.go:49-94 | printed segments read back as their lines' tokens when no constant slot is the wildcard text, and make the reader fail otherwise |
| LogTemplateRead.ReadsBackIff | internal/reformats/log_template_test.go:45-94 | for lines none of which looks like a header, what is printed reads back as every line's tokens if and only if no collapsed run has `<*>` at one place in all its lines |
| LogTemplateRead.ImitationIsLost | internal/reformats/log_template_test.go:57-73 | a line that looks like a header announcing no rows adds nothing to what is read, whatever follows it |
| LogTemplateOutput.SplitsBack | internal/reformats/lines.go:13-26 | printed lines split into the same lines, each without a final carriage return |
| LogTemplateOutput.OutputReadsBackIff | internal/reformats/log_template.go:138-149 | for lines none of which looks like a header, reading the output string gives every input line's tokens if and only if the mined text is no shorter than the input, or the input does not end in a bare carriage return and no collapsed run has `<*>` at one place in all its lines |
| LogTemplateOutput.FinalNewlineStays | internal/reformats/log_template.go:138-143 | a shortened output is every printed line with its newline, but for the last newline when the input has none at its end |
| LogTemplateOutput.BareCRIsLost | internal/reformats/log_template.go:140-143 | any number of newlines and a final carriage return: the last blank line is lost |
| LogTemplateExample.StarsAreLost | internal/reformats/log_template_test.go:73-86 | twenty lines that start with `<*>`, under the default configuration: the output is shorter than the input and does not read back |
| LogTemplateExample.LookalikeIsLost | internal/reformats/log_template_test.go:57-73 | twenty plain lines and a look-alike without rows, under the default configuration: the output is shorter and does not read back |
| Compaction.ColumnsAreOrdered | internal/smartcrusher/compaction/compactor.go:121-164 | the columns are exactly the keys that occur, by descending frequency and ascending name |
| Compaction.ColumnsAreUnique | internal/smartcrusher/compaction/compactor.go:121-164 | no column appears twice |
| TableShape.ColumnsByFrequency | internal/smartcrusher/compaction/compactor.go:121-164 | of two columns the one more items hold comes first, of two as frequent the alphabetically lower |
| Compaction.CellFromValue | internal/smartcrusher/compaction/compactor.go:231-269 | the cell of a value: scalar, nested table, parsed text or opaque reference |
| TableShape.CellKinds | internal/smartcrusher/compaction/compactor.go:231-269 | which values become nested tables, references, or stay as they are or were parsed |
| Compaction.BuildRow | internal/smartcrusher/compaction/compactor.go:209-224 | one cell per column in column order, missing where the object lacks the key |
| Compaction.UniformObjectKeys | internal/smartcrusher/compaction/compactor.go:386-421 | the scan returns the keys the column's objects share, or none |
| TableShape.FlattensIff | internal/smartcrusher/compaction/compactor.go:297-302 | a column is flattened by some inner keys if and only if its name has no dot, they are not too many, and every object in it has exactly them, leading empty ones aside |
| Compaction.InferNullable | internal/smartcrusher/compaction/compactor.go:439-467 | a dotted column is nullable exactly when a row has no value there |
| Compaction.ExpandRows | internal/smartcrusher/compaction/compactor.go:326-367 | every row's cell is replaced in place by its dotted cells, the rest kept |
| Compaction.ExpandColumn | internal/smartcrusher/compaction/compactor.go:311-375 | one column is replaced in specs and rows together |
| Compaction.FlattenUniformNested | internal/smartcrusher/compaction/compactor.go:297-380 | the walk over the growing list ends, having flattened each original column once by its own keys |
| Compaction.BuildHomogeneousTable | internal/smartcrusher/compaction/compactor.go:150-189 | fields and rows are those of the items, flattened |
| Compaction.Compact | internal/smartcrusher/compaction/compactor.go:66-104 | short or mixed arrays are left alone; others become the table of their items |
| TableShape.TableIs | internal/smartcrusher/compaction/compactor.go:150-189 | the fields are the columns in order, each as it is or replaced in place by its dotted fields, and every row holds the item's values there |
| TableShape.PlainFields | internal/smartcrusher/compaction/compactor.go:150-189 | where nothing is flattened the fields are the columns, most frequent first |
| TableShape.UntouchedIff | internal/smartcrusher/compaction/compactor.go:66-76 | only short or mixed arrays are left alone |
| Compaction.TablesAreRectangular | internal/smartcrusher/compaction/compactor.go:291-380 | through all in-place flattening every item keeps one row with exactly one cell per field |
| Compaction.NullableIff | internal/smartcrusher/compaction/compactor.go:166-175 | a field of the final table is nullable if and only if some row has no value in it |
| CompactionLossless.FlatDecodes | internal/smartcrusher/compaction/compactor.go:311-367 | regrouping the dotted columns of a flattened row rebuilds the row as it was |
| CompactionLossless.FaithfulIff | internal/smartcrusher/compaction/compactor.go:226-269 | a cell reads back as its value if and only if nothing in it is opaque, re-parsed or lost below |
| CompactionLossless.RestorableIff | internal/smartcrusher/compaction/compactor.go:62-104 | the table reads back as the array, as keys and values at every depth, if and only if keys are dot-free, cells faithful and no empty object swallowed |
| CompactionLossless.DottedIsLost | internal/smartcrusher/compaction/compactor.go:386-390 | an item key with a dot always breaks the round trip |
| CompactionLossless.EmptyIsSwallowed | internal/smartcrusher/compaction/compactor.go:391-413 | an empty object before a non-empty one lets the column flatten by the later keys |
| CompactionLossless.EmptyObjectLost | internal/smartcrusher/compaction/compactor.go:391-413 | so that array does not come back, whatever the other value is |
| Csv.FormatRow | internal/smartcrusher/compaction/formatter.go:84-101 | a row prints as its cells joined by commas |
| Csv.FormatRows | internal/smartcrusher/compaction/formatter.go:84-101 | the body is the rows, each ended by a newline |
| Csv.CellReads | internal/smartcrusher/compaction/formatter.go:106-154 | a cell that is not opaque reads back as its text by section 2 of RFC 4180, quotes, commas and newlines included |
| Csv.QuotedIff | internal/smartcrusher/compaction/formatter.go:124-154 | a text is quoted exactly when it holds a comma, a quote or a line break |
| Csv.RowReads | internal/smartcrusher/compaction/formatter.go:84-101 | what one printed row reads back as, opaque cells included |
| Csv.BodyReads | internal/smartcrusher/compaction/formatter.go:67-101 | what the whole printed body reads back as |
| Csv.BodyRoundTripIff | internal/smartcrusher/compaction/formatter.go:67-154 | the same rows, field counts and texts come back if and only if every row has a cell and none is opaque |
| IntSets.SortedIntSet | internal/smartcrusher/orchestration.go:40-47 | in whatever order the map is iterated, the ascending listing |
| IntSets.ListingIsUnique | internal/smartcrusher/orchestration.go:40-47 | a set has only one ascending listing |
| IntSets.AddUnder | internal/smartcrusher/orchestration.go:356-381 | adds candidates until the budget is used; what is left is what was not added |
| IntSets.TopUpSize | internal/smartcrusher/orchestration.go:384-400 | adds exactly as many as budget or new candidates allow |
| IntSets.TopUpTakesLowest | internal/smartcrusher/orchestration.go:392-399 | from an ascending list, every row added is lower than every row refused |
| Orchestration.DeduplicateIndicesByContent | internal/smartcrusher/orchestration.go:237-255 | keeps exactly the in-bounds rows whose content no lower kept row has |
| Orchestration.DedupRepresents | internal/smartcrusher/orchestration.go:233-236 | every in-bounds row is represented by itself or a lower row with its content |
| Orchestration.VisitsEachOnce | internal/smartcrusher/orchestration.go:286-309 | the strided double loop meets every position exactly once |
| Orchestration.VisitOrderIs | internal/smartcrusher/orchestration.go:286-309 | so it meets every candidate exactly once |
| Orchestration.GreedyIsExact | internal/smartcrusher/orchestration.go:291-309 | a greedy pass in any order adds as many rows as budget or unseen contents allow, all distinct |
| Orchestration.FillRemainingSlots | internal/smartcrusher/orchestration.go:262-311 | the loops compute the greedy pass in strided order |
| Orchestration.FillIsExact | internal/smartcrusher/orchestration.go:257-311 | keeps the input and adds exactly min(free slots, contents not yet represented), no content twice |
| SamplePlan.FillsInStride | internal/smartcrusher/orchestration.go:281-309 | candidates are taken in strides of count / (free + 1), then from the next offset: an earlier one is passed over only for its content |
| Orchestration.EnforceBudget | internal/smartcrusher/orchestration.go:338-401 | criticals first, then anchors, then the lowest others |
| Orchestration.PrioritizeIndices | internal/smartcrusher/orchestration.go:319-402 | dedup, fill and budget as one function of the inputs |
| Orchestration.BudgetIsExact | internal/smartcrusher/orchestration.go:313-402 | within budget nothing is cut; over it, all criticals stay and the size is exactly max(budget, criticals) |
| SamplePlan.OverBudgetOrder | internal/smartcrusher/orchestration.go:358-401 | over budget, rows 0 to 2 and the last two are added from the lowest up, and only then the lowest of the other rows asked for |
| SamplePlan.FillsUp | internal/smartcrusher/orchestration.go:319-336 | below budget nothing asked for is lost and new contents fill the free slots as far as both go |
| Orchestration.ApplyConstraints | internal/smartcrusher/planning.go:134-142 | every in-bounds index any constraint names is added, none other |
| Orchestration.PlanSmartSample | internal/smartcrusher/planning.go:75-130 | the plan is the ascending listing of the prioritised union of all signals |
| SamplePlan.SignalsAre | internal/smartcrusher/planning.go:75-130 | a row is asked for by an anchor, an anomaly, the query, a constraint, or a change point at most one row away |
| Orchestration.CurrentRepresents | internal/smartcrusher/orchestration.go:320-336 | what was asked for survives dedup and fill, itself or by a lower row with its content |
| Orchestration.PlanKeepsCriticals | internal/smartcrusher/planning.go:75-130 | every error, outlier or anomaly is in the plan, itself or by a lower row with its content, whatever the budget |
| Orchestration.PlanRepeatsNothing | internal/smartcrusher/orchestration.go:319-336 | under dedup a plan within its budget names no content twice |
| Outliers.DominantCluster | internal/smartcrusher/outliers.go:167-213 | counting, ordering and accumulating yield the shortest covering prefix of the ranking |
| Outliers.ClusterCovers | internal/smartcrusher/outliers.go:204-213 | the prefix reaches the coverage threshold and no shorter one does |
| Outliers.CoverageIs | internal/smartcrusher/outliers.go:182-213 | covered and uncovered values add up to all |
| Outliers.AtMostAFifth | internal/smartcrusher/outliers.go:201-213 | at most a fifth of the values lie outside a covering prefix |
| Outliers.ClusterDominates | internal/smartcrusher/outliers.go:185-213 | every value inside is at least as frequent as every value outside |
| Outliers.ClusterIsDominant | internal/smartcrusher/outliers.go:113-119 | both of these hold of the cluster the code picks |
| RareRows.ClusterIsTop | internal/smartcrusher/outliers.go:182-199 | every value of the cluster is more frequent than any outside it, or as frequent and lower |
| RareRows.ClusterIsLeast | internal/smartcrusher/outliers.go:201-213 | the cluster covers four fifths of the values and would not without its last one |
| Outliers.RareStatus | internal/smartcrusher/outliers.go:131-230 | flags exactly the rows outside the cluster when both gates pass, never more than a fifth of the field's rows |
| Outliers.RareStatusRows | internal/smartcrusher/outliers.go:120-234 | the union over all common fields, in whatever order |
| Outliers.DetectStructuralOutliers | internal/smartcrusher/outliers.go:49-111 | the ascending listing of the rows with a rare field or a rare status; none below five items |
| RareRows.OutlierIff | internal/smartcrusher/outliers.go:49-111 | from five items on, a row is an outlier if and only if it carries a field that fewer than a fifth of the items carry, or a rare value of one that four fifths carry |
| LogSelect.RankSet | internal/compress/log_compressor.go:535-548 | gathering in any order and sorting gives the one ranking |
| LogSelect.RankingIsUnique | internal/compress/log_compressor.go:540-548 | score descending, index ascending determines the ranking of a set |
| LogSelect.PickCategory | internal/compress/log_compressor.go:557-585 | forced lines and the best of the rest, as a set |
| LogSelect.PickWithin | internal/compress/log_compressor.go:557-585 | only lines of the category, the forced ones among them |
| LogSelect.PickSize | internal/compress/log_compressor.go:555-585 | exactly min(limit, lines), except that forced lines are never given up |
| LogKept.PickIsBest | internal/compress/log_compressor.go:568-580 | a picked line that is not forced has a higher score than every line left out, or the same and stands before it |
| LogSelect.PickExceedsIff | internal/compress/log_compressor.go:555-567 | the limit is exceeded if and only if it is one and two different lines are forced |
| LogSelect.SelectStackTraces | internal/compress/log_compressor.go:589-615 | a trace line is kept if and only if it is among the first lines of one of the first blocks |
| LogKept.TraceIff | internal/compress/log_compressor.go:589-615 | a trace line is kept if and only if no more blocks than the limit start up to its own and it is within the limit of its block |
| LogSelect.AddWithContext | internal/compress/log_compressor.go:462-473 | adds exactly the in-bounds lines within the context distance |
| LogSelect.AddWindows | internal/compress/log_compressor.go:493-499 | the union of the windows, in whatever order the map yields them |
| LogSelect.SelectWarnings | internal/compress/log_compressor.go:503-521 | the warnings kept, as a function of the lines |
| LogSelect.WarningsAreExact | internal/compress/log_compressor.go:503-521 | under dedup exactly min(limit, distinct keys) warnings, no key twice |
| LogKept.WarningsFromTheTop | internal/compress/log_compressor.go:503-521 | warnings are taken from the top: one above a kept one is kept too, or repeats the key of a kept one above it |
| LogKept.WarningCount | internal/compress/log_compressor.go:503-521 | without dedup, exactly as many as the limit or the log has |
| LogSelect.Gather | internal/compress/log_compressor.go:459-532 | the gathered set is the union of all categories |
| LogKept.KeptIff | internal/compress/log_compressor.go:459-532 | before the cap a line is kept if and only if it stands in the context of a picked error or failure, or is a kept warning, trace or summary line |
| LogKept.ForcedLinesAreKept | internal/compress/log_compressor.go:462-499 | the first and last error and failure are kept with all their context |
| LogSelect.SelectIndices | internal/compress/log_compressor.go:457-553 | the result is a function of the lines: the ascending listing of the gathered set or of its capped best |
| LogKept.UncappedListsAll | internal/compress/log_compressor.go:534-553 | without a cap the result lists exactly the lines kept |
| LogSelect.CappedIsBest | internal/compress/log_compressor.go:534-550 | over a positive cap exactly cap lines remain, each better than every one cut |
| SearchLine.ParseMatchLine | internal/compress/search_compressor.go:201-238 | the index-advancing scan finds the first separator, digits, separator after the drive guard |
| SearchLine.TryTriplet | internal/compress/search_compressor.go:201-238 | one position is tried: a triplet starts there or not, and where its digits end |
| SearchParse.ParseIff | internal/compress/search_compressor.go:197-238 | a line parses to a path, a number and the rest if and only if it is them with a ':' or '-' on either side of the digits, no cut leaves a shorter path, a drive's colon aside, and the number fits 64 bits |
| SearchLine.PrintParsesIff | internal/compress/search_compressor.go:445-445 | a printed match parses back to itself if and only if its path holds no earlier triplet and its number fits 64 bits |
| SearchLine.ParsedPathIsClean | internal/compress/search_compressor.go:201-238 | every parsed path is such a path |
| SearchLine.ParsePrintFixpoint | internal/compress/search_compressor.go:197-238 | printing a parsed line and parsing again gives the same match, across both separators, runs of them, leading zeros and drive letters |
| SearchLine.ReprintFixpoint | internal/compress/search_compressor.go:166-195 | printed matches go through trimming and parsing again unchanged |
| SearchOutput.ParseSearchResults | internal/compress/search_compressor.go:166-185 | the loop files every line that parses under its path, in order |
| SearchOutput.FormatOutput | internal/compress/search_compressor.go:436-453 | the loops print every selected match, and a footer after each group that lost some |
| SearchOutput.FooterCounts | internal/compress/search_compressor.go:446-450 | a footer stands exactly where matches were dropped, and its number plus the matches printed is what the path had |
| SearchOutput.FooterNeverParses | internal/compress/search_compressor.go:448-450 | the footer of a path that was parsed is never read as a match |
| SearchOutput.RetrievalNeverParses | internal/compress/search_compressor.go:151-157 | nor is the retrieval line |
| SearchOutput.OutputReparses | internal/compress/search_compressor.go:123-158 | whatever is selected from the parsed matches, the printed output, with its footers and with or without the retrieval line, parses back to exactly the selected matches in order |
| SearchOutput.GroupsReparse | internal/compress/search_compressor.go:166-185 | and, grouped by path, to exactly the selected groups |

## Left out

- JSON parsing and slot offsets are library calls: a body is given as literal bytes and string slots, and an offset is the rendered length before the slot.
- The router, the tokenizer, the two digests and the JSON string encoder are arbitrary functions, the same on every turn. Where a theorem needs digests not to collide on the texts at hand, it says so.
- The live-zone store is any store that may drop or forget entries at will, except that an entry once read back stays for the rest of the call. The SQLite backend is not part of this model.
- LiveZone.CompressBlock: the router is a function of text and context, so a transform whose result depends on entries it reads but did not itself stage is not covered; `LiveZone.StagingStore.Get` says that its own writes read back unchanged.
- StableRuns.PrefixStableIff: assumes that the store keeps what is written under the texts' two digests for the length of one call, that router outputs name no other hash, and that a JSON string denotes one text. A multi-step chain's intermediate hash, which the code cannot rebuild either, is covered only by `ReplayRuns.StableIffSteady`.
- DispatchSafety.EveryMarkerResolves: assumes that the router writes nothing else under another text's canonical digest, which content addressing rules out.
- Concurrency inside one operation: each operation of the replay table is one atomic step, as under its lock.
- Request handling around `Dispatch`, session keys, drift logging, ledgers and reports: input and output.
- Image codecs and base64: a codec is a parameter that reports dimensions and re-encodes. Aspect ratios are exact fractions, where the code divides floating-point numbers.
- Byte lengths of text: strings are sequences of characters, so thresholds and length comparisons count characters.
- The table of known HTML tags is a parameter; the protection statistics and the log entry for a missing placeholder are left out. Lower-casing is on ASCII letters.
- Log templates: spacing between tokens and carriage returns are not kept by the code, so the theorems are about tokens. The similarity threshold is a parameter over match counts.
- LogTemplateOutput.OutputReadsBackIff: assumes that no line, with or without a final carriage return, passes the reader's three checks for a header. Such a line may or may not read back; counts the reader would overflow on are unbounded integers here.
- Compaction type tags, bucketing and the markdown form: heuristic or deferred in the code. The string classifier is a parameter whose parsed values are smaller than their text.
- Csv.BodyRoundTripIff: covers the body, not the declaration line, and field texts rather than values, since null, missing and empty text print alike. JSON printing of scalars and nested tables is a parameter.
- Row contents enter SmartCrusher as content keys, and cached item strings are taken to agree with fresh serialisation, as the code's own comment says.
- Orchestration.PlanSmartSample: anchors, numeric anomalies, change points, query and preserve-field matches are inputs; the floating-point tests that find them would add only arithmetic.
- Error-keyword detection, log levels, log scores and warning normalisation are inputs; scores are integers.
- Outliers.DominantCluster: the four-fifths threshold and the common and rare ratios are exact fractions, where the code multiplies floating-point numbers.
- SearchOutput.ParseSearchResults: files its groups in a map; sorting them by path is left out, since selection, which follows it, is any choice of groups from the parsed matches.
- Search selection and scoring, diff and text compression, the semantic cache and the adaptive sizer: mostly tables and floating-point scores with easier properties.
