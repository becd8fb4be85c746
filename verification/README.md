# secreq, in Dafny

A model of the parts of secreq where state, order and arithmetic matter most, and proofs about
it. `dafny verify dfyconfig.toml` checks the whole project.

What is modelled, component by component:

- **Masking a command's output** (`Mask.dfy`). `Redact` rewrites a whole stream, the longest
  secret at each place replaced by the mask. `Masker` is the byte filter with its carry buffer,
  and every `push` and `finish` is proved to be a step of that rewrite.
- **Whose turn it is to play** (`Turns.dfy`, `TurnEvents.dfy`, `FlowElement.dfy`). The page-wide
  turn holder, the queue and every flow's flags and timers, as a state machine over the browser's
  events; what each event does to the turn and to everybody else; then the elements themselves,
  updated in place, each handler proved to do its event.
- **Playing a recording** (`Player.dfy`, `Screens.dfy`, `TerminalElement.dfy`). Any number of
  overlapping playback runs, each parked between two awaits, over one screen; a run token cancels.
  The events interleave freely, a run may throw at any write, and the element's methods are proved
  to be the events. What a reader sees is described apart from the writes that make it.
- **Both together** (`Stage.dfy`). The page whose flows hold those terminals: every event of the
  page calls its terminals, every run wakes between any two events, and the protocol's view of a
  terminal is proved to be that terminal.
- **The rule ABI's JSON** (`RuleJson.dfy`, `JsonText.dfy`, `RuleText.dfy`, `RuleGrammar.dfy`,
  `RuleSpelling.dfy`, `RuleParser.dfy`). The parser as functions of text and cursor; a grammar that
  has every rendering RFC 8259 allows and all else the parser takes, which it is proved to accept
  exactly; the text the host sends, spelled out in characters; and the parser, `quoteJson` and
  `encodeSubjects` themselves as loops.
- **What a decision is signed against** (`Utf8.dfy`, `Canonical.dfy`, `CanonicalWriter.dfy`,
  `HostCanonical.dfy`). The parts of an ask, their framing, a decoder written for the proof, and the
  writer that fills the buffer; and the host's own writer, in the other language, proved to write
  the same bytes.
- **The ambient graph** (`Geometry.dfy`, `Graph.dfy`, `Growth.dfy`, `GrowthLaws.dfy`,
  `GraphBuilder.dfy`). Segments over exact reals, the clearance and planarity invariants, which
  branch and which link each random number leads to and the laws of both, and the builder's loops
  over any stream of random numbers.
- **Replacing a file** (`Atomic.dfy`, `AtomicReplace.dfy`). Any number of writers over one file
  system, one system call a step, every call able to fail and every process able to die; then one
  call of `replace`, loop by loop, as one run of that protocol.
- **The audit log** (`Audit.dfy`). Appends that interleave, and the reader that recovers them
  around corrupt bytes.
- **Compacting a recording** (`Throbber.dfy`, `TermPlan.dfy`), **the window markers in it**
  (`Windows.dfy`) and **strings a process picks for itself** (`Provenance.dfy`).

Where the code and what is said about it differ, the model follows the code, and the difference
is a lemma:

- Replay pressed during a flow's own settle window begins a session under a timer that then takes
  the turn away (`Turns.SettleTimerTakesTheTurn`). A fresh page can get there
  (`Turns.SettleWindowIsReachable`), and from there to two flows playing at once
  (`Turns.TwoFlowsCanPlay`). `Turns.ExclusiveExactlyWhenClean` shows that this is the only way.
- The comment on `CLEARANCE` (`docs-site/components/ambient/graph.ts:115-122`) promises the
  distance from every node. Growth never compares an edge with a root that nothing has grown
  from, and can run past one (`Graph.ABareRootCanBeCrowded`). Growth keeps the promise if and only
  if the new edge would pass that comparison (`Graph.GrowthKeepsAllClearExactlyWhen`), and the
  graph built keeps it if and only if every grown edge does (`GraphBuilder.BuildGraph`).
- `windowIds` tests the window that is up as JavaScript tests a string, so a window whose id is
  the empty string may be left up (`Windows.EmptyIdIsNotMissed`).
- `sanitize_display` stops scanning early, and behind leading combining marks that can drop the
  end of a name without its ellipsis (`Provenance.AMarkInFrontHidesTheCut`).
- The comment on `throbberDiff` (`docs-site/term-markup.ts:318-319`) asks for two glyphs of one
  cycle; the code asks only that both are throbber glyphs, and takes `⠋` followed by `◐` for one
  spinner, of which `◐` is then never shown (`TermPlan.ASpinCanLeaveItsCycle`). What is played
  holds every glyph collapsed if and only if each frame stays in the cycle of the one before
  (`TermPlan.EveryGlyphIsPlayedExactlyWhen`).
- The comment on a caller's `exe` (`packages/secreq/src/wasm_rules.rs:148-151`) has an unknown one
  serialised as `null`; the host leaves it out. With `null` a rule would abort on exactly the
  contexts with such a caller (`RuleText.NullExeAborts`).
- The comment on the parser (`packages/secreq-rule/assembly/json.ts:1-6`) has malformed input abort.
  A member or an element without a value is skipped, as is any run of characters
  (`RuleGrammar.AMissingValueIsTaken`). `RuleGrammar.ReadsExactly` says of every text whether it is
  read, as what and how far, and `RuleGrammar.JsonWasReadExactlyWhen` when what was read is JSON.
- Both halves of the mask's hypothesis in `Mask.OutputHoldsNoSecret` are needed
  (`Mask.AnEmptyMaskCanSplice`, `Mask.ASharedMaskCanSplice`).

What is assumed, and stated as a hypothesis where it is used: a serialised audit entry is one
line, does not start with whitespace and decodes to itself whatever follows (`Audit.Lawful`);
over the angles growth draws, sine and cosine are at least 0.4 (`Growth.Trig.Sound`), or lie on the
unit circle with a tangent between those of the least and the greatest angle
(`GrowthLaws.Circular`); the space and the ellipsis are neither marks nor invisible
(`Provenance.Tables.Sound`). Strings that are encoded are well-formed Unicode and pids are natural
numbers.

## Model

| member | source | states |
|---|---|---|
| Mask.LongestIsLongest | packages/secreq/src/mask.rs:159-164 | The length matched at a place is that of a secret standing there, and no longer secret stands there |
| Mask.HeldExactlyWhenUndecided | packages/secreq/src/mask.rs:135-154 | A position is held back if and only if some continuation of the stream would make the step there consume more than has arrived |
| Mask.DecidedMatchIsFinal | packages/secreq/src/mask.rs:106-156 | Where nothing is held back, no later byte changes what matches |
| Mask.FeedResumes | packages/secreq/src/mask.rs:87-93 | Feeding on from the carry of a first batch gives the output and carry that feeding both batches at once would |
| Mask.FeedThenFlush | packages/secreq/src/mask.rs:96-101 | What was emitted so far, followed by the rewrite of the carry, is the rewrite of the whole stream |
| Mask.CarryIsPending | packages/secreq/src/mask.rs:135-154 | The carry is empty or a strict prefix of some secret, and a suffix of the stream |
| Mask.ChunksDoNotMatter | packages/secreq/src/mask.rs:87-156 | After any pushes, the bytes emitted and the bytes held are those of one push of everything |
| Mask.ChunkIndependence | packages/secreq/src/mask.rs:87-156 | For every split of every stream, the pushes and the flush together emit the leftmost-longest rewrite of the whole stream |
| Mask.RedactOnlyReplacesSecrets | packages/secreq/src/mask.rs:106-156 | Output and stream decompose into the same pieces: copied bytes, and whole secrets each replaced by the mask |
| Mask.ReplacedPiecesAreSecrets | packages/secreq/src/mask.rs:159-164 | Every replaced piece is one of the secrets |
| Mask.EveryOccurrenceIsHit | packages/secreq/src/mask.rs:106-156 | The first byte of every occurrence of every secret lies inside a replaced span |
| Mask.NoSecretSurvivesInARun | packages/secreq/src/mask.rs:106-156 | No run of copied bytes contains a secret |
| Mask.OutputHoldsNoSecret | packages/secreq/src/mask.rs:106-156 | With a non-empty mask that shares no byte with any secret, no secret occurs anywhere in the output, not even across a replacement |
| Mask.CleanStreamIsUntouched | packages/secreq/src/mask.rs:106-156 | A stream that holds no secret is emitted unchanged |
| Mask.MaskingIsIdempotent | packages/secreq/src/mask.rs:87-156 | Under the same hypothesis, masking the output again changes nothing |
| Mask.AnEmptyMaskCanSplice | packages/secreq/src/mask.rs:52-76 | An empty mask can let what surrounds one secret close up into another |
| Mask.ASharedMaskCanSplice | packages/secreq/src/mask.rs:52-76 | A mask that shares a byte with a secret can complete it |
| Mask.KeptAreTheNonEmptyValues | packages/secreq/src/mask.rs:52-76 | The secrets kept are exactly the non-empty values given, longest first |
| Mask.Masker.WithMask | packages/secreq/src/mask.rs:52-76 | A new masker holds the kept secrets and nothing of any stream |
| Mask.Masker.MatchAt | packages/secreq/src/mask.rs:159-164 | The first kept secret at a place, by its length: the longest one there, found exactly when there is one |
| Mask.Masker.IsSecretPrefix | packages/secreq/src/mask.rs:168-172 | True exactly when the bytes are a strict prefix of some secret |
| Mask.Masker.LengthGuardIsImplied | packages/secreq/src/mask.rs:135-154 | The guard on the remaining length never changes the hold-back decision |
| Mask.Masker.Scan | packages/secreq/src/mask.rs:106-156 | Emits and keeps exactly what the specification says of the buffer, held back or flushed |
| Mask.Masker.Push | packages/secreq/src/mask.rs:87-93 | Output and carry after a push are those of feeding the old carry and the new bytes |
| Mask.Masker.Finish | packages/secreq/src/mask.rs:96-101 | Flushing emits the rewrite of the carry and empties it |
| Mask.Masker.MaskAll | packages/secreq/src/mask.rs:186-193 | Pushing any chunks and finishing emits the rewrite of their concatenation |
| Turns.ClaimHandsTheTurnToNobodyElse | docs-site/components/ui/secreq-flow-element.ts:200-206 | A claim starts no waiting flow, takes only the claimant from the queue, and stands down the incumbent and nobody else |
| Turns.OfferStopsAtTheFirstTaker | docs-site/components/ui/secreq-flow-element.ts:178-186 | An offer drops exactly the flows that decline and stops at the first that accepts, which it starts |
| Turns.StepKeeps | docs-site/components/ui/secreq-flow-element.ts:149-206 | Every event keeps the queue in order; every event but a Replay under the flow's own settle timer keeps a playing session the holder's |
| Turns.QueueStaysInOrder | docs-site/components/ui/secreq-flow-element.ts:149-206 | In every run of events: the holder is not waiting and its watchdog is armed, nobody waits twice, only never-played flows wait, no holder means an empty queue, and the queue starts each flow at most once |
| Turns.AtMostOneFlowPlays | docs-site/components/ui/secreq-flow-element.ts:315-320 | In every run with no session begun under the flow's own settle timer, two flows that are playing are one flow, and it holds the turn |
| Turns.ExclusiveExactlyWhenClean | docs-site/components/ui/secreq-flow-element.ts:361-379 | From a page in order, an event leaves every clean continuation exclusive if and only if it does not begin a session under that timer |
| Turns.SettleTimerTakesTheTurn | docs-site/components/ui/secreq-flow-element.ts:438-447 | From any page where Replay begins a session under that timer, the timer then leaves the session playing without the turn |
| Turns.SettleWindowIsReachable | docs-site/components/ui/secreq-flow-element.ts:438-447 | From a fresh page, Replay, the end of that session and another Replay begin a session under the settle timer |
| Turns.TwoFlowsCanPlay | docs-site/components/ui/secreq-flow-element.ts:438-447 | From a fresh page, seven events lead to two flows playing at once |
| Turns.WatchdogFreesTheQueue | docs-site/components/ui/secreq-flow-element.ts:361-379 | While anybody waits the holder's watchdog is armed, and when it fires the turn passes to the first waiting flow that accepts and the old session is over |
| TurnEvents.ScrolledAwayGivesUp | docs-site/components/ui/secreq-flow-element.ts:399-417 | A flow scrolled entirely out of view has neither the turn nor a place in the queue nor a timer running; if it had the turn its session is over, the first waiting flow on screen with a terminal to start has begun one, those before it are out of the queue and those behind it still wait; nobody else changes |
| TurnEvents.SettledGivesUp | docs-site/components/ui/secreq-flow-element.ts:438-442 | The settle timer gives the turn back in the same way, and leaves the terminal as it is |
| TurnEvents.WatchdogGivesUp | docs-site/components/ui/secreq-flow-element.ts:361-379 | The watchdog gives the turn back in the same way, and the session is over |
| TurnEvents.RemovedGivesUp | docs-site/components/ui/secreq-flow-element.ts:250-268 | A flow taken out of the document gives the turn back in the same way, and its session is over |
| TurnEvents.ViewStartsTheDwell | docs-site/components/ui/secreq-flow-element.ts:399-432 | Short of leaving entirely, an entry sets whether the flow is on screen, starts the dwell of one that comes into view and has not played, throws away the dwell of one that leaves, and changes nothing else |
| TurnEvents.DwellAsksForTheTurn | docs-site/components/ui/secreq-flow-element.ts:420-426 | A flow whose dwell ends starts at once if the turn is free and it is on screen with a terminal, waits at the end of the queue if somebody has the turn, and stays out if it has played or cannot start |
| TurnEvents.ReplayTakesTheTurn | docs-site/components/ui/secreq-flow-element.ts:444-447 | Whoever had the turn is stopped and disarmed, the flow leaves the queue, has the turn and plays, and nobody else changes |
| TurnEvents.ReplayWithoutATerminal | docs-site/components/ui/secreq-flow-element.ts:444-447 | With no terminal to start, whoever had the turn is still stopped, and the turn claimed goes down the queue |
| TurnEvents.RunEndSettles | docs-site/components/ui/secreq-flow-element.ts:438-442 | The end of a run arms the settle timer exactly for the current run of the flow that has the turn, and changes nothing else |
| TurnEvents.AWatchedFlowPlays | docs-site/components/ui/secreq-flow-element.ts:399-426 | From a fresh page, a flow that comes into view and stays there for its dwell has the turn and plays |
| FlowElement.FlowPage.JoinQueue | docs-site/components/ui/secreq-flow-element.ts:149-153 | Does to the page what the protocol's join does |
| FlowElement.FlowPage.LeaveQueue | docs-site/components/ui/secreq-flow-element.ts:161-167 | Does to the page what the protocol's leave does |
| FlowElement.FlowPage.OfferTurn | docs-site/components/ui/secreq-flow-element.ts:178-186 | The loop terminates and does what the protocol's offer does |
| FlowElement.FlowPage.ClaimTurn | docs-site/components/ui/secreq-flow-element.ts:200-206 | Does to the page what the protocol's claim does |
| FlowElement.FlowPage.TakeTurn | docs-site/components/ui/secreq-flow-element.ts:278-281 | Accepts exactly when the flow is on screen and its terminal can start, and then has begun a session |
| FlowElement.FlowPage.StandDown | docs-site/components/ui/secreq-flow-element.ts:315-320 | Stops the terminal, disarms every timer and leaves the queue |
| FlowElement.FlowPage.Begin | docs-site/components/ui/secreq-flow-element.ts:361-369 | Marks the flow played, arms its watchdog and starts its terminal, leaving a pending settle timer as it is |
| FlowElement.FlowPage.Release | docs-site/components/ui/secreq-flow-element.ts:372-379 | Disarms every timer and leaves the queue |
| FlowElement.SecreqFlow.Arm | docs-site/components/ui/secreq-flow-element.ts:420-426 | Starts the dwell unless it runs or the flow has played |
| FlowElement.FlowPage.OnIntersect | docs-site/components/ui/secreq-flow-element.ts:399-417 | Does to the page what the protocol's intersection event does |
| FlowElement.FlowPage.OnDwell | docs-site/components/ui/secreq-flow-element.ts:420-426 | Does to the page what the protocol's dwell event does |
| FlowElement.FlowPage.OnSettle | docs-site/components/ui/secreq-flow-element.ts:438-442 | Does to the page what the protocol's settle event does |
| FlowElement.FlowPage.OnWatchdog | docs-site/components/ui/secreq-flow-element.ts:361-369 | Does to the page what the protocol's watchdog event does |
| FlowElement.FlowPage.OnRunEnds | docs-site/components/ui/secreq-terminal-element.ts:540-551 | Does to the page what the end of a playback run does, announced or not |
| FlowElement.FlowPage.OnReplay | docs-site/components/ui/secreq-flow-element.ts:444-447 | Does to the page what the protocol's Replay does |
| FlowElement.FlowPage.OnDisconnect | docs-site/components/ui/secreq-flow-element.ts:250-268 | Does to the page what removing the flow and its terminal does |
| Player.SegmentAdvances | docs-site/components/ui/secreq-terminal-element.ts:553-607 | A run that wakes with its token current writes exactly what lies between two places of the sequential session, and parks at the second |
| Player.DoneIsPrefix | docs-site/components/ui/secreq-terminal-element.ts:553-607 | Wherever an undisturbed run is parked, what it has written is a beginning of the whole session |
| Player.OnlyTheCurrentRunWrites | docs-site/components/ui/secreq-terminal-element.ts:573-759 | In every run of events, with the token tested only where the code tests it, whatever a playback run wrote it wrote while its own token was the current one |
| Player.SupersededRunsLeave | docs-site/components/ui/secreq-terminal-element.ts:573-759 | Wherever it is parked, a superseded run that wakes writes nothing, and within three wakes has left the script without completing it |
| Player.UntestedStretchIsSilent | docs-site/components/ui/secreq-terminal-element.ts:584-600 | The only stretch that does the same superseded or not is the one into the beat after a typed or pasted step, and it writes nothing |
| Player.EarlierRunsStaySilent | docs-site/components/ui/secreq-terminal-element.ts:301-313 | After a start, a stop or a disconnect, every run there was writes nothing and announces nothing, for ever |
| Player.EachRunAnnouncesOnce | docs-site/components/ui/secreq-terminal-element.ts:540-551 | No token announces an end twice |
| Player.StepKeeps | docs-site/components/ui/secreq-terminal-element.ts:527-763 | One event keeps the invariant, moves the token exactly on start, stop and disconnect, and leaves superseded runs silent |
| Player.RunsFollowTheScript | docs-site/components/ui/secreq-terminal-element.ts:553-763 | However runs overlap, what one wrote is a beginning of its sequential session, and all of it if the run completed |
| Player.WholeAnnouncesTheMarkers | docs-site/components/ui/secreq-terminal-element.ts:522-525 | A whole session of a compacted recording announces the recording's window markers, in order |
| Player.FlagFollowsPlayback | docs-site/components/ui/secreq-flow-element.ts:464-492 | While the current run plays an accepted recording, from its first marker on the flow's up flag says whether a window is up there, and it is off once the run completed |
| Player.SessionsLeaveTheFinishedScreen | docs-site/components/ui/secreq-terminal-element.ts:358-364 | A session that completes and one that is stopped leave the same screen: the last frame, no overlay, the whole command; on the page exactly one frame shows, or none on purpose |
| Player.PlayerIsTheFlowsTerminal | docs-site/components/ui/secreq-terminal-element.ts:527-551 | On every event the player changes its token and unfinished runs as the turn protocol takes a terminal to, and announces exactly where that protocol acts on an end |
| Screens.StepLeaves | docs-site/components/ui/secreq-terminal-element.ts:579-600 | What each kind of step leaves on the screen: which frame, which text laid over which cell, where the caret stands, which keycaps are up |
| Screens.DoneIsSeen | docs-site/components/ui/secreq-terminal-element.ts:553-763 | At every place a run can be parked, mid-character and mid-spin included, the writes it has made leave exactly the screen described for that place |
| Screens.TheScreenFollowsTheScript | docs-site/components/ui/secreq-terminal-element.ts:553-763 | Whatever happened before a session and whatever other runs are about during it, while the session is current and has not thrown the screen is the one described for the place it has reached; a prompted one begins by entering its command |
| Screens.TheSpinnerTurnsItsCycle | docs-site/components/ui/secreq-terminal-element.ts:636-663 | A spinner planned for a glyph begins on that glyph and shows, tick after tick, each next glyph of the cycle that holds it, over one frame and with nothing else laid over it |
| TerminalElement.SecreqTerminal.ShowFrame | docs-site/components/ui/secreq-terminal-element.ts:419-436 | Marks the clamped frame and no other, or none and the body blank |
| TerminalElement.SecreqTerminal.Stop | docs-site/components/ui/secreq-terminal-element.ts:358-364 | Does to the element what the stop event does |
| TerminalElement.SecreqTerminal.OnConnected | docs-site/components/ui/secreq-terminal-element.ts:229-248 | Does to the element what the connect event does |
| TerminalElement.SecreqTerminal.OnDisconnected | docs-site/components/ui/secreq-terminal-element.ts:301-313 | Does to the element what the disconnect event does |
| TerminalElement.SecreqTerminal.Start | docs-site/components/ui/secreq-terminal-element.ts:527-530 | Does to the element what the start event does, up to the run's first await |
| TerminalElement.SecreqTerminal.Open | docs-site/components/ui/secreq-terminal-element.ts:553-571 | What a run writes before its first await, and where it parks |
| TerminalElement.SecreqTerminal.PlayStep | docs-site/components/ui/secreq-terminal-element.ts:573-607 | What the script loop, or what follows it, writes before its next await if its token is current, and where it parks |
| TerminalElement.SecreqTerminal.BeginStep | docs-site/components/ui/secreq-terminal-element.ts:579-600 | What one step writes before its first await, and where it parks |
| TerminalElement.SecreqTerminal.EnterOne | docs-site/components/ui/secreq-terminal-element.ts:757-762 | One character of the command and the caret after it, or nothing if the run was superseded |
| TerminalElement.SecreqTerminal.Turn | docs-site/components/ui/secreq-terminal-element.ts:653-663 | One turn of the indicator, and its removal on the last, or nothing if the run was superseded |
| TerminalElement.SecreqTerminal.TypeOne | docs-site/components/ui/secreq-terminal-element.ts:684-692 | One typed character and the caret after it, or nothing if the run was superseded |
| TerminalElement.SecreqTerminal.PasteAll | docs-site/components/ui/secreq-terminal-element.ts:709-725 | The pasted text whole and the caret after it, or nothing if the run was superseded |
| TerminalElement.SecreqTerminal.Resume | docs-site/components/ui/secreq-terminal-element.ts:573-763 | What a parked run writes on waking, superseded or not, and where it parks; each stretch that writes tests the token itself |
| TerminalElement.SecreqTerminal.Wake | docs-site/components/ui/secreq-terminal-element.ts:545-607 | Does to the element what waking a run does |
| TerminalElement.SecreqTerminal.AnnounceEnd | docs-site/components/ui/secreq-terminal-element.ts:540-543 | Announces exactly for the current token on a connected element |
| Stage.StepMoves | docs-site/components/ui/secreq-flow-element.ts:315-369 | One event of the page makes at most one call of any flow's terminal: start, stop, connect or disconnect |
| Stage.StepKeeps | docs-site/components/ui/secreq-flow-element.ts:315-379 | Every event of the page and every wake of a run keeps each terminal as the turn protocol takes it to be, and the queue in order; all but a Replay under the settle timer keep playing the holder's |
| Stage.AtMostOneTerminalPlays | docs-site/components/ui/secreq-flow-element.ts:315-320 | However the playback runs of a page wake, throw and overlap, in every run that begins no session under its own settle timer two terminals whose current runs are unfinished are one, and its flow holds the turn |
| Stage.OnlyTheHolderIsWrittenTo | docs-site/components/ui/secreq-flow-element.ts:170-206 | In such a run, whatever any playback run on the page writes or announces, it does while its flow holds the turn |
| JsonText.NumbersAreLiterals | packages/secreq-rule/assembly/json.ts:182-239 | Every number of RFC 8259 section 6 is one run of units with no delimiter in it |
| JsonText.StringParses | packages/secreq-rule/assembly/json.ts:74-102 | A string literal in any rendering, anywhere in a text, is read as what it means and the cursor stops right after it |
| JsonText.SkipsOneValue | packages/secreq-rule/assembly/json.ts:182-239 | Skipping consumes exactly one value, whatever the value, nested and spaced however RFC 8259 allows |
| RuleText.CtxParses | packages/secreq-rule/assembly/json.ts:244-270 | A text that starts with any rendering of any JSON value parses to the context that value denotes, and aborts exactly when it denotes none |
| RuleGrammar.ReadsExactly | packages/secreq-rule/assembly/json.ts:244-270 | The parser returns a context and a cursor if and only if the text begins, after whitespace, with a value of the grammar that denotes the context and ends at the cursor; it aborts on every other text |
| RuleGrammar.OneValue | packages/secreq-rule/assembly/json.ts:182-239 | Wherever it starts, a text is written as at most one value: no two ways to read it |
| RuleGrammar.JsonWasReadExactlyWhen | packages/secreq-rule/assembly/json.ts:1-6 | What was read is JSON if and only if the one object written there has only JSON literals, no missing value and no bare control character: on everything else that is read, malformed input did not abort |
| RuleGrammar.JsonIsTaken | packages/secreq-rule/assembly/json.ts:182-239 | Every JSON value of RFC 8259 is a value of that grammar |
| RuleGrammar.AMissingValueIsTaken | packages/secreq-rule/assembly/json.ts:220-238 | An object with a member that has no value is read as if the member were not there, though no JSON value is written so |
| RuleSpelling.NamesAreSpelled | packages/secreq-rule/assembly/json.ts:257-262 | The eight field names are the ones their characters spell |
| RuleSpelling.EscapesAreSpelled | packages/secreq-rule/assembly/json.ts:88-100 | Each letter after a backslash stands for the character RFC 8259 section 7 gives it, and no other letter may stand there |
| RuleSpelling.HexDigitsAreSpelled | packages/secreq-rule/assembly/json.ts:104-116 | A hexadecimal digit has the value of its place among the sixteen, in either case, and nothing else is one |
| RuleSpelling.TextFieldsSetTheirMembers | packages/secreq-rule/assembly/json.ts:257-260 | For every value and suffix, an object with the one field "wrap", "joined_argv" or "cwd", spelled in characters, sets that member of the context and no other |
| RuleSpelling.ListFieldsSetTheirMembers | packages/secreq-rule/assembly/json.ts:259-261 | And so do "callers" and "secrets", for every list |
| RuleSpelling.CallerFieldsSetTheirMembers | packages/secreq-rule/assembly/json.ts:147-151 | An object with the one field "name", "command" or "exe" sets that member of the caller and no other |
| RuleText.UnknownFieldsAreIgnored | packages/secreq-rule/assembly/json.ts:244-270 | Unknown fields, wherever they stand and whatever they hold, do not change the context denoted |
| RuleText.NewerHostsReadTheSame | packages/secreq-rule/assembly/json.ts:244-270 | A host that adds fields is read as the host that did not |
| RuleText.QuoteIsALiteral | packages/secreq-rule/assembly/json.ts:11-36 | Quoting writes an RFC 8259 string literal that means the string it was given |
| RuleText.StringRoundTrip | packages/secreq-rule/assembly/json.ts:11-36 | For every UTF-16 sequence and every suffix, parsing the quoted text gives the sequence back with the cursor at the suffix |
| RuleText.SubjectsRoundTrip | packages/secreq-rule/assembly/abi.ts:49-57 | Parsing the subjects' array text gives back every list, whatever stands around it |
| RuleText.PrintedCtxReads | packages/secreq/src/wasm_rules.rs:130-154 | The value the host prints for a context, an unknown executable left out, denotes that context as a rule sees it |
| RuleText.CtxRoundTrip | packages/secreq/src/wasm_rules.rs:266-281 | Parsing a printed context gives it back, whatever follows, an unknown executable as the empty string |
| RuleSpelling.HostTextReads | packages/secreq/src/wasm_rules.rs:130-154 | The text the host sends, written out in characters, is read back as the context it was written from, whatever follows it |
| RuleSpelling.SubjectsAreSpelled | packages/secreq-rule/assembly/abi.ts:49-57 | The subjects a rule declares are written between brackets, each quoted, a comma apart |
| RuleText.NullExeAborts | packages/secreq/src/wasm_rules.rs:148-153 | Were an unknown executable printed as null, the parse would succeed if and only if every caller's is known |
| RuleParser.Parser.SkipWs | packages/secreq-rule/assembly/json.ts:51-60 | Moves the cursor past the whitespace and no further |
| RuleParser.Parser.Expect | packages/secreq-rule/assembly/json.ts:67-72 | Moves past the unit if it is the one expected, else aborts |
| RuleParser.Parser.ParseHex4 | packages/secreq-rule/assembly/json.ts:104-116 | Reads the unit four hex digits name, or aborts where they are not four |
| RuleParser.Parser.ParseString | packages/secreq-rule/assembly/json.ts:74-102 | Value and cursor are those of the specification, and it aborts exactly where that does |
| RuleParser.Parser.ParseStringArray | packages/secreq-rule/assembly/json.ts:118-135 | Value and cursor are those of the specification, and it aborts exactly where that does |
| RuleParser.Parser.ParseCaller | packages/secreq-rule/assembly/json.ts:137-160 | Value and cursor are those of the specification, and it aborts exactly where that does |
| RuleParser.Parser.ParseCallers | packages/secreq-rule/assembly/json.ts:162-177 | Value and cursor are those of the specification, and it aborts exactly where that does |
| RuleParser.Parser.SkipValue | packages/secreq-rule/assembly/json.ts:182-239 | Terminates on every text; cursor and aborts are those of the specification, and the cursor never moves back or past the end |
| RuleParser.ParseRuleCtx | packages/secreq-rule/assembly/json.ts:244-270 | Parses every text to the context of the specification, or aborts exactly where that does |
| RuleParser.QuoteJson | packages/secreq-rule/assembly/json.ts:11-36 | The loop writes the quoted string of the specification |
| RuleParser.EncodeSubjects | packages/secreq-rule/assembly/abi.ts:49-57 | The loop writes the subjects' array of the specification |
| Utf8.DecodeEncode | packages/link-ui/src/canonical.ts:86-96 | Decoding the UTF-8 of a well-formed string, whatever follows it, gives the string back |
| Utf8.EncodeInjective | packages/link-ui/src/canonical.ts:86-96 | Two well-formed strings with the same UTF-8 are the same string |
| Utf8.ReadDecimalDecimal | packages/link-ui/src/canonical.ts:103-105 | Reading a decimal count gives the count back |
| Utf8.EachLengthIsSpelled | packages/link-ui/src/canonical.ts:86-96 | A character of each of the four lengths is encoded as RFC 3629 has it |
| Utf8.NumeralsAreSpelled | packages/link-ui/src/canonical.ts:103-105 | The digits are the decimal ones, the most significant first |
| Canonical.DecodesToNormalForm | packages/link-ui/src/canonical.ts:29-80 | Decoding the canonical bytes of an ask gives its normal form, for all three subjects and all lists |
| Canonical.PartsIgnoreForm | packages/link-ui/src/canonical.ts:103-159 | The parts of an ask are those of its normal form: null and undefined, an absent truncation flag and an absent requester list are not told apart |
| Canonical.CanonicalIsInjective | packages/link-ui/src/canonical.ts:29-80 | Two asks have the same canonical bytes if and only if they have the same normal form |
| Canonical.SignedBytesAreInjective | packages/link-ui/src/crypto.ts:45-62 | Two payloads have the same signed bytes if and only if they agree in all four fields |
| CanonicalWriter.Writer.Part | packages/link-ui/src/canonical.ts:90-96 | Appends one part behind its length, and nothing else |
| CanonicalWriter.Writer.Optional | packages/link-ui/src/canonical.ts:111-119 | Appends the parts of an optional field, present or absent |
| CanonicalWriter.Writer.Strings | packages/link-ui/src/canonical.ts:125-128 | Appends the count and the strings |
| CanonicalWriter.Writer.Callers | packages/link-ui/src/canonical.ts:130-138 | Appends the count and every caller's fields |
| CanonicalWriter.Writer.WriteSecret | packages/link-ui/src/canonical.ts:140-148 | Appends one secret's fields |
| CanonicalWriter.Writer.Finish | packages/link-ui/src/canonical.ts:150-158 | Lays the chunks out in one buffer of exactly their length, at a moving offset |
| CanonicalWriter.CanonicalAskBytes | packages/link-ui/src/canonical.ts:29-80 | The buffer filled for an ask is the framing of its parts |
| CanonicalWriter.SignedBytes | packages/link-ui/src/crypto.ts:45-62 | The buffer filled for a payload is the same framing of its four fields |
| HostCanonical.CanonicalLinkBytes | packages/secreq/src/link/canonical.rs:38-100 | The host writes from what it sends the very bytes the device computes from what it receives, and fails exactly where a part does not fit its length |
| HostCanonical.VerifiedBytes | packages/secreq/src/link/sig.rs:43-48 | The bytes the host verifies a decision against are the bytes the device signs for it, the four fields in the same order |
| HostCanonical.DeviceMatchesHostExactlyWhen | packages/secreq/src/link/canonical.rs:15-100 | The device computes the bytes the host computed if and only if it shows the ask that was sent |
| Geometry.IntersectionIsExact | docs-site/components/ambient/graph.ts:166-174 | A point is returned if and only if the insides of the segments meet and they are not parallel, and it lies strictly inside both |
| Geometry.SharedEndsNeverCross | docs-site/components/ambient/graph.ts:166-174 | Segments that share an end are never reported to cross |
| Geometry.NearestIsNearest | docs-site/components/ambient/graph.ts:176-182 | The distance to a segment is the least distance to any of its points |
| Geometry.EndsAreFar | docs-site/components/ambient/graph.ts:185-192 | From an end of either segment, the segment distance bounds every distance |
| Geometry.EndsDecide | docs-site/components/ambient/graph.ts:184-192 | For segments that do not properly cross, the four end-to-segment distances bound the distance of every pair of points |
| Graph.TestedEdgeFits | docs-site/components/ambient/graph.ts:231-246 | An edge that passed both tests against every edge it does not join keeps the graph planar with clearance |
| Graph.PlanarEdgesNeverCross | docs-site/components/ambient/graph.ts:215-266 | Any two edges never properly cross and are not one edge twice, and without a shared node no two of their points come within the clearance |
| Graph.GrowthKeepsClear | docs-site/components/ambient/graph.ts:215-266 | Growing a child keeps every edge clear of every node it does not join, bare roots aside |
| Graph.GrowthKeepsAllClearExactlyWhen | docs-site/components/ambient/graph.ts:215-266 | From a tree with every node clear, growing a child keeps every node clear if and only if the new edge stays clear of every root that nothing has grown from |
| Graph.EdgesMeetOnlyAtNodes | docs-site/components/ambient/graph.ts:114-123 | Edges that join at a node share no other point, so every meeting of two lines is a node they both join |
| Graph.ABareRootCanBeCrowded | docs-site/components/ambient/graph.ts:215-266 | An edge within the bounds, angles and lengths of growth that passes all its tests, from a page's own roots, and runs within the clearance of a root that nothing grew from |
| Growth.BranchGivesUpExactlyWhen | docs-site/components/ambient/graph.ts:218-265 | A branch gives up if and only if each of its fourteen attempts leaves the page, crosses or crowds an edge it does not join, or crowds a node |
| Growth.BranchTakesTheFirstFit | docs-site/components/ambient/graph.ts:218-262 | Otherwise its child stands where the first attempt that fits reached, and two numbers have been drawn for each attempt |
| Growth.SampleIsNearest | docs-site/components/ambient/graph.ts:278-286 | Each of the four places sampled is the whole number nearest to its share of the width |
| Growth.LinkedStopsWhenDone | docs-site/components/ambient/graph.ts:354-363 | Linking only adds, within its budget, and ends short of it only after drawing twelve pairs for every node |
| GrowthLaws.AForkGoesBothWays | docs-site/components/ambient/graph.ts:298-315 | A frontier node that forks grows to its left and then to its right, where the numbers that follow say |
| GrowthLaws.OneBranchGoesInward | docs-site/components/ambient/graph.ts:302-315 | One that does not fork grows toward the middle of the page or away from it, as its second number says |
| GrowthLaws.EveryBranchLeans | docs-site/components/ambient/graph.ts:215-266 | Every branch of the tree leads down to a node on the page, at an angle and a length within the limits |
| GrowthLaws.TheFirstRootGrows | docs-site/components/ambient/graph.ts:196-316 | If the first two numbers send the first root inward and its first attempt is on the page and clear of the other roots, its child is the first node pushed and stays |
| GrowthLaws.PickedExactlyWhen | docs-site/components/ambient/graph.ts:356-357 | A random number picks node i of n if and only if it lies in the i-th of n equal parts |
| GrowthLaws.BudgetIsNearest | docs-site/components/ambient/graph.ts:354 | The budget is nine tenths of the nodes, to the nearest whole number, halves up |
| GrowthLaws.EachDrawLinksWhatFits | docs-site/components/ambient/graph.ts:355-363 | Each pair drawn within the budget is linked if and only if it fits what was there by then: none that fits is passed over and none that does not is taken |
| GraphBuilder.Builder.ClearsEdges | docs-site/components/ambient/graph.ts:231-246 | True exactly when every edge not joined is neither crossed nor within the clearance |
| GraphBuilder.Builder.ClearsNodes | docs-site/components/ambient/graph.ts:248-256 | True exactly when every node but the parent is far enough |
| GraphBuilder.Builder.Grow | docs-site/components/ambient/graph.ts:215-266 | For every random stream: takes the first of fourteen attempts that fits, whose place is a function of the parent, the side and the two numbers drawn for it, and gives up if and only if none fits; adds one node and its edge or changes nothing; keeps the graph planar and the nodes clear |
| GraphBuilder.Builder.Spread | docs-site/components/ambient/graph.ts:278-286 | Picks distinct candidates, four or all there are, those at four even places from left to right, a leftmost and a rightmost one among them |
| GraphBuilder.Builder.GrowFrom | docs-site/components/ambient/graph.ts:298-315 | The branches a frontier node tries, in order, and the numbers it draws, are those of the law; it gains at most two children, whose edges are the only ones added |
| GraphBuilder.Builder.GrowAll | docs-site/components/ambient/graph.ts:295-318 | What has grown after up to forty generations is what the law makes of the stream, planar and with the nodes clear |
| GraphBuilder.Builder.CanLink | docs-site/components/ambient/graph.ts:326-352 | True exactly when the link is new, of fitting span and slope, and clear of every edge it does not join and of every other node |
| GraphBuilder.LinkKeepsPlanar | docs-site/components/ambient/graph.ts:354-363 | A link that fits keeps the graph planar, with no edge twice |
| GraphBuilder.LinkKeepsClear | docs-site/components/ambient/graph.ts:346-352 | A link that fits keeps the nodes clear |
| GraphBuilder.Builder.LinkAll | docs-site/components/ambient/graph.ts:322-363 | The links added are the pairs drawn that fit, in order, up to the budget; each keeps the graph planar and the nodes clear, is itself clear of every node, and removes no edge |
| GraphBuilder.OnlyGrownEdgesCrowd | docs-site/components/ambient/graph.ts:346-352 | Links being compared with every node, all nodes are clear if and only if the grown edges are clear of the bare roots |
| GraphBuilder.BuildGraph | docs-site/components/ambient/graph.ts:196-363 | For every random stream: the graph is the one the laws of growth and linking make of it, from the page's roots; it is planar with clearance; its first edges are the tree grown; every edge is clear of every node it does not join but the roots nothing grew from; and of those too if and only if every grown edge is |
| Atomic.StepKeeps | packages/secreq/src/atomic.rs:57-121 | Every system call of every writer, and every death, keeps the invariant |
| Atomic.ReadersSeeOldOrNew | packages/secreq/src/atomic.rs:51-88 | In every interleaving a path that was there stays, and a path names the file it began with, unchanged, or one writer's complete payload at exactly the mode asked for: the one given, or that of the file named when the writer resolved it |
| Atomic.OpenedVersionNeverChanges | packages/secreq/src/atomic.rs:51-57 | A reader that opened the path at any moment goes on reading that one version |
| Atomic.StagingIsOwnedAndNarrow | packages/secreq/src/atomic.rs:90-121 | A staging file has one owner and one name, holds a beginning of its owner's payload, and never carries a mode bit that was not asked for, under any umask |
| Atomic.NothingIsLeftBeside | packages/secreq/src/atomic.rs:64-72 | A staging name that was not there before belongs to a writer still at work or dead at it, or to one whose sweep failed |
| Atomic.RewritingNeverChangesTheMode | packages/secreq/src/atomic.rs:29-49 | While every writer keeps the mode of the file it replaces, the path's permission bits never change; a file that was not there comes private |
| Atomic.ModesAreSpelled | packages/secreq/src/atomic.rs:28-47 | The private mode and the mask are the permission bits their octal digits spell |
| AtomicReplace.Disk.ResolveMode | packages/secreq/src/atomic.rs:41-49 | The mode named, or the permission bits of the file named, or owner-only if there is none |
| AtomicReplace.Disk.CreateStaging | packages/secreq/src/atomic.rs:98-121 | At most sixteen draws, ending at the first free name with an empty file under the masked mode and nothing else changed; fails, changing nothing, if and only if every name before a failing open was taken or all sixteen were |
| AtomicReplace.Disk.DrawOnce | packages/secreq/src/atomic.rs:103-113 | One draw: an error, a new file at a free name, or a name in use |
| AtomicReplace.Disk.Finish | packages/secreq/src/atomic.rs:74-88 | Succeeds if and only if no write, no sync, no chmod and no rename fails, with the payload published under the path; else there is a staging file to sweep |
| AtomicReplace.Disk.Replace | packages/secreq/src/atomic.rs:57-72 | One call is one run of the protocol. It succeeds if and only if no system call it comes to fails and a staging name is free; then the path names the payload at the mode resolved and no other name has changed; on failure every path is as it was, and nothing is left beside it unless the sweep failed; every file there was is as it was |
| Audit.LinesAreReadApart | packages/secreq/src/audit.rs:693-728 | What precedes a line end and what follows it are read independently |
| Audit.EveryInterleavingIsRecovered | packages/secreq/src/audit.rs:649-728 | Under every interleaving of appends, and wherever a writer died between its object and its newline, the reader returns exactly the entries in append order and counts nothing malformed |
| Audit.CorruptionCostsItsOwnLines | packages/secreq/src/audit.rs:686-728 | Corrupt bytes anywhere cost at most the rest of the physical lines they lie on, each counted at most once; all appended before them and after the next newline is read |
| Audit.LineCountsExactly | packages/secreq/src/audit.rs:712-724 | A line counts as malformed, once, if and only if it is not blank and does not decode to its end |
| Audit.MalformedCountsBadLines | packages/secreq/src/audit.rs:693-728 | The malformed count of a file is the number of its lines that are not blank and do not decode to their ends |
| Audit.AuditLog.AppendRecord | packages/secreq/src/audit.rs:649-666 | Appends the object and then, apart, its newline |
| Audit.VisitHistory | packages/secreq/src/audit.rs:693-728 | For any visitor: it is given the entries of the file in order, and the counts are those of the file; or it refused one, having been given all before it and none after. A missing file has none |
| Audit.TakingKeepsTheLast | packages/secreq/src/audit.rs:734-746 | The closure keeps the last entries up to the limit, and refuses none |
| Audit.ReadHistoryPath | packages/secreq/src/audit.rs:730-748 | A limit yields exactly the last entries of the unlimited read, and the counts of the whole |
| Audit.LimitKeepsTheLast | packages/secreq/src/audit.rs:734-746 | A limited read is an end of the unlimited one, as long as the limit allows |
| Throbber.CycleBeginsOnTheGlyph | docs-site/components/ui/throbber.ts:91-102 | A cycle is found exactly for throbber glyphs, and is a whole revolution in painted order that begins on the glyph given |
| Throbber.CycleHoldsExactly | docs-site/components/ui/throbber.ts:91-102 | What is played for a glyph holds exactly the glyphs of its cycle |
| TermPlan.LineCells | docs-site/term-markup.ts:290-299 | The loops give the grid the line paints |
| TermPlan.SplittingARunShowsNothing | docs-site/term-markup.ts:283-299 | How many writes painted a line does not show in its cells |
| TermPlan.RunsPaintAlikeExactlyWhen | docs-site/term-markup.ts:279-299 | Two runs of one non-empty text give the same cells if and only if they agree in foreground, background and style, an absent one being none |
| TermPlan.CellsTellLooksApart | docs-site/term-markup.ts:279-299 | Two columns give the same cell if and only if they show the same character in the same foreground, background and style, and cells of one styling if and only if these three agree |
| TermPlan.SpunExactlyAsSeen | docs-site/term-markup.ts:326-346 | Two photographs are taken for one spin if and only if they show the same everywhere but in one cell, and there two different throbber glyphs in one foreground, background and style |
| TermPlan.ThrobberDiff | docs-site/term-markup.ts:326-346 | A cell is found exactly when the frames differ there only, in one style, both sides throbber glyphs |
| TermPlan.SpunInOnePlace | docs-site/term-markup.ts:326-346 | That cell is the only one |
| TermPlan.SpinnerRun | docs-site/term-markup.ts:403-413 | The run found advances one cell throughout and could go no further |
| TermPlan.PlanSteps | docs-site/term-markup.ts:370-442 | The loop computes the recording's plan: some division into blocks makes every block one entry, every spinner run maximal, and every frame shown the one kept at its index |
| TermPlan.PlanIsUnique | docs-site/term-markup.ts:370-442 | A recording has one plan |
| TermPlan.PlanConserves | docs-site/term-markup.ts:370-442 | Every other step is kept in order, frames are shown 0, 1, 2 and so on, and the number of frames and the total hold are conserved |
| TermPlan.CollapsedFramesDifferInOneCell | docs-site/term-markup.ts:364-438 | Every collapsed frame is the frame kept for it in all cells but one, where both show throbber glyphs in one style, and the glyphs played begin on the kept one |
| TermPlan.BlocksLookAlike | docs-site/term-markup.ts:364-438 | Any two photographs of one block show the same foreground, background and style in every cell, and the same character in every cell but the spinner's; so a change of colour is never collapsed |
| TermPlan.EveryGlyphIsPlayedExactlyWhen | docs-site/term-markup.ts:313-346 | What a spin plays holds every glyph it stands for if and only if each of its frames stays in the cycle of the one before |
| TermPlan.ASpinCanLeaveItsCycle | docs-site/term-markup.ts:313-346 | Two frames of different cycles are taken for one spin, which never shows the second glyph |
| TermPlan.RunsAreMaximal | docs-site/term-markup.ts:364-413 | No block could have taken in the next step as well |
| TermPlan.SpinLastsItsBeat | docs-site/components/ui/secreq-terminal-element.ts:650-651 | A spin lasts its frames' summed dwells to within half a tick |
| TermPlan.PlanLastsAsLong | docs-site/term-markup.ts:422-436 | Compacting changes how long a recording plays by at most half a tick per spin |
| Windows.AcceptedAreBlocks | docs-site/flow-markup.ts:80-120 | The marker sequences accepted are exactly the non-empty ones made of adjacent show and hide pairs and stray shows of the empty id |
| Windows.AcceptedArePairs | docs-site/flow-markup.ts:65-120 | With no stray, and in particular when every window has a name, exactly the non-empty sequences of pairs |
| Windows.PairsAreBlocksWithoutStrays | docs-site/flow-markup.ts:80-120 | A sequence is pairs if and only if it is in the language and leaves no empty id showing |
| Windows.EmptyIdIsNotMissed | docs-site/flow-markup.ts:112-117 | One show of the empty id is accepted and is not pairs |
| Windows.WindowIds | docs-site/flow-markup.ts:80-120 | Succeeds exactly on the accepted sequences, and returns the distinct ids in first-shown order |
| Windows.FlagMatchesTheWindow | docs-site/components/ui/secreq-flow-element.ts:464-492 | From the first marker on the flag says whether the validator's window is up, and is off at the end exactly when the recording does not end on a stray show |
| Windows.FlagFollowsPairs | docs-site/components/ui/secreq-flow-element.ts:464-492 | With pairs, the flag is up exactly between a show and its hide |
| Windows.MarkersOfOthers | docs-site/term-markup.ts:203-205 | The markers of a recording are those of its steps that are not frames |
| Provenance.TruncateAtClusterEdge | packages/secreq/src/provenance.rs:132-156 | The longest beginning of at most the limit, after leading marks, that ends at a cluster edge; flagged exactly when something after the marks was dropped |
| Provenance.LongestCutIsUnique | packages/secreq/src/provenance.rs:109-131 | There is one such beginning |
| Provenance.WhitespaceKeepsTokensApart | packages/secreq/src/provenance.rs:229-241 | Whitespace separates what stands on either side of it, whatever is filtered away: tokens are never joined |
| Provenance.VisibleIsTidy | packages/secreq/src/provenance.rs:224-247 | What is visible holds nothing invisible, no whitespace but single spaces, and no space in front |
| Provenance.TidyIsUnchanged | packages/secreq/src/provenance.rs:224-247 | A tidy string shows as itself |
| Provenance.InvisibleVanishes | packages/secreq/src/provenance.rs:242-244 | Taking an invisible character out of a string, wherever it stands, changes nothing in what is shown |
| Provenance.FilteredShowsTheSame | packages/secreq/src/provenance.rs:242-244 | A string shows as it would with all its invisible characters taken out beforehand |
| Provenance.VisibleIsTheWords | packages/secreq/src/provenance.rs:224-247 | What is visible is the string's words without their invisible characters, one space apart |
| Provenance.ShortStringsShowTheirWords | packages/secreq/src/provenance.rs:224-265 | A string whose words fit the limit and begin with no mark is shown as exactly those words |
| Provenance.Scan | packages/secreq/src/provenance.rs:224-255 | The loop collects what is visible, as far as it goes before it stops |
| Provenance.SanitizeDisplay | packages/secreq/src/provenance.rs:224-265 | The cut of what was collected, trimmed, with an ellipsis exactly when the cut dropped something; nothing invisible, no whitespace but single spaces, no leading mark, no trailing space, at most 301 characters |
| Provenance.EllipsisHonestExactlyWhen | packages/secreq/src/provenance.rs:248-264 | The ellipsis marks every cut if and only if the scan did not stop early, or more than the limit was left after the leading marks, or there was nothing but marks |
| Provenance.StoppingEarlyChangesNothing | packages/secreq/src/provenance.rs:248-264 | With no marks in front, cut and ellipsis are those of the whole visible string |
| Provenance.AMarkInFrontHidesTheCut | packages/secreq/src/provenance.rs:248-264 | With one mark in front, a string one too long loses its end unmarked |

## Left out

- GraphBuilder.BuildGraph: stops at nodes and edges; routes, pulses and arrivals only walk the finished graph. The random stream is arbitrary, so the seeded generator itself is not modelled.
- Geometry.NearestIsNearest: distances are compared squared, and over exact reals, so floating-point rounding is not modelled.
- Growth.Trig: sine, cosine and the near-horizontal test of links are parameters.
- Turns.StepKeeps: removing a flow and the terminal inside it is one step, and the observer, reduced motion and the scroll compensation of a window shut out of view are left out.
- Player.FlagFollowsPlayback: the flag is set and cleared by markers; standing down also clears it, but only together with a stop, after which there is no current run to speak of.
- Player.SessionsLeaveTheFinishedScreen: keycaps, which leave the page by a CSS animation, are only cleared, never timed out.
- TerminalElement.SecreqTerminal.Wake: the element's methods do not throw; a run that throws part way is an event of the state machine in `Player.dfy`. The element's own dwell, for terminals no flow drives, and the still it shows a reader who asked for reduced motion are left out.
- Stage.AtMostOneTerminalPlays: every terminal is one that a flow drives, and the calls one event of the page makes of different terminals are not ordered among each other.
- Audit.VisitHistory: opening and reading the file do not fail.
- Audit.EveryInterleavingIsRecovered: one append is one write the system takes whole; survivor records, which do not decode as entries, are not appended.
- Atomic.ReadersSeeOldOrNew: destinations are not themselves staging names, nobody but the writers touches the files, and power loss is not modelled.
- TermPlan.PlanSteps: a cell's style is a triple, where the source joins the same three with bars; the HTML around the frames is left out.
- HostCanonical.CanonicalLinkBytes: the strings are the same on both sides; the transport between them is left out.
- Canonical.CanonicalIsInjective: every part is shorter than 2^32 bytes, and lone surrogates, which the platform's encoder collapses, are not modelled. Hashes and signatures over the bytes are left out.
- RuleParser.ParseRuleCtx: an abort is a result; the message of the failure and the packing of addresses into the module's memory are left out, as is `encodeDecision`, a chain of branches.
- Mask.Masker.Push: the buffers are not wiped; zeroizing is left out.
- Provenance.SanitizeDisplay: the Unicode tables are parameters; the walk of the process tree is left out.
- Everything else of the repository: processes and terminals, the daemon, consent grants, secret references, services and shell files, and the drawing of pages.
