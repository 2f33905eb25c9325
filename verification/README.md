# Orchard: a verified model of its state machines

Orchard puts a sidebar over tmux sessions that run coding agents. The shell wrapper keeps the panes alive,
the sidebar lists and switches sessions, and a daemon serves the data. This project models the dense parts
of the three and proves what they promise, over whole runs and interleavings where they promise it there.

| file | what it models |
|---|---|
| `Recovery.dfy` | crash-loop recovery: a sliding window and a halt debounce over a log that is rotated |
| `TailReader.dfy` | transcript readers: doubling backward windows against one forward pass |
| `Picker.dfy` | the directory picker: walks that are superseded, cached per hidden mode, under moving roots |
| `Enrichment.dfy` | the pull-request cache: stale service, cooldown, and a batch that equals the per-key form |
| `Viewport.dfy`, `Frame.dfy` | composing the sidebar: bands, cards, scroll anchor, overlays and click maps |
| `SingleFlight.dfy` | the worktree loader and the discoverer as interleaved locked sections |
| `WidthContract.dfy` | which pane sizes are a drag, and what gets published |
| `SessionOrder.dfy`, `SessionList.dfy` | the one order of the session list, pins, promotion, rebuild |
| `Lanes.dfy` | timers, reads and generations of the sidebar's data lanes |
| `Bell.dfy` | ringing by history |
| `FreshNames.dfy` | session names and repository slugs by pigeonhole |
| `Highlight.dfy` | matched characters through folding, home shortening and drawing |
| `Turns.dfy` | session state read off a transcript's last turn |
| `Common.dfy` | options, counting, splitting and trimming |

Each component has the same shape. Pure functions give what one operation makes of the state. A class with
the program's fields has the program's methods, each proved to leave exactly that state. Lemmas then speak of
runs of those functions: what every step keeps, and what follows for every run.

What is outside the process is a parameter. A clock reading, a tmux reply, a finished walk or a GraphQL answer
arrives as an argument, and the theorems hold for all of them. JSON decoding and fuzzy scoring are functions
nothing is assumed about. Times are unbounded integers in nanoseconds, or just ordered integers. Calls
are made of their locked sections, which interleave freely where the model is about interleaving.

`dafny verify dfyconfig.toml` checks everything.

## Where the code and its promises part

The model follows the code. In each case below there is a lemma with a concrete input or an exact condition.

- Rotation of the recovery log is not invisible in every run: M-r and split closes are not limited by any guard,
  and enough of them in a minute push events out that a guard still needs (`RotationInvisible` for runs with few,
  `RotationInvisibleExactly` and `DroppingDecides` for all, `RotationCanForget` for a run).
- The crash-loop bound holds for what could be logged; restarts whose line cannot be written are not limited
  (`RestartsBesideUnwritten`, `UnwritableRestartsForever`).
- The first-record reader promises to pass over what is not a terminated line; a lone unterminated line under
  1 MiB is an error (`FirstRecordBody`).
- The picker needs a root to start from; without one the first landing leaves the query unserved until the
  next key (`ServedIffRoots`, `NextKeyServes`).
- The batch judges staleness by a clock reading from before its round trip, so it can serve an entry over an hour
  old (`BatchServesRecentReply`, `BatchServesOverAnHour`); and either form serves its snapshot's entry even when the
  pull request was dropped meanwhile (`ServedIsStillLast`, `DroppedIsServed`).
- Only the batch call arms the cooldown on a rate limit at the HTTP level (`SingleArmsOnGraphErrorsOnly`,
  `BatchArmsOnAnyRateLimit`).
- A pane of unknown height is said to draw every line; a list of fewer than three lines still takes its three
  from the footer (`UnknownHeightDrawsAll`).
- A snap for a session that has no row yet scrolls to the pin separator, which maps to the same row number, -1,
  exactly when it is out of view (`ParkedSnapMoves`, `ParkedSnapOnList`, `ParkedCursorSnapsToSeparator`). The lines
  of a filter that matches nothing map to -1 too, but are never out of view.
- At most one worktree call per project is kept only while none fails (`OneCallPerFailure`, `FailureCallsAgain`).
- The window is read once per gesture only once its width has ever been known (`Verdict`, `OneReadPerGesture`).
- Without a readable restored width a drag that was called off can still publish, because its timer stays live
  (`OnlyDragsPublishExactly`, `SavedWidthDecides`, `ReopeningCanPublish`).
- The turn lookback of 100 gives the verdict of the whole history exactly when no tool of the turn was last used
  beyond it and not heard of since; an open question there is forgotten (`ClassifyState`, `LookbackIsEnough`,
  `LookbackFindsStart`, `LookbackForgets`).
- A slug is fresh with up to 1023 taken, one more than the numbered candidates suggest, and not always with 1024
  (`ExhaustionTakes1024`, `ExhaustionHappens`).
- One push event can leave two fast timers pending (`TimersExactly`, `PushDoublesTimer`).
- Making a session name safe twice can change it (`SafeTwice`, `TabIsUncovered`).

## Model

| member | source | states |
|---|---|---|
| `Recovery.CountRestarts` | cmd/orchard-shell/recover.go:118-126 | the loop counts exactly the times no older than the window, closed at its edge |
| `Recovery.LastActionByPane` | cmd/orchard-shell/recover.go:132-138 | the map holds each pane's last action in log order, and no other pane |
| `Recovery.LastActionExactly` | cmd/orchard-shell/recover.go:128-138 | an action is a pane's last if and only if it was logged and nothing of the pane after it; parked means that action is a halt |
| `Recovery.HaltedPanes` | cmd/orchard-shell/recover.go:144-153 | exactly the sidebar and inner panes whose last event is a halt, sidebar first; never a split |
| `Recovery.MostRecentlyHaltedPane` | cmd/orchard-shell/recover.go:160-173 | none exactly when no pane is parked; otherwise the pane of the newest parked halt, the first of several as new |
| `Recovery.ResolveRetryTarget` | cmd/orchard-shell/recover_pane.go:87-95 | a dead pane wins, sidebar first; otherwise the parked pane that was halted last, and none exactly when nothing is parked |
| `Recovery.RecoveryLog.RecoveryHistory` | cmd/orchard-shell/recover_log.go:178-186 | all times logged for the pane, halts and retries included, in order |
| `Recovery.RecoveryLog.LastHaltAt` | cmd/orchard-shell/recover_log.go:190-198 | the time of the pane's last halt in log order, zero for none |
| `Recovery.RecoveryLog.Rotate` | cmd/orchard-shell/recover_log.go:118-140 | over the byte cap and past 500 events the newest 500 stay, in order; otherwise nothing changes |
| `Recovery.RecoveryLog.Append` | cmd/orchard-shell/recover_log.go:92-110 | written, the event is last; before it stands the log as it was, or when a rotation over the byte cap got through, its newest 500 events |
| `Recovery.RecoveryLog.RecoverPane` | cmd/orchard-shell/recover_pane.go:133-167 | one death: the decision is read off the log before it, and the log grows by that decision unless it was a no-op |
| `Recovery.RestartsExactlyWhen` | cmd/orchard-shell/recover.go:81-115 | the whole decision, read off the records: a pane is closed or restarted in its own way if and only if it is a split, or the user asked, or no halt of it is five seconds old or less and at most five of its events are a minute old or less; else it is left alone after a halt that recent and parked without one |
| `Recovery.RetryRevives` | cmd/orchard-shell/recover.go:81-115 | M-r restarts the pane in its own way whatever the log says, and once logged the pane is parked no more |
| `Recovery.RecentIsCount` | cmd/orchard-shell/recover.go:118-126 | the guard's count over the pane's history equals a count over the whole log |
| `Recovery.RestartBound` | cmd/orchard-shell/recover.go:57-69 | in any log whose entries each passed the decision, any closed 60 s window holds at most 6 automatic restarts of a pane |
| `Recovery.HaltBound` | cmd/orchard-shell/recover.go:93-98 | and at most 12 halts of it |
| `Recovery.TrailingWindowBound` | cmd/orchard-shell/recover.go:81-115 | at most 36 events of a trailing minute are neither M-r nor split closes |
| `Recovery.RotationKeepsWindow` | cmd/orchard-shell/recover_log.go:118-140 | rotation keeps the whole trailing minute if and only if that minute holds at most 500 events |
| `Recovery.ForgettingIsInvisible` | cmd/orchard-shell/recover_log.go:118-140 | a log that lacks only a prefix older than the window gives the same decision for every death |
| `Recovery.DroppingDecides` | cmd/orchard-shell/recover.go:93-105 | dropping any prefix of the log decides a death alike if and only if it drops neither the halt that still debounces the pane nor enough of its own recent events to fall from above five to five or below |
| `Recovery.RotationForgetsOnlyOld` | cmd/orchard-shell/recover_log.go:118-140 | over every run with at most 464 M-r and split closes in the last minute whenever the file is over its cap, the rotated log is the never-rotated one without such a prefix |
| `Recovery.RotationInvisible` | cmd/orchard-shell/recover_log.go:112-140 | refinement: every death of such a run is decided from the rotated log as from the never-rotated one |
| `Recovery.RotationInvisibleExactly` | cmd/orchard-shell/recover_log.go:112-140 | for every run: all of it is decided as from the never-rotated log if and only if every death still finds in the rotated log the halt and the events its guards need |
| `Recovery.CrashLoopBound` | cmd/orchard-shell/recover.go:81-126 | over every such run with rotation, at most 6 logged automatic restarts and 12 logged halts of a pane in any closed minute |
| `Recovery.RestartsBesideUnwritten` | cmd/orchard-shell/recover_pane.go:151-167 | counting every automatic restart: at most 6 of a pane in any closed minute besides those whose line could not be written |
| `Recovery.UnwritableRestartsForever` | cmd/orchard-shell/recover_pane.go:159-164 | with a log that cannot be written, n crashes are n restarts |
| `Recovery.HaltsApart` | cmd/orchard-shell/recover.go:93-98 | over every such run, two logged halts of a pane are more than five seconds apart |
| `Recovery.RotationCanForget` | cmd/orchard-shell/recover_log.go:112-140 | past that bound rotation does change a decision, however many events fill the file: a run of deaths, each finding the file over its cap exactly when that many are in it, whose seventh sidebar crash of a minute is respawned where the never-rotated log parks it |
| `TailReader.LatestCut` | daemon/claude-jsonls/jsonl.go:294-334 | cutting a text at a newline: the newest value is the right part's, failing that the left part's |
| `TailReader.LatestIsLastSaid` | daemon/claude-jsonls/jsonl.go:312-330 | the value a forward pass leaves behind is the one the last line that says any says, for each of the three fields |
| `TailReader.ScanWindow` | daemon/claude-jsonls/jsonl.go:294-334 | the backward line scan of one buffer finds, for every field still missing, what a forward pass over its lines ends with, unterminated last line included |
| `TailReader.WindowAgrees` | daemon/claude-jsonls/jsonl.go:267-294 | an answer found in any smaller window is the answer for the whole region |
| `TailReader.ReadWindow` | daemon/claude-jsonls/jsonl.go:268-334 | one window adds only what the region has, everything when it is the last window, and finds no line only when none starts in it |
| `TailReader.ReadTail` | daemon/claude-jsonls/jsonl.go:265-341 | the doubling windows terminate and agree with one forward pass over the region |
| `TailReader.ReadLatestMarkers` | daemon/claude-jsonls/jsonl.go:252-342 | the title is v if and only if some line of the file, or past 4 MiB of the complete lines of its last 4 MiB, decodes to a custom-title record with that non-empty title and no later line to one with any; likewise the agent name and agent-name records |
| `TailReader.ReadLatestCwd` | daemon/claude-jsonls/jsonl.go:346-423 | likewise the non-empty cwd of a record of any kind |
| `TailReader.LineAfter` | daemon/claude-jsonls/jsonl.go:281-292 | where the first complete line at or after an offset starts |
| `TailReader.LastNewline` | daemon/claude-jsonls/jsonl.go:222-236 | the last newline of a prefix, or none |
| `TailReader.FirstNewline` | daemon/claude-jsonls/jsonl.go:281-292 | the first newline of a buffer, or none |
| `TailReader.LastRecordBody` | daemon/claude-jsonls/jsonl.go:194-250 | any body handed to the decoder is exactly the last newline-terminated line, and there is one if and only if the file has a newline and fits 4 MiB, or its last 4 MiB hold two |
| `TailReader.ReadBoundedLine` | daemon/claude-jsonls/jsonl.go:427-450 | the line up to the newline when shorter than the limit; the whole file at end of input; otherwise too long, consumed through its newline |
| `TailReader.FirstRecordBody` | daemon/claude-jsonls/jsonl.go:168-190 | decodes the first line if and only if it is terminated and under 1 MiB; a lone unterminated line is an error |
| `TailReader.CountNewlines` | daemon/claude-jsonls/jsonl.go:143-166 | the number of terminated lines, however the reads chop the file up |
| `TailReader.PiecesAreNewlines` | daemon/claude-jsonls/jsonl.go:139-166 | splitting at newlines gives one more piece than there are newlines |
| `Picker.ScanQuery` | cmd/orchard-sidebar/hidden.go:58-66 | true exactly when some stretch between slashes, blanks trimmed and a leading ~ dropped, starts with a dot and is neither . nor .. |
| `Picker.DedupPaths` | cmd/orchard-sidebar/dirwalk.go:217-228 | the first sighting of every path, in order |
| `Picker.Dedup` | cmd/orchard-sidebar/dirwalk.go:216-228 | the same paths, none twice |
| `Picker.DedupSights` | cmd/orchard-sidebar/dirwalk.go:216-228 | and in the order of first sight |
| `Picker.DirPicker.constructor` | cmd/orchard-sidebar/dirpick.go:59-72 | recents and roots show at once, no query, mode auto, and the first walk runs with the roots and hidden off |
| `Picker.DirPicker.Rebuild` | cmd/orchard-sidebar/dirpick.go:123-139 | the list is the recents and then the cached set for the wanted hidden flag (the roots while it is empty), each path once and in order of first sight, ranked by the query; without a query recents and roots, unranked; the cursor stays in it |
| `Picker.DirPicker.WalkCmd` | cmd/orchard-sidebar/dirpick.go:78-84 | a walk captures generation, roots and hidden flag as they are now |
| `Picker.DirPicker.Launch` | cmd/orchard-sidebar/hidden.go:99-102 | a walk with the wanted flag supersedes the one under way |
| `Picker.DirPicker.SetCands` | cmd/orchard-sidebar/dirpick.go:92-103 | a superseded walk's result is dropped and the spinner kept; else it is cached under its own hidden flag |
| `Picker.DirPicker.SyncHidden` | cmd/orchard-sidebar/hidden.go:90-103 | walks exactly when the wanted set is neither cached nor being walked, and then with the wanted flag under a new generation |
| `Picker.DirPicker.ToggleHidden` | cmd/orchard-sidebar/hidden.go:80-83 | auto, on, off, auto; then as above |
| `Picker.DirPicker.SearchKey` | cmd/orchard-sidebar/dirpick.go:187-195 | a changed query puts the cursor on top and syncs; an unchanged one does nothing |
| `Picker.DirPicker.Parents` | cmd/orchard-sidebar/dirpick.go:163-170 | the roots and each one's parent behind it, none twice |
| `Picker.DirPicker.Widen` | cmd/orchard-sidebar/dirpick.go:162-182 | each root followed by its parent, each once in order of first sight; nothing happens if and only if that makes no more roots, else both caches are dropped and a walk of the new roots started |
| `Picker.DirPicker.Move` | cmd/orchard-sidebar/dirpick.go:141-144 | the cursor moves by that much, held at the ends of the list |
| `Picker.DirPicker.Dir` | cmd/orchard-sidebar/dirpick.go:148-156 | the highlighted match, else the first root, else nothing |
| `Picker.StepKeeps` | cmd/orchard-sidebar/dirpick.go:92-103 | every event keeps: caches hold only walks of the current roots with their own flag, at most one running walk can still be taken in, the list is derived, the wanted set is served |
| `Picker.RunKeeps` | cmd/orchard-sidebar/hidden.go:85-103 | so does every run |
| `Picker.PickerProtocol` | cmd/orchard-sidebar/dirpick.go:86-103 | from opening, over every interleaving of typing, toggles, widens and late or disordered landings, all of the above; with a root, the set the query needs is cached or is what the live walk will bring |
| `Picker.ShowsWhatWasWalked` | cmd/orchard-sidebar/dirpick.go:105-132 | and the list searches exactly the recents and the very set the latest walk of the current roots under the wanted flag landed with, the roots while it is under way, and is served by a cached set or that walk |
| `Picker.ServedIffRoots` | cmd/orchard-sidebar/hidden.go:85-103 | the query is served in every run if and only if the picker opened with a root |
| `Picker.NextKeyServes` | cmd/orchard-sidebar/hidden.go:90-103 | in any reachable state, starved or not, the next key that syncs has it served |
| `Enrichment.FilterPhaseLabels` | daemon/gh/provider.go:864-872 | the labels that are not phase labels |
| `Enrichment.CacheHoldsLastReply` | daemon/gh/provider.go:800-838 | over every interleaving of locked sections: a key counts as enriched exactly when a definite reply arrived since its entry was last stored or dropped, and what is stored is that reply |
| `Enrichment.CacheHoldsLastStored` | daemon/gh/provider.go:822-834 | the REST part and the age of a cached pull request are those of the one last listed or fetched since it was dropped, zero when none was: no reply changes them |
| `Enrichment.CacheShowsLastReply` | daemon/gh/provider.go:800-849 | so an enriched entry is the one last stored with what the last definite reply says: mergeable, merge state, review decision, checks, and the non-phase labels in order, each by the word GitHub used |
| `Enrichment.CooldownIsHistory` | daemon/gh/logging.go:161-185 | a cooldown is on exactly for five minutes after the last rate limit that nothing has cleared |
| `Enrichment.ServedIsRecentReply` | daemon/gh/provider.go:558-615 | whatever sections run between a call's snapshot and its end: it asks GitHub unless it knew a definite reply under five minutes old or is cooling down; answered, it returns the stored pull request showing the answer; else the one stored at its snapshot showing the last definite reply before it, exactly while that is under an hour old when handed out |
| `Enrichment.CallIsSections` | daemon/gh/provider.go:576-615 | and what it leaves in the cache is what clearing the cooldown and applying the answer, entering the cooldown, or nothing makes of it |
| `Enrichment.ServedIsStillLast` | daemon/gh/provider.go:559-575 | that reply is still the last one when it is served if and only if no section spoke of the key meanwhile, or the last that did said the same |
| `Enrichment.DroppedIsServed` | daemon/gh/provider.go:559-575 | a pull request dropped during the round trip is served all the same: a concrete run |
| `Enrichment.SingleArmsOnGraphErrorsOnly` | daemon/gh/provider.go:591-610 | of all failures of the single call only a GraphQL-level rate limit arms the cooldown |
| `Enrichment.BatchArmsOnAnyRateLimit` | daemon/gh/provider.go:729-760 | of all failures of the batch exactly a rate limit, at the HTTP or the GraphQL level, arms the cooldown |
| `Enrichment.BatchServesRecentReply` | daemon/gh/provider.go:624-688 | likewise for every key of the batch, which judges an hour by its early clock reading and gives the zero value when it has nothing; what it serves is still under an hour old when handed out if and only if the round trip ended before the entry's hour did |
| `Enrichment.BatchLeaves` | daemon/gh/provider.go:624-797 | an answered batch leaves, of every key answered definitely, the stored pull request showing the answer under the early stamp, of every other key what was there, and no cooldown |
| `Enrichment.BatchServesOverAnHour` | daemon/gh/provider.go:624-688 | so it can be over an hour old, where the single call serves nothing: a concrete input |
| `Enrichment.OneByOneCache` | daemon/gh/provider.go:558-615 | enriching keys one after the other at one instant leaves the cache with every definite reply applied, duplicates or not |
| `Enrichment.BatchIsOneByOne` | daemon/gh/provider.go:619-796 | when the batch's reply holds every key: same cache, and for each key of the list the value its own call returns at its turn |
| `Enrichment.AnswerFindsKey` | daemon/gh/provider.go:764-780 | the alias a key was asked under brings back that key's answer or none |
| `Enrichment.Unique` | daemon/gh/provider.go:645-652 | exactly the keys asked for, none twice |
| `Enrichment.GroupByRepo` | daemon/gh/provider.go:701-706 | every key in its repository's group, nothing else |
| `Enrichment.BuildQuery` | daemon/gh/provider.go:713-727 | whatever order the groups come in, every key is asked for and every alias aims at its own key |
| `Enrichment.AliasGroup` | daemon/gh/provider.go:718-726 | one alias a key, in order |
| `Enrichment.Provider.ApplyEnrichment` | daemon/gh/provider.go:800-838 | the value shows the reply word by word; a definite one is stored and stamped, an unknown one only returned |
| `Enrichment.Provider.EnterRateLimitCooldown` | daemon/gh/logging.go:167-178 | the cooldown runs five minutes from now |
| `Enrichment.Provider.ClearRateLimitCooldown` | daemon/gh/logging.go:181-185 | no cooldown |
| `Enrichment.Provider.Snapshot` | daemon/gh/provider.go:559-563 | what a call copies under the read lock |
| `Enrichment.Provider.FinishEnrich` | daemon/gh/provider.go:565-614 | the call from its snapshot on, over a cache others may have changed: fresh hit, cooldown, stale service, error or applied reply, each by its own clock reading; the value and the whole new cache |
| `Enrichment.Provider.EnrichPullRequest` | daemon/gh/provider.go:558-615 | snapshot and finish with nothing in between |
| `Enrichment.Provider.StorePulls` | daemon/gh/provider.go:238-251 | every listed pull request replaces its entry and loses its enrichment stamp; the list is cached |
| `Enrichment.ListedReplaces` | daemon/gh/provider.go:238-251 | the last listed under a key is its entry, unstamped; keys not listed keep theirs |
| `Enrichment.Provider.DropPRCache` | daemon/gh/provider.go:1008-1021 | forgets the pull request and its repository's lists, and nothing else |
| `Enrichment.Provider.FinishEnrichBatch` | daemon/gh/provider.go:643-796 | the batch from its snapshot on, over a cache others may have changed: the whole new cache, one value per requested key whatever the duplicates and group order, and whether an error is returned beside them |
| `Enrichment.Provider.BatchEnrichPullRequests` | daemon/gh/provider.go:619-796 | snapshot and finish with nothing in between |
| `Enrichment.Provider.Ask` | daemon/gh/provider.go:690-795 | what was not fresh is applied from the reply or served stale, and the cooldown armed or cleared |
| `Enrichment.Provider.FetchAll` | daemon/gh/provider.go:701-795 | group, query and scatter come back to the keys asked for |
| `Enrichment.Provider.ServeFresh` | daemon/gh/provider.go:654-662 | fresh keys are answered, the rest listed |
| `Enrichment.Provider.ServeStaleAll` | daemon/gh/provider.go:678-688 | every outstanding key gets its value under an hour old or the zero value |
| `Enrichment.Provider.Scatter` | daemon/gh/provider.go:764-795 | every aliased answer is applied once to the key it was asked for |
| `Viewport.LayoutTiles` | cmd/orchard-sidebar/layout.go:105-130 | header, list and footer tile the pane; the header yields only when it alone overfills it, the footer before the list's three lines |
| `Viewport.RowSpan` | cmd/orchard-sidebar/layout.go:134-146 | the first and the last line of a row |
| `Viewport.ClickedRowIsOnScreen` | cmd/orchard-sidebar/layout.go:148-163 | a drawn line's row is on screen |
| `Viewport.ClampIsValid` | cmd/orchard-sidebar/layout.go:191-199 | clamping always gives a valid offset and moves exactly the invalid ones |
| `Viewport.SnapIsLeastMove` | cmd/orchard-sidebar/layout.go:165-187 | a card that fits is shown whole, and no valid offset that shows it whole is nearer |
| `Viewport.TallCardShowsItsTop` | cmd/orchard-sidebar/layout.go:170-187 | a card that does not fit has its first line on top |
| `Viewport.SnapShowsSelection` | cmd/orchard-sidebar/compose.go:104-123 | the viewport leaves the place its anchor gives it only for a selection that moved and has no line in view there, and then one of its lines is in view |
| `Viewport.ParkedSnapMoves` | cmd/orchard-sidebar/compose.go:120-123 | a snap for a session without a row moves the viewport if and only if there is room to scroll, some line maps to row -1, and none of them is on screen |
| `Viewport.SessionLine` | cmd/orchard-sidebar/selection.go:143-148 | the first line of a session's card, none when it draws nothing |
| `Viewport.AnchorRecordsOffset` | cmd/orchard-sidebar/compose.go:125-137 | reading the anchor back over the same lines gives the offset it was taken at |
| `Viewport.AnchorIsTopCard` | cmd/orchard-sidebar/compose.go:125-137 | composing sets an anchor if and only if a card's line is left at or below the top, and it is the card of the first such line |
| `Viewport.RenderIsIdempotent` | cmd/orchard-sidebar/compose.go:120-137 | composing twice in a row leaves the viewport as composing once did |
| `Viewport.AnchoredCardStays` | cmd/orchard-sidebar/selection.go:125-150 | parked at the top the viewport stays there whatever arrives; below it, after any re-sort, insertion or deletion that leaves the card on top drawn, its first line keeps its screen position if and only if no end of the list clamps the offset; without that card it stays as far as the list reaches |
| `Frame.VisibleRows` | cmd/orchard-sidebar/filter.go:74-83 | exactly the rows the filter keeps, as increasing model indices |
| `Frame.Cards` | cmd/orchard-sidebar/cards.go:33-78 | the list band: the cards, with a query and no card the two lines saying so, else nothing |
| `Frame.DrawCards` | cmd/orchard-sidebar/cards.go:52-77 | the nested loops draw every visible card in order and one separator where the pinned block ends |
| `Frame.AppendCard` | cmd/orchard-sidebar/cards.go:102-147 | a card is exactly its fixed number of lines, all carrying the row's model index |
| `Frame.SepAt` | cmd/orchard-sidebar/cards.go:55-62 | the first unpinned card under a pinned one |
| `Frame.CardGrid` | cmd/orchard-sidebar/cards.go:13-21 | where a card sits depends on how many are above it and nothing they say |
| `Frame.LineOwner` | cmd/orchard-sidebar/cards.go:53-76 | every line is one card's or the one separator, drawn exactly when an unpinned card is listed under a pinned one |
| `Frame.CardSpan` | cmd/orchard-sidebar/cards.go:73-75 | a card is one unbroken run of lines, at its place in the grid |
| `Frame.HiddenRowDrawsNothing` | cmd/orchard-sidebar/cards.go:27-40 | a filtered row has no line |
| `Frame.Window` | cmd/orchard-sidebar/compose.go:139-148 | the list from the offset on, padded to the band |
| `Frame.BandsTile` | cmd/orchard-sidebar/compose.go:98-149 | for every height the bands have exactly that many lines: the header's first, the list window, the footer's last |
| `Frame.UnknownHeightDrawsAll` | cmd/orchard-sidebar/compose.go:92-98 | with no height known nothing is clipped or padded if and only if the list has three lines or there is no footer |
| `Frame.Stamp` | cmd/orchard-sidebar/menuview.go:25-30 | an overlay replaces the lines it covers by lines that answer no click and changes no other |
| `Frame.OverlaysFit` | cmd/orchard-sidebar/updateview.go:42-58 | a drawn overlay lies inside the pane, right under its place or, where it would run off, at the bottom |
| `Frame.ExactFrame` | cmd/orchard-sidebar/compose.go:98-164 | line by line: the frame has the pane's height, each line is the header, list or footer line the layout puts there, and under an overlay the overlay's own, the menu's over the update's, answering no click |
| `Frame.FrameShowsViewport` | cmd/orchard-sidebar/compose.go:120-175 | the published text, maps, menu box and separator are those of the lines painted at the scroll the composition leaves |
| `Frame.ClickHitsDrawnCard` | cmd/orchard-sidebar/compose.go:152-164 | wherever on the screen, a click answers with a row only on an uncovered list line of that row, and the row is on screen |
| `Frame.ClickKeepsViewport` | cmd/orchard-sidebar/compose.go:101-123 | selecting a drawn card does not move the viewport while the rows keep their places, as they do for a fake row or one already on top |
| `Frame.PinSepIsOnScreen` | cmd/orchard-sidebar/compose.go:138-143 | the recorded separator line is where the separator is drawn, -1 when it is not |
| `Frame.NoRowIsSeparator` | cmd/orchard-sidebar/cards.go:55-62 | the one card line that maps to no row is the separator |
| `Frame.ParkedSnapOnList` | cmd/orchard-sidebar/compose.go:120-123 | over cards a snap for a session without a row moves the viewport if and only if there is room to scroll and a separator is drawn out of view; over a filter's message it never does |
| `Frame.ParkedCursorSnapsToSeparator` | cmd/orchard-sidebar/layout.go:134-146 | one pinned and one unpinned card in two lines of room: the snap scrolls to the separator |
| `Frame.ComposingTwice` | cmd/orchard-sidebar/compose.go:94-178 | composing twice in a row changes neither scroll nor anchor nor anything of the frame: text, both maps, menu box and separator line |
| `Frame.JoinedSplits` | cmd/orchard-sidebar/compose.go:165-168 | the joined text is drawn as exactly the lines it was made of, no line after the last |
| `Frame.Sidebar.constructor` | cmd/orchard-sidebar/main.go:284-292 | no scroll, no anchor, no chosen session |
| `Frame.Sidebar.FindAnchored` | cmd/orchard-sidebar/selection.go:129-150 | the offset that puts the anchored card where it was; the raw offset without anchor or card; 0 at the top |
| `Frame.Sidebar.FindOffset` | cmd/orchard-sidebar/compose.go:120-123 | the anchored offset clamped, and moved only for a selection that moved and is off screen |
| `Frame.Sidebar.Anchor` | cmd/orchard-sidebar/compose.go:124-137 | scroll taken, snap spent, anchor set to the first row line at or below the offset |
| `Frame.Sidebar.DrawBands` | cmd/orchard-sidebar/compose.go:98-149 | the bands, and the separator's screen line |
| `Frame.Sidebar.Publish` | cmd/orchard-sidebar/compose.go:159-164 | text, row and copy maps read off the finished lines |
| `Frame.Sidebar.Render` | cmd/orchard-sidebar/compose.go:94-178 | the viewport's whole new state and the whole frame: painted lines, both maps, menu box and separator line |
| `Frame.Sidebar.ScrollBy` | cmd/orchard-sidebar/selection.go:75-84 | the anchor is retired and the offset moved, not below 0 |
| `Frame.ScrollRoundTrip` | cmd/orchard-sidebar/selection.go:71-84 | a roll goes where it was pointed as far as the list reaches and selects nothing; rolling back returns if and only if it was not held at an end or started from the other |
| `Frame.Sidebar.ReanchorCursor` | cmd/orchard-sidebar/selection.go:89-123 | the cursor is on its session's row, -1 while it has none, and before any choice on the first attached row, else the first |
| `WorktreeFlights.StepKeeps` | daemon/git/loaders.go:152-190 | every locked section keeps the flights, cache and goroutines consistent |
| `WorktreeFlights.SingleFlight` | daemon/git/loaders.go:147-190 | over every interleaving: per project at most one call runs, at most one ever succeeds, every returned reply is a call's own, and a waiter's flight has landed or its leader is at work |
| `WorktreeFlights.EntersExactly` | daemon/git/loaders.go:156-176 | a Load answers at once if and only if a call for its project has succeeded, and with its worktrees; it joins the call under way for its own project, and calls if and only if there is neither |
| `WorktreeFlights.WokenByItsFlight` | daemon/git/loaders.go:163-188 | over every run: who leads or joined a call stays at it, gives up if it joined, or returns the reply that very call landed with |
| `WorktreeFlights.LoadAnswersItsProject` | daemon/git/loaders.go:152-190 | whatever else happens, what a Load returns is for the project it asked for |
| `WorktreeFlights.LandedForGood` | daemon/git/loaders.go:179-187 | a landed flight never changes, so all who joined it wake to the same reply |
| `WorktreeFlights.OneCallPerFailure` | daemon/git/loaders.go:150-190 | calls for a project are exactly its failures, plus one while it is cached or being fetched |
| `WorktreeFlights.FailureCallsAgain` | daemon/git/loaders.go:150-151 | so "at most one call" is not kept after a failure: a concrete run with two |
| `WorktreeFlights.WorktreesByProjectLoader.constructor` | daemon/git/loaders.go:139-145 | nothing cached, nothing in flight |
| `WorktreeFlights.WorktreesByProjectLoader.EnterLoad` | daemon/git/loaders.go:153-175 | cached reply, join or lead, and the state that leaves |
| `WorktreeFlights.WorktreesByProjectLoader.FinishLoad` | daemon/git/loaders.go:179-187 | the reply is published, cached only on success, the flight retired |
| `DiscoveryFlights.StepKeeps` | daemon/git/discovery.go:118-167 | every locked section keeps the cache equal to the last good refresh and at most one refresh open |
| `DiscoveryFlights.OneRefreshAtATime` | daemon/git/discovery.go:116-167 | over every interleaving: two refreshes never run at once; each publishes its own list, else the last good non-empty one, else its error; List returns only what some refresh came back with |
| `DiscoveryFlights.HitIsFresh` | daemon/git/discovery.go:118-145 | answered at once if and only if the last good refresh is younger than the time to live, and then with its list; else it joins the refresh under way, and starts one if and only if there is none |
| `DiscoveryFlights.WaiterGetsLeadersAnswer` | daemon/git/discovery.go:149-166 | a joined waiter wakes to what its leader returns |
| `DiscoveryFlights.WokenByItsFlight` | daemon/git/discovery.go:130-167 | over every run: who leads or joined a refresh stays at it, gives up if it joined, or returns what that very refresh published |
| `DiscoveryFlights.Discoverer.constructor` | daemon/git/discovery.go:77-89 | nothing cached, nothing in flight |
| `DiscoveryFlights.Discoverer.EnterList` | daemon/git/discovery.go:119-140 | fresh list, join or lead, and the state that leaves |
| `DiscoveryFlights.Discoverer.FinishList` | daemon/git/discovery.go:144-166 | the leader's second section: new cache, published answer, and the same answer returned |
| `Numerals.AtoiItoa` | cmd/orchard-sidebar/launch.go:82-83 | decimal numerals are read back as the number they write, so suffixes differ |
| `FreshNames.Pigeonhole` | cmd/orchard-sidebar/launch.go:82-87 | when base and base-2 up to base-(n-1) are all taken, n is at most one more than the number of names taken |
| `FreshNames.SafeIsSafe` | cmd/orchard-sidebar/launch.go:92-96 | a safe name has no dot, colon or blank and no dash at its edges |
| `FreshNames.SafeIsStretch` | cmd/orchard-sidebar/launch.go:92-96 | and is a stretch of the name with dots, colons and blanks dashed; all that is left off at its ends is space, structure or dashes |
| `FreshNames.SafeTwice` | cmd/orchard-sidebar/launch.go:92-96 | making a safe name safe again changes it if and only if white space other than a blank stands at an edge |
| `FreshNames.TabIsUncovered` | cmd/orchard-sidebar/launch.go:92-96 | a name of a letter, a tab and a dot is one it changes |
| `FreshNames.UniqueName` | cmd/orchard-sidebar/launch.go:74-88 | never taken, never empty, nothing tmux reads as structure; the safe name (or session when nothing is left of it), or it with the least free number, at most one more than the names taken; the search ends |
| `FreshNames.DiscoveryUniqueSlug` | daemon/git/discovery.go:379-397 | the plain name, then with its parent's, then the least free number below 1024; taken if and only if every candidate is |
| `FreshNames.ExhaustionTakes1024` | daemon/git/discovery.go:390-396 | with at most 1023 slugs taken the result is fresh |
| `FreshNames.ExhaustionHappens` | daemon/git/discovery.go:390-396 | with 1024 it need not be |
| `FreshNames.LastConfigured` | daemon/git/discovery.go:179-187 | the last configured repository that resolves to the key, none exactly when none does |
| `FreshNames.CollectConfigured` | daemon/git/discovery.go:177-187 | the last configured repository of every key that exists, and the slugs of all that do |
| `FreshNames.CollectDiscovered` | daemon/git/discovery.go:194-227 | every key a source names that is neither excluded nor configured, once, in the order of first sight |
| `FreshNames.AssignSlugs` | daemon/git/discovery.go:229-241 | configured entries untouched; each discovered key in turn gets the slug its own and its parent's name give beside those already taken; distinct while there is room |
| `FreshNames.Refresh` | daemon/git/discovery.go:169-249 | the union: configured under their own slugs, other named roots exactly when not excluded, discovered slugs fresh and distinct while slugs and roots stay within 1024 |
| `WidthContract.WidthIsSafe` | cmd/orchard-sidebar/width.go:57-180 | over every run of sizes, timers, collapses and readings: a pending gesture has its live timer in flight, everything published is at least 34, and the width remembered is the last one published, before any the one restored, without that the first size unless a strip's |
| `WidthContract.BaselineIsLastReading` | cmd/orchard-sidebar/width.go:57-120 | over every run the window baseline is the last reading of it that succeeded |
| `WidthContract.StripPublishesNothing` | cmd/orchard-sidebar/width.go:57-160 | over every run nothing is published while the pane was last told to be a strip |
| `WidthContract.OnlyDragsPublishExactly` | cmd/orchard-sidebar/width.go:145-167 | in every run each publish settles a pending, non-mechanical, uncollapsed gesture, if and only if the restored width is at least 34 or from 1 to 6 |
| `WidthContract.SavedWidthDecides` | cmd/orchard-sidebar/state.go:48-63 | for a sidebar: if and only if its state file had a readable width |
| `WidthContract.ReopenRestores` | cmd/orchard-sidebar/width.go:182-204 | collapsing and reopening gives back the published width and touches nothing a gesture looks at |
| `WidthContract.ReopeningCanPublish` | cmd/orchard-sidebar/width.go:184-204 | for every other restored width a run where reopening the strip feeds a called-off drag's timer |
| `WidthContract.Verdict` | cmd/orchard-sidebar/width.go:84-122 | a verdict is taken if and only if a divergent size comes outside a gesture; it opens one unless the window is and was unknown, and then every divergent size asks again; it is mechanical if and only if the window is seen to change |
| `WidthContract.MechanicalPublishesNothing` | cmd/orchard-sidebar/width.go:156-164 | after a mechanical verdict nothing is published, however many sizes re-arm it, until another verdict |
| `WidthContract.OneReadPerGesture` | cmd/orchard-sidebar/width.go:92-97 | while a gesture is open the window is not read again, the baseline does not move and the verdict stands |
| `WidthContract.DragPublishesLast` | cmd/orchard-sidebar/width.go:98-123 | a drag of any number of sizes reads the window once and its live timer publishes the last width, raised to 34; its other timers do nothing |
| `WidthContract.Pane.constructor` | cmd/orchard-sidebar/main.go:284-292 | the restored width, nothing sized |
| `WidthContract.Pane.SetWindowBaseline` | cmd/orchard-sidebar/width.go:133-139 | an unknown read keeps the baseline |
| `WidthContract.Pane.ApplyWidth` | cmd/orchard-sidebar/width.go:57-123 | the whole new state, whether the window was read, and the timer armed |
| `WidthContract.Pane.SettleWidth` | cmd/orchard-sidebar/width.go:145-180 | the whole new state and the width published, if any |
| `WidthContract.Pane.ToggleCollapse` | cmd/orchard-sidebar/width.go:184-204 | the strip, or the width it reopens to |
| `SessionOrder.BeforeIsStrict` | cmd/orchard-sidebar/model.go:245-270 | the comparator is asymmetric, and total on different sessions with different ranks |
| `SessionOrder.NotBelowTransitive` | cmd/orchard-sidebar/model.go:245-270 | not belonging below is transitive, as a sort needs |
| `SessionOrder.SortRows` | cmd/orchard-sidebar/model.go:245-270 | a permutation in which no row belongs above one listed before it and rows the comparator does not tell apart keep their order |
| `SessionOrder.SortedIsUnique` | cmd/orchard-sidebar/model.go:238-244 | there is one sorted arrangement of any set of keys |
| `SessionOrder.ArrivalOrderIsIrrelevant` | cmd/orchard-sidebar/apply.go:183-216 | for distinct sessions the list does not depend on the order its rows were collected in |
| `SessionOrder.OnlyKeysPlace` | cmd/orchard-sidebar/model.go:238-244 | lists with the same keys are in the same order: no state, mission, activity or attachment reorders |
| `SessionOrder.RecencyThenCreationThenName` | cmd/orchard-sidebar/model.go:238-244 | top down, unpinned rows go by attach recency, never-attached ones last, then newest, then alphabetically |
| `SessionOrder.OnlyOneMoves` | cmd/orchard-sidebar/model.go:238-244 | changing one session's keys moves its card alone |
| `SessionOrder.PromoteMovesOnlyOne` | cmd/orchard-sidebar/selection.go:59-69 | promoting moves the promoted card alone |
| `SessionOrder.PromotedIsOnTop` | cmd/orchard-sidebar/selection.go:53-69 | an unpinned session attached later than all others comes right under the pinned block |
| `SessionOrder.PinnedIsNotPromoted` | cmd/orchard-sidebar/model.go:44-47 | a pinned one does not move |
| `SessionOrder.RankOf` | cmd/orchard-sidebar/pin.go:22-30 | 1-based place in the pinned list, 0 exactly when absent |
| `SessionOrder.RankIsLast` | cmd/orchard-sidebar/pin.go:22-30 | for a name pinned twice, its last place |
| `SessionOrder.PinnedBlockFirst` | cmd/orchard-sidebar/pin.go:19-30 | the sorted list opens with the pinned sessions that exist, in pin order (a name pinned twice at its last place), and no pinned one follows |
| `SessionOrder.PinOrderIsKept` | cmd/orchard-sidebar/pin.go:19-30 | without duplicates pin order is the pinned list filtered |
| `SessionOrder.ToggleTwice` | cmd/orchard-sidebar/pin.go:35-52 | unpinning what was just pinned undoes it; pinning what was just unpinned puts it last |
| `SessionOrder.ToggleIsPrecise` | cmd/orchard-sidebar/pin.go:35-52 | a toggle changes its own session's pin and no other, and never pins twice |
| `SessionOrder.ReorderSwaps` | cmd/orchard-sidebar/pin.go:57-77 | a move is a swap with the neighbour, a permutation, held at the ends |
| `SessionOrder.ReorderBack` | cmd/orchard-sidebar/pin.go:54-77 | moving back undoes the move if and only if the name is not pinned, is alone, or was not held at an end |
| `SessionOrder.KeptHas` | cmd/orchard-sidebar/pin.go:83-100 | filtering keeps exactly the chosen names, none twice |
| `SessionList.RebuildIsCanonical` | cmd/orchard-sidebar/apply.go:148-216 | a rebuild has one result: neither lane order nor map iteration order shows |
| `SessionList.ListSaysWhatLanesSay` | cmd/orchard-sidebar/apply.go:173-216 | the list holds every row of the fast lane with what its state file says of it, one row for each session only a state file tells of, and the synthetic rows neither knows, each with tmux's ordering keys and its pin; and nothing else |
| `SessionList.HooksNeverReorder` | cmd/orchard-sidebar/apply.go:187-216 | whatever the state files say of the sessions they name, the list names them in the same order |
| `SessionList.Sidebar.constructor` | cmd/orchard-sidebar/main.go:284-292 | no rows, the restored pins, the resolved fakes |
| `SessionList.Sidebar.ApplyHooks` | cmd/orchard-sidebar/apply.go:187-216 | every row overlaid, and one row for each session only the hooks know, none twice |
| `SessionList.Sidebar.AppendFakes` | cmd/orchard-sidebar/fake.go:92-106 | the synthetic rows not yet there |
| `SessionList.Sidebar.ApplyKeys` | cmd/orchard-sidebar/apply.go:174-181 | every row carries its ordering keys and its pin rank |
| `SessionList.Sidebar.Rebuild` | cmd/orchard-sidebar/apply.go:148-158 | the rebuilt list: exactly the members of all lanes, keyed, ranked, distinct and in order |
| `SessionList.Sidebar.Promote` | cmd/orchard-sidebar/selection.go:59-69 | the session is attached now and the rows are stamped and sorted |
| `SessionList.Sidebar.TogglePin` | cmd/orchard-sidebar/pin.go:35-52 | the toggled pins and the list rebuilt with them; nothing for an empty name |
| `SessionList.Sidebar.ReorderPin` | cmd/orchard-sidebar/pin.go:57-77 | the reordered pins and the list rebuilt with them; nothing off the ends |
| `SessionList.Sidebar.PruneStalePins` | cmd/orchard-sidebar/pin.go:83-100 | exactly the live pins, in order |
| `SessionList.Ranks` | cmd/orchard-sidebar/pin.go:23-26 | the rank map agrees with RankOf everywhere |
| `SessionList.HookedOnly` | cmd/orchard-sidebar/apply.go:209-215 | one row for each hook the lane did not list, whatever the order of the walk |
| `Lanes.LanesLive` | cmd/orchard-sidebar/main.go:36-164 | over every interleaving: the client and slow lanes have exactly one timer or read pending, the fast lane always a timer or a fetch of the current generation, and applied fast answers have strictly increasing generations |
| `Lanes.AppliedExactly` | cmd/orchard-sidebar/main.go:54-164 | an answer is applied if and only if it is a client read issued after the latest switch, a fast answer no push event or fast timer has outrun, or a hook or slow answer |
| `Lanes.HookReadsExactly` | cmd/orchard-sidebar/main.go:126-164 | the hooks are read once at boot and once for every fast timer |
| `Lanes.TimersExactly` | cmd/orchard-sidebar/main.go:123-164 | fast timers, or a fetch in the place of one: one, one more for every push that found no fetch under way, one less for every timer that landed beside one |
| `Lanes.PushDoublesTimer` | cmd/orchard-sidebar/main.go:126-164 | one push can leave two: a concrete run |
| `Lanes.RunKeeps` | cmd/orchard-sidebar/main.go:54-164 | every run keeps tags, tokens and applied generations consistent |
| `Lanes.Model.constructor` | cmd/orchard-sidebar/main.go:39-42 | both generations start at 0, as the first fetches are tagged |
| `Lanes.Model.Update` | cmd/orchard-sidebar/main.go:69-164 | the new generations, the commands issued and whether the answer is current |
| `Lanes.Model.FastRefetch` | cmd/orchard-sidebar/main.go:126-143 | a push event issues a fetch under a generation of its own |
| `Lanes.Model.SelectRow` | cmd/orchard-sidebar/selection.go:31-38 | a switch makes every client read in flight stale |
| `Bell.MemoryIsHistory` | cmd/orchard-sidebar/bell.go:87-99 | after any lists, a session is remembered if and only if it needed attention when last listed; seeded if and only if some list had rows |
| `Bell.RingsOnNewNeed` | cmd/orchard-sidebar/bell.go:56-104 | rings if and only if on, some list had rows, and some real session is in input or stalled that was not when last listed or never was |
| `Bell.VanishingIsRemembered` | cmd/orchard-sidebar/bell.go:69-74 | being absent from any number of lists changes nothing |
| `Bell.Sidebar.constructor` | cmd/orchard-sidebar/main.go:284-288 | nothing remembered, the restored bell setting |
| `Bell.Sidebar.Sort` | cmd/orchard-sidebar/bell.go:79-85 | the sessions listed, and the real ones among them that need attention |
| `Bell.Sidebar.BellCheck` | cmd/orchard-sidebar/bell.go:75-104 | the whole new memory, and whether it rang |
| `Bell.Sidebar.Forget` | cmd/orchard-sidebar/bell.go:94-98 | forgets exactly those listed and no longer in need |
| `Highlight.MatchSpans` | cmd/orchard-sidebar/dirsearch.go:65-82 | the runs cover exactly the matched positions, and are ordered and never touch if and only if no position came twice |
| `Highlight.Shown` | cmd/orchard-sidebar/dirpick.go:234-238 | under home, rune j of the shown path from 1 on is rune j plus the collapsed length of the original |
| `Highlight.UnderHomeExactly` | cmd/orchard-sidebar/dirpick.go:234-240 | the home directory itself, or a path that goes on with a slash after it |
| `Highlight.AbbrevHome` | cmd/orchard-sidebar/dirpick.go:234-253 | a shown rune after the ~ is covered if and only if the one it stands for was, the ~ never; runs stay apart |
| `Highlight.RenderMatch` | cmd/orchard-sidebar/dirpick.go:257-280 | styles erased, the pieces are the shown path, and exactly the covered runes are highlighted |
| `Highlight.DrawMatch` | cmd/orchard-sidebar/dirpick.go:257-280 | a path in the home directory is shown with a ~ for it, any other as it is; a shown rune is highlighted if and only if the one it stands for was matched, the ~ never |
| `Turns.TurnStart` | daemon/claude-instance/provider.go:215-230 | the record after the last boundary of the whole history |
| `Turns.CurrentTurnStart` | daemon/claude-instance/provider.go:216-230 | that record, or where the lookback gave up |
| `Turns.LookbackFindsStart` | daemon/claude-instance/provider.go:140-150 | the lookback finds it if and only if the history fits or a boundary lies in the last lookback + 1 records |
| `Turns.FoldTurn` | daemon/claude-instance/provider.go:153-169 | the open tools are those whose last event in the turn is a use, under the name it gave |
| `Turns.FoldContent` | daemon/claude-instance/provider.go:155-168 | the same, record by record |
| `Turns.LastSignificantRecord` | daemon/claude-instance/provider.go:234-247 | the last assistant, user or subtyped system record |
| `Turns.AnyAsking` | daemon/claude-instance/provider.go:174-184 | whether an open tool is the question to the user |
| `Turns.SeenStart` | daemon/claude-instance/provider.go:216-230 | the start the lookback uses, never before the true one |
| `Turns.LookbackIsEnough` | daemon/claude-instance/provider.go:152-184 | classifying from a later start gives the same verdict if and only if no tool was last used before it and not heard of since |
| `Turns.Classify` | daemon/claude-instance/provider.go:139-196 | the verdict on the turn the lookback sees |
| `Turns.ClassifyState` | daemon/claude-instance/provider.go:139-196 | it is the verdict on the whole history if and only if no tool of the true turn was last used beyond the lookback and not heard of since; so whenever the history fits or a boundary lies in its last 101 records |
| `Turns.VerdictIsUnique` | daemon/claude-instance/provider.go:139-196 | there is one verdict on a history and a turn start |
| `Turns.OpenIsLastUse` | daemon/claude-instance/provider.go:152-169 | a tool is open in a turn if and only if the last record that mentions it ends by using it |
| `Turns.VerdictMeaning` | daemon/claude-instance/provider.go:152-184 | the count is the number of tools open in the turn, and the state is input if and only if one of them asks the user |
| `Turns.WorkingExactlyWhen` | daemon/claude-instance/provider.go:249-282 | without an open question the session works if and only if the last record an assistant or the user wrote, or subtyped system record, is the user's, or an assistant's that stopped for a tool, or tools are open and it does not end the turn |
| `Turns.BoundaryGoesIdle` | daemon/claude-instance/provider.go:198-213 | appending any boundary record gives idle with nothing in flight |
| `Turns.LookbackForgets` | daemon/claude-instance/provider.go:140-150 | an instance: a question asked 101 records ago in an open turn is overlooked, Working where the whole history says Input |

## Left out

Contracts that say less than the code does:

- Recovery.RotationInvisible: its bound on M-r and split closes is enough but not necessary; the exact condition is in `Recovery.RotationInvisibleExactly`.
- Recovery.RecoveryLog.Append: a write happens or does not; one cut short, which leaves a torn line and spoils the next, is not modelled.
- Recovery.CrashLoopBound: counts what was logged, as the code does, under the bound on M-r and split closes of `Recovery.RotationInvisible`; `Recovery.RestartsBesideUnwritten` counts the rest.
- Enrichment.BatchIsOneByOne: both forms run at one instant without another call's section in between; what others do between snapshot and finish is in `Enrichment.ServedIsRecentReply` and `Enrichment.BatchServesRecentReply`.
- Enrichment.Provider.FinishEnrich: an error is a missing value without its text, and clearing the cooldown and applying the reply are one step.
- Enrichment.Provider.FinishEnrichBatch: applying the replies of one batch is one step; other sections between them are in `Enrichment.CacheHoldsLastReply`.
- Frame.Sidebar.Render: button zones and menu item zones are not in the frame, only the menu box.
- Frame.Cards: what a card's lines say is a parameter; their number and rows are not.
- Highlight.RenderMatch: ends before the clipping to the pane's width, which counts terminal cells.
- Highlight.DrawMatch: likewise.
- SessionList.Sidebar.Rebuild: the slow-lane join and the current mark, which touch nothing the order reads, are not in it, nor are the cursor and the bell, which `Frame.Sidebar.ReanchorCursor` and `Bell.Sidebar.BellCheck` model.
- Frame.ClickKeepsViewport: a click that attaches another session also promotes it; where its card then goes is `SessionOrder.PromotedIsOnTop`.
- SessionList.Sidebar.Promote: re-finding the cursor's row after the sort is `Frame.Sidebar.ReanchorCursor`, not part of it.
- Turns.ClassifyState: the last-activity time and the model name are not part of the verdict.
- FreshNames.Refresh: the final sort by slug is left out; the result is the map it sorts.

What is not modelled:

- The per-id worktree loader and the batched repository loader: a cache in front of a call.
- Assembling a transcript's summary from its readers, and the read side of the list caches.
- Folding a fast-lane answer or a pushed snapshot into the rows, beyond the rebuild that follows.
- The collapsed strip and the lines of the header and the footer, which are bands of given lines here.
- The keyboard and mouse dispatch, moving the selection, the filter field, drag and drop of pins, and the row menu.
- Fuzzy ranking: the order of search hits is a parameter of the picker.
- The directory walk, root resolution, path canonicalisation and git probing.
- tmux, git, GitHub, systemd and file calls, and everything drawn with styles.
- Text that only informs: log lines, status messages, error strings.
- Byte offsets against rune offsets: paths and lines are sequences of characters, transcripts of bytes.
- Pane boot and rebuild scripts, the doctor checks, configuration, flags, webhooks and version parsing.
- Widths of Go integers: counters and times are unbounded.
