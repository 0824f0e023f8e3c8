# Console view render core and Microba colour overrides

This project models two pieces of the IntelliJ Platform in Dafny.

The first is the render side of the console view (`ConsoleViewImpl`):

- how one flush of deferred output edits the document: a leading carriage
  return deletes the last line, a backspace prefix deletes characters from
  the end of the last line, then the refined text is appended;
- the stick-to-end decision and its one-shot cancel flag;
- the flush alarm's queue of runnables, with coalesced FLUSH and CLEAR and
  ad-hoc scroll and heavy-filter runnables, plus clear, dispose and the
  content size;
- the heavy-filter ticket, a 32-bit counter that outdates queued
  heavy-filter results;
- user-text deletion;
- the folding of output: each line is classified by the first console
  folding that claims it, maximal runs become fold regions, and a run that
  continues the region before the range is merged into it;
- the command-line folding's placeholder text.

The second is Microba's colour override lookup. A component's own override
map takes precedence over the map registered for the current look-and-feel.
A value found there is a colour, or a key that the UI defaults resolve.

How the model is built:

- Documents are `seq<char>`. An empty document has no lines. Otherwise it
  has one line more than it has line breaks. Line texts exclude the break.
  This is the convention the editor's `Document` follows. The `Document`
  class itself is not part of this model: `Text` defines what the console
  uses of it.
- Console state is a `State` datatype. The `ConsoleView` class holds the
  same fields and its `Snapshot()` returns them as a `State`.
- Each state change is a function on `State`. Each method of the class
  makes the change in place and proves `Snapshot() == F(old(Snapshot()))`.
  Lemmas state the properties of those functions.
- The folding walk returns the calls it makes on the editor's folding model
  (`RemoveRegion`, `AddRegion`) as a list, in order.
- The following are inputs of the model:
  - the caret offset and whether the vertical scroll bar is at its bottom;
  - what the token buffer drained, already reduced by the backspace
    evaluation to a carriage-return flag, a backspace-prefix length and the
    refined text;
  - whether the startup activities have passed;
  - whether a cyclic buffer is in use;
  - the answers of the folding extensions;
  - the fold regions found at the start of the line before the range;
  - the look-and-feel ID and the UI defaults' colour lookup.

## Model

| member | source | states |
|---|---|---|
| Console.QueuePreservesValid | platform/lang-impl/src/com/intellij/execution/impl/ConsoleViewImpl.java:1585-1589 | queueing never puts a second copy of FLUSH or CLEAR on the queue, and a pending copy always has its `requested` flag set |
| Console.QueueCoalesces | platform/lang-impl/src/com/intellij/execution/impl/ConsoleViewImpl.java:1585-1589 | a disposed alarm ignores requests; an ad-hoc runnable is appended on every call; a coalesced one is appended only when its flag is clear, so queueing it twice equals queueing it once |
| Console.DoRunKeepsQueue | platform/lang-impl/src/com/intellij/execution/impl/ConsoleViewImpl.java:1611-1626 | given a flush that keeps them, no doRun touches the alarm queue or the two `requested` flags, and the ticket stays a Java int |
| Console.FlushKeepsQueue | platform/lang-impl/src/com/intellij/execution/impl/ConsoleViewImpl.java:683-730 | a flush never touches the alarm queue or the two `requested` flags, and the ticket stays a Java int |
| Console.BeforeDoRunResetsRequested | platform/lang-impl/src/com/intellij/execution/impl/ConsoleViewImpl.java:1600-1608 | before doRun the runnable's own flag is clear (also when FLUSH re-queued itself before startup), and the queue invariant still holds |
| Console.RunKeepsPreparedQueue | platform/lang-impl/src/com/intellij/execution/impl/ConsoleViewImpl.java:1600-1609 | after run, the queue and flags are those set before doRun |
| Console.RunResetsRequested | platform/lang-impl/src/com/intellij/execution/impl/ConsoleViewImpl.java:1600-1609 | running the oldest request leaves its flag clear and the queue invariant intact |
| Console.ClearQueuesOnlyClear | platform/lang-impl/src/com/intellij/execution/impl/ConsoleViewImpl.java:321-332 | after clear() exactly one CLEAR is pending, CLEAR is flagged and FLUSH is not, and the content size is 0 |
| Console.PausedOrEmptyFlushKeepsDocument | platform/lang-impl/src/com/intellij/execution/impl/ConsoleViewImpl.java:683-700 | a paused flush, or one that drains nothing, leaves the document unchanged and does not scroll; a paused one keeps the deferred buffer |
| Console.FlushStickToEnd | platform/lang-impl/src/com/intellij/execution/impl/ConsoleViewImpl.java:683-689 | on a live console the cancel flag is false after a flush; the flush scrolls to the end iff the flush is not paused, tokens were drained, the flag was clear, and the caret was on the last line or the scroll bar at the bottom |
| Console.FlushEditsAndOutdatesPatches | platform/lang-impl/src/com/intellij/execution/impl/ConsoleViewImpl.java:683-730 | a non-empty drain on a live, running console applies FlushedText, empties the deferred buffer and outdates every heavy-filter patch captured before it |
| Console.DisposeStopsEverything | platform/lang-impl/src/com/intellij/execution/impl/ConsoleViewImpl.java:532-552 | after dispose nothing is pending, running any request changes nothing, and queueing is ignored |
| Console.AppendKeepsValidQueue | platform/lang-impl/src/com/intellij/execution/impl/ConsoleViewImpl.java:1585-1589 | appending a coalesced runnable whose flag is clear, and setting the flag, or an ad-hoc one, keeps the queue invariant |
| Console.ConsoleView.QueueRequest | platform/lang-impl/src/com/intellij/execution/impl/ConsoleViewImpl.java:1585-1589 | the new state is `Queue` of the old one, and the queue invariant is kept |
| Console.ConsoleView.CancelAllFlushRequests | platform/lang-impl/src/com/intellij/execution/impl/ConsoleViewImpl.java:548-552 | the queue is emptied and both flags are reset; nothing else changes |
| Console.ConsoleView.CancelHeavyAlarm | platform/lang-impl/src/com/intellij/execution/impl/ConsoleViewImpl.java:819-824 | unless the heavy alarm is disposed, the ticket is incremented with 32-bit wrap-around |
| Console.ConsoleView.GetContentSize | platform/lang-impl/src/com/intellij/execution/impl/ConsoleViewImpl.java:668-676 | the deferred length always counts; the document length counts only while there is an editor and no CLEAR is requested |
| Console.ConsoleView.Clear | platform/lang-impl/src/com/intellij/execution/impl/ConsoleViewImpl.java:321-332 | the new state is `ClearConsole` of the old one |
| Console.ConsoleView.AttachEditor | platform/lang-impl/src/com/intellij/execution/impl/ConsoleViewImpl.java:436-452 | the first call attaches the editor and queues FLUSH; later calls change nothing |
| Console.ConsoleView.ScrollTo | platform/lang-impl/src/com/intellij/execution/impl/ConsoleViewImpl.java:335-337 | with an editor, one ad-hoc scroll runnable is queued; without one, nothing changes |
| Console.ConsoleView.RequestScrollingToEnd | platform/lang-impl/src/com/intellij/execution/impl/ConsoleViewImpl.java:364-378 | with an editor, one ad-hoc scroll-to-end runnable is queued; without one, nothing changes |
| Console.ConsoleView.SetOutputPaused | platform/lang-impl/src/com/intellij/execution/impl/ConsoleViewImpl.java:386-393 | the pause flag is set; un-pausing with an editor also queues FLUSH |
| Console.ConsoleView.UpdateStickToEndState | platform/lang-impl/src/com/intellij/execution/impl/ConsoleViewImpl.java:516-523 | the cancel flag becomes set when the caret is on the last line and the scroll bar is not at the bottom; otherwise it is kept |
| Console.ConsoleView.EditDocument | platform/lang-impl/src/com/intellij/execution/impl/ConsoleViewImpl.java:709-730 | the document becomes `FlushedText` of the old one; nothing else changes |
| Console.ConsoleView.ApplyDrained | platform/lang-impl/src/com/intellij/execution/impl/ConsoleViewImpl.java:698-730 | a non-empty batch first advances the heavy ticket and then edits the document by `FlushedText`; nothing else changes |
| Console.ConsoleView.FlushDeferredText | platform/lang-impl/src/com/intellij/execution/impl/ConsoleViewImpl.java:683-760 | the new state and whether the view is scrolled to the end are both given by `FlushDeferred` |
| Console.ConsoleView.ClearRequested | platform/lang-impl/src/com/intellij/execution/impl/ConsoleViewImpl.java:1591-1593 | the runnable's own `requested` flag is reset; nothing else changes |
| Console.ConsoleView.DoFlush | platform/lang-impl/src/com/intellij/execution/impl/ConsoleViewImpl.java:1611-1613 | FLUSH.doRun is a flush, and the caret goes to the end when the flush sticks |
| Console.ConsoleView.DoClear | platform/lang-impl/src/com/intellij/execution/impl/ConsoleViewImpl.java:767-784 | on a live console the document is emptied and the heavy ticket is advanced |
| Console.ConsoleView.DoScroll | platform/lang-impl/src/com/intellij/execution/impl/ConsoleViewImpl.java:343-358 | flush, then the caret moves to the effective offset when there is an editor |
| Console.ConsoleView.DoScrollToEnd | platform/lang-impl/src/com/intellij/execution/impl/ConsoleViewImpl.java:369-377 | flush, then scroll to the end, which clears the cancel flag, while the editor and the alarm are live |
| Console.ConsoleView.DoHeavyPatch | platform/lang-impl/src/com/intellij/execution/impl/ConsoleViewImpl.java:989-1000 | a heavy-filter result is applied exactly when its captured ticket is still current |
| Console.ConsoleView.DoRun | platform/lang-impl/src/com/intellij/execution/impl/ConsoleViewImpl.java:1611-1626 | each kind of runnable's doRun, as `AfterDoRun` |
| Console.ConsoleView.Run | platform/lang-impl/src/com/intellij/execution/impl/ConsoleViewImpl.java:1600-1609 | run: nothing once disposed; before startup has passed, FLUSH is queued again; then the flag is reset and doRun runs |
| Console.ConsoleView.RunNext | platform/lang-impl/src/com/intellij/execution/impl/ConsoleViewImpl.java:1585-1609 | the alarm takes the oldest pending runnable off the queue and runs it |
| Console.ConsoleView.DeleteUserText | platform/lang-impl/src/com/intellij/execution/impl/ConsoleViewImpl.java:1505-1520 | the new state and caret target are given by `AfterDeleteUserText` |
| Console.ConsoleView.Dispose | platform/lang-impl/src/com/intellij/execution/impl/ConsoleViewImpl.java:532-552 | both alarms are disposed; with an editor, pending requests are cancelled, the deferred buffer is dropped and the editor is released |
| Flush.DeleteLastLine | platform/lang-impl/src/com/intellij/execution/impl/ConsoleViewImpl.java:712-718 | the result is a prefix of the document, is empty or ends with a line break, and the removed tail contains no line break |
| Flush.DeleteBackspacePrefix | platform/lang-impl/src/com/intellij/execution/impl/ConsoleViewImpl.java:722-728 | the result is a prefix; it removes min(n, last line's length) characters for n > 0, none otherwise, and never a line break |
| Flush.CarriageReturnReplacesLastLine | platform/lang-impl/src/com/intellij/execution/impl/ConsoleViewImpl.java:712-730 | with a leading carriage return the document becomes the text before its last line followed by the refined text |
| Flush.EndsWithNewline | platform/lang-impl/src/com/intellij/execution/impl/ConsoleViewImpl.java:722-728 | on a document that is empty or ends with a line break, a backspace prefix of any length deletes nothing |
| Flush.BackspacePrefixStaysOnLastLine | platform/lang-impl/src/com/intellij/execution/impl/ConsoleViewImpl.java:722-730 | without a carriage return and with n > 0, the document becomes `d[..max(lastLineStart, len - n)]` followed by the refined text, and keeps its earlier lines |
| Flush.FlushKeepsEarlierLines | platform/lang-impl/src/com/intellij/execution/impl/ConsoleViewImpl.java:709-730 | every flush ends the document with the refined text and keeps everything before the old last line |
| Flush.StickToEndMeaning | platform/lang-impl/src/com/intellij/execution/impl/ConsoleViewImpl.java:786-795 | sticking to the end iff not cancelled and (the scroll bar is at the bottom or no line break follows the caret) |
| Flush.UpdatedCancelStickToEnd | platform/lang-impl/src/com/intellij/execution/impl/ConsoleViewImpl.java:516-523 | the new cancel flag iff the old one, or the scroll bar is not at the bottom and no line break follows the caret |
| Flush.EffectiveOffset | platform/lang-impl/src/com/intellij/execution/impl/ConsoleViewImpl.java:352-358 | an offset inside the text is kept; one at or past the end becomes the length, or 0 with a cyclic buffer; never past the end |
| Flush.Wrap | platform/lang-impl/src/com/intellij/execution/impl/ConsoleViewImpl.java:822 | the result of Java int arithmetic: always a 32-bit value, the identity on ints, and INT_MAX + 1 wraps to INT_MIN |
| Flush.UserTextDeletion | platform/lang-impl/src/com/intellij/execution/impl/ConsoleViewImpl.java:1505-1520 | nothing happens iff the start token is not user input; a range is deleted iff the start is non-negative, the length positive and the end does not overflow; it is exactly [start, start + length) |
| Flush.CancelledIsWrappedSum | platform/lang-impl/src/com/intellij/execution/impl/ConsoleViewImpl.java:819-824 | k cancellations advance the ticket by k, wrapped to 32 bits |
| Flush.PatchOutdatedByCancellations | platform/lang-impl/src/com/intellij/execution/impl/ConsoleViewImpl.java:983-991 | a patch captured before k cancellations still applies iff k is a multiple of 2^32 |
| Placeholder.IndexOf | platform/lang-impl/src/com/intellij/execution/impl/ConsoleViewImpl.java:1556 | the first position at or after `from` holding the character, or -1 when there is none |
| Placeholder.SkipWhile | platform/lang-impl/src/com/intellij/execution/impl/ConsoleViewImpl.java:1558-1570 | the end of the run of blank (or non-blank) characters starting at `from` |
| Placeholder.PrefixLength | platform/lang-impl/src/com/intellij/execution/impl/ConsoleViewImpl.java:1553-1571 | the kept prefix never exceeds the line |
| Placeholder.QuotedPrefix | platform/lang-impl/src/com/intellij/execution/impl/ConsoleViewImpl.java:1555-1557 | a line starting with a closed quote keeps everything through the first closing quote |
| Placeholder.BlankSeparatedPrefix | platform/lang-impl/src/com/intellij/execution/impl/ConsoleViewImpl.java:1558-1570 | otherwise it keeps the leading blanks and the first non-blank word, which ends the line or is followed by a blank |
| Placeholder.GetPlaceholderText | platform/lang-impl/src/com/intellij/execution/impl/ConsoleViewImpl.java:1551-1573 | the loop computes `PlaceholderText`: a prefix of the first line followed by " ..." |
| Folding.EnabledExtensions | platform/lang-impl/src/com/intellij/execution/impl/ConsoleViewImpl.java:1041 | a folding is in the result iff it is registered and enabled for this console; that the filter keeps the extension-point order is FirstClaimingOfEnabled |
| Folding.FirstClaiming | platform/lang-impl/src/com/intellij/execution/impl/ConsoleViewImpl.java:1113-1117 | the index of the first extension claiming the line: it claims the line, no earlier one does |
| Folding.FoldingForLine | platform/lang-impl/src/com/intellij/execution/impl/ConsoleViewImpl.java:1107-1120 | line 0 goes to the command-line folding when that claims it; otherwise the first claiming extension, and none iff no extension claims the line |
| Folding.FirstEnabledClaiming | platform/lang-impl/src/com/intellij/execution/impl/ConsoleViewImpl.java:1041 | the index in the extension point of the first folding that is enabled and claims the line, or its length |
| Folding.FirstClaimingOfEnabled | platform/lang-impl/src/com/intellij/execution/impl/ConsoleViewImpl.java:1041 | filtering keeps the extension-point order: the first claiming folding among the enabled ones is the first enabled, claiming one of the extension point |
| Folding.FoldingForLineIsFirstEnabled | platform/lang-impl/src/com/intellij/execution/impl/ConsoleViewImpl.java:1107-1120 | outside the command-line case, a line's folding is the first folding of the extension point that is enabled and claims it, none when there is none |
| Folding.FindFoldingByRegion | platform/lang-impl/src/com/intellij/execution/impl/ConsoleViewImpl.java:1095-1100 | the region's recorded folding iff one is recorded, registered and enabled |
| Folding.FirstWholeLine | platform/lang-impl/src/com/intellij/execution/impl/ConsoleViewImpl.java:1030-1039 | the first line that starts at or after the offset |
| Folding.ShiftBackward | platform/lang-impl/src/com/intellij/execution/impl/ConsoleViewImpl.java:1085 | the last position at or before the offset that holds neither a space nor a tab, or -1 |
| Folding.LinesToFold | platform/lang-impl/src/com/intellij/execution/impl/ConsoleViewImpl.java:1078-1081 | one line text per line of the region, in order |
| Folding.AddFoldRegion | platform/lang-impl/src/com/intellij/execution/impl/ConsoleViewImpl.java:1077-1093 | no region iff the placeholder is null; otherwise the region starts at the line start, one earlier when attached to the previous line, and ends at the line end minus trailing blanks, with the given expanded state and folding |
| Folding.ExistingRegion | platform/lang-impl/src/com/intellij/execution/impl/ConsoleViewImpl.java:1020-1027 | a region to continue exists iff startLine > 0 and exactly one region holds the previous line's start |
| Folding.ContinuedFolding | platform/lang-impl/src/com/intellij/execution/impl/ConsoleViewImpl.java:1020-1028 | a folding is continued iff startLine > 0, exactly one region holds the previous line's start, and that region records a folding that is registered and enabled; the continued folding is the recorded one |
| Folding.UpdateFoldings | platform/lang-impl/src/com/intellij/execution/impl/ConsoleViewImpl.java:1014-1073 | the calls made are `Foldings` of the inputs, and none when no extension is enabled |
| Folding.CloseRun | platform/lang-impl/src/com/intellij/execution/impl/ConsoleViewImpl.java:1058-1069 | the calls made when a run closes are `Closed`: nothing without a running folding, else the region, preceded by the removal of the continued one when merging |
| Folding.Advance | platform/lang-impl/src/com/intellij/execution/impl/ConsoleViewImpl.java:1057-1070 | one loop iteration, which classifies the line (leaving endLine unclassified), keeps the calls made so far followed by the rest of the walk unchanged |
| Folding.WalkLines | platform/lang-impl/src/com/intellij/execution/impl/ConsoleViewImpl.java:1044-1071 | the loop's calls are exactly `Walk` from the initial run state |
| Folding.IdleWalk | platform/lang-impl/src/com/intellij/execution/impl/ConsoleViewImpl.java:1057-1069 | with no running folding the walk ignores the run start and the existing region |
| Folding.WalkSkip | platform/lang-impl/src/com/intellij/execution/impl/ConsoleViewImpl.java:1057-1058 | lines still claimed by the running folding add no calls |
| Folding.RunEnd | platform/lang-impl/src/com/intellij/execution/impl/ConsoleViewImpl.java:1057-1058 | the first line at or after `from` not claimed by the running folding |
| Folding.FreshWalk | platform/lang-impl/src/com/intellij/execution/impl/ConsoleViewImpl.java:1044-1071 | from a fresh start the walk adds collapsed maximal runs, disjoint and increasing, covering every claimed line |
| Folding.CloseFreshRun | platform/lang-impl/src/com/intellij/execution/impl/ConsoleViewImpl.java:1058-1069 | closing a maximal run before fresh runs keeps them maximal, increasing and covering |
| Folding.ContinuedWalk | platform/lang-impl/src/com/intellij/execution/impl/ConsoleViewImpl.java:1044-1071 | a continued run goes on to its end line, is closed there, and the walk restarts fresh |
| Folding.FreshAfterRunEnd | platform/lang-impl/src/com/intellij/execution/impl/ConsoleViewImpl.java:1044-1071 | after the continued run closes, the remaining calls are fresh maximal runs |
| Folding.ContinuedRegionStartsBefore | platform/lang-impl/src/com/intellij/execution/impl/ConsoleViewImpl.java:1030-1039 | a region holding the previous line's start begins on an earlier line, so the merge removes it |
| Folding.FoldingsAreMaximalRuns | platform/lang-impl/src/com/intellij/execution/impl/ConsoleViewImpl.java:1014-1073 | without a continued region: exactly the maximal runs of claimed lines in [startLine, endLine), collapsed, disjoint, increasing and covering every claimed line; endLine is never classified |
| Folding.ContinuedCalls | platform/lang-impl/src/com/intellij/execution/impl/ConsoleViewImpl.java:1058-1069 | the walk of a continued run: removal plus merged re-add keeping the expanded state, or a collapsed re-add, followed by fresh maximal runs from the run's end |
| Folding.FoldingsContinueRegion | platform/lang-impl/src/com/intellij/execution/impl/ConsoleViewImpl.java:1058-1066 | with a continued region: the old region is removed and re-added merged up to the run's end with its expanded state; if the first line belongs elsewhere it is re-added collapsed without removal; the rest are fresh runs |
| Folding.ExampleRuns | platform/lang-impl/src/com/intellij/execution/impl/ConsoleViewImpl.java:1044-1071 | claims A, A, B, A give three regions of two, one and one lines |
| MicrobaColors.Resolve | libraries/microba/src/com/michaelbaranov/microba/Microba.java:134-138 | a Color value is returned as it is; anything else goes through the UI defaults |
| MicrobaColors.OverridenColor | libraries/microba/src/com/michaelbaranov/microba/Microba.java:128-156 | the component's override when it has one; else the look-and-feel's; else null |
| MicrobaColors.OverridenColorOr | libraries/microba/src/com/michaelbaranov/microba/Microba.java:178-185 | the base lookup's colour, or the default when that is null |
| MicrobaColors.FirstOverride | libraries/microba/src/com/michaelbaranov/microba/Microba.java:128-156 | a precedence list's first overriding value; none iff no map overrides |
| MicrobaColors.FirstOverrideAt | libraries/microba/src/com/michaelbaranov/microba/Microba.java:128-156 | the first overriding map is the one every earlier map fails to override |
| MicrobaColors.LookupIsPrecedence | libraries/microba/src/com/michaelbaranov/microba/Microba.java:128-156 | the lookup is the precedence list [component map, look-and-feel map], resolved |
| MicrobaColors.ComponentOverrideShadowsTable | libraries/microba/src/com/michaelbaranov/microba/Microba.java:131-140 | a constant the component overrides does not depend on the look-and-feel or its table |
| MicrobaColors.NullWhenNotOverriden | libraries/microba/src/com/michaelbaranov/microba/Microba.java:178-185 | null iff nothing overrides or the override is an unresolved key; the default is returned exactly then |
| MicrobaColors.RegistrationScope | libraries/microba/src/com/michaelbaranov/microba/Microba.java:104-106 | a registration is seen by lookups under that look-and-feel; other look-and-feels are unaffected |
| MicrobaColors.Microba.SetColorOverrideMap | libraries/microba/src/com/michaelbaranov/microba/Microba.java:104-106 | the entry is set, possibly to null; other entries are unchanged |

## Left out

- Locking, the AtomicBoolean flags, and the threads of the two alarms. The
  queue runs one request at a time, in order, and delays are not modelled.
- The states of `myFlushAlarm` and `myHeavyAlarm` beyond "disposed", and
  the heavy alarm's own queue: `cancelAllRequests` is not modelled.
  Heavy-filter results that are already on the flush queue are modelled.
- Swing, the scrolling model, the viewport and the scroll-bar geometry.
  `isVScrollAtTheBottom` is a boolean input. Scrolling to the end is a
  caret target.
- `TokenBuffer` and `ConsoleTokenUtil`: drain, backspace evaluation,
  highlighting and token lookup. Their results are inputs.
- Hyperlinks, the filters themselves, change listeners and the
  PSI-disposed check. Sending the added text to the process is also left
  out.
- `waitAllRequests`, `ReadAction`, the startup manager (its answer is an
  input) and the highlighters' markup.
- `CharArrayUtil` is not part of this model. `ShiftBackward` follows its
  documented meaning.
- `FoldingUtil.getFoldRegionsAtOffset` and the folding model are not part
  of this model. The walk returns its calls on the folding model, so a
  region the model refuses, or one it overlaps, is not modelled.
- Folding.AddFoldRegion: requires a non-empty first line for the
  command-line folding. The source reads that line's first character and
  would throw.
- Placeholder.GetPlaceholderText: requires a non-empty first line, since
  Java's `charAt(0)` throws on an empty one.
- The command-line folding is stored under its class name but is not an
  extension. `FindFoldingByRegion` therefore never returns it, and a
  command-line region is never continued. The model reflects this through
  `extensions`.
- Console.AfterDeleteUserText: a range past the document's end makes the
  document throw. The model then changes nothing.
- Console.ConsoleView.DeleteUserText: only the token at the start offset
  is checked for being user input, as in the source. The rest of the range
  is not checked.
- The Microba library's initialisation, `setLookAndFeelProperties` and its
  UI-change listener. Color semantics are also left out: a colour is an
  opaque value.
- Console.ConsoleView.DoFlush: when a flush sticks to the end, the caret
  target is the end of the document. With a selection in the editor, the
  public `scrollToEnd()` that the flush calls restores the carets and
  selections after scrolling. The model does not know about selections, so
  it does not capture that restore.
- Lengths and offsets are counted in characters of `seq<char>`, that is
  Unicode scalar values. Java counts UTF-16 code units, so text outside
  the Basic Multilingual Plane gives different lengths and offsets. This
  affects the command-line folding's 1000-character test, the effective
  scroll offset and the user-text deletion range.
- MicrobaColors.OverridenColor: null values stored in a map are not
  modelled. Null look-and-feel IDs are not modelled either.
