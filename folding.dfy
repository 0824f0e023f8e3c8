/** Output folding: every line of a range is classified by the first console
    folding that claims it, maximal runs of lines claimed by the same folding
    become fold regions, and a run that continues the region ending just
    before the range is merged with it. The editor's folding model is outside
    the model: the walk returns the calls it makes on it, in order. */
module Folding {
  import opened Wrappers
  import opened Text
  import Placeholder

  /** A console folding, named by its class name (the key a fold region
      records, and the key the extension point is searched by). */
  type FoldingId = string

  const COMMAND_LINE_FOLDING: FoldingId := "com.intellij.execution.impl.ConsoleViewImpl$CommandLineFolding"

  const INT_MAX: int := 0x7FFF_FFFF

  /** The registered console foldings and what they answer; the answers are
      inputs of the model. */
  datatype FoldingEnv = FoldingEnv(
    extensions: seq<FoldingId>,                                  // the extension point, in order
    enabled: FoldingId -> bool,                                  // isEnabledForConsole
    shouldFoldLine: (FoldingId, seq<char>) -> bool,
    isCommandLine: seq<char> -> bool,                            // the console state's command-line test
    attachToPrevious: FoldingId -> bool,                         // shouldBeAttachedToThePreviousLine
    placeholder: (FoldingId, seq<seq<char>>) -> Option<seq<char>>)

  /** An existing fold region, as far as the walk looks at it. */
  datatype FoldRegion = FoldRegion(startOffset: nat, expanded: bool, foldingFqn: Option<FoldingId>)

  /** One call on the editor's folding model. */
  datatype FoldCall =
    | RemoveRegion(region: FoldRegion)
    | AddRegion(folding: FoldingId, startLine: int, endLine: int, expanded: bool)

  // ---------------------------------------------------------------------------
  // Which folding claims a line

  /** The extensions enabled for this console, in extension-point order. */
  function EnabledExtensions(env: FoldingEnv): (r: seq<FoldingId>)
    ensures forall f :: f in r <==> f in env.extensions && env.enabled(f)
  {
    Enabled(env.extensions, env.enabled)
  }

  function Enabled(xs: seq<FoldingId>, enabled: FoldingId -> bool): (r: seq<FoldingId>)
    ensures forall f :: f in r <==> f in xs && enabled(f)
  {
    if xs == [] then []
    else (if enabled(xs[0]) then [xs[0]] else []) + Enabled(xs[1..], enabled)
  }

  /** Index in `xs` of the first folding that is enabled and claims `text`,
      or |xs|: the search foldingForLine makes, stated on the extension
      point itself. */
  function FirstEnabledClaiming(env: FoldingEnv, xs: seq<FoldingId>, text: seq<char>): (k: nat)
    ensures k <= |xs|
    ensures k < |xs| ==> env.enabled(xs[k]) && env.shouldFoldLine(xs[k], text)
    ensures forall j :: 0 <= j < k ==> !(env.enabled(xs[j]) && env.shouldFoldLine(xs[j], text))
  {
    if xs == [] then 0
    else if env.enabled(xs[0]) && env.shouldFoldLine(xs[0], text) then 0
    else 1 + FirstEnabledClaiming(env, xs[1..], text)
  }

  /** Filtering keeps the extension-point order: the first claiming folding
      among the enabled ones is the first enabled, claiming folding of the
      whole extension point. */
  lemma {:induction false} FirstClaimingOfEnabled(env: FoldingEnv, xs: seq<FoldingId>, text: seq<char>)
    ensures var exts := Enabled(xs, env.enabled);
            var i := FirstClaiming(env, exts, text);
            var k := FirstEnabledClaiming(env, xs, text);
            (i < |exts| <==> k < |xs|) && (i < |exts| ==> exts[i] == xs[k])
  {
    if xs != [] {
      FirstClaimingOfEnabled(env, xs[1..], text);
      var exts, rest := Enabled(xs, env.enabled), Enabled(xs[1..], env.enabled);
      if env.enabled(xs[0]) {
        assert exts == [xs[0]] + rest;
        if !env.shouldFoldLine(xs[0], text) {
          assert exts[1..] == rest;
        }
      } else {
        assert exts == rest;
      }
    }
  }

  /** The command-line folding claims a line of at least 1000 characters
      that the console state recognises as its command line. */
  predicate CommandLineShouldFold(env: FoldingEnv, text: seq<char>)
  {
    |text| >= 1000 && env.isCommandLine(text)
  }

  /** Index of the first extension that claims `text`, or |exts|. */
  function FirstClaiming(env: FoldingEnv, exts: seq<FoldingId>, text: seq<char>): (i: nat)
    ensures i <= |exts|
    ensures i < |exts| ==> env.shouldFoldLine(exts[i], text)
    ensures forall j :: 0 <= j < i ==> !env.shouldFoldLine(exts[j], text)
  {
    if exts == [] then 0
    else if env.shouldFoldLine(exts[0], text) then 0
    else 1 + FirstClaiming(env, exts[1..], text)
  }

  /** foldingForLine: line 0 goes to the command-line folding when it claims
      it; otherwise the first extension that claims the line, if any. */
  function FoldingForLine(env: FoldingEnv, exts: seq<FoldingId>, doc: seq<char>, line: nat): (r: Option<FoldingId>)
    ensures var text := LineText(doc, line);
            var i := FirstClaiming(env, exts, text);
            if line == 0 && CommandLineShouldFold(env, text) then r == Some(COMMAND_LINE_FOLDING)
            else (r.None? <==> forall j :: 0 <= j < |exts| ==> !env.shouldFoldLine(exts[j], text)) &&
                 (r.Some? ==> i < |exts| && r.value == exts[i] && env.shouldFoldLine(r.value, text))
  {
    var text := LineText(doc, line);
    if line == 0 && CommandLineShouldFold(env, text) then Some(COMMAND_LINE_FOLDING)
    else
      var i := FirstClaiming(env, exts, text);
      if i < |exts| then Some(exts[i]) else None
  }

  /** Outside the command-line case, the folding of a line is the first
      folding of the extension point that is enabled and claims the line,
      and none when no enabled folding claims it. */
  lemma FoldingForLineIsFirstEnabled(env: FoldingEnv, doc: seq<char>, line: nat)
    ensures var text := LineText(doc, line);
            var k := FirstEnabledClaiming(env, env.extensions, text);
            !(line == 0 && CommandLineShouldFold(env, text)) ==>
              FoldingForLine(env, EnabledExtensions(env), doc, line) ==
              if k < |env.extensions| then Some(env.extensions[k]) else None
  {
    FirstClaimingOfEnabled(env, env.extensions, LineText(doc, line));
  }

  /** The classification the walk uses: lines before `endLine` are asked,
      `endLine` itself (and anything after it) is claimed by nobody. */
  function ClaimOf(env: FoldingEnv, exts: seq<FoldingId>, doc: seq<char>, endLine: int): int -> Option<FoldingId>
  {
    (l: int) => if 0 <= l < endLine then FoldingForLine(env, exts, doc, l) else None
  }

  /** findFoldingByRegion: the folding recorded on a region, when it is still
      registered and enabled for this console. */
  function FindFoldingByRegion(env: FoldingEnv, region: FoldRegion): (r: Option<FoldingId>)
    ensures r.Some? <==> region.foldingFqn.Some? && region.foldingFqn.value in env.extensions &&
                         env.enabled(region.foldingFqn.value)
    ensures r.Some? ==> r == region.foldingFqn
  {
    match region.foldingFqn
    case None => None
    case Some(fqn) => if fqn in env.extensions && env.enabled(fqn) then Some(fqn) else None
  }

  /** The first line that starts at or after `offset`: the line a region
      starting at `offset` is taken to begin on. */
  function FirstWholeLine(doc: seq<char>, offset: nat): (r: nat)
    requires offset <= |doc|
    ensures LineStart(doc, r) >= offset
    ensures r == 0 || LineStart(doc, r - 1) < offset
  {
    LineOfOffset(doc, offset);
    if offset == 0 then 0
    else
      var l := LineNumber(doc, offset);
      if LineStart(doc, l) != offset then l + 1 else l
  }

  /** The line holding an offset starts at or before it, and the next line
      starts after it (or at the end of the document). */
  lemma LineOfOffset(doc: seq<char>, offset: nat)
    requires offset <= |doc|
    ensures LineStart(doc, LineNumber(doc, offset)) <= offset
    ensures LineStart(doc, LineNumber(doc, offset) + 1) >= offset
    ensures LineNumber(doc, offset) > 0 ==> LineStart(doc, LineNumber(doc, offset) - 1) < LineStart(doc, LineNumber(doc, offset))
  {
    var nl := Newlines(doc);
    var l := LineNumber(doc, offset);
    NewlinesOfPrefix(doc, offset);
    NewlinesSpec(doc);
    NewlinesSpec(doc[..offset]);
    if l > 0 {
      assert nl[l - 1] == Newlines(doc[..offset])[l - 1];
      if l > 1 {
        assert nl[l - 2] < nl[l - 1];
      }
    }
  }

  // ---------------------------------------------------------------------------
  // addFoldRegion

  /** A fold region as added to the folding model. */
  datatype NewRegion = NewRegion(startOffset: nat, endOffset: nat, placeholder: seq<char>,
                                 expanded: bool, foldingFqn: FoldingId)

  /** CharArrayUtil.shiftBackward over spaces and tabs: the last position at
      or before `offset` holding neither, or -1. */
  function ShiftBackward(doc: seq<char>, offset: int): (r: int)
    requires -1 <= offset < |doc|
    decreases offset + 1
    ensures -1 <= r <= offset
    ensures r >= 0 ==> !Placeholder.IsBlank(doc[r])
    ensures forall k :: r < k <= offset ==> Placeholder.IsBlank(doc[k])
  {
    if offset < 0 || !Placeholder.IsBlank(doc[offset]) then offset else ShiftBackward(doc, offset - 1)
  }

  /** The texts of lines startLine..endLine, without line breaks. */
  function LinesToFold(doc: seq<char>, startLine: nat, endLine: nat): (lines: seq<seq<char>>)
    requires startLine <= endLine
    ensures |lines| == endLine - startLine + 1
    ensures forall i :: 0 <= i < |lines| ==> lines[i] == LineText(doc, startLine + i)
  {
    seq(endLine - startLine + 1, i requires 0 <= i => LineText(doc, startLine + i))
  }

  /** getPlaceholderText of a folding; null is None. The command-line
      folding's is computed by the model, the others are inputs. */
  function FoldPlaceholder(env: FoldingEnv, folding: FoldingId, lines: seq<seq<char>>): Option<seq<char>>
    requires folding == COMMAND_LINE_FOLDING ==> |lines| > 0 && |lines[0]| > 0
  {
    if folding == COMMAND_LINE_FOLDING then Some(Placeholder.PlaceholderText(lines[0]))
    else env.placeholder(folding, lines)
  }

  /** addFoldRegion: the region covers the lines from the start of
      `startLine` (one character earlier, the preceding line break, when the
      folding attaches to the previous line) to the end of `endLine` without
      its trailing spaces and tabs; a null placeholder adds nothing. */
  function AddFoldRegion(env: FoldingEnv, doc: seq<char>, folding: FoldingId, startLine: nat, endLine: nat,
                         expanded: bool): (r: Option<NewRegion>)
    requires startLine <= endLine
    requires folding == COMMAND_LINE_FOLDING ==> |LineText(doc, startLine)| > 0
    ensures var placeholder := FoldPlaceholder(env, folding, LinesToFold(doc, startLine, endLine));
            var lineStart, lineEnd := LineStart(doc, startLine), LineEnd(doc, endLine);
            && (r.None? <==> placeholder.None?)
            && (r.Some? ==>
                  && r.value.placeholder == placeholder.value
                  && r.value.expanded == expanded && r.value.foldingFqn == folding
                  && r.value.startOffset == (if lineStart > 0 && env.attachToPrevious(folding) then lineStart - 1 else lineStart)
                  && r.value.endOffset <= lineEnd
                  && (forall k :: r.value.endOffset <= k < lineEnd ==> Placeholder.IsBlank(doc[k]))
                  && (r.value.endOffset > 0 ==> !Placeholder.IsBlank(doc[r.value.endOffset - 1])))
  {
    var toFold := LinesToFold(doc, startLine, endLine);
    var oStart := LineStart(doc, startLine);
    var oStart' := if oStart > 0 && env.attachToPrevious(folding) then oStart - 1 else oStart;
    var oEnd := ShiftBackward(doc, LineEnd(doc, endLine) - 1) + 1;
    match FoldPlaceholder(env, folding, toFold)
    case None => None
    case Some(placeholder) => Some(NewRegion(oStart', oEnd, placeholder, expanded, folding))
  }

  // ---------------------------------------------------------------------------
  // The walk

  /** The folding-model calls of the walk from `line` on, with `last` the
      folding of the current run, `lastStart` its first line and `existing`
      the region it continues, if any. */
  function Walk(claim: int -> Option<FoldingId>, startLine: int, endLine: int, line: int,
                last: Option<FoldingId>, lastStart: int, existing: Option<FoldRegion>): seq<FoldCall>
    decreases endLine + 1 - line
  {
    if line > endLine then []
    else
      var next := claim(line);
      if next == last then Walk(claim, startLine, endLine, line + 1, last, lastStart, existing)
      else Closed(startLine, line, last, lastStart, existing) + Walk(claim, startLine, endLine, line + 1, next, line, None)
  }

  /** The calls made when the run of `last` ends before `line`: none when no
      folding was running; otherwise its region, preceded by the removal of
      the region it continues when the run grew past that region's end. The
      merged region keeps the removed one's expanded state. */
  function Closed(startLine: int, line: int, last: Option<FoldingId>, lastStart: int,
                  existing: Option<FoldRegion>): seq<FoldCall>
  {
    if last.None? then []
    else if line > startLine && existing.Some? && lastStart < startLine then
      [RemoveRegion(existing.value), AddRegion(last.value, lastStart, line - 1, existing.value.expanded)]
    else [AddRegion(last.value, lastStart, line - 1, false)]
  }

  /** One step of the walk. */
  lemma WalkStep(claim: int -> Option<FoldingId>, startLine: int, endLine: int, line: int,
                 last: Option<FoldingId>, lastStart: int, existing: Option<FoldRegion>)
    requires line <= endLine
    ensures Walk(claim, startLine, endLine, line, last, lastStart, existing) ==
            if claim(line) == last then Walk(claim, startLine, endLine, line + 1, last, lastStart, existing)
            else Closed(startLine, line, last, lastStart, existing) +
                 Walk(claim, startLine, endLine, line + 1, claim(line), line, None)
  {
  }

  /** The calls updateFoldings(startLine, endLine) makes, given the regions
      the folding model holds at the start of the line before `startLine`. */
  function Foldings(env: FoldingEnv, doc: seq<char>, startLine: nat, endLine: int,
                    regionsAtPrevLine: seq<FoldRegion>): seq<FoldCall>
    requires |regionsAtPrevLine| == 1 ==> regionsAtPrevLine[0].startOffset <= |doc|
  {
    var existing := ExistingRegion(startLine, regionsAtPrevLine);
    var last := ContinuedFolding(env, startLine, regionsAtPrevLine);
    var lastStart := if last.Some? then FirstWholeLine(doc, existing.value.startOffset) else INT_MAX;
    var exts := EnabledExtensions(env);
    if exts == [] then []
    else Walk(ClaimOf(env, exts, doc, endLine), startLine, endLine, startLine, last, lastStart, existing)
  }

  /** The region the walk may continue: the only region at the start of the
      line before the range. */
  function ExistingRegion(startLine: nat, regionsAtPrevLine: seq<FoldRegion>): (r: Option<FoldRegion>)
    ensures r.Some? <==> startLine > 0 && |regionsAtPrevLine| == 1
    ensures r.Some? ==> r.value == regionsAtPrevLine[0]
  {
    if startLine > 0 && |regionsAtPrevLine| == 1 then Some(regionsAtPrevLine[0]) else None
  }

  /** The folding of that region, when it can still be continued. */
  function ContinuedFolding(env: FoldingEnv, startLine: nat, regionsAtPrevLine: seq<FoldRegion>): (r: Option<FoldingId>)
    ensures r.Some? ==> ExistingRegion(startLine, regionsAtPrevLine).Some?
    ensures r.Some? <==> startLine > 0 && |regionsAtPrevLine| == 1 && regionsAtPrevLine[0].foldingFqn.Some? &&
                         regionsAtPrevLine[0].foldingFqn.value in env.extensions &&
                         env.enabled(regionsAtPrevLine[0].foldingFqn.value)
    ensures r.Some? ==> r == regionsAtPrevLine[0].foldingFqn
  {
    var existing := ExistingRegion(startLine, regionsAtPrevLine);
    if existing.Some? then FindFoldingByRegion(env, existing.value) else None
  }

  lemma AppendAssoc<T>(a: seq<T>, b: seq<T>, c: seq<T>)
    ensures (a + b) + c == a + (b + c)
  {
  }

  /** updateFoldings */
  method UpdateFoldings(env: FoldingEnv, doc: seq<char>, startLine: nat, endLine: int,
                        regionsAtPrevLine: seq<FoldRegion>) returns (calls: seq<FoldCall>)
    requires |regionsAtPrevLine| == 1 ==> regionsAtPrevLine[0].startOffset <= |doc|
    ensures calls == Foldings(env, doc, startLine, endLine, regionsAtPrevLine)
    ensures EnabledExtensions(env) == [] ==> calls == []
  {
    calls := [];
    var existing: Option<FoldRegion> := None;
    if startLine > 0 && |regionsAtPrevLine| == 1 {
      existing := Some(regionsAtPrevLine[0]);
    }
    var last := if existing.None? then None else FindFoldingByRegion(env, existing.value);
    var lastStart := INT_MAX;
    if last.Some? {
      var offset := existing.value.startOffset;
      if offset == 0 {
        lastStart := 0;
      } else {
        lastStart := LineNumber(doc, offset);
        if LineStart(doc, lastStart) != offset {
          lastStart := lastStart + 1;
        }
      }
    }
    var exts := EnabledExtensions(env);
    if exts == [] { return; }
    assert existing == ExistingRegion(startLine, regionsAtPrevLine);
    assert last == ContinuedFolding(env, startLine, regionsAtPrevLine);
    assert Foldings(env, doc, startLine, endLine, regionsAtPrevLine) ==
           Walk(ClaimOf(env, exts, doc, endLine), startLine, endLine, startLine, last, lastStart, existing);
    calls := WalkLines(env, exts, doc, startLine, endLine, last, lastStart, existing);
  }

  /** The calls made when the running folding changes at `line`: the merge
      removes the continued region and gives the new one its expanded
      state. */
  method CloseRun(startLine: int, line: int, last: Option<FoldingId>, lastStart: int, existing: Option<FoldRegion>)
    returns (closing: seq<FoldCall>)
    ensures closing == Closed(startLine, line, last, lastStart, existing)
  {
    closing := [];
    if last.Some? {
      var isExpanded := false;
      if line > startLine && existing.Some? && lastStart < startLine {
        isExpanded := existing.value.expanded;
        closing := closing + [RemoveRegion(existing.value)];
      }
      closing := closing + [AddRegion(last.value, lastStart, line - 1, isExpanded)];
    }
  }

  /** One iteration of the loop: the line's folding (none for `endLine`
      itself) either extends the running folding or closes it and starts a
      new run at `line`. The calls made so far followed by the rest of the
      walk stay the same. */
  method Advance(env: FoldingEnv, exts: seq<FoldingId>, doc: seq<char>, startLine: int, endLine: int, line: nat,
                 calls: seq<FoldCall>, last: Option<FoldingId>, lastStart: int, existing: Option<FoldRegion>)
    returns (calls': seq<FoldCall>, last': Option<FoldingId>, lastStart': int, existing': Option<FoldRegion>)
    requires line <= endLine
    ensures var claim := ClaimOf(env, exts, doc, endLine);
            calls' + Walk(claim, startLine, endLine, line + 1, last', lastStart', existing') ==
            calls + Walk(claim, startLine, endLine, line, last, lastStart, existing)
  {
    ghost var claim := ClaimOf(env, exts, doc, endLine);
    var next := if line < endLine then FoldingForLine(env, exts, doc, line) else None;
    assert next == claim(line);
    WalkStep(claim, startLine, endLine, line, last, lastStart, existing);
    calls', last', lastStart', existing' := calls, last, lastStart, existing;
    if next != last {
      var closing := CloseRun(startLine, line, last, lastStart, existing);
      AppendAssoc(calls, closing, Walk(claim, startLine, endLine, line + 1, next, line, None));
      calls', last', lastStart', existing' := calls + closing, next, line, None;
    }
  }

  /** The loop of updateFoldings over the lines startLine..endLine. */
  method WalkLines(env: FoldingEnv, exts: seq<FoldingId>, doc: seq<char>, startLine: nat, endLine: int,
                   last0: Option<FoldingId>, lastStart0: int, existing0: Option<FoldRegion>)
    returns (calls: seq<FoldCall>)
    ensures calls == Walk(ClaimOf(env, exts, doc, endLine), startLine, endLine, startLine, last0, lastStart0, existing0)
  {
    var last, lastStart, existing := last0, lastStart0, existing0;
    ghost var claim := ClaimOf(env, exts, doc, endLine);
    ghost var all := Walk(claim, startLine, endLine, startLine, last0, lastStart0, existing0);
    calls := [];
    var line := startLine;
    while line <= endLine
      invariant startLine <= line && (line <= endLine + 1 || line == startLine)
      invariant calls + Walk(claim, startLine, endLine, line, last, lastStart, existing) == all
      decreases endLine + 1 - line
    {
      calls, last, lastStart, existing := Advance(env, exts, doc, startLine, endLine, line, calls, last, lastStart, existing);
      line := line + 1;
    }
  }

  // ---------------------------------------------------------------------------
  // Properties of the walk

  /** A run of lines claimed by one folding, made into a region: inside
      [startLine, endLine), every line of it claimed by its folding, and
      neither the next line nor (inside the range) the previous one. */
  ghost predicate IsRun(claim: int -> Option<FoldingId>, startLine: int, endLine: int, c: FoldCall)
  {
    && c.AddRegion?
    && startLine <= c.startLine <= c.endLine < endLine
    && (forall l :: c.startLine <= l <= c.endLine ==> claim(l) == Some(c.folding))
    && claim(c.endLine + 1) != Some(c.folding)
    && (c.startLine > startLine ==> claim(c.startLine - 1) != Some(c.folding))
  }

  /** The regions added are disjoint and in increasing line order. */
  ghost predicate Increasing(calls: seq<FoldCall>)
  {
    forall j, k :: 0 <= j < k < |calls| && calls[j].AddRegion? && calls[k].AddRegion? ==>
      calls[j].endLine < calls[k].startLine
  }

  ghost predicate Covers(calls: seq<FoldCall>, l: int)
  {
    exists k :: 0 <= k < |calls| && calls[k].AddRegion? && calls[k].startLine <= l <= calls[k].endLine
  }

  /** Without a running folding, the walk does not depend on the region it
      was given or on the run's start. */
  lemma {:induction false} IdleWalk(claim: int -> Option<FoldingId>, startLine: int, endLine: int, line: int,
                                    lastStart: int, existing: Option<FoldRegion>)
    ensures Walk(claim, startLine, endLine, line, None, lastStart, existing) ==
            Walk(claim, startLine, endLine, line, None, INT_MAX, None)
    decreases endLine + 1 - line
  {
    if line <= endLine && claim(line) == None {
      IdleWalk(claim, startLine, endLine, line + 1, lastStart, existing);
    }
  }

  /** Lines still claimed by the running folding add nothing. */
  lemma {:induction false} WalkSkip(claim: int -> Option<FoldingId>, startLine: int, endLine: int, line: int, j: int,
                                    last: Option<FoldingId>, lastStart: int, existing: Option<FoldRegion>)
    requires line <= j <= endLine + 1
    requires forall l :: line <= l < j ==> claim(l) == last
    ensures Walk(claim, startLine, endLine, line, last, lastStart, existing) ==
            Walk(claim, startLine, endLine, j, last, lastStart, existing)
    decreases j - line
  {
    if line < j {
      WalkSkip(claim, startLine, endLine, line + 1, j, last, lastStart, existing);
    }
  }

  /** The first line at or after `from` not claimed by `last` (at most
      endLine + 1). */
  function RunEnd(claim: int -> Option<FoldingId>, endLine: int, from: int, last: Option<FoldingId>): (r: int)
    requires from <= endLine + 1
    decreases endLine + 1 - from
    ensures from <= r <= endLine + 1
    ensures forall l :: from <= l < r ==> claim(l) == last
    ensures r <= endLine ==> claim(r) != last
  {
    if from > endLine || claim(from) != last then from else RunEnd(claim, endLine, from + 1, last)
  }

  /** What a walk from a fresh start produces, for lines from `bound` on:
      collapsed regions that are maximal runs, disjoint and increasing,
      covering every claimed line. */
  ghost predicate FreshRuns(claim: int -> Option<FoldingId>, startLine: int, endLine: int, calls: seq<FoldCall>, bound: int)
  {
    && (forall k :: 0 <= k < |calls| ==> IsRun(claim, startLine, endLine, calls[k]) && !calls[k].expanded)
    && Increasing(calls)
    && (forall k :: 0 <= k < |calls| ==> calls[k].startLine >= bound)
    && (forall l :: bound <= l < endLine && claim(l).Some? ==> Covers(calls, l))
  }

  lemma UnclaimedLine(claim: int -> Option<FoldingId>, startLine: int, endLine: int, calls: seq<FoldCall>, bound: int)
    requires FreshRuns(claim, startLine, endLine, calls, bound + 1) && claim(bound) == None
    ensures FreshRuns(claim, startLine, endLine, calls, bound)
  {
  }

  lemma PrependRun(claim: int -> Option<FoldingId>, startLine: int, endLine: int, c: FoldCall, rest: seq<FoldCall>)
    requires IsRun(claim, startLine, endLine, c) && !c.expanded
    requires FreshRuns(claim, startLine, endLine, rest, c.endLine + 1)
    ensures FreshRuns(claim, startLine, endLine, [c] + rest, c.startLine)
  {
    PrependRuns(claim, startLine, endLine, c, rest);
    PrependIncreasing(c, rest);
    PrependCovers(claim, endLine, c, rest);
  }

  lemma PrependRuns(claim: int -> Option<FoldingId>, startLine: int, endLine: int, c: FoldCall, rest: seq<FoldCall>)
    requires IsRun(claim, startLine, endLine, c) && !c.expanded
    requires forall k :: 0 <= k < |rest| ==> IsRun(claim, startLine, endLine, rest[k]) && !rest[k].expanded
    ensures forall k :: 0 <= k < |[c] + rest| ==> IsRun(claim, startLine, endLine, ([c] + rest)[k]) && !([c] + rest)[k].expanded
  {
    var calls := [c] + rest;
    forall k | 0 <= k < |calls| ensures IsRun(claim, startLine, endLine, calls[k]) && !calls[k].expanded {
      if k > 0 { assert calls[k] == rest[k - 1]; }
    }
  }

  lemma PrependIncreasing(c: FoldCall, rest: seq<FoldCall>)
    requires c.AddRegion? && Increasing(rest)
    requires forall k :: 0 <= k < |rest| ==> rest[k].AddRegion? && rest[k].startLine > c.endLine
    ensures Increasing([c] + rest)
    ensures c.startLine <= c.endLine ==> forall k :: 0 <= k < |[c] + rest| ==> ([c] + rest)[k].startLine >= c.startLine
  {
    var calls := [c] + rest;
    forall j, k | 0 <= j < k < |calls| && calls[j].AddRegion? && calls[k].AddRegion?
      ensures calls[j].endLine < calls[k].startLine
    {
      assert calls[k] == rest[k - 1];
      if j > 0 { assert calls[j] == rest[j - 1]; }
    }
    if c.startLine <= c.endLine {
      forall k | 0 <= k < |calls| ensures calls[k].startLine >= c.startLine {
        if k > 0 { assert calls[k] == rest[k - 1]; }
      }
    }
  }

  lemma PrependCovers(claim: int -> Option<FoldingId>, endLine: int, c: FoldCall, rest: seq<FoldCall>)
    requires c.AddRegion? && c.startLine <= c.endLine
    requires forall l :: c.endLine + 1 <= l < endLine && claim(l).Some? ==> Covers(rest, l)
    ensures forall l :: c.startLine <= l < endLine && claim(l).Some? ==> Covers([c] + rest, l)
  {
    var calls := [c] + rest;
    forall l | c.startLine <= l < endLine && claim(l).Some?
      ensures Covers(calls, l)
    {
      if l <= c.endLine {
        assert calls[0].startLine <= l <= calls[0].endLine;
      } else {
        assert Covers(rest, l);
        var k :| 0 <= k < |rest| && rest[k].AddRegion? && rest[k].startLine <= l <= rest[k].endLine;
        assert calls[1 + k] == rest[k];
      }
    }
  }

  /** From a fresh start, the walk adds one collapsed region per maximal run
      of lines claimed by the same folding, in increasing order, and every
      claimed line lies in one of them. */
  lemma {:induction false} FreshWalk(claim: int -> Option<FoldingId>, startLine: int, endLine: int, line: int,
                                     last: Option<FoldingId>, lastStart: int)
    requires claim(endLine) == None
    requires startLine <= line <= endLine + 1
    requires line == startLine ==> last.None?
    requires line > startLine ==> last == claim(line - 1)
    requires last.Some? ==> startLine <= lastStart < line &&
                            (forall l :: lastStart <= l < line ==> claim(l) == last) &&
                            (lastStart > startLine ==> claim(lastStart - 1) != last)
    ensures FreshRuns(claim, startLine, endLine, Walk(claim, startLine, endLine, line, last, lastStart, None),
                      if last.Some? then lastStart else line)
    decreases endLine + 1 - line
  {
    if line <= endLine {
      var next := claim(line);
      WalkStep(claim, startLine, endLine, line, last, lastStart, None);
      if next == last {
        FreshWalk(claim, startLine, endLine, line + 1, last, lastStart);
        if last.None? {
          UnclaimedLine(claim, startLine, endLine, Walk(claim, startLine, endLine, line + 1, last, lastStart, None), line);
        }
      } else {
        FreshWalk(claim, startLine, endLine, line + 1, next, line);
        CloseFreshRun(claim, startLine, endLine, line, last, lastStart, Walk(claim, startLine, endLine, line + 1, next, line, None));
      }
    }
  }

  /** The step of FreshWalk where the running folding changes at `line`. */
  lemma CloseFreshRun(claim: int -> Option<FoldingId>, startLine: int, endLine: int, line: int,
                      last: Option<FoldingId>, lastStart: int, rest: seq<FoldCall>)
    requires startLine <= line <= endLine && claim(line) != last
    requires line == startLine ==> last.None?
    requires line > startLine ==> last == claim(line - 1)
    requires last.Some? ==> startLine <= lastStart < line &&
                            (forall l :: lastStart <= l < line ==> claim(l) == last) &&
                            (lastStart > startLine ==> claim(lastStart - 1) != last)
    requires FreshRuns(claim, startLine, endLine, rest, if claim(line).Some? then line else line + 1)
    ensures FreshRuns(claim, startLine, endLine, Closed(startLine, line, last, lastStart, None) + rest,
                      if last.Some? then lastStart else line)
  {
    if claim(line).None? {
      UnclaimedLine(claim, startLine, endLine, rest, line);
    }
    if last.Some? {
      var c := AddRegion(last.value, lastStart, line - 1, false);
      assert Closed(startLine, line, last, lastStart, None) == [c];
      assert IsRun(claim, startLine, endLine, c);
      PrependRun(claim, startLine, endLine, c, rest);
    } else {
      assert Closed(startLine, line, last, lastStart, None) + rest == rest;
    }
  }

  /** A walk entering the range with a continued folding `g`: the run of `g`
      goes on up to RunEnd, where its region is closed; from there on the
      walk is fresh. */
  lemma ContinuedWalk(claim: int -> Option<FoldingId>, startLine: int, endLine: int, g: FoldingId,
                      lastStart: int, existing: FoldRegion)
    requires claim(endLine) == None && startLine <= endLine
    ensures var b := RunEnd(claim, endLine, startLine, Some(g));
            b <= endLine &&
            Walk(claim, startLine, endLine, startLine, Some(g), lastStart, Some(existing)) ==
            Closed(startLine, b, Some(g), lastStart, Some(existing)) +
            Walk(claim, startLine, endLine, b + 1, claim(b), b, None)
  {
    var b := RunEnd(claim, endLine, startLine, Some(g));
    WalkSkip(claim, startLine, endLine, startLine, b, Some(g), lastStart, Some(existing));
    WalkStep(claim, startLine, endLine, b, Some(g), lastStart, Some(existing));
  }

  /** The walk after the continued run closed at `b` is fresh from `b` on. */
  lemma FreshAfterRunEnd(claim: int -> Option<FoldingId>, startLine: int, endLine: int, g: FoldingId)
    requires claim(endLine) == None && startLine <= endLine
    ensures var b := RunEnd(claim, endLine, startLine, Some(g));
            FreshRuns(claim, startLine, endLine, Walk(claim, startLine, endLine, b + 1, claim(b), b, None), b)
  {
    var b := RunEnd(claim, endLine, startLine, Some(g));
    FreshWalk(claim, startLine, endLine, b + 1, claim(b), b);
    if claim(b).None? {
      UnclaimedLine(claim, startLine, endLine, Walk(claim, startLine, endLine, b + 1, claim(b), b, None), b);
    }
  }

  /** Line starts never decrease with the line number. */
  lemma LineStartMonotone(doc: seq<char>, a: nat, b: nat)
    requires a <= b
    ensures LineStart(doc, a) <= LineStart(doc, b)
  {
    var nl := Newlines(doc);
    NewlinesSpec(doc);
    if 0 < a && a < b && b - 1 < |nl| {
      assert nl[a - 1] < nl[b - 1];
    }
  }

  /** A region that holds the start of the line before the range begins on
      an earlier line, so the merge always removes it. */
  lemma ContinuedRegionStartsBefore(doc: seq<char>, startLine: nat, offset: nat)
    requires 0 < startLine && offset <= LineStart(doc, startLine - 1)
    ensures FirstWholeLine(doc, offset) < startLine
  {
    var r := FirstWholeLine(doc, offset);
    if r >= startLine {
      LineStartMonotone(doc, startLine - 1, r - 1);
    }
  }

  // ---------------------------------------------------------------------------
  // updateFoldings, in terms of the claims

  /** Without a continued region, updateFoldings adds exactly the maximal
      runs of claimed lines in [startLine, endLine), collapsed, disjoint and
      in increasing order; a claimed line always ends up in one of them. */
  lemma FoldingsAreMaximalRuns(env: FoldingEnv, doc: seq<char>, startLine: nat, endLine: int,
                               regionsAtPrevLine: seq<FoldRegion>)
    requires |regionsAtPrevLine| == 1 ==> regionsAtPrevLine[0].startOffset <= |doc|
    requires EnabledExtensions(env) != []
    requires ContinuedFolding(env, startLine, regionsAtPrevLine) == None
    ensures FreshRuns(ClaimOf(env, EnabledExtensions(env), doc, endLine), startLine, endLine,
                      Foldings(env, doc, startLine, endLine, regionsAtPrevLine), startLine)
  {
    var claim := ClaimOf(env, EnabledExtensions(env), doc, endLine);
    var existing := ExistingRegion(startLine, regionsAtPrevLine);
    IdleWalk(claim, startLine, endLine, startLine, INT_MAX, existing);
    if startLine <= endLine + 1 {
      FreshWalk(claim, startLine, endLine, startLine, None, INT_MAX);
    }
  }

  /** The walk of a continued run, in terms of the claims: the merge (or the
      plain re-add) of the continued region, then fresh runs from its end. */
  lemma ContinuedCalls(claim: int -> Option<FoldingId>, startLine: int, endLine: int, g: FoldingId,
                       first: int, region: FoldRegion)
    requires claim(endLine) == None && startLine <= endLine
    ensures var b := RunEnd(claim, endLine, startLine, Some(g));
            var calls := Walk(claim, startLine, endLine, startLine, Some(g), first, Some(region));
            if b > startLine && first < startLine then
              |calls| >= 2 && calls[0] == RemoveRegion(region) &&
              calls[1] == AddRegion(g, first, b - 1, region.expanded) &&
              FreshRuns(claim, startLine, endLine, calls[2..], b)
            else
              |calls| >= 1 && calls[0] == AddRegion(g, first, b - 1, false) &&
              FreshRuns(claim, startLine, endLine, calls[1..], b)
  {
    var b := RunEnd(claim, endLine, startLine, Some(g));
    ContinuedWalk(claim, startLine, endLine, g, first, region);
    FreshAfterRunEnd(claim, startLine, endLine, g);
    var closed := Closed(startLine, b, Some(g), first, Some(region));
    var rest := Walk(claim, startLine, endLine, b + 1, claim(b), b, None);
    var calls := closed + rest;
    assert calls[|closed|..] == rest;
  }

  /** With a continued region whose folding is still enabled, the run of its
      folding from startLine on is merged with it: the old region is removed
      and one region from its first line to the end of the run is added,
      keeping its expanded state. When the first line of the range already
      belongs to another folding, the old region is added again unchanged
      (collapsed) without a removal. After that the walk is fresh. */
  lemma FoldingsContinueRegion(env: FoldingEnv, doc: seq<char>, startLine: nat, endLine: int,
                               regionsAtPrevLine: seq<FoldRegion>)
    requires |regionsAtPrevLine| == 1 ==> regionsAtPrevLine[0].startOffset <= |doc|
    requires EnabledExtensions(env) != [] && startLine <= endLine
    requires ContinuedFolding(env, startLine, regionsAtPrevLine).Some?
    ensures var claim := ClaimOf(env, EnabledExtensions(env), doc, endLine);
            var g := ContinuedFolding(env, startLine, regionsAtPrevLine).value;
            var region := regionsAtPrevLine[0];
            var first := FirstWholeLine(doc, region.startOffset);
            var b := RunEnd(claim, endLine, startLine, Some(g));
            var calls := Foldings(env, doc, startLine, endLine, regionsAtPrevLine);
            && startLine <= b <= endLine
            && (forall l :: startLine <= l < b ==> claim(l) == Some(g))
            && claim(b) != Some(g)
            && (if b > startLine && first < startLine then
                  |calls| >= 2 && calls[0] == RemoveRegion(region) &&
                  calls[1] == AddRegion(g, first, b - 1, region.expanded) &&
                  FreshRuns(claim, startLine, endLine, calls[2..], b)
                else
                  |calls| >= 1 && calls[0] == AddRegion(g, first, b - 1, false) &&
                  FreshRuns(claim, startLine, endLine, calls[1..], b))
  {
    var claim := ClaimOf(env, EnabledExtensions(env), doc, endLine);
    var g := ContinuedFolding(env, startLine, regionsAtPrevLine).value;
    var region := regionsAtPrevLine[0];
    var first := FirstWholeLine(doc, region.startOffset);
    assert claim(endLine) == None;
    assert Foldings(env, doc, startLine, endLine, regionsAtPrevLine) ==
           Walk(claim, startLine, endLine, startLine, Some(g), first, Some(region));
    ContinuedWalk(claim, startLine, endLine, g, first, region);
    ContinuedCalls(claim, startLine, endLine, g, first, region);
  }

  // ---------------------------------------------------------------------------
  // An example

  function ExampleClaim(l: int): Option<FoldingId>
  {
    if l == 0 || l == 1 || l == 3 then Some("A") else if l == 2 then Some("B") else None
  }

  /** Lines 0..3 claimed A, A, B, A (line 4 ends the range): three regions,
      of two lines, one line and one line. */
  lemma ExampleRuns()
    ensures Walk(ExampleClaim, 0, 4, 0, None, INT_MAX, None) ==
            [AddRegion("A", 0, 1, false), AddRegion("B", 2, 2, false), AddRegion("A", 3, 3, false)]
  {
    WalkStep(ExampleClaim, 0, 4, 0, None, INT_MAX, None);
    WalkStep(ExampleClaim, 0, 4, 1, Some("A"), 0, None);
    WalkStep(ExampleClaim, 0, 4, 2, Some("A"), 0, None);
    WalkStep(ExampleClaim, 0, 4, 3, Some("B"), 2, None);
    WalkStep(ExampleClaim, 0, 4, 4, Some("A"), 3, None);
    assert Walk(ExampleClaim, 0, 4, 5, None, 4, None) == [];
  }
}
