/** The console view's render-side state: the document, the stick-to-end and
    pause flags, the length of the deferred token buffer, the flush alarm's
    queue of pending requests with the per-runnable `requested` flags of the
    two coalesced runnables FLUSH and CLEAR, and the heavy-filter ticket.
    Each state change is specified by a function on `State`; the class's
    methods make the same change in place and are proved against it. */
module Console {
  import opened Wrappers
  import opened Text
  import opened Flush

  /** A runnable on the flush alarm. FLUSH and CLEAR are single coalesced
      instances; the others are ad-hoc: a fresh one is queued per request. */
  datatype Request =
    | FlushRequest                          // FLUSH: flushDeferredText
    | ClearRequest                          // CLEAR: doClear
    | ScrollRequest(offset: int)            // scrollTo(offset)
    | ScrollToEndRequest                    // requestScrollingToEnd
    | HeavyPatch(ticket: int, patch: nat)   // one heavy-filter result, with the ticket it captured

  predicate AdHoc(r: Request) { !r.FlushRequest? && !r.ClearRequest? }

  /** What the token buffer's drain returned, already resolved by the
      backspace evaluation (whose own rules are not part of this model). */
  datatype Drained =
    | NoTokens
    | Tokens(startsWithCR: bool, backspacePrefix: int, refined: seq<char>)

  datatype State = State(
    document: seq<char>,
    hasEditor: bool,           // getEditor() != null
    disposed: bool,            // project or editor disposed
    outputPaused: bool,
    cancelStickToEnd: bool,
    deferredLength: nat,       // myDeferredBuffer.length()
    pending: seq<Request>,     // myFlushAlarm's queue, oldest first
    alarmDisposed: bool,
    flushRequested: bool,      // FLUSH.requested
    clearRequested: bool,      // CLEAR.requested
    heavyTicket: int,          // myHeavyUpdateTicket
    heavyAlarmDisposed: bool,
    appliedPatches: seq<nat>)  // log of the heavy-filter patches applied, oldest first

  /** At most one pending copy of each coalesced runnable, and a pending copy
      always has its `requested` flag set. */
  ghost predicate ValidState(s: State)
  {
    IsInt(s.heavyTicket) && ValidQueue(s.pending, s.flushRequested, s.clearRequested)
  }

  ghost predicate ValidQueue(pending: seq<Request>, flushRequested: bool, clearRequested: bool)
  {
    && multiset(pending)[FlushRequest] <= 1
    && multiset(pending)[ClearRequest] <= 1
    && (FlushRequest in pending ==> flushRequested)
    && (ClearRequest in pending ==> clearRequested)
  }

  predicate IsDisposed(s: State) { s.disposed || !s.hasEditor }

  predicate Requested(s: State, r: Request)
  {
    (r.FlushRequest? && s.flushRequested) || (r.ClearRequest? && s.clearRequested)
  }

  /** One call of queue on runnable `r`. */
  function Queue(s: State, r: Request): State
  {
    if s.alarmDisposed then s
    else if AdHoc(r) then s.(pending := s.pending + [r])
    else if Requested(s, r) then s
    else if r.FlushRequest? then s.(pending := s.pending + [r], flushRequested := true)
    else s.(pending := s.pending + [r], clearRequested := true)
  }

  function ClearRequestedFlag(s: State, r: Request): State
  {
    if r.FlushRequest? then s.(flushRequested := false)
    else if r.ClearRequest? then s.(clearRequested := false)
    else s
  }

  function AfterCancelAll(s: State): State
  {
    s.(pending := [], flushRequested := false, clearRequested := false)
  }

  function AfterCancelHeavy(s: State): State
  {
    if s.heavyAlarmDisposed then s else s.(heavyTicket := Wrap(s.heavyTicket + 1))
  }

  /** getContentSize: the document length counts only while no CLEAR is
      pending; the deferred length always counts. */
  function ContentSize(s: State): int
  {
    (if !s.hasEditor || s.clearRequested then 0 else |s.document|) + s.deferredLength
  }

  /** clear(): drop the deferred output and replace every pending request by
      one CLEAR. */
  function ClearConsole(s: State): State
  {
    if !s.hasEditor then s
    else
      var s1 := s.(deferredLength := 0);
      if s1.alarmDisposed then s1
      else AfterCancelHeavy(Queue(AfterCancelAll(s1), ClearRequest))
  }

  /** flushDeferredText, with the caret offset and the scroll-bar position as
      inputs. The second component says whether the view was scrolled to the
      end afterwards. */
  function FlushDeferred(s: State, drained: Drained, caret: nat, scrollAtBottom: bool): (State, bool)
    requires caret <= |s.document|
  {
    if IsDisposed(s) then (s, false)
    else
      var stick := ShouldStickToEnd(s.cancelStickToEnd, s.document, caret, scrollAtBottom);
      var s1 := s.(cancelStickToEnd := false);
      if s1.outputPaused then (s1, false)
      else
        var s2 := s1.(deferredLength := 0);
        match drained
        case NoTokens => (s2, false)
        case Tokens(cr, n, refined) =>
          var s3 := AfterCancelHeavy(s2);
          (s3.(document := FlushedText(s3.document, cr, n, refined)), stick)
  }

  /** doRun of runnable `r` after its `requested` flag was reset. The
      runnables that begin with flushDeferredText continue from `flushed`,
      the outcome of that flush on `s` (see AfterRun). The second component
      is where the caret is moved, if anywhere. */
  function AfterDoRun(s: State, r: Request, flushed: (State, bool), useCycleBuffer: bool): (State, Option<int>)
  {
    match r
    case FlushRequest =>
      (flushed.0, if flushed.1 then Some(|flushed.0.document|) else None)
    case ClearRequest =>
      if IsDisposed(s) then (s, None) else (AfterCancelHeavy(s.(document := [])), None)
    case ScrollRequest(offset) =>
      ScrollAfterFlush(flushed.0, flushed.1, offset, useCycleBuffer)
    case ScrollToEndRequest =>
      ScrollToEndAfterFlush(flushed.0, flushed.1)
    case HeavyPatch(ticket, patch) =>
      if PatchApplies(ticket, s.heavyTicket) then (s.(appliedPatches := s.appliedPatches + [patch]), None)
      else (s, None)
  }

  /** The scroll runnable after its flush: with an editor the caret moves to
      the effective offset (which overrides a stick-to-end scroll). */
  function ScrollAfterFlush(t: State, stuck: bool, offset: int, useCycleBuffer: bool): (State, Option<int>)
  {
    if !t.hasEditor then (t, if stuck then Some(|t.document|) else None)
    else (t, Some(EffectiveOffset(offset, |t.document|, useCycleBuffer)))
  }

  /** The scroll-to-end runnable after its flush: while the editor and the
      alarm are live it scrolls to the end, which clears the cancel flag. */
  function ScrollToEndAfterFlush(t: State, stuck: bool): (State, Option<int>)
  {
    if t.hasEditor && !t.alarmDisposed then (t.(cancelStickToEnd := false), Some(|t.document|))
    else (t, if stuck then Some(|t.document|) else None)
  }

  /** FlushRunnable.run: nothing once disposed; before the startup activities
      passed, FLUSH is queued again first; then `requested` is reset and doRun
      follows. */
  function AfterRun(s: State, r: Request, startupPassed: bool, drained: Drained, caret: nat,
               scrollAtBottom: bool, useCycleBuffer: bool): (State, Option<int>)
    requires caret <= |s.document|
  {
    if IsDisposed(s) then (s, None)
    else
      var b := BeforeDoRun(s, r, startupPassed);
      AfterDoRun(b, r, FlushDeferred(b, drained, caret, scrollAtBottom), useCycleBuffer)
  }

  /** The part of run before doRun, on a live console. */
  function BeforeDoRun(s: State, r: Request, startupPassed: bool): State
  {
    var s1 := if startupPassed then s else Queue(s, FlushRequest);
    ClearRequestedFlag(s1, r)
  }

  /** The alarm takes its oldest request off the queue and runs it. */
  function AfterRunNext(s: State, startupPassed: bool, drained: Drained, caret: nat,
                   scrollAtBottom: bool, useCycleBuffer: bool): (State, Option<int>)
    requires caret <= |s.document|
  {
    if s.pending == [] then (s, None)
    else AfterRun(s.(pending := s.pending[1..]), s.pending[0], startupPassed, drained, caret,
             scrollAtBottom, useCycleBuffer)
  }

  /** deleteUserText; the second component is where the caret moves. A range
      past the document's end makes the document throw: nothing changes. */
  function AfterDeleteUserText(s: State, startOffset: int, length: int, startIsUserInput: bool): (State, Option<int>)
    requires IsInt(startOffset) && IsInt(length)
  {
    match UserTextDeletion(startOffset, length, startIsUserInput)
    case NotUserInput => (s, None)
    case MoveOnly => (s, Some(startOffset))
    case Delete(a, b) =>
      if b <= |s.document| then (s.(document := s.document[..a] + s.document[b..]), Some(a))
      else (s, None)
  }

  /** dispose(): the console's alarms are disposed with it (they are its
      children), then pending work is cancelled and the editor released. */
  function AfterDispose(s: State): State
  {
    var s1 := s.(alarmDisposed := true, heavyAlarmDisposed := true);
    if !s1.hasEditor then s1
    else AfterCancelAll(s1).(deferredLength := 0, hasEditor := false)
  }

  // ---------------------------------------------------------------------------
  // Properties of the flush-request state machine

  /** Queueing keeps at most one pending copy of each coalesced runnable. */
  lemma QueuePreservesValid(s: State, r: Request)
    requires ValidState(s)
    ensures ValidState(Queue(s, r))
  {
    if !s.alarmDisposed && !Requested(s, r) {
      AppendKeepsValidQueue(s.pending, s.flushRequested, s.clearRequested, r);
    }
  }

  /** Appending a runnable whose flag is clear, and setting that flag. */
  lemma AppendKeepsValidQueue(pending: seq<Request>, flushRequested: bool, clearRequested: bool, r: Request)
    requires ValidQueue(pending, flushRequested, clearRequested)
    requires r.FlushRequest? ==> !flushRequested
    requires r.ClearRequest? ==> !clearRequested
    ensures ValidQueue(pending + [r], flushRequested || r.FlushRequest?, clearRequested || r.ClearRequest?)
  {
    assert multiset(pending + [r]) == multiset(pending) + multiset{r};
  }

  /** A coalesced runnable is enqueued only when its flag was clear; queueing
      it a second time changes nothing. An ad-hoc runnable is enqueued on every
      call. A disposed alarm ignores every request. */
  lemma QueueCoalesces(s: State, r: Request)
    ensures s.alarmDisposed ==> Queue(s, r) == s
    ensures !s.alarmDisposed && AdHoc(r) ==> Queue(s, r).pending == s.pending + [r]
    ensures !AdHoc(r) ==> Queue(Queue(s, r), r) == Queue(s, r)
    ensures !AdHoc(r) && !s.alarmDisposed ==>
              (Queue(s, r).pending == if Requested(s, r) then s.pending else s.pending + [r])
  {
  }

  /** doRun leaves the flush alarm's queue and the coalescing flags alone,
      given a flush that does. */
  lemma DoRunKeepsQueue(s: State, r: Request, flushed: (State, bool), useCycleBuffer: bool)
    requires flushed.0.pending == s.pending && flushed.0.flushRequested == s.flushRequested
    requires flushed.0.clearRequested == s.clearRequested && (IsInt(s.heavyTicket) ==> IsInt(flushed.0.heavyTicket))
    ensures var t := AfterDoRun(s, r, flushed, useCycleBuffer).0;
            t.pending == s.pending && t.flushRequested == s.flushRequested &&
            t.clearRequested == s.clearRequested && (IsInt(s.heavyTicket) ==> IsInt(t.heavyTicket))
  {
    match r
    case FlushRequest =>
    case ClearRequest =>
    case ScrollRequest(_) =>
    case ScrollToEndRequest =>
    case HeavyPatch(_, _) =>
  }

  /** A flush leaves the flush alarm's queue and the coalescing flags alone. */
  lemma FlushKeepsQueue(s: State, drained: Drained, caret: nat, scrollAtBottom: bool)
    requires caret <= |s.document|
    ensures var t := FlushDeferred(s, drained, caret, scrollAtBottom).0;
            t.pending == s.pending && t.flushRequested == s.flushRequested &&
            t.clearRequested == s.clearRequested && (IsInt(s.heavyTicket) ==> IsInt(t.heavyTicket))
  {
    if IsDisposed(s) {
    } else if s.outputPaused {
    } else if drained.NoTokens? {
    } else {
      var s3 := AfterCancelHeavy(s.(cancelStickToEnd := false, deferredLength := 0));
      assert FlushDeferred(s, drained, caret, scrollAtBottom).0 ==
             s3.(document := FlushedText(s3.document, drained.startsWithCR, drained.backspacePrefix, drained.refined));
    }
  }

  /** Before doRun, the runnable's own flag is reset; when it was taken off
      the queue of a valid state, the state stays valid. */
  lemma BeforeDoRunResetsRequested(s: State, r: Request, startupPassed: bool)
    requires ValidState(s)
    requires !AdHoc(r) ==> r !in s.pending && Requested(s, r)
    ensures !Requested(BeforeDoRun(s, r, startupPassed), r)
    ensures ValidState(BeforeDoRun(s, r, startupPassed))
  {
    if !startupPassed && r != FlushRequest {
      QueuePreservesValid(s, FlushRequest);
    }
  }

  /** run changes the queue and the flags only before doRun. */
  lemma RunKeepsPreparedQueue(s: State, r: Request, startupPassed: bool, drained: Drained, caret: nat,
                              scrollAtBottom: bool, useCycleBuffer: bool)
    requires caret <= |s.document| && !IsDisposed(s)
    ensures var t := AfterRun(s, r, startupPassed, drained, caret, scrollAtBottom, useCycleBuffer).0;
            var b := BeforeDoRun(s, r, startupPassed);
            t.pending == b.pending && t.flushRequested == b.flushRequested &&
            t.clearRequested == b.clearRequested && (IsInt(b.heavyTicket) ==> IsInt(t.heavyTicket))
  {
    var b := BeforeDoRun(s, r, startupPassed);
    var flushed := FlushDeferred(b, drained, caret, scrollAtBottom);
    assert AfterRun(s, r, startupPassed, drained, caret, scrollAtBottom, useCycleBuffer) ==
           AfterDoRun(b, r, flushed, useCycleBuffer);
    FlushKeepsQueue(b, drained, caret, scrollAtBottom);
    DoRunKeepsQueue(b, r, flushed, useCycleBuffer);
  }

  /** Running the oldest request resets its flag, even when FLUSH was queued
      again because the startup activities have not passed: FLUSH is then not
      pending, and at most one copy of each coalesced runnable stays pending. */
  lemma RunResetsRequested(s: State, startupPassed: bool, drained: Drained, caret: nat,
                           scrollAtBottom: bool, useCycleBuffer: bool)
    requires ValidState(s) && s.pending != []
    requires caret <= |s.document| && !IsDisposed(s)
    ensures var t := AfterRunNext(s, startupPassed, drained, caret, scrollAtBottom, useCycleBuffer).0;
            !Requested(t, s.pending[0]) && ValidState(t)
  {
    var r := s.pending[0];
    var rest := s.(pending := s.pending[1..]);
    assert s.pending == [r] + s.pending[1..];
    assert multiset(s.pending) == multiset{r} + multiset(rest.pending);
    assert !AdHoc(r) ==> r !in rest.pending;
    BeforeDoRunResetsRequested(rest, r, startupPassed);
    RunKeepsPreparedQueue(rest, r, startupPassed, drained, caret, scrollAtBottom, useCycleBuffer);
  }

  /** clear() empties the queue down to one CLEAR; while it is pending the
      content size counts the deferred length only, which clear() reset. */
  lemma ClearQueuesOnlyClear(s: State)
    requires s.hasEditor && !s.alarmDisposed
    ensures ClearConsole(s).pending == [ClearRequest]
    ensures ClearConsole(s).clearRequested && !ClearConsole(s).flushRequested
    ensures ContentSize(ClearConsole(s)) == 0
    ensures ValidState(ClearConsole(s)) <== IsInt(s.heavyTicket)
  {
  }

  // ---------------------------------------------------------------------------
  // Properties of a flush

  /** A flush while paused, or with nothing drained, leaves the document as
      it is and does not scroll. */
  lemma PausedOrEmptyFlushKeepsDocument(s: State, drained: Drained, caret: nat, scrollAtBottom: bool)
    requires caret <= |s.document|
    requires s.outputPaused || drained.NoTokens?
    ensures FlushDeferred(s, drained, caret, scrollAtBottom).0.document == s.document
    ensures !FlushDeferred(s, drained, caret, scrollAtBottom).1
    ensures s.outputPaused ==> FlushDeferred(s, drained, caret, scrollAtBottom).0.deferredLength == s.deferredLength
  {
  }

  /** The cancel flag lasts for one flush attempt of a live console; the
      stick decision is taken on the document before the mutation. */
  lemma FlushStickToEnd(s: State, drained: Drained, caret: nat, scrollAtBottom: bool)
    requires caret <= |s.document| && !IsDisposed(s)
    ensures !FlushDeferred(s, drained, caret, scrollAtBottom).0.cancelStickToEnd
    ensures FlushDeferred(s, drained, caret, scrollAtBottom).1 <==>
              !s.outputPaused && drained.Tokens? &&
              !s.cancelStickToEnd && (scrollAtBottom || forall k :: caret <= k < |s.document| ==> s.document[k] != '\n')
  {
    StickToEndMeaning(s.cancelStickToEnd, s.document, caret, scrollAtBottom);
  }

  /** A non-empty drain on a live, running console performs the document edit
      and outdates all heavy-filter patches queued before it. */
  lemma FlushEditsAndOutdatesPatches(s: State, cr: bool, n: int, refined: seq<char>, caret: nat, scrollAtBottom: bool)
    requires caret <= |s.document| && !IsDisposed(s) && !s.outputPaused
    requires IsInt(s.heavyTicket) && !s.heavyAlarmDisposed
    ensures var t := FlushDeferred(s, Tokens(cr, n, refined), caret, scrollAtBottom).0;
            t.document == FlushedText(s.document, cr, n, refined) && t.deferredLength == 0 &&
            !PatchApplies(s.heavyTicket, t.heavyTicket)
  {
  }

  /** After dispose() nothing is pending and no request can run any more. */
  lemma DisposeStopsEverything(s: State, startupPassed: bool, drained: Drained, caret: nat,
                               scrollAtBottom: bool, useCycleBuffer: bool, r: Request)
    requires s.hasEditor
    ensures AfterDispose(s).pending == []
    ensures caret <= |s.document| ==>
              AfterRunNext(AfterDispose(s), startupPassed, drained, caret, scrollAtBottom, useCycleBuffer) == (AfterDispose(s), None)
    ensures caret <= |s.document| ==>
              AfterRun(AfterDispose(s), r, startupPassed, drained, caret, scrollAtBottom, useCycleBuffer) == (AfterDispose(s), None)
    ensures Queue(AfterDispose(s), r) == AfterDispose(s)
  {
  }

  // ---------------------------------------------------------------------------
  // The console object

  class ConsoleView {
    var document: seq<char>
    var hasEditor: bool
    var disposed: bool
    var outputPaused: bool
    var cancelStickToEnd: bool
    var deferredLength: nat
    var pending: seq<Request>
    var alarmDisposed: bool
    var flushRequested: bool
    var clearRequested: bool
    var heavyTicket: int
    var heavyAlarmDisposed: bool
    var appliedPatches: seq<nat>

    function Snapshot(): State
      reads this
    {
      State(document, hasEditor, disposed, outputPaused, cancelStickToEnd, deferredLength, pending,
            alarmDisposed, flushRequested, clearRequested, heavyTicket, heavyAlarmDisposed, appliedPatches)
    }

    ghost predicate Valid()
      reads this
    {
      ValidState(Snapshot())
    }

    /** A console with an empty document and no editor yet. */
    constructor ()
      ensures Valid()
      ensures Snapshot() == State([], false, false, false, false, 0, [], false, false, false, 0, false, [])
    {
      document, hasEditor, disposed, outputPaused := [], false, false, false;
      cancelStickToEnd, deferredLength, pending := false, 0, [];
      alarmDisposed, flushRequested, clearRequested := false, false, false;
      heavyTicket, heavyAlarmDisposed, appliedPatches := 0, false, [];
    }

    /** FlushRunnable.queue */
    method QueueRequest(r: Request)
      requires Valid()
      modifies this
      ensures Valid()
      ensures Snapshot() == Queue(old(Snapshot()), r)
    {
      QueuePreservesValid(Snapshot(), r);
      if alarmDisposed { return; }
      if AdHoc(r) {
        pending := pending + [r];
      } else if r.FlushRequest? && !flushRequested {
        flushRequested := true;
        pending := pending + [r];
      } else if r.ClearRequest? && !clearRequested {
        clearRequested := true;
        pending := pending + [r];
      }
    }

    method CancelAllFlushRequests()
      requires Valid()
      modifies this
      ensures Valid()
      ensures Snapshot() == AfterCancelAll(old(Snapshot()))
      ensures ContentSize(Snapshot()) == if hasEditor then |document| + deferredLength else deferredLength
    {
      pending := [];
      flushRequested := false;
      clearRequested := false;
    }

    method CancelHeavyAlarm()
      requires Valid()
      modifies this
      ensures Valid()
      ensures Snapshot() == AfterCancelHeavy(old(Snapshot()))
    {
      if !heavyAlarmDisposed {
        heavyTicket := Wrap(heavyTicket + 1);
      }
    }

    function GetContentSize(): (n: int)
      reads this
      ensures n >= deferredLength
      ensures clearRequested ==> n == deferredLength
      ensures hasEditor && !clearRequested ==> n == |document| + deferredLength
      ensures !hasEditor ==> n == deferredLength
    {
      ContentSize(Snapshot())
    }

    method Clear()
      requires Valid()
      modifies this
      ensures Valid()
      ensures Snapshot() == ClearConsole(old(Snapshot()))
    {
      if !hasEditor { return; }
      deferredLength := 0;
      if !alarmDisposed {
        CancelAllFlushRequests();
        QueueRequest(ClearRequest);
        CancelHeavyAlarm();
      }
    }

    /** getComponent: the first call attaches an editor and requests an
        immediate flush. */
    method AttachEditor()
      requires Valid()
      modifies this
      ensures Valid()
      ensures Snapshot() == if old(hasEditor) then old(Snapshot())
                            else Queue(old(Snapshot()).(hasEditor := true), FlushRequest)
    {
      if !hasEditor {
        hasEditor := true;
        QueueRequest(FlushRequest);
      }
    }

    method ScrollTo(offset: int)
      requires Valid()
      modifies this
      ensures Valid()
      ensures Snapshot() == if !old(hasEditor) then old(Snapshot()) else Queue(old(Snapshot()), ScrollRequest(offset))
    {
      if !hasEditor { return; }
      QueueRequest(ScrollRequest(offset));
    }

    method RequestScrollingToEnd()
      requires Valid()
      modifies this
      ensures Valid()
      ensures Snapshot() == if !old(hasEditor) then old(Snapshot()) else Queue(old(Snapshot()), ScrollToEndRequest)
    {
      if !hasEditor { return; }
      QueueRequest(ScrollToEndRequest);
    }

    method SetOutputPaused(value: bool)
      requires Valid()
      modifies this
      ensures Valid()
      ensures Snapshot() == var s := old(Snapshot()).(outputPaused := value);
                            if !value && s.hasEditor then Queue(s, FlushRequest) else s
    {
      outputPaused := value;
      if !value && hasEditor {
        QueueRequest(FlushRequest);
      }
    }

    /** A mouse press, drag or wheel turn on the editor. */
    method UpdateStickToEndState(caret: nat, scrollAtBottom: bool)
      requires Valid() && caret <= |document|
      modifies this
      ensures Valid()
      ensures Snapshot() == old(Snapshot()).(cancelStickToEnd :=
                              UpdatedCancelStickToEnd(old(cancelStickToEnd), old(document), caret, scrollAtBottom))
    {
      if !scrollAtBottom && IsCaretAtTheLastLine(document, caret) {
        cancelStickToEnd := true;
      }
    }

    /** The document edits of one non-empty drained batch. */
    method EditDocument(startsWithCR: bool, backspacePrefix: int, refined: seq<char>)
      modifies this
      ensures Snapshot() == old(Snapshot()).(document := FlushedText(old(document), startsWithCR, backspacePrefix, refined))
    {
      if startsWithCR && LineCount(document) != 0 {
        var lineStartOffset := LastLineStart(document);
        document := document[..lineStartOffset];
      }
      if backspacePrefix > 0 && LineCount(document) != 0 {
        var from := Max(LastLineStart(document), |document| - backspacePrefix);
        document := document[..from];
      }
      document := document + refined;
    }

    /** A non-empty drained batch: the heavy filters are cancelled, then the
        document is edited. */
    method ApplyDrained(startsWithCR: bool, backspacePrefix: int, refined: seq<char>)
      requires Valid()
      modifies this
      ensures Valid()
      ensures Snapshot() == var s := AfterCancelHeavy(old(Snapshot()));
                            s.(document := FlushedText(s.document, startsWithCR, backspacePrefix, refined))
    {
      CancelHeavyAlarm();
      EditDocument(startsWithCR, backspacePrefix, refined);
    }

    method FlushDeferredText(drained: Drained, caret: nat, scrollAtBottom: bool) returns (scrolledToEnd: bool)
      requires Valid() && caret <= |document|
      modifies this
      ensures Valid()
      ensures Snapshot() == FlushDeferred(old(Snapshot()), drained, caret, scrollAtBottom).0
      ensures scrolledToEnd == FlushDeferred(old(Snapshot()), drained, caret, scrollAtBottom).1
    {
      scrolledToEnd := false;
      if disposed || !hasEditor { return; }
      var shouldStickToEnd := !cancelStickToEnd && IsStickingToEnd(document, caret, scrollAtBottom);
      cancelStickToEnd := false;
      if outputPaused { return; }
      deferredLength := 0;
      if drained.NoTokens? { return; }
      ApplyDrained(drained.startsWithCR, drained.backspacePrefix, drained.refined);
      if shouldStickToEnd {
        cancelStickToEnd := false;
        scrolledToEnd := true;
      }
    }

    /** FlushRunnable.clearRequested */
    method ClearRequested(r: Request)
      modifies this
      ensures Snapshot() == ClearRequestedFlag(old(Snapshot()), r)
    {
      if r.FlushRequest? {
        flushRequested := false;
      } else if r.ClearRequest? {
        clearRequested := false;
      }
    }

    /** FLUSH.doRun */
    method DoFlush(drained: Drained, caret: nat, scrollAtBottom: bool) returns (caretTarget: Option<int>)
      requires Valid() && caret <= |document|
      modifies this
      ensures Valid()
      ensures (Snapshot(), caretTarget) ==
              AfterDoRun(old(Snapshot()), FlushRequest, FlushDeferred(old(Snapshot()), drained, caret, scrollAtBottom), false)
    {
      var stuck := FlushDeferredText(drained, caret, scrollAtBottom);
      caretTarget := if stuck then Some(|document|) else None;
    }

    /** CLEAR.doRun (doClear) */
    method DoClear()
      requires Valid()
      modifies this
      ensures Valid()
      ensures (Snapshot(), None) == AfterDoRun(old(Snapshot()), ClearRequest, (old(Snapshot()), false), false)
    {
      if disposed || !hasEditor { return; }
      document := [];
      CancelHeavyAlarm();
    }

    /** The runnable scrollTo queues: flush, then move the caret. */
    method DoScroll(offset: int, drained: Drained, caret: nat, scrollAtBottom: bool, useCycleBuffer: bool)
      returns (caretTarget: Option<int>)
      requires Valid() && caret <= |document|
      modifies this
      ensures Valid()
      ensures var flushed := FlushDeferred(old(Snapshot()), drained, caret, scrollAtBottom);
              (Snapshot(), caretTarget) == ScrollAfterFlush(flushed.0, flushed.1, offset, useCycleBuffer)
    {
      var stuck := FlushDeferredText(drained, caret, scrollAtBottom);
      caretTarget := if stuck then Some(|document|) else None;
      if hasEditor {
        caretTarget := Some(EffectiveOffset(offset, |document|, useCycleBuffer));
      }
    }

    /** The runnable requestScrollingToEnd queues. */
    method DoScrollToEnd(drained: Drained, caret: nat, scrollAtBottom: bool) returns (caretTarget: Option<int>)
      requires Valid() && caret <= |document|
      modifies this
      ensures Valid()
      ensures var flushed := FlushDeferred(old(Snapshot()), drained, caret, scrollAtBottom);
              (Snapshot(), caretTarget) == ScrollToEndAfterFlush(flushed.0, flushed.1)
    {
      var stuck := FlushDeferredText(drained, caret, scrollAtBottom);
      caretTarget := if stuck then Some(|document|) else None;
      if hasEditor && !alarmDisposed {
        cancelStickToEnd := false;
        caretTarget := Some(|document|);
      }
    }

    /** A heavy-filter result: applied only while its ticket is current. */
    method DoHeavyPatch(ticket: int, patch: nat)
      requires Valid()
      modifies this
      ensures Valid()
      ensures (Snapshot(), None) == AfterDoRun(old(Snapshot()), HeavyPatch(ticket, patch), (old(Snapshot()), false), false)
    {
      if PatchApplies(ticket, heavyTicket) {
        appliedPatches := appliedPatches + [patch];
      }
    }

    /** doRun of each kind of runnable; `caretTarget` is where the caret is
        moved, if anywhere. */
    method DoRun(r: Request, drained: Drained, caret: nat, scrollAtBottom: bool,
                 useCycleBuffer: bool) returns (caretTarget: Option<int>)
      requires Valid() && caret <= |document|
      modifies this
      ensures Valid()
      ensures (Snapshot(), caretTarget) ==
              AfterDoRun(old(Snapshot()), r, FlushDeferred(old(Snapshot()), drained, caret, scrollAtBottom), useCycleBuffer)
    {
      match r {
        case FlushRequest =>
          caretTarget := DoFlush(drained, caret, scrollAtBottom);
        case ClearRequest =>
          DoClear();
          caretTarget := None;
        case ScrollRequest(offset) =>
          caretTarget := DoScroll(offset, drained, caret, scrollAtBottom, useCycleBuffer);
        case ScrollToEndRequest =>
          caretTarget := DoScrollToEnd(drained, caret, scrollAtBottom);
        case HeavyPatch(ticket, patch) =>
          DoHeavyPatch(ticket, patch);
          caretTarget := None;
      }
    }

    /** FlushRunnable.run, for a runnable the alarm has just taken off its
        queue: a coalesced one is then no longer pending but still flagged. */
    method Run(r: Request, startupPassed: bool, drained: Drained, caret: nat,
               scrollAtBottom: bool, useCycleBuffer: bool) returns (caretTarget: Option<int>)
      requires Valid() && caret <= |document|
      requires !AdHoc(r) ==> r !in pending && Requested(Snapshot(), r)
      modifies this
      ensures Valid()
      ensures (Snapshot(), caretTarget) ==
              AfterRun(old(Snapshot()), r, startupPassed, drained, caret, scrollAtBottom, useCycleBuffer)
    {
      if disposed || !hasEditor { return None; }
      if !startupPassed {
        QueueRequest(FlushRequest);
      }
      ClearRequested(r);
      caretTarget := DoRun(r, drained, caret, scrollAtBottom, useCycleBuffer);
    }

    /** The flush alarm runs its oldest pending request. */
    method RunNext(startupPassed: bool, drained: Drained, caret: nat, scrollAtBottom: bool,
                   useCycleBuffer: bool) returns (caretTarget: Option<int>)
      requires Valid() && caret <= |document|
      modifies this
      ensures Valid()
      ensures (Snapshot(), caretTarget) ==
              AfterRunNext(old(Snapshot()), startupPassed, drained, caret, scrollAtBottom, useCycleBuffer)
    {
      if pending == [] { return None; }
      var r := pending[0];
      assert pending == [r] + pending[1..];
      assert multiset(pending) == multiset{r} + multiset(pending[1..]);
      pending := pending[1..];
      caretTarget := Run(r, startupPassed, drained, caret, scrollAtBottom, useCycleBuffer);
    }

    method DeleteUserText(startOffset: int, length: int, startIsUserInput: bool) returns (caretTarget: Option<int>)
      requires Valid() && IsInt(startOffset) && IsInt(length)
      modifies this
      ensures Valid()
      ensures (Snapshot(), caretTarget) == AfterDeleteUserText(old(Snapshot()), startOffset, length, startIsUserInput)
    {
      if !startIsUserInput { return None; }
      var endOffset := Wrap(startOffset + length);
      if startOffset >= 0 && endOffset >= 0 && endOffset > startOffset {
        if endOffset > |document| { return None; }
        document := document[..startOffset] + document[endOffset..];
      }
      caretTarget := Some(startOffset);
    }

    method Dispose()
      requires Valid()
      modifies this
      ensures Valid()
      ensures Snapshot() == AfterDispose(old(Snapshot()))
    {
      alarmDisposed, heavyAlarmDisposed := true, true;
      if hasEditor {
        CancelAllFlushRequests();
        deferredLength := 0;
        hasEditor := false;
      }
    }
  }
}
