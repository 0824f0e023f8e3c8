/** The document edits one flush of deferred output makes, and the small rules
    the console applies around them: where a scroll request moves the caret,
    when the view sticks to the end, which range a user deletion removes, and
    the 32-bit ticket that outdates heavy-filter patches. */
module Flush {
  import opened Text

  // ---------------------------------------------------------------------------
  // Flush document mutation

  /** A carriage return at the start of a drained batch removes the document's
      last line (when it has lines): what is left is the text before that
      line, which is empty or ends with a line break. */
  function DeleteLastLine(d: seq<char>): (r: seq<char>)
    ensures r <= d
    ensures |r| == 0 || r[|r| - 1] == '\n'
    ensures forall k :: |r| <= k < |d| ==> d[k] != '\n'
  {
    LastLineStartSpec(d);
    if LineCount(d) != 0 then d[..LastLineStart(d)] else d
  }

  function Max(a: int, b: int): int { if a < b then b else a }

  /** Deleting a backspace prefix of `n` characters from the document tail:
      at most `n` characters go, and never more than the last line holds. */
  function DeleteBackspacePrefix(d: seq<char>, n: int): (r: seq<char>)
    ensures r <= d
    ensures |d| - |r| == if n > 0 then (if n < |d| - LastLineStart(d) then n else |d| - LastLineStart(d)) else 0
    ensures forall k :: |r| <= k < |d| ==> d[k] != '\n'
  {
    LastLineStartSpec(d);
    if n > 0 && LineCount(d) != 0 then d[..Max(LastLineStart(d), |d| - n)] else d
  }

  /** The document after a non-empty drained batch: the carriage-return
      deletion, then the backspace-prefix deletion, then the refined text
      appended at the end. */
  function FlushedText(d: seq<char>, startsWithCR: bool, backspacePrefix: int, refined: seq<char>): seq<char>
  {
    var afterCR := if startsWithCR then DeleteLastLine(d) else d;
    DeleteBackspacePrefix(afterCR, backspacePrefix) + refined
  }

  /** With a leading carriage return, the old last line is replaced: the text
      before it is kept as is and the refined text follows it directly. (A
      backspace prefix in the same batch then has nothing left to delete on
      the now empty last line.) */
  lemma CarriageReturnReplacesLastLine(d: seq<char>, backspacePrefix: int, refined: seq<char>)
    ensures FlushedText(d, true, backspacePrefix, refined) == d[..LastLineStart(d)] + refined
  {
    LastLineStartSpec(d);
    var p := DeleteLastLine(d);
    assert p == d[..LastLineStart(d)];
    EndsWithNewline(p);
  }

  lemma EndsWithNewline(p: seq<char>)
    requires |p| == 0 || p[|p| - 1] == '\n'
    ensures DeleteBackspacePrefix(p, 0) == p
    ensures forall n :: DeleteBackspacePrefix(p, n) == p
  {
    if |p| > 0 {
      assert p == p[..|p| - 1] + [p[|p| - 1]];
      assert LastLineStart(p) == |p|;
    }
  }

  /** Without a carriage return the backspace prefix removes exactly the
      characters from max(last line start, length - n) to the end, so the
      text before the last line survives, and the refined text is appended. */
  lemma BackspacePrefixStaysOnLastLine(d: seq<char>, n: int, refined: seq<char>)
    requires n > 0
    ensures var r := FlushedText(d, false, n, refined);
            var cut := Max(LastLineStart(d), |d| - n);
            r == d[..cut] + refined && d[..LastLineStart(d)] <= r
  {
    LastLineStartSpec(d);
    var cut := Max(LastLineStart(d), |d| - n);
    assert DeleteBackspacePrefix(d, n) == d[..cut];
    assert d[..LastLineStart(d)] == d[..cut][..LastLineStart(d)];
  }

  /** Whatever the batch, the refined text ends the document and everything
      before the old last line is still in place. */
  lemma FlushKeepsEarlierLines(d: seq<char>, startsWithCR: bool, n: int, refined: seq<char>)
    ensures var r := FlushedText(d, startsWithCR, n, refined);
            |r| >= |refined| && r[|r| - |refined|..] == refined && d[..LastLineStart(d)] <= r
  {
    LastLineStartSpec(d);
    var r := FlushedText(d, startsWithCR, n, refined);
    if startsWithCR {
      CarriageReturnReplacesLastLine(d, n, refined);
    } else if n > 0 {
      BackspacePrefixStaysOnLastLine(d, n, refined);
    }
    var p := r[..|r| - |refined|];
    assert r == p + refined;
  }

  // ---------------------------------------------------------------------------
  // Stick-to-end predicates

  predicate IsCaretAtTheLastLine(d: seq<char>, caret: nat)
    requires caret <= |d|
  {
    LineNumber(d, caret) >= LineCount(d) - 1
  }

  /** The view follows new output when the caret is on the last line or the
      vertical scroll bar is at its bottom (the latter is an input). */
  predicate IsStickingToEnd(d: seq<char>, caret: nat, scrollAtBottom: bool)
    requires caret <= |d|
  {
    IsCaretAtTheLastLine(d, caret) || scrollAtBottom
  }

  /** The decision a flush takes before it mutates the document. */
  predicate ShouldStickToEnd(cancelStickToEnd: bool, d: seq<char>, caret: nat, scrollAtBottom: bool)
    requires caret <= |d|
  {
    !cancelStickToEnd && IsStickingToEnd(d, caret, scrollAtBottom)
  }

  /** Sticking to end means: not cancelled, and either no line break follows
      the caret or the scroll bar is at the bottom. */
  lemma StickToEndMeaning(cancel: bool, d: seq<char>, caret: nat, scrollAtBottom: bool)
    requires caret <= |d|
    ensures ShouldStickToEnd(cancel, d, caret, scrollAtBottom) <==>
            !cancel && (scrollAtBottom || forall k :: caret <= k < |d| ==> d[k] != '\n')
  {
    LastLineIffNoNewlineAfter(d, caret);
  }

  /** A mouse gesture cancels the next stick-to-end exactly when the caret is
      on the last line but the scroll bar is not at the bottom. */
  function UpdatedCancelStickToEnd(cancel: bool, d: seq<char>, caret: nat, scrollAtBottom: bool): (r: bool)
    requires caret <= |d|
    ensures r <==> cancel || (!scrollAtBottom && forall k :: caret <= k < |d| ==> d[k] != '\n')
  {
    LastLineIffNoNewlineAfter(d, caret);
    if !scrollAtBottom && IsCaretAtTheLastLine(d, caret) then true else cancel
  }

  // ---------------------------------------------------------------------------
  // scrollTo's effective offset

  /** The caret offset a scroll request moves to: clamped to the text length
      and, with a cyclic buffer, the end is replaced by the start. */
  function EffectiveOffset(offset: int, textLength: nat, useCycleBuffer: bool): (r: int)
    ensures r <= textLength
    ensures offset < textLength ==> r == offset
    ensures offset >= textLength ==> r == (if useCycleBuffer then 0 else textLength)
    ensures useCycleBuffer && textLength > 0 ==> r < textLength
  {
    var moveOffset := if offset < textLength then offset else textLength;
    if useCycleBuffer && moveOffset >= textLength then 0 else moveOffset
  }

  // ---------------------------------------------------------------------------
  // Java int arithmetic

  const INT_MIN: int := -0x8000_0000
  const INT_MAX: int := 0x7FFF_FFFF

  predicate IsInt(x: int) { INT_MIN <= x <= INT_MAX }

  /** Two's-complement wrap-around of a Java int. */
  function Wrap(x: int): (r: int)
    ensures IsInt(r)
    ensures IsInt(x) ==> r == x
    ensures x == INT_MAX + 1 ==> r == INT_MIN
  {
    (x - INT_MIN) % 0x1_0000_0000 + INT_MIN
  }

  // ---------------------------------------------------------------------------
  // deleteUserText guard

  datatype UserDeletion =
    | NotUserInput                     // the token at the start offset is not user input: nothing happens
    | MoveOnly                         // caret moves to the start offset, nothing is deleted
    | Delete(start: nat, end: nat)     // the range [start, end) is deleted, then the caret moves to start

  /** What deleteUserText does for a deletion of `length` characters at
      `startOffset`, where `startIsUserInput` says whether the token found at
      the start offset is user input. The end offset is computed in Java int
      arithmetic, so an overflowing sum is refused by the guard. */
  function UserTextDeletion(startOffset: int, length: int, startIsUserInput: bool): (r: UserDeletion)
    requires IsInt(startOffset) && IsInt(length)
    ensures r == NotUserInput <==> !startIsUserInput
    ensures r.Delete? <==> startIsUserInput && startOffset >= 0 && length > 0 && startOffset + length <= INT_MAX
    ensures r.Delete? ==> r.start == startOffset && r.end == startOffset + length
  {
    if !startIsUserInput then NotUserInput
    else
      var endOffset := Wrap(startOffset + length);
      if startOffset >= 0 && endOffset >= 0 && endOffset > startOffset then Delete(startOffset, endOffset)
      else MoveOnly
  }

  // ---------------------------------------------------------------------------
  // Heavy-filter ticket

  /** A heavy-filter patch captured ticket `captured`; it applies only when the
      current ticket still equals it. */
  predicate PatchApplies(captured: int, current: int) { captured == current }

  /** The ticket after `k` cancellations (`++myHeavyUpdateTicket`, in Java
      int arithmetic). */
  function Cancelled(ticket: int, k: nat): int
  {
    if k == 0 then ticket else Wrap(Cancelled(ticket, k - 1) + 1)
  }

  lemma WrapSucc(x: int)
    ensures Wrap(Wrap(x) + 1) == Wrap(x + 1)
  {
    var a := x - INT_MIN;
    assert a == 0x1_0000_0000 * (a / 0x1_0000_0000) + a % 0x1_0000_0000;
    assert (a % 0x1_0000_0000 + 1) % 0x1_0000_0000 == (a + 1) % 0x1_0000_0000;
  }

  lemma ModAddMultiple(b: int, q: int)
    ensures (b + 0x1_0000_0000 * q) % 0x1_0000_0000 == b % 0x1_0000_0000
  {
    var x := b + 0x1_0000_0000 * q;
    var d := b / 0x1_0000_0000 + q - x / 0x1_0000_0000;
    assert x % 0x1_0000_0000 - b % 0x1_0000_0000 == 0x1_0000_0000 * d;
  }

  /** k increments of a Java int are one addition of k, wrapped. */
  lemma {:induction false} CancelledIsWrappedSum(ticket: int, k: nat)
    requires IsInt(ticket)
    ensures Cancelled(ticket, k) == Wrap(ticket + k)
  {
    if k > 0 {
      CancelledIsWrappedSum(ticket, k - 1);
      WrapSucc(ticket + k - 1);
    }
  }

  /** Adding less than a full turn to a value already in range returns to it
      only when nothing is added. */
  lemma ModOfSmallSum(a: int, r: int)
    requires 0 <= a < 0x1_0000_0000 && 0 <= r < 0x1_0000_0000
    ensures (a + r) % 0x1_0000_0000 == a <==> r == 0
  {
    if a + r < 0x1_0000_0000 {
      assert (a + r) % 0x1_0000_0000 == a + r;
    } else {
      assert a + r == 0x1_0000_0000 * 1 + (a + r - 0x1_0000_0000);
      assert (a + r) % 0x1_0000_0000 == a + r - 0x1_0000_0000;
    }
  }

  /** A patch captured before `k` cancellations is outdated by them, unless
      the ticket went all the way round the 32-bit range. */
  lemma PatchOutdatedByCancellations(ticket: int, k: nat)
    requires IsInt(ticket)
    ensures PatchApplies(ticket, Cancelled(ticket, k)) <==> k % 0x1_0000_0000 == 0
  {
    CancelledIsWrappedSum(ticket, k);
    var a, q, r := ticket - INT_MIN, k / 0x1_0000_0000, k % 0x1_0000_0000;
    assert k == 0x1_0000_0000 * q + r;
    assert Wrap(ticket + k) == (a + k) % 0x1_0000_0000 + INT_MIN;
    ModAddMultiple(a + r, q);
    assert (a + k) % 0x1_0000_0000 == (a + r) % 0x1_0000_0000;
    ModOfSmallSum(a, r);
  }
}
