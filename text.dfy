/** The console's document as a sequence of characters, and the line structure
    the editor's document derives from it: an empty document has no lines,
    otherwise every '\n' ends a line and the text after the last '\n' (possibly
    empty) is the last line. */
module Text {

  /** Positions of the line breaks of `d`, in increasing order. */
  function Newlines(d: seq<char>): (r: seq<nat>)
    ensures forall i :: 0 <= i < |r| ==> r[i] < |d|
  {
    if |d| == 0 then []
    else
      var init := Newlines(d[..|d| - 1]);
      if d[|d| - 1] == '\n' then init + [|d| - 1] else init
  }

  /** Newlines lists exactly the positions of '\n', in increasing order. */
  lemma {:induction false} NewlinesSpec(d: seq<char>)
    ensures forall i :: 0 <= i < |Newlines(d)| ==> Newlines(d)[i] < |d| && d[Newlines(d)[i]] == '\n'
    ensures forall i, j :: 0 <= i < j < |Newlines(d)| ==> Newlines(d)[i] < Newlines(d)[j]
    ensures forall k :: 0 <= k < |d| && d[k] == '\n' ==> k in Newlines(d)
  {
    if |d| > 0 {
      NewlinesSpec(d[..|d| - 1]);
      assert forall k :: 0 <= k < |d| - 1 ==> d[..|d| - 1][k] == d[k];
    }
  }

  function LineCount(d: seq<char>): (n: nat)
    ensures n == 0 <==> |d| == 0
  {
    if |d| == 0 then 0 else |Newlines(d)| + 1
  }

  /** Offset where line `line` starts; lines past the end start at the end. */
  function LineStart(d: seq<char>, line: nat): (o: nat)
    ensures o <= |d|
  {
    var nl := Newlines(d);
    if line == 0 then 0 else if line - 1 < |nl| then nl[line - 1] + 1 else |d|
  }

  /** Offset where line `line` ends, before its line break. */
  function LineEnd(d: seq<char>, line: nat): (o: nat)
    ensures LineStart(d, line) <= o <= |d|
  {
    var nl := Newlines(d);
    NewlinesSpec(d);
    if line < |nl| then nl[line] else |d|
  }

  /** Text of a line without its line break. */
  function LineText(d: seq<char>, line: nat): (t: seq<char>)
    ensures forall k :: 0 <= k < |t| ==> t[k] != '\n'
  {
    var s, e := LineStart(d, line), LineEnd(d, line);
    NoNewlineInsideLine(d, line);
    d[s..e]
  }

  /** Line that holds offset `off`: the number of line breaks before it. */
  function LineNumber(d: seq<char>, off: nat): nat
    requires off <= |d|
  {
    |Newlines(d[..off])|
  }

  /** Start of the last line, the offset right after the last line break. */
  function LastLineStart(d: seq<char>): (o: nat)
    ensures o <= |d|
  {
    var nl := Newlines(d);
    if |nl| == 0 then 0 else nl[|nl| - 1] + 1
  }

  lemma NoNewlineInsideLine(d: seq<char>, line: nat)
    ensures forall k :: LineStart(d, line) <= k < LineEnd(d, line) ==> d[k] != '\n'
  {
    var nl := Newlines(d);
    NewlinesSpec(d);
    forall k | 0 <= k < |d| && d[k] == '\n' ensures k < LineStart(d, line) || LineEnd(d, line) <= k {
      assert k in nl;
      var i :| 0 <= i < |nl| && nl[i] == k;
      if i < line {
        if i < line - 1 && line - 1 < |nl| { assert nl[i] < nl[line - 1]; }
      } else {
        if line < i { assert nl[line] < nl[i]; }
      }
    }
  }

  /** The last line is exactly the text after the last line break: it holds no
      line break, and what precedes it is empty or ends with one. */
  lemma {:induction false} LastLineStartSpec(d: seq<char>)
    ensures LastLineStart(d) <= |d|
    ensures forall k :: LastLineStart(d) <= k < |d| ==> d[k] != '\n'
    ensures LastLineStart(d) == 0 || d[LastLineStart(d) - 1] == '\n'
    ensures LineCount(d) > 0 ==> LastLineStart(d) == LineStart(d, LineCount(d) - 1)
  {
    var nl := Newlines(d);
    NewlinesSpec(d);
    forall k | 0 <= k < |d| && d[k] == '\n' ensures k < LastLineStart(d) {
      assert k in nl;
      var i :| 0 <= i < |nl| && nl[i] == k;
      if i < |nl| - 1 { assert nl[i] < nl[|nl| - 1]; }
    }
  }

  /** The line breaks of a prefix are a prefix of the line breaks. */
  lemma {:induction false} NewlinesOfPrefix(d: seq<char>, c: nat)
    requires c <= |d|
    ensures |Newlines(d[..c])| <= |Newlines(d)|
    ensures Newlines(d[..c]) == Newlines(d)[..|Newlines(d[..c])|]
    ensures forall i :: |Newlines(d[..c])| <= i < |Newlines(d)| ==> Newlines(d)[i] >= c
    decreases |d| - c
  {
    if c == |d| {
      assert d[..c] == d;
    } else {
      var d' := d[..|d| - 1];
      NewlinesOfPrefix(d', c);
      assert d'[..c] == d[..c];
    }
  }

  /** The caret is on the last line exactly when no line break follows it. */
  lemma LastLineIffNoNewlineAfter(d: seq<char>, c: nat)
    requires c <= |d|
    ensures LineNumber(d, c) >= LineCount(d) - 1 <==> (forall k :: c <= k < |d| ==> d[k] != '\n')
  {
    NewlinesOfPrefix(d, c);
    var nl, j := Newlines(d), |Newlines(d[..c])|;
    NewlinesSpec(d);
    NewlinesSpec(d[..c]);
    if |d| > 0 {
      if j >= |nl| {
        forall k | 0 <= k < |d| && d[k] == '\n' ensures k < c {
          assert k in nl;
          var i :| 0 <= i < |nl| && nl[i] == k;
          assert nl[i] in Newlines(d[..c]);
        }
      } else {
        assert d[nl[j]] == '\n' && nl[j] >= c;
      }
    }
  }
}
