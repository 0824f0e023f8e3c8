/** The placeholder the console shows for a folded command line: the program
    part of the line (a leading quoted path, or the first blank-separated
    word with the blanks before it) followed by " ...". */
module Placeholder {

  predicate IsBlank(c: char) { c == ' ' || c == '\t' }

  /** String.indexOf(c, from): the first position at or after `from` holding
      `c`, or -1. */
  function IndexOf(text: seq<char>, c: char, from: nat): (r: int)
    decreases |text| - from
    ensures r == -1 || (from <= r < |text| && text[r] == c)
    ensures r == -1 ==> forall k :: from <= k < |text| ==> text[k] != c
    ensures r != -1 ==> forall k :: from <= k < r ==> text[k] != c
  {
    if from >= |text| then -1
    else if text[from] == c then from
    else IndexOf(text, c, from + 1)
  }

  /** The first position at or after `from` whose blankness differs from
      `blank`, or the length. */
  function SkipWhile(text: seq<char>, from: nat, blank: bool): (r: nat)
    requires from <= |text|
    decreases |text| - from
    ensures from <= r <= |text|
    ensures forall k :: from <= k < r ==> IsBlank(text[k]) == blank
    ensures r < |text| ==> IsBlank(text[r]) != blank
  {
    if from == |text| || IsBlank(text[from]) != blank then from
    else SkipWhile(text, from + 1, blank)
  }

  /** Where the kept prefix ends: after the closing quote when the line
      starts with a quote that is closed, otherwise after the leading blanks
      and the first run of non-blank characters. */
  function PrefixLength(text: seq<char>): (r: nat)
    requires |text| > 0
    ensures r <= |text|
  {
    var quoted := if text[0] == '"' then IndexOf(text, '"', 1) + 1 else 0;
    if quoted != 0 then quoted
    else SkipWhile(text, SkipWhile(text, 0, true), false)
  }

  function PlaceholderText(text: seq<char>): seq<char>
    requires |text| > 0
  {
    text[..PrefixLength(text)] + " ..."
  }

  /** With a leading quote and a closing one, the prefix runs exactly through
      the first closing quote. */
  lemma QuotedPrefix(text: seq<char>)
    requires |text| > 0 && text[0] == '"'
    requires exists k :: 1 <= k < |text| && text[k] == '"'
    ensures var r := PrefixLength(text);
            2 <= r && text[r - 1] == '"' && forall k :: 1 <= k < r - 1 ==> text[k] != '"'
  {
    var k :| 1 <= k < |text| && text[k] == '"';
    assert IndexOf(text, '"', 1) != -1;
  }

  /** Otherwise the prefix is some blanks followed by non-blanks, and it ends
      at the end of the line or right before a blank that follows a
      non-blank character; an all-blank line is kept whole. */
  lemma BlankSeparatedPrefix(text: seq<char>)
    requires |text| > 0
    requires text[0] != '"' || forall k :: 1 <= k < |text| ==> text[k] != '"'
    ensures var r, m := PrefixLength(text), SkipWhile(text, 0, true);
            m <= r &&
            (forall k :: 0 <= k < m ==> IsBlank(text[k])) &&
            (forall k :: m <= k < r ==> !IsBlank(text[k])) &&
            (r == |text| || (m < r && IsBlank(text[r])))
  {
    var m := SkipWhile(text, 0, true);
    if text[0] == '"' {
      assert IndexOf(text, '"', 1) == -1;
    }
    assert PrefixLength(text) == SkipWhile(text, m, false);
  }

  /** CommandLineFolding.getPlaceholderText. The first line must hold at
      least one character: the source reads its first character. */
  method GetPlaceholderText(lines: seq<seq<char>>) returns (placeholder: seq<char>)
    requires |lines| > 0 && |lines[0]| > 0
    ensures placeholder == PlaceholderText(lines[0])
    ensures |placeholder| >= 4 && placeholder[|placeholder| - 4..] == " ..."
    ensures lines[0][..|placeholder| - 4] == placeholder[..|placeholder| - 4]
  {
    var text := lines[0];
    var index: int := 0;
    if text[0] == '"' {
      index := IndexOf(text, '"', 1) + 1;
    }
    if index == 0 {
      ghost var m := SkipWhile(text, 0, true);
      ghost var p := SkipWhile(text, m, false);
      var nonWhiteSpaceFound := false;
      while index < |text|
        invariant 0 <= index <= |text|
        invariant !nonWhiteSpaceFound ==> index <= m
        invariant nonWhiteSpaceFound ==> m < index <= p
        decreases |text| - index
      {
        var c := text[index];
        if c != ' ' && c != '\t' {
          nonWhiteSpaceFound := true;
          index := index + 1;
          continue;
        }
        if nonWhiteSpaceFound {
          break;
        }
        index := index + 1;
      }
    }
    assert index == PrefixLength(text);
    placeholder := text[..index] + " ...";
  }
}
