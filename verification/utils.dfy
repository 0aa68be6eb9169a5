/** `Utils.find_between`: the text after the first occurrence of one
    delimiter and before the NEXT occurrence of another. */
module Utils {
  import opened Common
  import opened StrSearch

  /** `first` occurs first at `i`, and `last` occurs first at `j` among the
      positions at or after the end of that occurrence of `first`. */
  ghost predicate BetweenAt(s: string, first: string, last: string, i: nat, j: nat)
  {
    FirstAt(s, first, 0, i) && FirstAt(s, last, i + |first|, j)
  }

  /** `find_between(s, first, last)`; a missing delimiter is the `ValueError`
      that the function turns into the empty string. */
  function FindBetween(s: string, first: string, last: string): (r: string)
    ensures |r| <= |s|
    ensures |s| < |first| + |last| ==> r == ""
  {
    var i := IndexOf(s, first, 0);
    if i.None? then ""
    else
      var j := IndexOf(s, last, i.value + |first|);
      if j.None? then "" else s[i.value + |first|..j.value]
  }

  /** The result is always a piece of `s`. */
  lemma FindBetweenIsSubstring(s: string, first: string, last: string)
    ensures Contains(s, FindBetween(s, first, last))
  {
    match IndexOf(s, first, 0)
    case None =>
      ContainsAt(s, "", 0);
    case Some(i) =>
      var start := i + |first|;
      match IndexOf(s, last, start)
      case None =>
        ContainsAt(s, "", 0);
      case Some(j) =>
        ContainsAt(s, s[start..j], start);
  }

  /** Both delimiters found: the result is the text between the end of the
      first `first` and the next `last` after it. */
  lemma FindBetweenFound(s: string, first: string, last: string, i: nat, j: nat)
    requires BetweenAt(s, first, last, i, j)
    ensures i + |first| <= j <= |s|
    ensures FindBetween(s, first, last) == s[i + |first|..j]
  {
    IndexOfIsFirst(s, first, 0, i);
    IndexOfIsFirst(s, last, i + |first|, j);
    FindBetweenOfIndices(s, first, last, i, j);
  }

  lemma FindBetweenOfIndices(s: string, first: string, last: string, i: nat, j: nat)
    requires IndexOf(s, first, 0) == Some(i)
    requires IndexOf(s, last, i + |first|) == Some(j)
    ensures i + |first| <= j <= |s|
    ensures FindBetween(s, first, last) == s[i + |first|..j]
  {
    assert OccursAt(s, last, j);
  }

  /** Unless such a pair of occurrences exists, the search hits the
      `ValueError` branch and the result is empty. */
  lemma FindBetweenMissing(s: string, first: string, last: string)
    ensures (exists i: nat, j: nat :: BetweenAt(s, first, last, i, j)) || FindBetween(s, first, last) == ""
  {
    match IndexOf(s, first, 0)
    case None =>
    case Some(i) =>
      match IndexOf(s, last, i + |first|)
      case None =>
      case Some(j) =>
        assert BetweenAt(s, first, last, i, j);
  }

  /** The delimiters of a found pair are where the pair says they are. */
  lemma BetweenAtPositions(s: string, first: string, last: string, i: nat, j: nat)
    requires BetweenAt(s, first, last, i, j)
    requires |first| == 1 && |last| == 1
    ensures i < j < |s| && s[i] == first[0] && s[j] == last[0]
  {
    assert OccursAt(s, first, i) && OccursAt(s, last, j);
    assert s[i..i + 1][0] == s[i];
    assert s[j..j + 1][0] == s[j];
  }

  /** With a one-character closing delimiter the result never contains that
      character: the search stops at its next occurrence. With the backtick as
      both delimiters this is the fallback table name of `parse_query`. */
  lemma FindBetweenExcludesClosing(s: string, first: string, last: string)
    requires |last| == 1
    ensures last[0] !in FindBetween(s, first, last)
  {
    match IndexOf(s, first, 0)
    case None =>
    case Some(i) =>
      var start := i + |first|;
      match IndexOf(s, last, start)
      case None =>
      case Some(j) =>
        forall m | start <= m < j
          ensures s[m] != last[0]
        {
          assert !OccursAt(s, last, m);
          assert s[m..m + 1] == [s[m]];
        }
  }

  /** The closing backtick is the one right after the opening one, not the
      last one in the text: two quoted names give the first name alone. */
  lemma FindBetweenStopsAtNextBacktick()
    ensures FindBetween("`a`.`b`", "`", "`") == "a"
  {
    var s := "`a`.`b`";
    assert OccursAt(s, "`", 0);
    assert FirstAt(s, "`", 0, 0);
    IndexOfIsFirst(s, "`", 0, 0);
    assert s[1..2] == "a";
    assert !OccursAt(s, "`", 1);
    assert OccursAt(s, "`", 2);
    assert FirstAt(s, "`", 1, 2);
    IndexOfIsFirst(s, "`", 1, 2);
  }
}
