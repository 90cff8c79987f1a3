/** The first lesson page (`source/steps.js`): the lesson's HTML is read
    from disk (here a parameter) and the first `NNpx` length in it, found by
    the non-global regular expression `(\d+)px`, is replaced by the
    configured font size. */
module Steps {
  import opened Optional
  import opened Text
  import TextSetting

  /** The end of the run of digits that starts at `i`. */
  function RunEnd(s: string, i: nat): (j: nat)
    requires i <= |s|
    ensures i <= j <= |s| && AllDigits(s[i..j])
    ensures j == |s| || !IsDigit(s[j])
    decreases |s| - i
  {
    if i < |s| && IsDigit(s[i]) then
      var j := RunEnd(s, i + 1);
      assert s[i..j] == [s[i]] + s[i + 1..j];
      j
    else i
  }

  /** `(\d+)px` can match at `i`: one or more digits, then `px`. This is the
      regular expression's own meaning, with any split of the digits. */
  predicate RegexMatchesAt(s: string, i: nat) {
    exists j :: i < j && j + 2 <= |s| && AllDigits(s[i..j]) && s[j..j + 2] == "px"
  }

  /** The greedy form the regular expression settles on: the whole run of
      digits from `i`, then `px`. */
  predicate MatchAt(s: string, i: nat) {
    i < |s| && IsDigit(s[i]) && RunEnd(s, i) + 2 <= |s| && s[RunEnd(s, i)..RunEnd(s, i) + 2] == "px"
  }

  /** The only split of the digits that can be followed by `px` is the
      whole run, so the backtracking and the greedy readings agree. */
  lemma MatchIsGreedy(s: string, i: nat)
    requires i <= |s|
    ensures RegexMatchesAt(s, i) <==> MatchAt(s, i)
  {
    if RegexMatchesAt(s, i) {
      var j :| i < j && j + 2 <= |s| && AllDigits(s[i..j]) && s[j..j + 2] == "px";
      assert s[j] == 'p';
      assert IsDigit(s[i..j][0]);
      WholeRun(s, i, j);
    }
    if MatchAt(s, i) {
      var j := RunEnd(s, i);
      assert i < j;
    }
  }

  lemma WholeRun(s: string, i: nat, j: nat)
    requires i <= j < |s| && AllDigits(s[i..j]) && !IsDigit(s[j])
    ensures RunEnd(s, i) == j
    decreases j - i
  {
    if i < j {
      assert IsDigit(s[i..j][0]);
      assert s[i + 1..j] == s[i..j][1..];
      WholeRun(s, i + 1, j);
    }
  }

  /** The leftmost match at or after `i`. */
  function FirstMatch(s: string, i: nat): (r: Option<nat>)
    requires i <= |s|
    ensures r.Some? ==> i <= r.value < |s| && MatchAt(s, r.value)
    ensures r.Some? ==> forall k :: i <= k < r.value ==> !MatchAt(s, k)
    ensures r.None? ==> forall k :: i <= k < |s| ==> !MatchAt(s, k)
    decreases |s| - i
  {
    if i == |s| then None
    else if MatchAt(s, i) then Some(i)
    else FirstMatch(s, i + 1)
  }

  /** `html.replace(/(\d+)px/, size + "px")`. */
  function ReplaceFirstPx(html: string, size: int): string {
    match FirstMatch(html, 0)
    case None => html
    case Some(i) => html[..i] + IntText(size) + "px" + html[RunEnd(html, i) + 2..]
  }

  /** The lesson page: the configured size (14 when unset or 0) put in place
      of the first length. */
  function LessonPage(html: string, setting: Option<int>): string {
    ReplaceFirstPx(html, TextSetting.ConfiguredFontSize(setting))
  }

  /** When the regular expression matches anywhere, the search finds the
      leftmost place it matches. */
  lemma FindsLeftmostMatch(html: string)
    requires exists i :: 0 <= i <= |html| && RegexMatchesAt(html, i)
    ensures var r := FirstMatch(html, 0);
            && r.Some? && RegexMatchesAt(html, r.value)
            && forall k :: 0 <= k < r.value ==> !RegexMatchesAt(html, k)
  {
    var w :| 0 <= w <= |html| && RegexMatchesAt(html, w);
    MatchIsGreedy(html, w);
    var i := FirstMatch(html, 0).value;
    MatchIsGreedy(html, i);
    forall k | 0 <= k < i ensures !RegexMatchesAt(html, k) {
      MatchIsGreedy(html, k);
    }
  }

  /** The replaced digits are a whole run: the character before them is not
      a digit. */
  lemma MatchStartsRun(html: string, i: nat)
    requires FirstMatch(html, 0) == Some(i)
    ensures i == 0 || !IsDigit(html[i - 1])
  {
    if i > 0 {
      assert !MatchAt(html, i - 1);
    }
  }

  /** Only the matched `digits px` is replaced: the text before it, and the
      text after it with any later `NNpx`, are kept as they are. */
  lemma ReplaceKeepsContext(html: string, size: int, i: nat)
    requires FirstMatch(html, 0) == Some(i)
    ensures var out := ReplaceFirstPx(html, size);
            var n := |IntText(size)|;
            var j := RunEnd(html, i);
            && i < j && AllDigits(html[i..j]) && html[j..j + 2] == "px"
            && |out| == |html| - (j - i) + n
            && out[..i] == html[..i]
            && out[i..i + n] == IntText(size)
            && out[i + n..i + n + 2] == "px"
            && out[i + n + 2..] == html[j + 2..]
  {
    var out := ReplaceFirstPx(html, size);
    var t := IntText(size);
    var j := RunEnd(html, i);
    assert out == html[..i] + t + "px" + html[j + 2..];
    assert out[i + |t| + 2..] == html[j + 2..];
  }

  /** An unset size and a size of 0 both give the page the default
      `14px` at the first match. */
  lemma LessonPageDefaultSize(html: string, i: nat)
    requires FirstMatch(html, 0) == Some(i)
    ensures LessonPage(html, None) == LessonPage(html, Some(0))
    ensures var out := LessonPage(html, None);
            |out| >= i + 4 && out[i..i + 4] == "14px"
  {
    ReplaceKeepsContext(html, 14, i);
    assert IntText(14) == "14";
  }

  /** Without a match the page is unchanged. */
  lemma NoMatchUnchanged(html: string, size: int)
    requires forall i :: 0 <= i <= |html| ==> !RegexMatchesAt(html, i)
    ensures ReplaceFirstPx(html, size) == html
  {
    if FirstMatch(html, 0).Some? {
      MatchIsGreedy(html, FirstMatch(html, 0).value);
    }
  }
}
