/** The Python hover help of the editor extension
    (`source/pythonHoverProvider.js`): diagnostics under the cursor take
    precedence and are listed (at most three) with Markdown-escaped
    messages; otherwise the word under the cursor gets its documentation
    entry or a generic symbol line. The diagnostics list and the word lookup
    are parameters; the Markdown text is built as a string. */
module Hover {
  import opened Optional

  /** Characters `escapeMd` puts a backslash before. */
  predicate IsMdSpecial(c: char) {
    c == '\\' || c == '`' || c == '*' || c == '_' || c == '{' || c == '}' || c == '[' || c == ']' ||
    c == '(' || c == ')' || c == '#' || c == '+' || c == '-' || c == '.' || c == '!'
  }

  /** `escapeMd`: a backslash before every special character. */
  function EscapeMd(s: string): (r: string)
    ensures r != [] ==> r[0] == '\\' || !IsMdSpecial(r[0])
  {
    if s == [] then []
    else (if IsMdSpecial(s[0]) then ['\\', s[0]] else [s[0]]) + EscapeMd(s[1..])
  }

  function CountSpecial(s: string): nat {
    if s == [] then 0 else (if IsMdSpecial(s[0]) then 1 else 0) + CountSpecial(s[1..])
  }

  /** Removing one backslash before each character it escapes. */
  function Unescape(t: string): string
    decreases |t|
  {
    if t == [] then []
    else if t[0] == '\\' && |t| >= 2 then [t[1]] + Unescape(t[2..])
    else [t[0]] + Unescape(t[1..])
  }

  /** Each special character costs exactly one inserted backslash. */
  lemma {:induction false} EscapeMdLength(s: string)
    ensures |EscapeMd(s)| == |s| + CountSpecial(s)
  {
    if s != [] {
      EscapeMdLength(s[1..]);
    }
  }

  /** Deleting the inserted backslashes restores the message exactly. */
  lemma {:induction false} EscapeMdRoundTrip(s: string)
    ensures Unescape(EscapeMd(s)) == s
  {
    if s != [] {
      EscapeMdRoundTrip(s[1..]);
      var rest := EscapeMd(s[1..]);
      if IsMdSpecial(s[0]) {
        assert (['\\', s[0]] + rest)[2..] == rest;
      } else {
        assert ([s[0]] + rest)[1..] == rest;
      }
      assert s == [s[0]] + s[1..];
    }
  }

  /** After escaping no special character is left bare: every special
      character of the output other than an inserted backslash follows one. */
  predicate NoBareSpecial(r: string) {
    forall i :: 0 <= i < |r| && IsMdSpecial(r[i]) && r[i] != '\\' ==> i > 0 && r[i - 1] == '\\'
  }

  lemma {:induction false} EscapeMdNoBareSpecial(s: string)
    ensures NoBareSpecial(EscapeMd(s))
  {
    if s != [] {
      EscapeMdNoBareSpecial(s[1..]);
      var head := if IsMdSpecial(s[0]) then ['\\', s[0]] else [s[0]];
      var rest := EscapeMd(s[1..]);
      var r := head + rest;
      assert EscapeMd(s) == r;
      forall i | 0 <= i < |r| && IsMdSpecial(r[i]) && r[i] != '\\' ensures i > 0 && r[i - 1] == '\\' {
        if i > |head| {
          assert r[i] == rest[i - |head|];
          assert r[i - 1] == rest[i - |head| - 1];
        }
      }
      assert NoBareSpecial(r);
    }
  }

  /** `escapeInlineCode`: a backslash before every backtick. */
  function EscapeInlineCode(s: string): (r: string)
    ensures s != [] && s[0] != '`' ==> r != [] && r[0] == s[0]
    ensures s != [] && s[0] == '`' ==> r != [] && r[0] == '\\'
  {
    if s == [] then []
    else (if s[0] == '`' then ['\\', '`'] else [s[0]]) + EscapeInlineCode(s[1..])
  }

  /** Turning each backslash-backtick pair back into a backtick. */
  function UnescapeTicks(t: string): string
    decreases |t|
  {
    if t == [] then []
    else if |t| >= 2 && t[0] == '\\' && t[1] == '`' then "`" + UnescapeTicks(t[2..])
    else [t[0]] + UnescapeTicks(t[1..])
  }

  /** Replacing each escaped backtick by a bare one gives back the word:
      nothing but the backticks is changed. */
  lemma {:induction false} EscapeInlineCodeRoundTrip(s: string)
    ensures UnescapeTicks(EscapeInlineCode(s)) == s
  {
    if s != [] {
      EscapeInlineCodeRoundTrip(s[1..]);
      var rest := EscapeInlineCode(s[1..]);
      if s[0] == '`' {
        assert (['\\', '`'] + rest)[2..] == rest;
      } else {
        var t := [s[0]] + rest;
        assert t[1..] == rest;
        assert !(|t| >= 2 && t[0] == '\\' && t[1] == '`');
      }
      assert s == [s[0]] + s[1..];
    }
  }

  function CountTicks(s: string): nat {
    if s == [] then 0 else (if s[0] == '`' then 1 else 0) + CountTicks(s[1..])
  }

  /** Each backtick costs exactly one inserted backslash. */
  lemma {:induction false} EscapeInlineCodeLength(s: string)
    ensures |EscapeInlineCode(s)| == |s| + CountTicks(s)
  {
    if s != [] {
      EscapeInlineCodeLength(s[1..]);
    }
  }

  /** No backtick of the output is bare: each one follows a backslash. */
  predicate NoBareTick(r: string) {
    forall i :: 0 <= i < |r| && r[i] == '`' ==> i > 0 && r[i - 1] == '\\'
  }

  lemma {:induction false} EscapeInlineCodeNoBareTick(s: string)
    ensures NoBareTick(EscapeInlineCode(s))
  {
    if s != [] {
      EscapeInlineCodeNoBareTick(s[1..]);
      var head := if s[0] == '`' then ['\\', '`'] else [s[0]];
      var rest := EscapeInlineCode(s[1..]);
      var r := head + rest;
      assert EscapeInlineCode(s) == r;
      forall i | 0 <= i < |r| && r[i] == '`' ensures i > 0 && r[i - 1] == '\\' {
        if i > |head| {
          assert r[i] == rest[i - |head|];
          assert r[i - 1] == rest[i - |head| - 1];
        }
      }
      assert NoBareTick(r);
    }
  }

  /** `vscode.DiagnosticSeverity`: Error 0, Warning 1, Information 2, Hint 3. */
  function SeverityLabel(severity: int): (r: string)
    ensures severity == 0 <==> r == "Error"
    ensures severity == 1 <==> r == "Warning"
    ensures severity == 2 <==> r == "Info"
    ensures severity != 0 && severity != 1 && severity != 2 <==> r == "Hint"
  {
    if severity == 0 then "Error"
    else if severity == 1 then "Warning"
    else if severity == 2 then "Info"
    else "Hint"
  }

  // ---- Positions and diagnostics ----

  datatype Position = Position(line: int, character: int)
  datatype Range = Range(start: Position, end: Position)
  datatype Diagnostic = Diagnostic(range: Range, severity: int, message: string)

  predicate Before(a: Position, b: Position) {
    a.line < b.line || (a.line == b.line && a.character <= b.character)
  }

  /** `Range.contains(position)`: both ends included. */
  predicate Contains(r: Range, p: Position) {
    Before(r.start, p) && Before(p, r.end)
  }

  /** `diagnostics.filter(d => d.range.contains(position))`. */
  function Covering(ds: seq<Diagnostic>, p: Position): (r: seq<Diagnostic>)
    ensures |r| <= |ds|
    ensures forall d :: d in r <==> d in ds && Contains(d.range, p)
  {
    if ds == [] then []
    else
      var rest := Covering(ds[1..], p);
      assert forall d :: d in ds <==> d == ds[0] || d in ds[1..];
      if Contains(ds[0].range, p) then [ds[0]] + rest else rest
  }

  /** The Markdown of one listed diagnostic. */
  function IssueLine(d: Diagnostic): string {
    "**" + SeverityLabel(d.severity) + ":** " + EscapeMd(d.message) + "\n\n"
  }

  function IssueLines(ds: seq<Diagnostic>): string {
    if ds == [] then [] else IssueLine(ds[0]) + IssueLines(ds[1..])
  }

  /** The listing of the diagnostics at the cursor: a heading and at most
      the first three. */
  function IssueList(atPos: seq<Diagnostic>): string {
    "Issue detected\n\n" + IssueLines(if |atPos| > 3 then atPos[..3] else atPos)
  }

  /** Diagnostics after the third are never shown. */
  lemma OnlyFirstThreeListed(atPos: seq<Diagnostic>, more: seq<Diagnostic>)
    requires |atPos| >= 3
    ensures IssueList(atPos + more) == IssueList(atPos[..3])
  {
    assert (atPos + more)[..3] == atPos[..3];
    assert atPos[..3][..3] == atPos[..3];
    if |atPos + more| == 3 {
      assert atPos + more == atPos[..3];
    }
  }

  // ---- Word help ----

  const HelpLine := "Hover help is active for Python.\n"

  /** The documentation entries. */
  const PythonDocs: map<string, string> := map[
    "print" := "Displays the specified message to the screen or other standard output device.",
    "input" := "Allows the user to enter data. Returns the input as a string.",
    "len" := "Returns the number of items (length) in an object like a string, list, or dictionary.",
    "open" := "Opens a file and returns a corresponding file object.",
    "int" := "Converts a value into an integer number.",
    "str" := "Converts a value into a string.",
    "if" := "A conditional statement that runs a block of code if the condition is true.",
    "while" := "A loop that continues as long as a specified condition is true."
  ]

  /** The Markdown for the word under the cursor. */
  function WordHelp(word: string): string {
    if word in PythonDocs then "### Python: `" + word + "`\n---\n" + PythonDocs[word] + "\n\n" + HelpLine
    else "**Symbol:** `" + EscapeInlineCode(word) + "`\n\n" + HelpLine
  }

  /** A known word shows its entry, an unknown one an escaped symbol line;
      both end with the help line. */
  lemma WordHelpShape(word: string)
    ensures var m := WordHelp(word);
            && |m| >= |HelpLine| && m[|m| - |HelpLine|..] == HelpLine
            && (word in PythonDocs ==> m[..|m| - |HelpLine|] == "### Python: `" + word + "`\n---\n" + PythonDocs[word] + "\n\n")
            && (word !in PythonDocs ==> m[..|m| - |HelpLine|] == "**Symbol:** `" + EscapeInlineCode(word) + "`\n\n")
  {
  }

  // ---- provideHover ----

  datatype HoverResult = NoHover | HoverAt(markdown: string, range: Range, trusted: bool)

  /** What `provideHover` returns, given the file's diagnostics and the
      word range at the position (`None` when there is no word). */
  function HoverFor(ds: seq<Diagnostic>, p: Position, word: Option<(Range, string)>): HoverResult {
    var atPos := Covering(ds, p);
    if atPos != [] then HoverAt(IssueList(atPos), atPos[0].range, false)
    else if word.None? then NoHover
    else HoverAt(WordHelp(word.value.1), word.value.0, true)
  }

  /** A diagnostic at the position hides the word help entirely: the result
      does not depend on the word, and is anchored at the first covering
      diagnostic. */
  lemma DiagnosticsTakePrecedence(ds: seq<Diagnostic>, p: Position, w1: Option<(Range, string)>, w2: Option<(Range, string)>)
    requires exists d :: d in ds && Contains(d.range, p)
    ensures HoverFor(ds, p, w1) == HoverFor(ds, p, w2)
    ensures HoverFor(ds, p, w1).HoverAt? && Contains(HoverFor(ds, p, w1).range, p)
  {
    var d :| d in ds && Contains(d.range, p);
    assert d in Covering(ds, p);
    var atPos := Covering(ds, p);
    assert atPos[0] in atPos;
  }

  /** `provideHover`: filter the diagnostics, list up to three, or fall back
      to the word. */
  method ProvideHover(ds: seq<Diagnostic>, p: Position, word: Option<(Range, string)>) returns (h: HoverResult)
    ensures h == HoverFor(ds, p, word)
  {
    var atPos := FilterCovering(ds, p);
    if |atPos| > 0 {
      var md := ListIssues(if |atPos| > 3 then atPos[..3] else atPos);
      return HoverAt(md, atPos[0].range, false);
    }
    if word.None? {
      return NoHover;
    }
    var (range, w) := word.value;
    var md;
    if w in PythonDocs {
      md := "### Python: `" + w + "`\n---\n";
      md := md + PythonDocs[w] + "\n\n";
    } else {
      md := "**Symbol:** `" + EscapeInlineCode(w) + "`\n\n";
    }
    md := md + HelpLine;
    h := HoverAt(md, range, true);
  }

  /** The `filter` of `provideHover`, element by element. */
  method FilterCovering(ds: seq<Diagnostic>, p: Position) returns (atPos: seq<Diagnostic>)
    ensures atPos == Covering(ds, p)
  {
    atPos := [];
    for i := 0 to |ds|
      invariant atPos == Covering(ds[..i], p)
    {
      CoveringAppend(ds[..i], ds[i], p);
      assert ds[..i + 1] == ds[..i] + [ds[i]];
      if Contains(ds[i].range, p) {
        atPos := atPos + [ds[i]];
      }
    }
    assert ds[..|ds|] == ds;
  }

  /** The heading and one appended line per shown diagnostic. */
  method ListIssues(shown: seq<Diagnostic>) returns (md: string)
    ensures md == "Issue detected\n\n" + IssueLines(shown)
  {
    var lines := "";
    for k := 0 to |shown|
      invariant lines == IssueLines(shown[..k])
    {
      IssueLinesAppend(shown[..k], shown[k]);
      assert shown[..k + 1] == shown[..k] + [shown[k]];
      lines := lines + IssueLine(shown[k]);
    }
    assert shown[..|shown|] == shown;
    md := "Issue detected\n\n" + lines;
  }

  lemma {:induction false} CoveringAppend(ds: seq<Diagnostic>, d: Diagnostic, p: Position)
    ensures Covering(ds + [d], p) == Covering(ds, p) + (if Contains(d.range, p) then [d] else [])
    decreases |ds|
  {
    if ds == [] {
      assert ds + [d] == [d];
    } else {
      assert (ds + [d])[1..] == ds[1..] + [d];
      CoveringAppend(ds[1..], d, p);
    }
  }

  lemma {:induction false} IssueLinesAppend(ds: seq<Diagnostic>, d: Diagnostic)
    ensures IssueLines(ds + [d]) == IssueLines(ds) + IssueLine(d)
    decreases |ds|
  {
    if ds == [] {
      assert ds + [d] == [d];
    } else {
      assert (ds + [d])[1..] == ds[1..] + [d];
      IssueLinesAppend(ds[1..], d);
    }
  }
}
