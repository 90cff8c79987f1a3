/** The font-size settings page of the editor extension
    (`source/TextSetting.js`): the page shows the configured size; a
    `fontSizeChange` message with a size strictly between 6 and 72 updates the
    editor's and the extension's font-size settings, in that order, then
    regenerates the page and reports success. The configuration store is
    modelled by two fields; whether each `config.update` throws is a
    parameter. */
module TextSetting {
  import opened Optional
  import opened Text

  /** The size used when the `aseje.fontSize` setting is falsy. */
  const DefaultFontSize := 14

  /** `config.get('aseje.fontSize') || 14`: a missing setting and 0 are
      falsy and give the default; any other size is kept. */
  function ConfiguredFontSize(setting: Option<int>): (r: int)
    ensures setting.Some? && setting.value != 0 ==> r == setting.value
    ensures setting.None? || setting.value == 0 ==> r == DefaultFontSize
    ensures r != 0
  {
    if setting.Some? && setting.value != 0 then setting.value else DefaultFontSize
  }

  /** `Number(message.value)`: not a number, or an integer size. */
  datatype SizeValue = NaN | Num(n: int)

  /** The range check of the `fontSizeChange` handler: bounds excluded. */
  predicate Acceptable(v: SizeValue) {
    !(v.NaN? || v.n <= 6 || v.n >= 72)
  }

  /** `Acceptable` is exactly the open interval (6, 72). */
  lemma AcceptableIffInside(v: SizeValue)
    ensures Acceptable(v) <==> v.Num? && 6 < v.n < 72
    ensures !Acceptable(Num(6)) && !Acceptable(Num(72)) && Acceptable(Num(7)) && Acceptable(Num(71))
  {
  }

  // ---- The page ----

  /** The template around the two places the size is written. */
  const PageTop := "\n<!DOCTYPE html>\n<html lang=\"en\">\n<head>\n    <meta charset=\"UTF-8\">\n" +
    "    <meta name=\"viewport\" content=\"width=device-width, initial-scale=1.0\">\n" +
    "    <title>text change</title>\n    <style>\n      body {\n        "
  const PageBetween := "\n        font-family: monospace;\n        padding: 20px;\n        }\n" +
    "    </style>\n</head>\n<body>\n    "
  const PageBottom := "\n    <input type=\"number\" id=\"sizeInput\" min=\"5\" max=\"50\"/>\n" +
    "    <button onclick=\"changeSize()\">Change Font Size</button>\n\n    <script>\n" +
    "      const vscode = acquireVsCodeApi();\n      function changeSize() {\n" +
    "        const value = document.getElementById('sizeInput').value;\n" +
    "        vscode.postMessage({ command: 'fontSizeChange', value: value });\n" +
    "      }\n    </script>   \n</body>\n</html>"

  const CssPrefix := "font-size: "

  /** The body CSS declaration of the size. */
  function CssLine(fontSize: int): string {
    CssPrefix + IntText(fontSize) + "px;"
  }

  /** The heading that shows the size. */
  function Heading(fontSize: int): string {
    "<h1>Font Size: " + IntText(fontSize) + "px</h1>"
  }

  /** `getWebviewContent(fontSize)`. */
  function WebviewContent(fontSize: int): string {
    PageTop + CssLine(fontSize) + PageBetween + Heading(fontSize) + PageBottom
  }

  /** The size as the page's body CSS states it: the number after
      `font-size: `, up to the `p` of `px`. */
  function SizeInPage(page: string): Option<int> {
    if |page| < |PageTop| + |CssPrefix| then None
    else
      var t := UpTo(page[|PageTop| + |CssPrefix|..], 'p');
      if (t != [] && t[0] == '-' ==> AllDigits(t[1..])) && (t == [] || t[0] != '-' ==> AllDigits(t))
      then Some(IntValue(t))
      else None
  }

  lemma Infix(a: string, x: string, b: string, c: string, d: string)
    ensures OccursAt(a + x + b + c + d, x, |a|)
    ensures OccursAt(a + x + b + c + d, c, |a| + |x| + |b|)
  {
    var s := a + x + b + c + d;
    assert s[|a|..|a| + |x|] == x;
    assert s[|a| + |x| + |b|..|a| + |x| + |b| + |c|] == c;
  }

  /** The page states the size in the body CSS and in the heading. */
  lemma PageShowsSize(fontSize: int)
    ensures var page := WebviewContent(fontSize);
            && OccursAt(page, CssLine(fontSize), |PageTop|)
            && OccursAt(page, Heading(fontSize), |PageTop| + |CssLine(fontSize)| + |PageBetween|)
  {
    Infix(PageTop, CssLine(fontSize), PageBetween, Heading(fontSize), PageBottom);
  }

  /** Reading the size back from the generated page gives the size. */
  lemma PageSizeRoundTrip(fontSize: int)
    ensures SizeInPage(WebviewContent(fontSize)) == Some(fontSize)
  {
    var t := IntText(fontSize);
    var rest := "px;" + PageBetween + Heading(fontSize) + PageBottom;
    PageAroundSize(fontSize);
    NoLetterInIntText(fontSize);
    IntTextRoundTrip(fontSize);
    ReadSizeAt(WebviewContent(fontSize), PageTop + CssPrefix, t, rest);
  }

  lemma ReadSizeAt(page: string, a: string, t: string, rest: string)
    requires page == a + t + rest && |a| == |PageTop| + |CssPrefix|
    requires 'p' !in t && rest != [] && rest[0] == 'p'
    requires t != [] && t[0] == '-' ==> AllDigits(t[1..])
    requires t == [] || t[0] != '-' ==> AllDigits(t)
    ensures SizeInPage(page) == Some(IntValue(t))
  {
    ReadBack(a, t, rest);
  }

  lemma PageAroundSize(fontSize: int)
    ensures WebviewContent(fontSize) ==
            (PageTop + CssPrefix) + IntText(fontSize) + ("px;" + PageBetween + Heading(fontSize) + PageBottom)
  {
    Regroup(PageTop, CssPrefix, IntText(fontSize), "px;", PageBetween, Heading(fontSize), PageBottom);
  }

  lemma Regroup(a: string, b: string, t: string, c: string, d: string, e: string, f: string)
    ensures a + (b + t + c) + d + e + f == (a + b) + t + (c + d + e + f)
  {
  }

  lemma NoLetterInIntText(i: int)
    ensures 'p' !in IntText(i)
  {
  }

  lemma ReadBack(a: string, t: string, rest: string)
    requires 'p' !in t && rest != [] && rest[0] == 'p'
    ensures |a + t + rest| >= |a| && UpTo((a + t + rest)[|a|..], 'p') == t
  {
    assert (a + t + rest)[|a|..] == t + rest;
    UpToMarker(t, rest, 'p');
  }

  // ---- The message handler ----

  datatype WebviewMessage = FontSizeChange(value: SizeValue) | OtherCommand(command: string)

  /** Whether one awaited `config.update` completed or threw. */
  datatype UpdateOutcome = Updated | Fails(errorMessage: string)

  datatype Notice = ErrorNotice(text: string) | InfoNotice(text: string)

  const InvalidSizeText := "Font size is invalid plese pick a  size (6 \U{2013} 72)."

  function FailureNotice(errorMessage: string): Notice {
    ErrorNotice("Failed to update font size in editor and aseje: " + errorMessage)
  }

  function SuccessNotice(size: int): Notice {
    InfoNotice("Suecess in setting Font size  to " + IntText(size) + "px")
  }

  /** The panel's page and the two settings the handler writes. */
  datatype Panel = Panel(html: string, editorFontSize: Option<int>, asejeFontSize: Option<int>, notices: seq<Notice>)

  /** One run of the `onDidReceiveMessage` handler. */
  function OnMessage(p: Panel, m: WebviewMessage, editorUpdate: UpdateOutcome, asejeUpdate: UpdateOutcome): Panel {
    if m.OtherCommand? then p
    else if !Acceptable(m.value) then p.(notices := p.notices + [ErrorNotice(InvalidSizeText)])
    else
      var n := m.value.n;
      var failure :=
        if editorUpdate.Fails? then [FailureNotice(editorUpdate.errorMessage)]
        else if asejeUpdate.Fails? then [FailureNotice(asejeUpdate.errorMessage)]
        else [];
      Panel(WebviewContent(n),
            if editorUpdate.Updated? then Some(n) else p.editorFontSize,
            if editorUpdate.Updated? && asejeUpdate.Updated? then Some(n) else p.asejeFontSize,
            p.notices + failure + [SuccessNotice(n)])
  }

  /** Messages other than `fontSizeChange` change nothing. */
  lemma OtherMessagesIgnored(p: Panel, command: string, e: UpdateOutcome, a: UpdateOutcome)
    ensures OnMessage(p, OtherCommand(command), e, a) == p
  {
  }

  /** A rejected size touches neither setting nor the page: the only effect
      is the one error notice. */
  lemma RejectedSizeChangesNothing(p: Panel, v: SizeValue, e: UpdateOutcome, a: UpdateOutcome)
    requires v.NaN? || v.n <= 6 || v.n >= 72
    ensures var q := OnMessage(p, FontSizeChange(v), e, a);
            && q.html == p.html && q.editorFontSize == p.editorFontSize && q.asejeFontSize == p.asejeFontSize
            && q.notices == p.notices + [ErrorNotice(InvalidSizeText)]
  {
  }

  /** An accepted size regenerates the page with that size and ends with the
      success notice, whether or not an update threw; one failure notice
      precedes it when one did. */
  lemma AcceptedSizeRegenerates(p: Panel, n: int, e: UpdateOutcome, a: UpdateOutcome)
    requires 6 < n < 72
    ensures var q := OnMessage(p, FontSizeChange(Num(n)), e, a);
            && SizeInPage(q.html) == Some(n)
            && |q.notices| == |p.notices| + (if e.Updated? && a.Updated? then 1 else 2)
            && q.notices[..|p.notices|] == p.notices
            && q.notices[|q.notices| - 1] == SuccessNotice(n)
  {
    PageSizeRoundTrip(n);
  }

  /** The editor setting is written first and the extension's only after it:
      when the first update throws the second is never attempted; when both
      complete they hold the same size. */
  lemma UpdatesInOrder(p: Panel, n: int, e: UpdateOutcome, a: UpdateOutcome)
    requires 6 < n < 72
    ensures var q := OnMessage(p, FontSizeChange(Num(n)), e, a);
            && (q.asejeFontSize != p.asejeFontSize ==> q.editorFontSize == Some(n))
            && (e.Fails? ==> q.asejeFontSize == p.asejeFontSize)
            && (e.Updated? && a.Updated? ==> q.editorFontSize == q.asejeFontSize == Some(n))
  {
  }

  /** The panel opened by the `aseje.textSetting` command. */
  class TextSettingPanel {
    var html: string
    var editorFontSize: Option<int>
    var asejeFontSize: Option<int>
    var notices: seq<Notice>

    function State(): Panel
      reads this
    {
      Panel(html, editorFontSize, asejeFontSize, notices)
    }

    /** Opening the panel renders the configured size. */
    constructor (editorSetting: Option<int>, asejeSetting: Option<int>)
      ensures State() == Panel(WebviewContent(ConfiguredFontSize(asejeSetting)), editorSetting, asejeSetting, [])
    {
      html := WebviewContent(ConfiguredFontSize(asejeSetting));
      editorFontSize := editorSetting;
      asejeFontSize := asejeSetting;
      notices := [];
    }

    /** The `onDidReceiveMessage` handler: check the range, update the two
        settings in order inside one `try`, then rebuild the page. */
    method OnDidReceiveMessage(m: WebviewMessage, editorUpdate: UpdateOutcome, asejeUpdate: UpdateOutcome)
      modifies this
      ensures State() == OnMessage(old(State()), m, editorUpdate, asejeUpdate)
    {
      if m.OtherCommand? {
        return;
      }
      if m.value.NaN? || m.value.n <= 6 || m.value.n >= 72 {
        notices := notices + [ErrorNotice(InvalidSizeText)];
        return;
      }
      var newSize := m.value.n;
      var failure := [];
      if editorUpdate.Fails? {
        failure := [FailureNotice(editorUpdate.errorMessage)];
      } else {
        editorFontSize := Some(newSize);
        if asejeUpdate.Fails? {
          failure := [FailureNotice(asejeUpdate.errorMessage)];
        } else {
          asejeFontSize := Some(newSize);
        }
      }
      ghost var before := old(State());
      assert failure == (if editorUpdate.Fails? then [FailureNotice(editorUpdate.errorMessage)]
                         else if asejeUpdate.Fails? then [FailureNotice(asejeUpdate.errorMessage)]
                         else []);
      html := WebviewContent(newSize);
      notices := notices + failure + [SuccessNotice(newSize)];
      assert notices == before.notices + failure + [SuccessNotice(newSize)];
      assert editorFontSize == if editorUpdate.Updated? then Some(newSize) else before.editorFontSize;
      assert asejeFontSize == if editorUpdate.Updated? && asejeUpdate.Updated? then Some(newSize) else before.asejeFontSize;
    }
  }
}
