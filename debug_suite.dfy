/** The breakpoint notes, hit counter and heat map of the editor extension
    (`source/DebugSuite.js`). Records live in a store keyed by file path and
    0-based line; the user sees lines 1-based. The editor cursor, the note
    input box and the global-state store are parameters and fields; the
    decorations are returned as data rather than drawn. */
module DebugSuite {
  import opened Text
  import opened Optional

  /** `{count, note}` of one line. */
  datatype HitRecord = HitRecord(count: nat, note: Option<string>)

  type FileData = map<int, HitRecord>
  type Store = map<string, FileData>

  /** The active editor: its file path, the cursor's 0-based line and the
      number of lines of its document. */
  datatype Cursor = Cursor(file: string, line: nat, lineCount: nat)

  datatype Heat = High | Medium | Low

  datatype Decoration = Decoration(line: int, heat: Heat)

  // ---- Record updates ----

  /** `data[file] || {}` then `data[file][line] || { count: 0 }`. */
  function RecordAt(data: Store, file: string, line: int): (r: HitRecord)
    ensures file in data && line in data[file] ==> r == data[file][line]
    ensures !(file in data && line in data[file]) ==> r == HitRecord(0, None)
  {
    if file in data && line in data[file] then data[file][line] else HitRecord(0, None)
  }

  function FileOf(data: Store, file: string): FileData {
    if file in data then data[file] else map[]
  }

  /** `addBreakpointNote`'s update of the store. */
  function WithNote(data: Store, file: string, line: int, note: string): Store {
    data[file := FileOf(data, file)[line := RecordAt(data, file, line).(note := Some(note))]]
  }

  /** `aseje.incrementBreakpointHit`'s update of the store. */
  function WithHit(data: Store, file: string, line: int): Store {
    var rec := RecordAt(data, file, line);
    data[file := FileOf(data, file)[line := rec.(count := rec.count + 1)]]
  }

  /** Adding a note sets that line's note, keeps its count (0 for a new
      record), and leaves every other line and file as it was. */
  lemma NoteUpdatesOneRecord(data: Store, file: string, line: int, note: string)
    ensures var d := WithNote(data, file, line, note);
            && file in d && line in d[file]
            && d[file][line] == HitRecord(RecordAt(data, file, line).count, Some(note))
            && (forall f :: f in data && f != file ==> f in d && d[f] == data[f])
            && (forall f :: f in d && f != file ==> f in data)
            && (forall l :: l in FileOf(data, file) && l != line ==> l in d[file] && d[file][l] == data[file][l])
            && d[file].Keys == FileOf(data, file).Keys + {line}
  {
  }

  /** An increment adds exactly one to that line's count, keeps its note,
      and leaves every other line and file as it was. */
  lemma HitUpdatesOneRecord(data: Store, file: string, line: int)
    ensures var d := WithHit(data, file, line);
            && file in d && line in d[file]
            && d[file][line].count == RecordAt(data, file, line).count + 1
            && d[file][line].note == RecordAt(data, file, line).note
            && (forall f :: f in data && f != file ==> f in d && d[f] == data[f])
            && (forall l :: l in FileOf(data, file) && l != line ==> l in d[file] && d[file][l] == data[file][l])
            && d[file].Keys == FileOf(data, file).Keys + {line}
  {
  }

  /** Notes and hits touch different fields: the order of a note and an
      increment does not matter. */
  lemma NoteAndHitCommute(data: Store, file: string, line: int, note: string)
    ensures WithHit(WithNote(data, file, line, note), file, line) == WithNote(WithHit(data, file, line), file, line, note)
  {
    var rec := RecordAt(data, file, line);
    var both := FileOf(data, file)[line := HitRecord(rec.count + 1, Some(note))];
    var noted := WithNote(data, file, line, note);
    var hit := WithHit(data, file, line);
    assert RecordAt(noted, file, line) == rec.(note := Some(note));
    assert RecordAt(hit, file, line) == rec.(count := rec.count + 1);
    assert FileOf(noted, file)[line := rec.(note := Some(note)).(count := rec.count + 1)] == both;
    assert FileOf(hit, file)[line := rec.(count := rec.count + 1).(note := Some(note))] == both;
  }

  /** `n` increments of a line. */
  function Hits(data: Store, file: string, line: int, n: nat): Store
    decreases n
  {
    if n == 0 then data else WithHit(Hits(data, file, line, n - 1), file, line)
  }

  /** After `n` increments a line's count has grown by exactly `n`. */
  lemma {:induction false} HitsCount(data: Store, file: string, line: int, n: nat)
    ensures RecordAt(Hits(data, file, line, n), file, line).count == RecordAt(data, file, line).count + n
    ensures RecordAt(Hits(data, file, line, n), file, line).note == RecordAt(data, file, line).note
    decreases n
  {
    if n > 0 {
      HitsCount(data, file, line, n - 1);
    }
  }

  // ---- Heat map ----

  /** The heat of a count when the file's largest count is `maxHits` (`None`
      for a file with no records, where `Math.max()` is -Infinity). The
      thresholds `maxHits / 3` and twice that are compared by multiplying
      through by 3. */
  function Classify(count: int, maxHits: Option<int>): (r: Option<Heat>)
    ensures r.None? <==> count <= 0
  {
    if maxHits.Some? && maxHits.value > 0 then
      if 3 * count >= 2 * maxHits.value then Some(High)
      else if 3 * count >= maxHits.value then Some(Medium)
      else if count > 0 then Some(Low)
      else None
    else
      if count >= 2 then Some(High)
      else if count >= 1 then Some(Medium)
      else if count > 0 then Some(Low)
      else None
  }

  /** The smallest element of a non-empty set of lines, which therefore exists. */
  ghost function MinLine(s: set<int>): (m: int)
    requires s != {}
    ensures m in s && forall y :: y in s ==> m <= y
    decreases s
  {
    NonEmptyHasMember(s);
    var x :| x in s;
    if s == {x} then x
    else
      var y := MinLine(s - {x});
      assert forall z :: z in s ==> z == x || z in s - {x};
      if x < y then x else y
  }

  lemma NonEmptyHasMember(s: set<int>)
    requires s != {}
    ensures exists x :: x in s
  {
    if forall x :: x !in s {
      assert false;
    }
  }

  /** The lines of a file's records in ascending order, as `Object.entries`
      lists integer keys. */
  function SortedLines(s: set<int>): (r: seq<int>)
    ensures forall j, k :: 0 <= j < k < |r| ==> r[j] < r[k]
    ensures forall x :: x in r <==> x in s
    decreases s
  {
    if s == {} then []
    else
      assert MinLine(s) in s && forall y :: y in s ==> MinLine(s) <= y;
      var m :| m in s && forall y :: y in s ==> m <= y;
      var rest := SortedLines(s - {m});
      [m] + rest
  }

  /** The largest count over some lines, `None` for no lines. */
  function MaxOver(fileData: FileData, lines: seq<int>): (r: Option<int>)
    requires forall x :: x in lines ==> x in fileData
    ensures r.None? <==> lines == []
    ensures r.Some? ==> forall x :: x in lines ==> fileData[x].count <= r.value
    ensures r.Some? ==> exists x :: x in lines && fileData[x].count == r.value
  {
    if lines == [] then None
    else
      assert lines[0] in lines;
      assert forall x :: x in lines ==> x == lines[0] || x in lines[1..];
      assert forall x :: x in lines[1..] ==> x in lines;
      var rest := MaxOver(fileData, lines[1..]);
      var c := fileData[lines[0]].count;
      if rest.None? || rest.value < c then Some(c) else rest
  }

  /** `Math.max(...counts)`. */
  function MaxHits(fileData: FileData): Option<int> {
    MaxOver(fileData, SortedLines(fileData.Keys))
  }

  /** The decoration of one line: none for a count of zero. */
  function LineDecoration(line: int, count: int, maxHits: Option<int>): (r: seq<Decoration>)
    ensures |r| <= 1
    ensures r != [] <==> count > 0
    ensures r != [] ==> r[0] == Decoration(line, Classify(count, maxHits).value)
  {
    match Classify(count, maxHits)
    case None => []
    case Some(h) => [Decoration(line, h)]
  }

  /** The decorations for some lines, in order, skipping undecorated ones. */
  function Decorate(fileData: FileData, lines: seq<int>, maxHits: Option<int>): (r: seq<Decoration>)
    requires forall x :: x in lines ==> x in fileData
    ensures forall d :: d in r ==> d.line in lines
  {
    if lines == [] then []
    else
      assert lines[0] in lines;
      assert forall x :: x in lines[1..] ==> x in lines;
      LineDecoration(lines[0], fileData[lines[0]].count, maxHits) + Decorate(fileData, lines[1..], maxHits)
  }

  /** The lines of a file whose count is positive. */
  function HitLines(fileData: FileData): set<int> {
    set l | l in fileData && fileData[l].count > 0
  }

  /** Every line with hits is decorated, with the heat of its count; no
      other line is. */
  lemma {:induction false} DecorateCovers(fileData: FileData, lines: seq<int>, maxHits: Option<int>)
    requires forall x :: x in lines ==> x in fileData
    ensures forall l :: l in lines && fileData[l].count > 0 ==>
              Decoration(l, Classify(fileData[l].count, maxHits).value) in Decorate(fileData, lines, maxHits)
    ensures forall d :: d in Decorate(fileData, lines, maxHits) ==>
              fileData[d.line].count > 0 && Some(d.heat) == Classify(fileData[d.line].count, maxHits)
  {
    if lines != [] {
      DecorateCovers(fileData, lines[1..], maxHits);
      assert forall x :: x in lines ==> x == lines[0] || x in lines[1..];
    }
  }

  /** The lines with hits among `lines`. */
  function HitsAmong(fileData: FileData, lines: seq<int>): set<int>
    requires forall x :: x in lines ==> x in fileData
  {
    set l | l in lines && fileData[l].count > 0
  }

  lemma HitsAmongCons(fileData: FileData, lines: seq<int>)
    requires lines != [] && forall x :: x in lines ==> x in fileData
    ensures forall x :: x in lines[1..] ==> x in fileData
    ensures HitsAmong(fileData, lines)
            == HitsAmong(fileData, lines[1..]) + (if fileData[lines[0]].count > 0 then {lines[0]} else {})
  {
    assert forall x :: x in lines <==> x == lines[0] || x in lines[1..];
  }

  /** One decoration per line with hits, for lines listed once each. */
  lemma {:induction false} DecorateCount(fileData: FileData, lines: seq<int>, maxHits: Option<int>)
    requires forall x :: x in lines ==> x in fileData
    requires forall j, k :: 0 <= j < k < |lines| ==> lines[j] != lines[k]
    ensures |Decorate(fileData, lines, maxHits)| == |HitsAmong(fileData, lines)|
  {
    if lines != [] {
      var rest := lines[1..];
      var first := lines[0];
      HitsAmongCons(fileData, lines);
      DecorateCount(fileData, rest, maxHits);
      assert first !in rest by {
        forall k | 0 <= k < |rest| ensures rest[k] != first {
          assert rest[k] == lines[k + 1];
        }
      }
      assert first !in HitsAmong(fileData, rest);
      var d := LineDecoration(first, fileData[first].count, maxHits);
      assert Decorate(fileData, lines, maxHits) == d + Decorate(fileData, rest, maxHits);
    }
  }

  /** `applyAsejeDecorations` for the records of the active file. */
  function Heatmap(fileData: FileData): seq<Decoration> {
    Decorate(fileData, SortedLines(fileData.Keys), MaxHits(fileData))
  }

  /** The heat map decorates exactly the lines with hits, once each, in
      ascending line order, each with the heat of its count. */
  lemma HeatmapSummary(fileData: FileData)
    ensures |Heatmap(fileData)| == |HitLines(fileData)|
    ensures forall l :: l in HitLines(fileData) ==>
              Decoration(l, Classify(fileData[l].count, MaxHits(fileData)).value) in Heatmap(fileData)
    ensures forall d :: d in Heatmap(fileData) ==> d.line in HitLines(fileData)
    ensures AscendingLines(Heatmap(fileData))
  {
    var lines := SortedLines(fileData.Keys);
    var mh := MaxHits(fileData);
    DecorateCount(fileData, lines, mh);
    DecorateCovers(fileData, lines, mh);
    SortedHits(fileData);
    DecorateAscending(fileData, lines, mh);
  }

  predicate AscendingLines(r: seq<Decoration>) {
    forall j, k :: 0 <= j < k < |r| ==> r[j].line < r[k].line
  }

  /** Decorating lines listed in ascending order gives decorations in
      ascending line order. */
  lemma {:induction false} DecorateAscending(fileData: FileData, lines: seq<int>, maxHits: Option<int>)
    requires forall x :: x in lines ==> x in fileData
    requires forall j, k :: 0 <= j < k < |lines| ==> lines[j] < lines[k]
    ensures AscendingLines(Decorate(fileData, lines, maxHits))
  {
    if lines != [] {
      DecorateCons(fileData, lines, maxHits);
      var tail := lines[1..];
      DecorateAscending(fileData, tail, maxHits);
      TailAbove(lines);
      var rest := Decorate(fileData, tail, maxHits);
      assert forall d :: d in rest ==> d.line > lines[0];
      PrependAscending(LineDecoration(lines[0], fileData[lines[0]].count, maxHits), rest, lines[0]);
    }
  }

  lemma TailAbove(lines: seq<int>)
    requires lines != [] && forall j, k :: 0 <= j < k < |lines| ==> lines[j] < lines[k]
    ensures forall j, k :: 0 <= j < k < |lines[1..]| ==> lines[1..][j] < lines[1..][k]
    ensures forall x :: x in lines[1..] ==> x > lines[0]
  {
    forall x | x in lines[1..] ensures x > lines[0] {
      var m :| 0 <= m < |lines[1..]| && lines[1..][m] == x;
      assert lines[m + 1] == x;
    }
  }

  lemma PrependAscending(head: seq<Decoration>, rest: seq<Decoration>, l: int)
    requires |head| <= 1 && (head != [] ==> head[0].line == l)
    requires AscendingLines(rest) && forall d :: d in rest ==> d.line > l
    ensures AscendingLines(head + rest)
  {
    var r := head + rest;
    forall j, k | 0 <= j < k < |r| ensures r[j].line < r[k].line {
      assert r[k] == rest[k - |head|];
      assert r[k] in rest;
      if j >= |head| {
        assert r[j] == rest[j - |head|];
      }
    }
  }

  /** The lines with hits among the sorted record lines are the file's lines
      with hits. */
  lemma SortedHits(fileData: FileData)
    ensures HitsAmong(fileData, SortedLines(fileData.Keys)) == HitLines(fileData)
  {
    var lines := SortedLines(fileData.Keys);
    forall l | l in HitLines(fileData) ensures l in lines {
      assert l in fileData.Keys;
    }
  }

  /** A line holding the file's largest count, when that is positive, is
      always decorated high. */
  lemma MaxLineIsHot(fileData: FileData, l: int)
    requires l in fileData && fileData[l].count > 0
    requires MaxHits(fileData) == Some(fileData[l].count)
    ensures Decoration(l, High) in Heatmap(fileData)
  {
    HeatmapSummary(fileData);
    assert l in HitLines(fileData);
    ClassifyThirds(fileData[l].count, fileData[l].count);
  }

  /** When the largest count is positive, a count in the top third is high,
      one in the middle third medium and any other positive count low. */
  lemma ClassifyThirds(count: int, maxHits: int)
    requires maxHits > 0
    ensures Classify(count, Some(maxHits)) == Some(High) <==> 3 * count >= 2 * maxHits
    ensures Classify(count, Some(maxHits)) == Some(Medium) <==> 3 * count >= maxHits && 3 * count < 2 * maxHits
    ensures Classify(count, Some(maxHits)) == Some(Low) <==> count > 0 && 3 * count < maxHits
    ensures count == maxHits ==> Classify(count, Some(maxHits)) == Some(High)
  {
  }

  // ---- The redraw ----

  /** What `applyAsejeDecorations` leaves drawn: nothing new without an
      editor or without records for its file, nothing when `lineAt` throws,
      otherwise the decorations. */
  datatype Redraw = Skipped | Threw | Drawn(decorations: seq<Decoration>)

  /** Every line with hits lies inside a document of `lineCount` lines. */
  predicate HitsInDocument(fileData: FileData, lineCount: nat) {
    forall l :: l in HitLines(fileData) ==> 0 <= l < lineCount
  }

  function Redrawn(data: Store, editor: Option<Cursor>): Redraw {
    if editor.None? || editor.value.file !in data then Skipped
    else if HitsInDocument(data[editor.value.file], editor.value.lineCount) then Drawn(Heatmap(data[editor.value.file]))
    else Threw
  }

  /** A redraw throws exactly when a record with hits names a line outside
      the editor's document, as a record left behind by an edit that
      shortened the file does; otherwise it draws the heat map. */
  lemma RedrawThrowsOnStaleLine(data: Store, c: Cursor)
    requires c.file in data
    ensures Redrawn(data, Some(c)) == Threw <==>
            exists l :: l in data[c.file] && data[c.file][l].count > 0 && (l < 0 || l >= c.lineCount)
    ensures Redrawn(data, Some(c)) != Threw ==> Redrawn(data, Some(c)) == Drawn(Heatmap(data[c.file]))
  {
    var fd := data[c.file];
    if HitsInDocument(fd, c.lineCount) {
      assert Redrawn(data, Some(c)) == Drawn(Heatmap(fd));
      forall l | l in fd && fd[l].count > 0 ensures 0 <= l < c.lineCount {
        assert l in HitLines(fd);
      }
    } else {
      assert Redrawn(data, Some(c)) == Threw;
      var l :| l in HitLines(fd) && !(0 <= l < c.lineCount);
      assert l in fd && fd[l].count > 0;
    }
  }

  /** The sorted record lines have every hit inside the document exactly
      when the file's lines with hits do. */
  lemma InsideSorted(fileData: FileData, lineCount: nat)
    ensures forall x :: x in SortedLines(fileData.Keys) ==> x in fileData
    ensures InsideAmong(fileData, SortedLines(fileData.Keys), lineCount) <==> HitsInDocument(fileData, lineCount)
  {
    var lines := SortedLines(fileData.Keys);
    if InsideAmong(fileData, lines, lineCount) {
      forall l | l in HitLines(fileData) ensures 0 <= l < lineCount {
        assert l in fileData.Keys;
        assert l in lines;
      }
    }
    if HitsInDocument(fileData, lineCount) {
      forall x | x in lines && fileData[x].count > 0 ensures 0 <= x < lineCount {
        assert x in HitLines(fileData);
      }
    }
  }

  // ---- The commands ----

  /** The confirmation of a saved note, with the 1-based line. */
  function NoteSavedMessage(line: nat): string {
    "Note saved for breakpoint on line " + NatText(line + 1) + "."
  }

  /** The report of a hit, with the 1-based line and the new count. */
  function HitMessage(line: nat, count: nat): string {
    "Breakpoint on line " + NatText(line + 1) + " hit count: " + NatText(count)
  }

  class BreakpointSuite {
    /** The `aseje.breakpointData` global state. */
    var data: Store
    /** Information messages shown so far. */
    var messages: seq<string>

    constructor (stored: Store)
      ensures data == stored && messages == []
    {
      data := stored;
      messages := [];
    }

    /** `applyAsejeDecorations`: `Redrawn` of the store. */
    method ApplyDecorations(editor: Option<Cursor>) returns (r: Redraw)
      ensures r == Redrawn(data, editor)
    {
      if editor.None? || editor.value.file !in data {
        return Skipped;
      }
      var fileData := data[editor.value.file];
      InsideSorted(fileData, editor.value.lineCount);
      var out := DecorationsOf(fileData, SortedLines(fileData.Keys), MaxHits(fileData), editor.value.lineCount);
      if out.None? {
        return Threw;
      }
      r := Drawn(out.value);
    }

    /** `addBreakpointNote`: no editor or a cancelled input box changes
        nothing; otherwise the note is stored, confirmed with the 1-based
        line, and the decorations redrawn. */
    method AddBreakpointNote(editor: Option<Cursor>, note: Option<string>) returns (decorations: Redraw)
      modifies this
      ensures editor.None? || note.None? ==> data == old(data) && messages == old(messages) && decorations == Skipped
      ensures editor.Some? && note.Some? ==>
                && data == WithNote(old(data), editor.value.file, editor.value.line, note.value)
                && messages == old(messages) + [NoteSavedMessage(editor.value.line)]
                && decorations == Redrawn(data, editor)
    {
      if editor.None? || note.None? {
        return Skipped;
      }
      var file, line := editor.value.file, editor.value.line;
      data := WithNote(data, file, line, note.value);
      messages := messages + [NoteSavedMessage(line)];
      decorations := ApplyDecorations(editor);
    }

    /** `aseje.incrementBreakpointHit`: one more hit on the cursor line,
        reported with the 1-based line and the new count. */
    method IncrementBreakpointHit(editor: Option<Cursor>) returns (decorations: Redraw)
      modifies this
      ensures editor.None? ==> data == old(data) && messages == old(messages) && decorations == Skipped
      ensures editor.Some? ==>
                var count := RecordAt(old(data), editor.value.file, editor.value.line).count + 1;
                && data == WithHit(old(data), editor.value.file, editor.value.line)
                && messages == old(messages) + [HitMessage(editor.value.line, count)]
                && decorations == Redrawn(data, editor)
    {
      if editor.None? {
        return Skipped;
      }
      var file, line := editor.value.file, editor.value.line;
      ghost var before := data;
      data := WithHit(data, file, line);
      var count := data[file][line].count;
      assert count == RecordAt(before, file, line).count + 1;
      messages := messages + [HitMessage(line, count)];
      decorations := ApplyDecorations(editor);
    }
  }

  /** Every line with hits among `lines` lies inside a document of
      `lineCount` lines. */
  predicate InsideAmong(fileData: FileData, lines: seq<int>, lineCount: nat)
    requires forall x :: x in lines ==> x in fileData
  {
    forall x :: x in lines && fileData[x].count > 0 ==> 0 <= x < lineCount
  }

  lemma InsideAmongAppend(fileData: FileData, lines: seq<int>, line: int, lineCount: nat)
    requires forall x :: x in lines + [line] ==> x in fileData
    ensures forall x :: x in lines ==> x in fileData
    ensures InsideAmong(fileData, lines + [line], lineCount)
            <==> InsideAmong(fileData, lines, lineCount) && (fileData[line].count > 0 ==> 0 <= line < lineCount)
  {
    assert forall x :: x in lines + [line] <==> x in lines || x == line;
  }

  /** The loop of `applyAsejeDecorations`: classify each line in turn and
      push a decoration for each line with hits. `lineAt` throws for a line
      with hits outside the document, which ends the loop with nothing
      drawn (`None`). */
  method DecorationsOf(fileData: FileData, lines: seq<int>, maxHits: Option<int>, lineCount: nat)
    returns (out: Option<seq<Decoration>>)
    requires forall x :: x in lines ==> x in fileData
    ensures out.Some? <==> InsideAmong(fileData, lines, lineCount)
    ensures out.Some? ==> out.value == Decorate(fileData, lines, maxHits)
  {
    var pushed := [];
    for i := 0 to |lines|
      invariant pushed == Decorate(fileData, lines[..i], maxHits)
      invariant InsideAmong(fileData, lines[..i], lineCount)
    {
      assert lines[i] in lines;
      assert lines[..i + 1] == lines[..i] + [lines[i]];
      DecorateAppend(fileData, lines[..i], lines[i], maxHits);
      InsideAmongAppend(fileData, lines[..i], lines[i], lineCount);
      var heat := Classify(fileData[lines[i]].count, maxHits);
      if heat.Some? {
        if !(0 <= lines[i] < lineCount) {
          InsideAmongPrefix(fileData, lines, i + 1, lineCount);
          return None;
        }
        pushed := pushed + [Decoration(lines[i], heat.value)];
      }
    }
    assert lines[..|lines|] == lines;
    out := Some(pushed);
  }

  lemma InsideAmongPrefix(fileData: FileData, lines: seq<int>, i: nat, lineCount: nat)
    requires i <= |lines| && forall x :: x in lines ==> x in fileData
    ensures forall x :: x in lines[..i] ==> x in fileData
    ensures InsideAmong(fileData, lines, lineCount) ==> InsideAmong(fileData, lines[..i], lineCount)
  {
    assert forall x :: x in lines[..i] ==> x in lines;
  }

  /** The first line's decoration, then the rest. */
  lemma DecorateCons(fileData: FileData, lines: seq<int>, maxHits: Option<int>)
    requires lines != []
    requires forall x :: x in lines ==> x in fileData
    ensures lines[0] in fileData
    ensures forall x :: x in lines[1..] ==> x in fileData
    ensures Decorate(fileData, lines, maxHits)
            == LineDecoration(lines[0], fileData[lines[0]].count, maxHits) + Decorate(fileData, lines[1..], maxHits)
  {
    var first := lines[0];
    assert first in lines;
    assert first in fileData;
    forall x | x in lines[1..] ensures x in fileData {
      assert x in lines;
    }
  }

  lemma AppendAssoc(a: seq<Decoration>, b: seq<Decoration>, c: seq<Decoration>)
    ensures a + (b + c) == (a + b) + c
  {
  }

  lemma {:induction false} DecorateAppend(fileData: FileData, lines: seq<int>, line: int, maxHits: Option<int>)
    requires forall x :: x in lines ==> x in fileData
    requires line in fileData
    ensures Decorate(fileData, lines + [line], maxHits)
            == Decorate(fileData, lines, maxHits) + LineDecoration(line, fileData[line].count, maxHits)
    decreases |lines|
  {
    if lines == [] {
      assert lines + [line] == [line];
    } else {
      var ls := lines + [line];
      var rest := lines[1..];
      assert ls[0] == lines[0] && ls[1..] == rest + [line];
      assert forall x :: x in rest ==> x in lines;
      DecorateAppend(fileData, rest, line, maxHits);
      DecorateCons(fileData, ls, maxHits);
      DecorateCons(fileData, lines, maxHits);
      AppendAssoc(LineDecoration(lines[0], fileData[lines[0]].count, maxHits), Decorate(fileData, rest, maxHits),
                  LineDecoration(line, fileData[line].count, maxHits));
    }
  }
}
