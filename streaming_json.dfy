/** The regex-based streaming decoder of src/lib/streamingJsonParser.ts.
    Chunks of a JSON reply `{"Text": …, "Files": [{"FileName": …,
    "FileCode": …, "FileText": …}, …], "Conclusion": …}` are appended to a
    buffer, and after every chunk the whole buffer is searched again for
    the fields it holds. The regular expressions of the source are matched
    here by hand. */
module StreamingJson {
  import opened Wrappers
  import JsStrings

  datatype Field = TextField | FileNameField | FileCodeField | FileTextField | ConclusionField

  /** The JSON key of each field. */
  function KeyName(f: Field): string {
    match f
    case TextField => "Text"
    case FileNameField => "FileName"
    case FileCodeField => "FileCode"
    case FileTextField => "FileText"
    case ConclusionField => "Conclusion"
  }

  /** One entry of `fieldContents.Files`; a missing member is `None`. */
  datatype FileFields = FileFields(fileName: Option<string>, fileCode: Option<string>, fileText: Option<string>)

  const NoFields := FileFields(None, None, None)

  /** `StreamingCodeState`, with `fieldContents` and `renderingStates`
      spread into one record. */
  datatype CodeState = CodeState(
    currentField: Option<Field>,
    text: Option<string>,
    files: seq<FileFields>,
    conclusion: Option<string>,
    activeFileIndex: int,
    textVisible: bool,
    filesVisible: seq<bool>,
    conclusionVisible: bool,
    isComplete: bool)

  /** `getInitialState()`. */
  function InitialState(): (r: CodeState)
    ensures Inv(r)
  {
    CodeState(None, None, [], None, -1, false, [], false, false)
  }

  /** What every step needs: one visibility flag per file, and the active
      index is -1 or the index of a file. */
  predicate Consistent(st: CodeState) {
    |st.filesVisible| == |st.files| && -1 <= st.activeFileIndex < |st.files|
  }

  /** What the parser keeps: every file is visible and named, and the active
      file is the last one. */
  predicate Inv(st: CodeState) {
    && |st.filesVisible| == |st.files|
    && st.activeFileIndex == |st.files| - 1
    && (forall i :: 0 <= i < |st.files| ==> st.filesVisible[i] && st.files[i].fileName.Some?)
  }

  // ---------------------------------------------------------------------
  // The patterns
  // ---------------------------------------------------------------------

  /** The end of the run of `\s` characters from `i`. */
  function SkipSpace(s: string, i: nat): (r: nat)
    requires i <= |s|
    ensures i <= r <= |s|
    ensures forall k :: i <= k < r ==> JsStrings.IsWhitespace(s[k])
    ensures r < |s| ==> !JsStrings.IsWhitespace(s[r])
    decreases |s| - i
  {
    if i < |s| && JsStrings.IsWhitespace(s[i]) then SkipSpace(s, i + 1) else i
  }

  /** `"key"`, quotes included. */
  function Quoted(key: string): string {
    "\"" + key + "\""
  }

  /** `"key"\s*:\s*"` matched at exactly `p`: the index just past the
      opening quote of the value. Both `\s*` are greedy, and a shorter run
      would leave a space where `:` or `"` must be, so there is no other
      way to match. */
  function ValueStart(s: string, key: string, p: nat): (r: Option<nat>)
    ensures r.Some? ==> p + |key| + 4 <= r.value <= |s| && s[r.value - 1] == '"'
  {
    if JsStrings.OccursAt(s, Quoted(key), p) then
      var i := SkipSpace(s, p + |key| + 2);
      if i < |s| && s[i] == ':' then
        var j := SkipSpace(s, i + 1);
        if j < |s| && s[j] == '"' then Some(j + 1) else None
      else None
    else None
  }

  /** The end of `[^"]*` from `v`. */
  function RunEnd(s: string, v: nat): (r: nat)
    requires v <= |s|
    ensures v <= r <= |s|
    ensures forall k :: v <= k < r ==> s[k] != '"'
    ensures r < |s| ==> s[r] == '"'
    decreases |s| - v
  {
    if v < |s| && s[v] != '"' then RunEnd(s, v + 1) else v
  }

  /** The leftmost position from `from` on where a value of `key` starts. */
  function FirstMatch(s: string, key: string, from: nat): (r: Option<nat>)
    ensures r.Some? ==> from <= r.value && ValueStart(s, key, r.value).Some?
    ensures r.Some? ==> forall q :: from <= q < r.value ==> ValueStart(s, key, q).None?
    ensures r.None? ==> forall q :: from <= q ==> ValueStart(s, key, q).None?
    decreases |s| - from
  {
    if from >= |s| then None
    else if ValueStart(s, key, from).Some? then Some(from)
    else FirstMatch(s, key, from + 1)
  }

  /** `buffer.match(/"key"\s*:\s*"([^"]*(?:\\.[^"]*)*)"?/)`, its capture.
      The greedy `[^"]*` takes every backslash too and stops only at a
      quote or at the end, where `\\.` cannot match; the closing `"?` is
      optional. So the group never repeats and the capture is the run of
      non-quote characters after the opening quote. */
  function FieldMatch(s: string, key: string): (r: Option<string>)
    ensures r.Some? <==> FirstMatch(s, key, 0).Some?
    ensures r.Some? ==> JsStrings.Lacks(r.value, '"')
  {
    match FirstMatch(s, key, 0)
    case None => None
    case Some(p) =>
      var v := ValueStart(s, key, p).value;
      Some(s[v..RunEnd(s, v)])
  }

  /** One match of the global `"FileName"\s*:\s*"([^"]*)"`: the capture
      and the index past the closing quote. */
  datatype NameMatch = NameMatch(name: string, end: nat)

  /** The `FileName` pattern matched at exactly `p`; the closing quote is
      required. */
  function NameAt(s: string, p: nat): (r: Option<NameMatch>)
    ensures r.Some? ==> p < r.value.end <= |s| && JsStrings.Lacks(r.value.name, '"')
  {
    match ValueStart(s, "FileName", p)
    case None => None
    case Some(v) =>
      var e := RunEnd(s, v);
      if e < |s| then Some(NameMatch(s[v..e], e + 1)) else None
  }

  /** The captures of `buffer.matchAll(...)` from `from`: leftmost match,
      then the search goes on after it. */
  function NamesFrom(s: string, from: nat): (r: seq<string>)
    ensures forall i :: 0 <= i < |r| ==> JsStrings.Lacks(r[i], '"')
    decreases |s| - from
  {
    if from >= |s| then []
    else
      match NameAt(s, from)
      case Some(m) => [m.name] + NamesFrom(s, m.end)
      case None => NamesFrom(s, from + 1)
  }

  // ---------------------------------------------------------------------
  // unescapeString and escapeRegex
  // ---------------------------------------------------------------------

  /** `s.replace(/ab/g, r)` for a pattern of two plain characters `a`,
      `b`: each leftmost occurrence, without overlap, becomes `r`. */
  function ReplaceAll(s: string, a: char, b: char, r: string): (t: string)
    ensures |r| <= 2 ==> |t| <= |s|
    decreases |s|
  {
    if |s| < 2 then s
    else if s[0] == a && s[1] == b then r + ReplaceAll(s[2..], a, b, r)
    else [s[0]] + ReplaceAll(s[1..], a, b, r)
  }

  /** `unescapeString`: five replacements in a fixed order, `\"`, `\n`,
      `\r`, `\t`, and last `\\`. */
  function Unescape(s: string): (r: string)
    ensures |r| <= |s|
  {
    var s1 := ReplaceAll(s, '\\', '"', "\"");
    var s2 := ReplaceAll(s1, '\\', 'n', "\n");
    var s3 := ReplaceAll(s2, '\\', 'r', "\r");
    var s4 := ReplaceAll(s3, '\\', 't', "\t");
    ReplaceAll(s4, '\\', '\\', "\\")
  }

  /** The characters of the class `[.*+?^${}()|[\]\\]`. */
  predicate IsRegexMeta(c: char) {
    c in ".*+?^${}()|[]\\"
  }

  /** `escapeRegex`: `str.replace(/[.*+?^${}()|[\]\\]/g, '\\$&')`, one
      character at a time. */
  function EscapeRegex(s: string): (r: string)
    ensures |s| <= |r| <= 2 * |s|
  {
    if s == [] then []
    else (if IsRegexMeta(s[0]) then ['\\', s[0]] else [s[0]]) + EscapeRegex(s[1..])
  }

  /** The text a pattern matches when every character that is not a
      backslash escape stands for itself: a backslash makes the next
      character literal. */
  function UnescapeRegex(r: string): string
    decreases |r|
  {
    if r == [] then []
    else if r[0] == '\\' && |r| >= 2 then [r[1]] + UnescapeRegex(r[2..])
    else [r[0]] + UnescapeRegex(r[1..])
  }

  /** `"key"\s*:\s*"<literal>"` matched at exactly `p`. */
  predicate ClosedAt(buf: string, key: string, p: nat, literal: string) {
    match ValueStart(buf, key, p)
    case None => false
    case Some(v) => JsStrings.OccursAt(buf, literal + "\"", v)
  }

  /** `isFieldComplete(key, raw)`: the pattern built from
      `escapeRegex(raw)` occurs in the buffer; its escaped part stands for
      the text `UnescapeRegex` reads back from it. */
  predicate IsFieldComplete(buf: string, key: string, raw: string) {
    ClosedFrom(buf, key, 0, UnescapeRegex(EscapeRegex(raw)))
  }

  /** The scan of `test` over the positions from `q` on. */
  predicate ClosedFrom(buf: string, key: string, q: nat, literal: string)
    decreases |buf| + 1 - q
  {
    q <= |buf| && (ClosedAt(buf, key, q, literal) || ClosedFrom(buf, key, q + 1, literal))
  }

  // ---------------------------------------------------------------------
  // The steps of parseBuffer on the state
  // ---------------------------------------------------------------------

  /** `detectTextField`: only when no field is current. */
  function TextDetected(buf: string, st: CodeState): (r: CodeState)
    ensures r == st.(currentField := r.currentField, textVisible := r.textVisible)
    ensures r != st ==> st.currentField.None? && r.currentField == Some(TextField) && r.textVisible
  {
    if st.currentField.None? && JsStrings.Includes(buf, "\"Text\":") then
      st.(currentField := Some(TextField), textVisible := true)
    else st
  }

  /** One turn of the `forEach` over the `FileName` matches: a new file
      record for an ordinal past the list, then the name of a file not
      visible yet. */
  function NameVisited(st: CodeState, index: nat, name: string): (r: CodeState)
    requires Consistent(st) && index <= |st.files|
    ensures Consistent(r)
    ensures |r.files| == if index < |st.files| then |st.files| else index + 1
  {
    var st1 := if index >= |st.files| then
                 st.(files := st.files + [NoFields], filesVisible := st.filesVisible + [false],
                     activeFileIndex := index)
               else st;
    if !st1.filesVisible[index] then
      st1.(filesVisible := st1.filesVisible[index := true],
           files := st1.files[index := st1.files[index].(fileName := Some(name))])
    else st1
  }

  /** The `forEach` after its first `n` turns. */
  function NamesVisited(st: CodeState, names: seq<string>, n: nat): (r: CodeState)
    requires Consistent(st) && n <= |names|
    ensures Consistent(r)
    ensures |r.files| == if n <= |st.files| then |st.files| else n
  {
    if n == 0 then st
    else NameVisited(NamesVisited(st, names, n - 1), n - 1, names[n - 1])
  }

  /** `detectFileCodeField` and `detectFileTextField`. */
  function FileFieldDetected(buf: string, st: CodeState, f: Field): (r: CodeState)
    ensures r == st.(currentField := r.currentField)
    ensures r.currentField == st.currentField || (r.currentField == Some(f) && FieldMatch(buf, KeyName(f)).Some?)
  {
    if FieldMatch(buf, KeyName(f)).Some? && st.currentField != Some(f) then
      st.(currentField := Some(f))
    else st
  }

  /** `detectFileFields`. */
  function FileFieldsDetected(buf: string, st: CodeState): (r: CodeState)
    requires Consistent(st)
    ensures Consistent(r) && |st.files| <= |r.files|
  {
    var names := NamesFrom(buf, 0);
    var st1 := NamesVisited(st, names, |names|);
    if st1.activeFileIndex >= 0 then
      FileFieldDetected(buf, FileFieldDetected(buf, st1, FileCodeField), FileTextField)
    else st1
  }

  /** `detectFilesArray`. */
  function FilesArrayDetected(buf: string, st: CodeState): (r: CodeState)
    requires Consistent(st)
    ensures Consistent(r) && |st.files| <= |r.files|
    ensures !JsStrings.Includes(buf, "\"Files\":") ==> r == st
  {
    if JsStrings.Includes(buf, "\"Files\":") then FileFieldsDetected(buf, st) else st
  }

  /** `detectConclusionField`. */
  function ConclusionDetected(buf: string, st: CodeState): (r: CodeState)
    ensures r == st.(currentField := r.currentField, conclusionVisible := r.conclusionVisible)
    ensures r != st ==> r.currentField == Some(ConclusionField) && r.conclusionVisible
  {
    if JsStrings.Includes(buf, "\"Conclusion\":") && st.currentField != Some(ConclusionField) then
      st.(currentField := Some(ConclusionField), conclusionVisible := true)
    else st
  }

  /** `extractTextContent`: complete once `"Text":"<raw>"` occurs
      literally, with no space around the colon. */
  function TextExtracted(buf: string, st: CodeState): (r: CodeState)
    ensures r == st.(text := r.text, currentField := r.currentField)
    ensures FieldMatch(buf, "Text").None? ==> r == st
    ensures FieldMatch(buf, "Text").Some? ==> r.text == Some(Unescape(FieldMatch(buf, "Text").value))
  {
    match FieldMatch(buf, "Text")
    case None => st
    case Some(raw) =>
      var done := JsStrings.Includes(buf, "\"Text\":\"" + raw + "\"");
      st.(text := Some(Unescape(raw)), currentField := if done then None else st.currentField)
  }

  /** `extractFileCodeContent` and `extractFileTextContent`: the content
      goes to the active file. */
  function FileFieldExtracted(buf: string, st: CodeState, f: Field): (r: CodeState)
    requires Consistent(st)
    ensures r == st.(files := r.files, currentField := r.currentField)
    ensures |r.files| == |st.files|
    ensures r.currentField != st.currentField ==> r.currentField.None?
  {
    match FieldMatch(buf, KeyName(f))
    case None => st
    case Some(raw) =>
      if st.activeFileIndex >= 0 then
        var i := st.activeFileIndex;
        var content := Unescape(raw);
        var file := if f == FileCodeField then st.files[i].(fileCode := Some(content))
                    else st.files[i].(fileText := Some(content));
        var done := IsFieldComplete(buf, KeyName(f), raw);
        st.(files := st.files[i := file], currentField := if done then None else st.currentField)
      else st
  }

  /** `checkIfParsingComplete`. */
  function CompletionChecked(buf: string, st: CodeState): (r: CodeState)
    ensures r == st.(isComplete := r.isComplete)
    ensures r.isComplete <==> st.isComplete || JsStrings.EndsWith(JsStrings.Trim(buf), "}")
  {
    if JsStrings.EndsWith(JsStrings.Trim(buf), "}") then st.(isComplete := true) else st
  }

  /** `extractConclusionContent`. */
  function ConclusionExtracted(buf: string, st: CodeState): (r: CodeState)
    ensures r == st.(conclusion := r.conclusion, currentField := r.currentField, isComplete := r.isComplete)
    ensures FieldMatch(buf, "Conclusion").Some? ==> r.conclusion == Some(Unescape(FieldMatch(buf, "Conclusion").value))
  {
    match FieldMatch(buf, "Conclusion")
    case None => st
    case Some(raw) =>
      var st1 := st.(conclusion := Some(Unescape(raw)));
      if IsFieldComplete(buf, "Conclusion", raw) then CompletionChecked(buf, st1.(currentField := None))
      else st1
  }

  /** `extractFieldContent`. */
  function FieldContentExtracted(buf: string, st: CodeState): (r: CodeState)
    requires Consistent(st)
    ensures Consistent(r) && |r.files| == |st.files|
    ensures st.currentField.None? ==> r == st
  {
    match st.currentField
    case Some(TextField) => TextExtracted(buf, st)
    case Some(FileCodeField) => FileFieldExtracted(buf, st, FileCodeField)
    case Some(FileTextField) => FileFieldExtracted(buf, st, FileTextField)
    case Some(ConclusionField) => ConclusionExtracted(buf, st)
    case _ => st
  }

  /** `parseBuffer`: the three detections, then the content of the
      current field. */
  function Parsed(buf: string, st: CodeState): (r: CodeState)
    requires Consistent(st)
    ensures Consistent(r) && |st.files| <= |r.files|
  {
    var st1 := TextDetected(buf, st);
    var st2 := FilesArrayDetected(buf, st1);
    var st3 := ConclusionDetected(buf, st2);
    if st3.currentField.Some? then FieldContentExtracted(buf, st3) else st3
  }

  // ---------------------------------------------------------------------
  // Properties
  // ---------------------------------------------------------------------

  /** One turn of the `forEach`: an ordinal already in the list changes
      nothing, since every file there is visible; the next ordinal adds one
      record named by its match and makes it the active file. */
  lemma NameVisitedSpec(st: CodeState, index: nat, name: string)
    requires Inv(st) && index <= |st.files|
    ensures var r := NameVisited(st, index, name);
            && Inv(r)
            && (index < |st.files| ==> r == st)
            && (index == |st.files| ==>
                  r == st.(files := st.files + [NoFields.(fileName := Some(name))],
                           filesVisible := st.filesVisible + [true], activeFileIndex := index))
  {
    if index == |st.files| {
      var r := NameVisited(st, index, name);
      assert r.files == st.files + [NoFields.(fileName := Some(name))];
      assert r.filesVisible == st.filesVisible + [true];
    }
  }

  /** The `forEach` over the names: files already there are left alone,
      each new ordinal gets one record named by its match and becomes the
      active file, and nothing else changes. */
  lemma {:induction false} NamesVisitedSpec(st: CodeState, names: seq<string>, n: nat)
    requires Inv(st) && n <= |names|
    ensures var r := NamesVisited(st, names, n);
            && Inv(r)
            && |r.files| == (if n <= |st.files| then |st.files| else n)
            && (forall i :: 0 <= i < |st.files| ==> r.files[i] == st.files[i])
            && (forall i :: |st.files| <= i < n ==> r.files[i] == NoFields.(fileName := Some(names[i])))
            && r == st.(files := r.files, filesVisible := r.filesVisible, activeFileIndex := r.activeFileIndex)
  {
    if n > 0 {
      NamesVisitedSpec(st, names, n - 1);
      var prev := NamesVisited(st, names, n - 1);
      NameVisitedSpec(prev, n - 1, names[n - 1]);
    }
  }

  /** `detectFilesArray` keeps the invariant and the files already
      found, and adds one file per new `FileName` match, named by it. */
  lemma FilesArraySpec(buf: string, st: CodeState)
    requires Inv(st)
    ensures var r := FilesArrayDetected(buf, st);
            && Inv(r)
            && |st.files| <= |r.files|
            && (forall i :: 0 <= i < |st.files| ==> r.files[i] == st.files[i])
            && (forall i :: |st.files| <= i < |r.files| ==>
                  i < |NamesFrom(buf, 0)| && r.files[i] == NoFields.(fileName := Some(NamesFrom(buf, 0)[i])))
            && r.isComplete == st.isComplete
  {
    if JsStrings.Includes(buf, "\"Files\":") {
      var names := NamesFrom(buf, 0);
      NamesVisitedSpec(st, names, |names|);
      var st1 := NamesVisited(st, names, |names|);
      if st1.activeFileIndex >= 0 {
        var st2 := FileFieldDetected(buf, st1, FileCodeField);
        OnlyFieldDetected(buf, st1, FileCodeField);
        OnlyFieldDetected(buf, st2, FileTextField);
      }
    }
  }

  /** Detecting `FileCode` or `FileText` changes the current field only. */
  lemma OnlyFieldDetected(buf: string, st: CodeState, f: Field)
    ensures FileFieldDetected(buf, st, f) == st.(currentField := FileFieldDetected(buf, st, f).currentField)
  {
  }

  /** Filling in the code or text of the active file keeps the names. */
  lemma FileFieldKeepsNames(buf: string, st: CodeState, f: Field)
    requires Consistent(st)
    ensures NamesKept(st, FileFieldExtracted(buf, st, f))
    ensures FileFieldExtracted(buf, st, f).isComplete == st.isComplete
  {
    var m := FieldMatch(buf, KeyName(f));
    if m.Some? && st.activeFileIndex >= 0 {
      var r := FileFieldExtracted(buf, st, f);
      assert forall i :: 0 <= i < |st.files| && i != st.activeFileIndex ==> r.files[i] == st.files[i];
    }
  }

  /** The file list, flags and active index before and after a step that
      may only fill in the code or text of a file. */
  predicate NamesKept(a: CodeState, b: CodeState) {
    && |b.files| == |a.files|
    && b.filesVisible == a.filesVisible
    && b.activeFileIndex == a.activeFileIndex
    && (forall i :: 0 <= i < |a.files| ==> b.files[i].fileName == a.files[i].fileName)
  }

  /** `extractFieldContent` never touches the names of the files, and it
      sets `isComplete` only through `checkIfParsingComplete`. */
  lemma ExtractSpec(buf: string, st: CodeState)
    requires Consistent(st)
    ensures NamesKept(st, FieldContentExtracted(buf, st))
    ensures st.isComplete ==> FieldContentExtracted(buf, st).isComplete
    ensures FieldContentExtracted(buf, st).isComplete && !st.isComplete ==>
              && st.currentField == Some(ConclusionField)
              && FieldContentExtracted(buf, st) ==
                 CompletionChecked(buf, st.(conclusion := Some(Unescape(FieldMatch(buf, "Conclusion").value)), currentField := None))
              && FieldMatch(buf, "Conclusion").Some?
              && IsFieldComplete(buf, "Conclusion", FieldMatch(buf, "Conclusion").value)
  {
    match st.currentField
    case Some(FileCodeField) => FileFieldKeepsNames(buf, st, FileCodeField);
    case Some(FileTextField) => FileFieldKeepsNames(buf, st, FileTextField);
    case _ =>
  }

  /** A `parseBuffer` keeps the invariant, keeps every file already found,
      with its name, and names each new file after its `FileName` match. */
  lemma ParsedKeepsFiles(buf: string, st: CodeState)
    requires Inv(st)
    ensures var r := Parsed(buf, st);
            && Inv(r)
            && |st.files| <= |r.files|
            && (forall i :: 0 <= i < |st.files| ==> r.files[i].fileName == st.files[i].fileName)
            && (forall i :: |st.files| <= i < |r.files| ==>
                  i < |NamesFrom(buf, 0)| && r.files[i].fileName == Some(NamesFrom(buf, 0)[i]))
  {
    var st1 := TextDetected(buf, st);
    var st2 := FilesArrayDetected(buf, st1);
    FilesArraySpec(buf, st1);
    var st3 := ConclusionDetected(buf, st2);
    assert NamesKept(st2, st3);
    var r := Parsed(buf, st);
    assert NamesKept(st3, r) by {
      if st3.currentField.Some? {
        ExtractSpec(buf, st3);
      }
    }
    NamesKeptTrans(st2, st3, r);
  }

  /** Two steps that keep the names keep them together. */
  lemma NamesKeptTrans(a: CodeState, b: CodeState, c: CodeState)
    requires NamesKept(a, b) && NamesKept(b, c)
    ensures NamesKept(a, c)
  {
  }

  /** `detectTextField` starts the `Text` field exactly when no field is
      current and the key has arrived. */
  lemma TextStartsOnlyWhenIdle(buf: string, st: CodeState)
    ensures TextDetected(buf, st).currentField == Some(TextField) && st.currentField != Some(TextField)
            <==> st.currentField.None? && JsStrings.Includes(buf, "\"Text\":")
  {
  }

  /** `isComplete` is set only once the `Conclusion` value is complete and
      the trimmed buffer ends with `}`; once set it stays set. */
  lemma CompletionNeedsConclusion(buf: string, st: CodeState)
    requires Inv(st)
    ensures st.isComplete ==> Parsed(buf, st).isComplete
    ensures Parsed(buf, st).isComplete && !st.isComplete ==>
              && FieldMatch(buf, "Conclusion").Some?
              && IsFieldComplete(buf, "Conclusion", FieldMatch(buf, "Conclusion").value)
              && JsStrings.EndsWith(JsStrings.Trim(buf), "}")
              && Parsed(buf, st).currentField.None?
              && Parsed(buf, st).conclusion == Some(Unescape(FieldMatch(buf, "Conclusion").value))
  {
    var st1 := TextDetected(buf, st);
    FilesArraySpec(buf, st1);
    var st3 := ConclusionDetected(buf, FilesArrayDetected(buf, st1));
    assert st3.isComplete == st.isComplete;
    if st3.currentField.Some? {
      ExtractSpec(buf, st3);
    }
  }

  /** Between the key and the value there is no quote but the one that
      opens the value. */
  lemma ValueStartGap(s: string, key: string, p: nat)
    requires ValueStart(s, key, p).Some?
    ensures forall k :: p + |key| + 2 <= k < ValueStart(s, key, p).value - 1 ==> s[k] != '"'
  {
    assert !JsStrings.IsWhitespace('"');
  }

  /** The capture of the first match of a key is the run of non-quote
      characters after the opening quote of its leftmost value. */
  lemma FieldMatchSpec(buf: string, key: string, p: nat)
    requires ValueStart(buf, key, p).Some?
    requires forall r :: 0 <= r < p ==> ValueStart(buf, key, r).None?
    ensures var v := ValueStart(buf, key, p).value;
            FieldMatch(buf, key) == Some(buf[v..RunEnd(buf, v)])
  {
    assert FirstMatch(buf, key, 0) == Some(p);
  }

  /** The completeness test of the `FileCode`, `FileText` and `Conclusion`
      values holds exactly when the quote closing the leftmost value of
      the key has arrived: no later match can hold the same text followed
      by a quote. */
  lemma CompleteIffClosed(buf: string, key: string, p: nat)
    requires ValueStart(buf, key, p).Some?
    requires forall r :: 0 <= r < p ==> ValueStart(buf, key, r).None?
    ensures var v := ValueStart(buf, key, p).value;
            IsFieldComplete(buf, key, buf[v..RunEnd(buf, v)]) <==> RunEnd(buf, v) < |buf|
  {
    var v := ValueStart(buf, key, p).value;
    var raw := buf[v..RunEnd(buf, v)];
    EscapeRegexRoundTrip(raw);
    ClosedIffQuoted(buf, key, p);
  }

  /** The scan for the leftmost value followed by a quote succeeds exactly
      when that value's closing quote has arrived. */
  lemma ClosedIffQuoted(buf: string, key: string, p: nat)
    requires ValueStart(buf, key, p).Some?
    requires forall r :: 0 <= r < p ==> ValueStart(buf, key, r).None?
    ensures var v := ValueStart(buf, key, p).value;
            ClosedFrom(buf, key, 0, buf[v..RunEnd(buf, v)]) <==> RunEnd(buf, v) < |buf|
  {
    var v := ValueStart(buf, key, p).value;
    if RunEnd(buf, v) < |buf| {
      QuotedValueClosed(buf, key, p);
    } else {
      assert buf[v..RunEnd(buf, v)] == buf[v..];
      OpenValueNeverClosed(buf, key, p);
    }
  }

  /** A value whose closing quote has arrived passes the test. */
  lemma QuotedValueClosed(buf: string, key: string, p: nat)
    requires ValueStart(buf, key, p).Some? && RunEnd(buf, ValueStart(buf, key, p).value) < |buf|
    ensures var v := ValueStart(buf, key, p).value;
            ClosedFrom(buf, key, 0, buf[v..RunEnd(buf, v)])
  {
    var v := ValueStart(buf, key, p).value;
    var e := RunEnd(buf, v);
    assert ClosedAt(buf, key, p, buf[v..e]) by {
      assert buf[v..e + 1] == buf[v..e] + "\"";
    }
    ClosedFromWitness(buf, key, buf[v..e], 0, p);
  }

  /** A first value that runs to the end of the buffer fails the test. */
  lemma OpenValueNeverClosed(buf: string, key: string, p: nat)
    requires forall r :: 0 <= r < p ==> ValueStart(buf, key, r).None?
    requires ValueStart(buf, key, p).Some? && RunEnd(buf, ValueStart(buf, key, p).value) == |buf|
    ensures !ClosedFrom(buf, key, 0, buf[ValueStart(buf, key, p).value..])
  {
    var raw := buf[ValueStart(buf, key, p).value..];
    forall q | 0 <= q <= |buf|
      ensures !ClosedAt(buf, key, q, raw)
    {
      OpenValueNotClosed(buf, key, p, q);
    }
    ClosedFromNone(buf, key, raw, 0);
  }

  /** The scan finds a match at or after where it starts. */
  lemma {:induction false} ClosedFromWitness(buf: string, key: string, literal: string, from: nat, q: nat)
    requires from <= q <= |buf| && ClosedAt(buf, key, q, literal)
    ensures ClosedFrom(buf, key, from, literal)
    decreases q - from
  {
    if from < q {
      ClosedFromWitness(buf, key, literal, from + 1, q);
    }
  }

  /** The scan fails when no position matches. */
  lemma {:induction false} ClosedFromNone(buf: string, key: string, literal: string, from: nat)
    requires forall q :: from <= q <= |buf| ==> !ClosedAt(buf, key, q, literal)
    ensures !ClosedFrom(buf, key, from, literal)
    decreases |buf| + 1 - from
  {
    if from <= |buf| {
      ClosedFromNone(buf, key, literal, from + 1);
    }
  }

  /** While the first value of a key runs to the end of the buffer, no
      match of the key is followed by that value and a quote. */
  lemma OpenValueNotClosed(buf: string, key: string, p: nat, q: nat)
    requires forall r :: 0 <= r < p ==> ValueStart(buf, key, r).None?
    requires ValueStart(buf, key, p).Some? && RunEnd(buf, ValueStart(buf, key, p).value) == |buf|
    ensures !ClosedAt(buf, key, q, buf[ValueStart(buf, key, p).value..])
  {
    var v := ValueStart(buf, key, p).value;
    var raw := buf[v..];
    if ClosedAt(buf, key, q, raw) {
      var w := ValueStart(buf, key, q).value;
      assert w + |raw| < |buf| && |raw| == |buf| - v;
      ValueStartGap(buf, key, p);
    }
  }

  /** A replacement whose pattern starts with a character the string
      lacks changes nothing. */
  lemma {:induction false} ReplaceAbsent(s: string, a: char, b: char, r: string)
    requires JsStrings.Lacks(s, a)
    ensures ReplaceAll(s, a, b, r) == s
    decreases |s|
  {
    if |s| >= 2 {
      ReplaceAbsent(s[1..], a, b, r);
    }
  }

  /** A string with no backslash is left as it is by `unescapeString`. */
  lemma UnescapePlain(s: string)
    requires JsStrings.Lacks(s, '\\')
    ensures Unescape(s) == s
  {
    ReplaceAbsent(s, '\\', '"', "\"");
    ReplaceAbsent(s, '\\', 'n', "\n");
    ReplaceAbsent(s, '\\', 'r', "\r");
    ReplaceAbsent(s, '\\', 't', "\t");
    ReplaceAbsent(s, '\\', '\\', "\\");
  }

  /** The characters a JSON writer escapes with a letter, and the letter. */
  function EscapeLetter(c: char): char {
    if c == '"' then '"' else if c == '\n' then 'n' else if c == '\r' then 'r' else if c == '\t' then 't' else c
  }

  /** Each character of `t` that is in `chars` written as a backslash and
      its letter. */
  function EscapeIn(t: string, chars: set<char>): (r: string)
    ensures chars == {} ==> r == t
  {
    if t == [] then []
    else (if t[0] in chars then ['\\', EscapeLetter(t[0])] else [t[0]]) + EscapeIn(t[1..], chars)
  }

  /** How a JSON writer escapes a string with no backslash in it. */
  function JsonEscape(t: string): string {
    EscapeIn(t, {'"', '\n', '\r', '\t'})
  }

  /** A character other than a backslash passes through a replacement
      whose pattern starts with a backslash. */
  lemma ReplacePassesChar(x: char, rest: string, b: char, r: string)
    requires x != '\\'
    ensures ReplaceAll([x] + rest, '\\', b, r) == [x] + ReplaceAll(rest, '\\', b, r)
  {
    assert ([x] + rest)[1..] == rest;
  }

  /** An escape pair is replaced when it is the pattern and passed through
      otherwise. */
  lemma ReplacePair(c: char, rest: string, b: char, r: string)
    requires c != '\\'
    ensures ReplaceAll(['\\', c] + rest, '\\', b, r) ==
            if b == c then r + ReplaceAll(rest, '\\', b, r) else ['\\', c] + ReplaceAll(rest, '\\', b, r)
  {
    var s := ['\\', c] + rest;
    assert s[0] == '\\' && s[1] == c && |s| >= 2;
    if b == c {
      assert s[2..] == rest;
    } else {
      assert s[1..] == [c] + rest;
      assert ReplaceAll(s, '\\', b, r) == ['\\'] + ReplaceAll([c] + rest, '\\', b, r);
      ReplacePassesChar(c, rest, b, r);
    }
  }

  /** One replacement of `unescapeString` undoes the escape of one
      character. */
  lemma {:induction false} ReplaceUndoesEscape(t: string, chars: set<char>, c: char)
    requires JsStrings.Lacks(t, '\\') && c in chars
    requires forall x :: x in chars ==> x in {'"', '\n', '\r', '\t'}
    ensures ReplaceAll(EscapeIn(t, chars), '\\', EscapeLetter(c), [c]) == EscapeIn(t, chars - {c})
    decreases |t|
  {
    if t != [] {
      var rest := EscapeIn(t[1..], chars);
      ReplaceUndoesEscape(t[1..], chars, c);
      if t[0] in chars {
        ReplacePair(EscapeLetter(t[0]), rest, EscapeLetter(c), [c]);
      } else {
        ReplacePassesChar(t[0], rest, EscapeLetter(c), [c]);
      }
    }
  }

  /** `unescapeString` inverts the JSON escape of a string with no
      backslash. */
  lemma UnescapeInvertsEscape(t: string)
    requires JsStrings.Lacks(t, '\\')
    ensures Unescape(JsonEscape(t)) == t
  {
    var all := {'"', '\n', '\r', '\t'};
    ReplaceUndoesEscape(t, all, '"');
    assert all - {'"'} == {'\n', '\r', '\t'};
    ReplaceUndoesEscape(t, {'\n', '\r', '\t'}, '\n');
    assert {'\n', '\r', '\t'} - {'\n'} == {'\r', '\t'};
    ReplaceUndoesEscape(t, {'\r', '\t'}, '\r');
    assert {'\r', '\t'} - {'\r'} == {'\t'};
    ReplaceUndoesEscape(t, {'\t'}, '\t');
    assert {'\t'} - {'\t'} == {};
    ReplaceAbsent(t, '\\', '\\', "\\");
  }

  /** Because `\n` is replaced before `\\`, an escaped backslash followed
      by `n` becomes a backslash and a newline, where a JSON reader gives
      a backslash and `n`. */
  lemma UnescapeOrder()
    ensures Unescape("\\\\n") == "\\\n"
  {
    var s := "\\\\n";
    assert ReplaceAll(s[1..], '\\', '"', "\"") == s[1..] by {
      assert s[1..][1..] == "n";
    }
    assert ReplaceAll(s, '\\', '"', "\"") == s;
    assert ReplaceAll(s[1..], '\\', 'n', "\n") == "\n";
    assert ReplaceAll(s, '\\', 'n', "\n") == "\\\n";
    var t := "\\\n";
    assert t[1..] == "\n";
    assert ReplaceAll(t, '\\', 'r', "\r") == t;
    assert ReplaceAll(t, '\\', 't', "\t") == t;
    assert ReplaceAll(t, '\\', '\\', "\\") == t;
  }

  /** `escapeRegex` works character by character. */
  lemma {:induction false} EscapeRegexAppend(a: string, b: string)
    ensures EscapeRegex(a + b) == EscapeRegex(a) + EscapeRegex(b)
    decreases |a|
  {
    if a == [] {
      assert a + b == b;
    } else {
      assert (a + b)[0] == a[0] && (a + b)[1..] == a[1..] + b;
      EscapeRegexAppend(a[1..], b);
    }
  }

  /** Reading the escaped pattern back gives the text: the escaped
      pattern stands for exactly `raw`. */
  lemma {:induction false} EscapeRegexRoundTrip(s: string)
    ensures UnescapeRegex(EscapeRegex(s)) == s
    decreases |s|
  {
    if s != [] {
      EscapeRegexRoundTrip(s[1..]);
      var e := EscapeRegex(s);
      if IsRegexMeta(s[0]) {
        assert e[0] == '\\' && e[1] == s[0] && e[2..] == EscapeRegex(s[1..]);
      } else {
        assert s[0] != '\\';
        assert e[0] == s[0] && e[1..] == EscapeRegex(s[1..]);
      }
    }
  }

  /** A string with no metacharacter is its own pattern. */
  lemma {:induction false} EscapeRegexPlain(s: string)
    requires forall k :: 0 <= k < |s| ==> !IsRegexMeta(s[k])
    ensures EscapeRegex(s) == s
    decreases |s|
  {
    if s != [] {
      EscapeRegexPlain(s[1..]);
    }
  }

  // ---------------------------------------------------------------------
  // The parser object
  // ---------------------------------------------------------------------

  /** `StreamingJsonParser`, its state spread into fields. */
  class StreamingJsonParser {
    var buffer: string
    var currentField: Option<Field>
    var text: Option<string>
    var files: seq<FileFields>
    var conclusion: Option<string>
    var activeFileIndex: int
    var textVisible: bool
    var filesVisible: seq<bool>
    var conclusionVisible: bool
    var isComplete: bool

    /** `{ ...this.state }`. */
    function State(): CodeState
      reads this
    {
      CodeState(currentField, text, files, conclusion, activeFileIndex, textVisible, filesVisible,
                conclusionVisible, isComplete)
    }

    ghost predicate Valid()
      reads this
    {
      Inv(State())
    }

    constructor()
      ensures buffer == "" && State() == InitialState() && Valid()
    {
      buffer := "";
      currentField, text, files, conclusion := None, None, [], None;
      activeFileIndex := -1;
      textVisible, filesVisible, conclusionVisible, isComplete := false, [], false, false;
    }

    /** `processChunk`: append the chunk, parse the whole buffer again,
        return a copy of the state. */
    method ProcessChunk(chunk: string) returns (r: CodeState)
      requires Valid()
      modifies this
      ensures Valid()
      ensures buffer == old(buffer) + chunk
      ensures State() == Parsed(buffer, old(State()))
      ensures r == State()
    {
      buffer := buffer + chunk;
      ParseBuffer();
      r := State();
    }

    method ParseBuffer()
      requires Valid()
      modifies this
      ensures Valid()
      ensures buffer == old(buffer) && State() == Parsed(buffer, old(State()))
    {
      ParsedKeepsFiles(buffer, State());
      DetectTextField();
      DetectFilesArray();
      DetectConclusionField();
      if currentField.Some? {
        ExtractFieldContent();
      }
    }

    method DetectTextField()
      modifies this
      ensures buffer == old(buffer) && State() == TextDetected(buffer, old(State()))
    {
      if currentField.None? && JsStrings.Includes(buffer, "\"Text\":") {
        currentField := Some(TextField);
        textVisible := true;
      }
    }

    method DetectFilesArray()
      requires Consistent(State())
      modifies this
      ensures buffer == old(buffer) && State() == FilesArrayDetected(buffer, old(State()))
    {
      if JsStrings.Includes(buffer, "\"Files\":") {
        DetectFileFields();
      }
    }

    /** `detectFileFields`: the `forEach` over the `FileName` matches, then
        the `FileCode` and `FileText` keys when a file is active. */
    method DetectFileFields()
      requires Consistent(State())
      modifies this
      ensures buffer == old(buffer) && State() == FileFieldsDetected(buffer, old(State()))
    {
      var fileNameMatches := NamesFrom(buffer, 0);
      ghost var start := State();
      var index := 0;
      while index < |fileNameMatches|
        invariant index <= |fileNameMatches| && buffer == old(buffer)
        invariant State() == NamesVisited(start, fileNameMatches, index)
      {
        VisitName(index, fileNameMatches[index]);
        index := index + 1;
      }
      if activeFileIndex >= 0 {
        DetectFileField(FileCodeField);
        DetectFileField(FileTextField);
      }
    }

    /** The callback of the `forEach`: a new record for an ordinal past
        the list, made the active file, then the name of a file not
        visible yet. */
    method VisitName(index: nat, name: string)
      requires Consistent(State()) && index <= |files|
      modifies this
      ensures buffer == old(buffer) && State() == NameVisited(old(State()), index, name)
    {
      if index >= |files| {
        files := files + [NoFields];
        filesVisible := filesVisible + [false];
        activeFileIndex := index;
      }
      if !filesVisible[index] {
        filesVisible := filesVisible[index := true];
        files := files[index := files[index].(fileName := Some(name))];
      }
    }

    /** `detectFileCodeField` for `FileCodeField`, `detectFileTextField`
        for `FileTextField`. */
    method DetectFileField(f: Field)
      modifies this
      ensures buffer == old(buffer) && State() == FileFieldDetected(buffer, old(State()), f)
    {
      var m := FieldMatch(buffer, KeyName(f));
      if m.Some? && currentField != Some(f) {
        currentField := Some(f);
      }
    }

    method DetectConclusionField()
      modifies this
      ensures buffer == old(buffer) && State() == ConclusionDetected(buffer, old(State()))
    {
      if JsStrings.Includes(buffer, "\"Conclusion\":") && currentField != Some(ConclusionField) {
        currentField := Some(ConclusionField);
        conclusionVisible := true;
      }
    }

    method ExtractFieldContent()
      requires Consistent(State())
      modifies this
      ensures buffer == old(buffer) && State() == FieldContentExtracted(buffer, old(State()))
    {
      match currentField
      case Some(TextField) => ExtractTextContent();
      case Some(FileCodeField) => ExtractFileField(FileCodeField);
      case Some(FileTextField) => ExtractFileField(FileTextField);
      case Some(ConclusionField) => ExtractConclusionContent();
      case _ =>
    }

    method ExtractTextContent()
      modifies this
      ensures buffer == old(buffer) && State() == TextExtracted(buffer, old(State()))
    {
      var m := FieldMatch(buffer, "Text");
      if m.Some? {
        var content := Unescape(m.value);
        text := Some(content);
        var complete := JsStrings.Includes(buffer, "\"Text\":\"" + m.value + "\"");
        if complete {
          currentField := None;
        }
      }
    }

    /** `extractFileCodeContent` for `FileCodeField`,
        `extractFileTextContent` for `FileTextField`. */
    method ExtractFileField(f: Field)
      requires Consistent(State())
      modifies this
      ensures buffer == old(buffer) && State() == FileFieldExtracted(buffer, old(State()), f)
    {
      var m := FieldMatch(buffer, KeyName(f));
      if m.Some? && activeFileIndex >= 0 {
        var content := Unescape(m.value);
        if f == FileCodeField {
          files := files[activeFileIndex := files[activeFileIndex].(fileCode := Some(content))];
        } else {
          files := files[activeFileIndex := files[activeFileIndex].(fileText := Some(content))];
        }
        var complete := IsFieldComplete(buffer, KeyName(f), m.value);
        if complete {
          currentField := None;
        }
      }
    }

    method ExtractConclusionContent()
      modifies this
      ensures buffer == old(buffer) && State() == ConclusionExtracted(buffer, old(State()))
    {
      var m := FieldMatch(buffer, "Conclusion");
      if m.Some? {
        var content := Unescape(m.value);
        conclusion := Some(content);
        var complete := IsFieldComplete(buffer, "Conclusion", m.value);
        if complete {
          currentField := None;
          CheckIfParsingComplete();
        }
      }
    }

    method CheckIfParsingComplete()
      modifies this
      ensures buffer == old(buffer) && State() == CompletionChecked(buffer, old(State()))
    {
      if JsStrings.EndsWith(JsStrings.Trim(buffer), "}") {
        isComplete := true;
      }
    }

    /** `reset`. */
    method Reset()
      modifies this
      ensures buffer == "" && State() == InitialState() && Valid()
    {
      buffer := "";
      currentField, text, files, conclusion := None, None, [], None;
      activeFileIndex := -1;
      textVisible, filesVisible, conclusionVisible, isComplete := false, [], false, false;
    }

    /** `getState`. */
    method GetState() returns (r: CodeState)
      ensures r == State()
    {
      r := State();
    }
  }
}
