/** The "code mode" field decoder of `src/lib/stream-processor.ts`.

    A `StreamProcessor` is fed delta chunks. It keeps the unconsumed text in
    `buffer` and runs a three-state machine over it: looking for the next key
    (`Idle`), streaming a string value with JSON escape decoding
    (`StreamingValue`), or swallowing a tool-call object by brace counting
    (`ParsingToolCall`). The callbacks of the source are modelled as the list
    of events each call returns; `JSON.parse` is a function parameter. */
module FieldStream {
  import opened JsStrings
  import opened Wrappers

  datatype State = Idle | StreamingValue | ParsingToolCall

  /** The field whose value is being streamed; `NoKey` is the initial `''`. */
  datatype Key = NoKey | Text | FileName | FileVersion | FileCode | FileText | Conclusion

  /** Where a tool call sits relative to the surrounding content. */
  datatype Position = AfterText | AfterFile | BeforeConclusion

  /** What `JSON.parse` makes of the collected tool-call text: it throws
      (`Malformed`), or it yields an object whose `tool_name` and `query`
      are given as strings, the empty string standing for a missing or
      falsy member. */
  datatype ToolJson = Malformed | Parsed(toolName: string, query: string)

  /** One callback invocation. */
  datatype Event =
    | FileStart(index: int)
    | TextChunk(chunk: string)
    | FileNameChunk(chunk: string, index: int)
    | FileVersionChunk(chunk: string, index: int)
    | FileCodeChunk(chunk: string, index: int)
    | FileTextChunk(chunk: string, index: int)
    | ConclusionChunk(chunk: string)
    | ToolCall(name: string, query: string, position: Position, fileIndex: Option<int>)
    | Complete

  /** The fields of a `StreamProcessor`, as a value. */
  datatype Machine = Machine(
    state: State,
    buffer: string,
    currentKey: Key,
    fileIndex: int,
    toolCallBuffer: string,
    toolCallPosition: Option<Position>,
    pendingFileIndexForTool: int)

  const Initial: Machine := Machine(Idle, "", NoKey, -1, "", None, -1)

  const FieldKeys: seq<Key> := [Text, FileName, FileVersion, FileCode, FileText, Conclusion]
  const MarkerKeys: seq<Position> := [AfterText, AfterFile, BeforeConclusion]

  function KeyName(k: Key): string {
    match k
    case NoKey => ""
    case Text => "Text"
    case FileName => "FileName"
    case FileVersion => "FileVersion"
    case FileCode => "FileCode"
    case FileText => "FileText"
    case Conclusion => "Conclusion"
  }

  function MarkerName(p: Position): string {
    match p
    case AfterText => "tool_after_text"
    case AfterFile => "tool_after_file"
    case BeforeConclusion => "tool_before_conclusion"
  }

  // ---------------------------------------------------------------------
  // The two key patterns, matched by hand:
  //   .{1}"(tool_after_text|tool_after_file|tool_before_conclusion)"\s*:\s*\{
  //   .{1}"(Text|FileName|FileVersion|FileCode|FileText|Conclusion)"\s*:\s*"
  // ---------------------------------------------------------------------

  /** A match of a key pattern: where it starts, which alternative matched
      and the index just past it. */
  datatype Match<T> = Match(start: nat, what: T, end: nat)

  function SkipWs(s: string, q: nat): (r: nat)
    requires q <= |s|
    ensures q <= r <= |s|
    ensures forall k :: q <= k < r ==> IsWhitespace(s[k])
    ensures r < |s| ==> !IsWhitespace(s[r])
    decreases |s| - q
  {
    if q < |s| && IsWhitespace(s[q]) then SkipWs(s, q + 1) else q
  }

  /** `\s*:\s*` followed by `open`, read from index `q`; the index past `open`. */
  function ColonThen(s: string, q: nat, open: char): (r: Option<nat>)
    requires q <= |s|
    ensures r.Some? ==> q < r.value <= |s| && s[r.value - 1] == open
  {
    var a := SkipWs(s, q);
    if a < |s| && s[a] == ':' then
      var b := SkipWs(s, a + 1);
      if b < |s| && s[b] == open then Some(b + 1) else None
    else None
  }

  /** `.{1}"name"` at `p`: one character that `.` accepts, then the quoted
      name; the index past the closing quote. */
  function QuotedNameAt(s: string, p: nat, name: string): (r: Option<nat>)
    ensures r.Some? ==> p + 3 + |name| == r.value <= |s|
  {
    if p + 3 + |name| <= |s| && !IsLineTerminator(s[p]) && s[p + 1] == '"'
       && s[p + 2..p + 2 + |name|] == name && s[p + 2 + |name|] == '"'
    then Some(p + 3 + |name|)
    else None
  }

  /** The pattern with alternatives `alts` matched at exactly `p`, trying the
      alternatives in order as a backtracking regex engine does. */
  function AltAt<T>(s: string, p: nat, alts: seq<T>, name: T -> string, open: char): (r: Option<Match<T>>)
    ensures r.Some? ==> r.value.start == p && p < r.value.end <= |s| && r.value.what in alts
    ensures r.Some? ==> s[r.value.end - 1] == open
  {
    if alts == [] then None
    else
      var q := QuotedNameAt(s, p, name(alts[0]));
      var e := if q.Some? then ColonThen(s, q.value, open) else None;
      if e.Some? then Some(Match(p, alts[0], e.value))
      else AltAt(s, p, alts[1..], name, open)
  }

  /** The leftmost match at or after `p`, as `String.prototype.match` finds it. */
  function FindFrom<T>(s: string, p: nat, alts: seq<T>, name: T -> string, open: char): (r: Option<Match<T>>)
    ensures r.Some? ==> p <= r.value.start && AltAt(s, r.value.start, alts, name, open) == r
    ensures r.Some? ==> forall q :: p <= q < r.value.start ==> AltAt(s, q, alts, name, open).None?
    ensures r.None? ==> forall q :: p <= q < |s| ==> AltAt(s, q, alts, name, open).None?
    decreases |s| - p
  {
    if p >= |s| then None
    else
      var m := AltAt(s, p, alts, name, open);
      if m.Some? then m else FindFrom(s, p + 1, alts, name, open)
  }

  /** A tool marker: it ends with the opening brace of the call.
      `FindLeftmost` says it is the first one. */
  function FindToolMarker(s: string): (r: Option<Match<Position>>)
    ensures r.Some? ==> r.value.start < r.value.end <= |s| && s[r.value.end - 1] == '{'
  {
    FindFrom(s, 0, MarkerKeys, MarkerName, '{')
  }

  /** A field key: it ends with the opening quote of the value and is never
      `NoKey`. `FindLeftmost` says it is the first one. */
  function FindKey(s: string): (r: Option<Match<Key>>)
    ensures r.Some? ==> r.value.start < r.value.end <= |s| && s[r.value.end - 1] == '"' && r.value.what != NoKey
  {
    FindFrom(s, 0, FieldKeys, KeyName, '"')
  }

  /** Both searches find the leftmost match, and `None` only when the
      pattern matches nowhere. */
  lemma FindLeftmost(s: string)
    ensures var r := FindToolMarker(s);
            && (r.Some? ==> forall q :: 0 <= q < r.value.start ==> AltAt(s, q, MarkerKeys, MarkerName, '{').None?)
            && (r.None? ==> forall q :: 0 <= q < |s| ==> AltAt(s, q, MarkerKeys, MarkerName, '{').None?)
    ensures var r := FindKey(s);
            && (r.Some? ==> forall q :: 0 <= q < r.value.start ==> AltAt(s, q, FieldKeys, KeyName, '"').None?)
            && (r.None? ==> forall q :: 0 <= q < |s| ==> AltAt(s, q, FieldKeys, KeyName, '"').None?)
  {
  }

  // ---------------------------------------------------------------------
  // String values
  // ---------------------------------------------------------------------

  /** The text an escape `\c` contributes: four escapes are decoded, any
      other one is kept as the backslash and the character. */
  function DecodeEscape(c: char): (r: string)
    ensures |r| == 1 <==> c in "nt\"\\"
    ensures |r| != 1 ==> r == ['\\', c]
  {
    match c
    case 'n' => "\n"
    case 't' => "\t"
    case '"' => "\""
    case '\\' => "\\"
    case _ => ['\\', c]
  }

  /** Outcome of one pass of the value loop: the decoded text, what is left
      in the buffer, and whether the closing quote was consumed. */
  datatype ValueScan = ValueScan(chunk: string, rest: string, endFound: bool)

  /** The value loop: decode characters up to the first unescaped quote; a
      backslash that is the last character is left in the buffer. */
  function ScanValue(buf: string): (r: ValueScan)
    ensures |r.rest| <= |buf|
    ensures r.endFound ==> |r.rest| < |buf|
    ensures !r.endFound ==> r.rest == [] || r.rest == "\\"
    decreases |buf|
  {
    if buf == [] then ValueScan([], [], false)
    else if buf[0] == '\\' then
      if |buf| == 1 then ValueScan([], buf, false)
      else
        var r := ScanValue(buf[2..]);
        ValueScan(DecodeEscape(buf[1]) + r.chunk, r.rest, r.endFound)
    else if buf[0] == '"' then ValueScan([], buf[1..], true)
    else
      var r := ScanValue(buf[1..]);
      ValueScan([buf[0]] + r.chunk, r.rest, r.endFound)
  }

  /** The escaped form a JSON encoder gives a value (for the four escapes
      the decoder knows). */
  function EncodeChar(c: char): string {
    if c == '"' then "\\\""
    else if c == '\\' then "\\\\"
    else if c == '\n' then "\\n"
    else if c == '\t' then "\\t"
    else [c]
  }

  function Encode(v: string): string {
    if v == [] then [] else EncodeChar(v[0]) + Encode(v[1..])
  }

  /** The value loop only consumes: what it leaves is a suffix of its input. */
  lemma {:induction false} ScanValueLeavesSuffix(buf: string)
    ensures var r := ScanValue(buf); r.rest == buf[|buf| - |r.rest|..]
    decreases |buf|
  {
    if buf != [] && buf[0] != '"' && !(buf[0] == '\\' && |buf| == 1) {
      var n := if buf[0] == '\\' then 2 else 1;
      ScanValueLeavesSuffix(buf[n..]);
      ScanValueHead(buf, n);
      var r := ScanValue(buf[n..]);
      assert buf[n..][|buf[n..]| - |r.rest|..] == buf[|buf| - |r.rest|..];
    }
  }

  /** Each character encodes as itself (when it is neither the quote nor the
      backslash) or as a backslash escape that decodes back to it. */
  lemma EncodeCharShape(c: char)
    ensures var e := EncodeChar(c);
            (e == [c] && c != '"' && c != '\\') ||
            (|e| == 2 && e[0] == '\\' && DecodeEscape(e[1]) == [c])
  {
  }

  /** One step of the value loop, for a first character that is neither
      the quote nor a dangling backslash. */
  lemma ScanValueHead(a: string, n: nat)
    requires 0 < |a| && a[0] != '"' && n == (if a[0] == '\\' then 2 else 1) && n <= |a|
    ensures ScanValue(a) == ValueScan(HeadText(a, n) + ScanValue(a[n..]).chunk, ScanValue(a[n..]).rest, ScanValue(a[n..]).endFound)
  {
  }

  /** Decoding an encoded value and its closing quote yields the value and
      stops right after the quote. */
  lemma {:induction false} ScanEncoded(v: string, tail: string)
    ensures ScanValue(Encode(v) + "\"" + tail) == ValueScan(v, tail, true)
  {
    if v == [] {
      assert Encode(v) + "\"" + tail == ['"'] + tail;
    } else {
      var c := v[0];
      var e := EncodeChar(c);
      var rest := Encode(v[1..]) + "\"" + tail;
      var buf := e + rest;
      assert Encode(v) + "\"" + tail == buf;
      EncodeCharShape(c);
      ScanEncoded(v[1..], tail);
      assert ScanValue(buf) == ValueScan([c] + v[1..], tail, true) by {
        ScanValueHead(buf, |e|);
        assert buf[|e|..] == rest;
      }
      assert [c] + v[1..] == v;
    }
  }

  /** Scanning a buffer in two pieces decodes the same text as scanning it
      whole: whatever the first pass leaves unconsumed (nothing, or a
      dangling backslash) is prepended to the second piece. */
  lemma {:induction false} ScanValueSplit(a: string, b: string)
    requires !ScanValue(a).endFound
    ensures var first := ScanValue(a);
            var second := ScanValue(first.rest + b);
            ScanValue(a + b) == ValueScan(first.chunk + second.chunk, second.rest, second.endFound)
    decreases |a|
  {
    if a == [] {
      assert a + b == b;
    } else if a[0] == '\\' && |a| == 1 {
      assert ScanValue(a) == ValueScan([], a, false);
    } else {
      var n := if a[0] == '\\' then 2 else 1;
      ScanValueUnfold(a, b, n);
      ScanValueSplit(a[n..], b);
      var inner := ScanValue(a[n..]);
      var second := ScanValue(inner.rest + b);
      SeqAssoc(HeadText(a, n), inner.chunk, second.chunk);
    }
  }

  /** The text the first `n` characters of a value decode to. */
  function HeadText(a: string, n: nat): string
    requires 0 < n <= |a|
  {
    if n == 2 then DecodeEscape(a[1]) else [a[0]]
  }

  lemma SeqAssoc(x: string, y: string, z: string)
    ensures (x + y) + z == x + (y + z)
  {
  }

  /** One step of the value loop over `a` and over `a + b`, for a first
      character that is neither the quote nor a dangling backslash. */
  lemma ScanValueUnfold(a: string, b: string, n: nat)
    requires 0 < |a| && a[0] != '"' && n == (if a[0] == '\\' then 2 else 1) && n <= |a|
    ensures ScanValue(a) == ValueScan(HeadText(a, n) + ScanValue(a[n..]).chunk, ScanValue(a[n..]).rest, ScanValue(a[n..]).endFound)
    ensures ScanValue(a + b) == ValueScan(HeadText(a, n) + ScanValue(a[n..] + b).chunk, ScanValue(a[n..] + b).rest, ScanValue(a[n..] + b).endFound)
  {
    assert (a + b)[n..] == a[n..] + b;
  }

  /** Corollary: an encoded value cut anywhere (even between a backslash and
      the character it escapes) decodes to the value over two passes. */
  lemma EncodedValueAnySplit(v: string, k: nat, tail: string)
    requires k <= |Encode(v)|
    ensures var whole := Encode(v) + "\"" + tail;
            var first := ScanValue(whole[..k]);
            !first.endFound &&
            first.chunk + ScanValue(first.rest + whole[k..]).chunk == v &&
            ScanValue(first.rest + whole[k..]).endFound
  {
    var whole := Encode(v) + "\"" + tail;
    var a, b := whole[..k], whole[k..];
    assert !ScanValue(a).endFound by {
      assert a == Encode(v)[..k];
      EncodedPrefixOpen(v, k);
    }
    assert ScanValue(a + b) == ValueScan(v, tail, true) by {
      assert a + b == whole;
      ScanEncoded(v, tail);
    }
    ScanValueSplit(a, b);
  }

  /** No proper or full prefix of an encoded value contains an unescaped quote. */
  lemma {:induction false} EncodedPrefixOpen(v: string, k: nat)
    requires k <= |Encode(v)|
    ensures !ScanValue(Encode(v)[..k]).endFound
  {
    if v != [] && k > 0 {
      var c := v[0];
      var e := EncodeChar(c);
      var t := Encode(v[1..]);
      var p := Encode(v)[..k];
      EncodeCharShape(c);
      assert Encode(v) == e + t;
      if |e| == 2 && k == 1 {
        assert p == ['\\'];
      } else {
        var n := |e|;
        assert p[n..] == t[..k - n];
        EncodedPrefixOpen(v[1..], k - n);
        ScanValueHead(p, n);
      }
    }
  }

  // ---------------------------------------------------------------------
  // Tool-call objects
  // ---------------------------------------------------------------------

  /** Net brace depth of a text: opening minus closing braces. */
  function Depth(t: string): int {
    if t == [] then 0
    else Depth(t[..|t| - 1]) + (if t[|t| - 1] == '{' then 1 else if t[|t| - 1] == '}' then -1 else 0)
  }

  /** The brace-counting loop from index `i` with count `depth`: the index
      where it stops and the count it stops with. */
  function BraceScan(s: string, i: nat, depth: int): (r: (nat, int))
    requires i <= |s|
    ensures i <= r.0 <= |s|
    ensures depth > 0 && i < |s| ==> i < r.0
    ensures depth > 0 ==> r.1 >= 0 && (r.1 > 0 ==> r.0 == |s|)
    decreases |s| - i
  {
    if i >= |s| || depth <= 0 then (i, depth)
    else
      var d := if s[i] == '{' then depth + 1 else if s[i] == '}' then depth - 1 else depth;
      BraceScan(s, i + 1, d)
  }

  /** The loop stops at the first point where the text read so far, after
      the opening brace, balances; if it never does, it reads everything. */
  lemma {:induction false} BraceScanFirstBalance(s: string, i: nat, depth: int)
    requires i <= |s| && depth > 0 && depth == 1 + Depth(s[..i])
    requires forall k :: 0 <= k <= i ==> 1 + Depth(s[..k]) > 0
    ensures var (e, d) := BraceScan(s, i, depth);
            d == 1 + Depth(s[..e]) &&
            (forall k :: 0 <= k < e ==> 1 + Depth(s[..k]) > 0) &&
            (d > 0 ==> e == |s|) && (d <= 0 ==> d == 0)
    decreases |s| - i
  {
    if i < |s| {
      assert s[..i + 1][..i] == s[..i];
      var d := if s[i] == '{' then depth + 1 else if s[i] == '}' then depth - 1 else depth;
      assert d == 1 + Depth(s[..i + 1]);
      if d > 0 {
        BraceScanFirstBalance(s, i + 1, d);
      }
    }
  }

  /** What `parseToolCall` does: on a successful parse it reports the call
      (when name, query and position are present) and always returns to
      `Idle`; on a failed parse nothing changes. */
  function FinishToolCall(m: Machine, parse: string -> ToolJson): (r: (Machine, seq<Event>))
    ensures parse(m.toolCallBuffer).Malformed? ==> r == (m, [])
    ensures parse(m.toolCallBuffer).Parsed? ==>
              r.0 == m.(state := Idle, toolCallBuffer := "", toolCallPosition := None, pendingFileIndexForTool := -1)
    ensures |r.1| <= 1
    ensures r.1 != [] ==>
              var j := parse(m.toolCallBuffer);
              j.Parsed? && j.toolName != "" && j.query != "" && m.toolCallPosition.Some? &&
              r.1[0] == ToolCall(j.toolName, j.query, m.toolCallPosition.value,
                                 if m.pendingFileIndexForTool >= 0 then Some(m.pendingFileIndexForTool) else None)
    ensures (parse(m.toolCallBuffer).Parsed? && parse(m.toolCallBuffer).toolName != "" &&
             parse(m.toolCallBuffer).query != "" && m.toolCallPosition.Some?) ==> r.1 != []
  {
    match parse(m.toolCallBuffer)
    case Malformed => (m, [])
    case Parsed(name, query) =>
      var events :=
        if name != "" && query != "" && m.toolCallPosition.Some? then
          [ToolCall(name, query, m.toolCallPosition.value,
                    if m.pendingFileIndexForTool >= 0 then Some(m.pendingFileIndexForTool) else None)]
        else [];
      (m.(state := Idle, toolCallBuffer := "", toolCallPosition := None, pendingFileIndexForTool := -1), events)
  }

  /** One pass in `ParsingToolCall`: move characters into `toolCallBuffer`
      until the count, restarted at 1, reaches 0; then try to parse. When
      the braces never balance, everything read waits in `toolCallBuffer`;
      when they do, the text up to the balancing brace joins it and the
      call is parsed and reported as `FinishToolCall` says. */
  function ToolCallStep(m: Machine, parse: string -> ToolJson): (r: (Machine, seq<Event>))
    requires |m.buffer| > 0
    ensures |r.0.buffer| < |m.buffer|
    ensures forall e :: e in r.1 ==> e.ToolCall?
    ensures var (end, depth) := BraceScan(m.buffer, 0, 1);
            r.0.buffer == m.buffer[end..] &&
            (depth != 0 ==> r == (m.(buffer := [], toolCallBuffer := m.toolCallBuffer + m.buffer), []))
    ensures var (end, depth) := BraceScan(m.buffer, 0, 1);
            depth == 0 ==>
              r == FinishToolCall(m.(buffer := m.buffer[end..], toolCallBuffer := m.toolCallBuffer + m.buffer[..end]), parse)
  {
    var (end, depth) := BraceScan(m.buffer, 0, 1);
    assert depth != 0 ==> m.buffer[..end] == m.buffer;
    var m1 := m.(buffer := m.buffer[end..], toolCallBuffer := m.toolCallBuffer + m.buffer[..end]);
    if depth == 0 then FinishToolCall(m1, parse) else (m1, [])
  }

  // ---------------------------------------------------------------------
  // The outer loop
  // ---------------------------------------------------------------------

  /** `emitChunk`: route a non-empty decoded chunk to the callback of the
      current key, with the file index for the four file fields. */
  function EmitChunk(key: Key, chunk: string, fileIndex: int): (r: seq<Event>)
    ensures r == [] <==> chunk == [] || key == NoKey
    ensures |r| <= 1
    ensures key == Text && chunk != [] ==> r == [TextChunk(chunk)]
    ensures key == Conclusion && chunk != [] ==> r == [ConclusionChunk(chunk)]
    ensures key == FileName && chunk != [] ==> r == [FileNameChunk(chunk, fileIndex)]
    ensures key == FileVersion && chunk != [] ==> r == [FileVersionChunk(chunk, fileIndex)]
    ensures key == FileCode && chunk != [] ==> r == [FileCodeChunk(chunk, fileIndex)]
    ensures key == FileText && chunk != [] ==> r == [FileTextChunk(chunk, fileIndex)]
  {
    if chunk == [] then []
    else
      match key
      case NoKey => []
      case Text => [TextChunk(chunk)]
      case FileName => [FileNameChunk(chunk, fileIndex)]
      case FileCode => [FileCodeChunk(chunk, fileIndex)]
      case FileText => [FileTextChunk(chunk, fileIndex)]
      case Conclusion => [ConclusionChunk(chunk)]
      case FileVersion => [FileVersionChunk(chunk, fileIndex)]
  }

  /** Leaving `Idle` for a string value: consume the matched key; a
      `FileName` key first advances the file index and announces it. */
  function EnterValue(m: Machine, km: Match<Key>): (r: (Machine, seq<Event>))
    requires km.end <= |m.buffer|
    ensures r.0.state == StreamingValue && r.0.currentKey == km.what && r.0.buffer == m.buffer[km.end..]
    ensures km.what == FileName ==> r.0.fileIndex == m.fileIndex + 1 && r.1 == [FileStart(r.0.fileIndex)]
    ensures km.what != FileName ==> r.0.fileIndex == m.fileIndex && r.1 == []
    ensures r.0 == m.(state := r.0.state, currentKey := r.0.currentKey, buffer := r.0.buffer, fileIndex := r.0.fileIndex)
  {
    var m1 := m.(currentKey := km.what, buffer := m.buffer[km.end..], state := StreamingValue);
    if km.what == FileName then (m1.(fileIndex := m.fileIndex + 1), [FileStart(m.fileIndex + 1)])
    else (m1, [])
  }

  /** Leaving `Idle` for a tool call. */
  function EnterToolCall(m: Machine, tm: Match<Position>): (r: Machine)
    requires tm.end <= |m.buffer|
    ensures r.state == ParsingToolCall && r.toolCallBuffer == "{" && r.buffer == m.buffer[tm.end..]
    ensures r.toolCallPosition == Some(tm.what)
    ensures r.pendingFileIndexForTool == (if tm.what == AfterFile then m.fileIndex else m.pendingFileIndexForTool)
    ensures r.currentKey == m.currentKey && r.fileIndex == m.fileIndex
  {
    m.(toolCallPosition := Some(tm.what),
       pendingFileIndexForTool := if tm.what == AfterFile then m.fileIndex else m.pendingFileIndexForTool,
       buffer := m.buffer[tm.end..],
       toolCallBuffer := "{",
       state := ParsingToolCall)
  }

  /** One pass in `StreamingValue`: decode, emit, and go back to `Idle` when
      the closing quote was seen. */
  function StreamValue(m: Machine): (r: (Machine, seq<Event>))
    requires m.state == StreamingValue
    ensures |r.0.buffer| <= |m.buffer|
    ensures r.0.state == Idle ==> |r.0.buffer| < |m.buffer|
  {
    var scan := ScanValue(m.buffer);
    (m.(buffer := scan.rest, state := if scan.endFound then Idle else m.state),
     EmitChunk(m.currentKey, scan.chunk, m.fileIndex))
  }

  /** One iteration of the outer `while` of `parse()`: the machine after
      it, what it emitted, and whether the loop goes on. */
  function Step(m: Machine, parse: string -> ToolJson): (r: (Machine, seq<Event>, bool))
    requires m.buffer != []
    ensures |r.0.buffer| <= |m.buffer|
    ensures r.2 ==> |r.0.buffer| < |m.buffer|
  {
    match m.state
    case Idle =>
      var tm := FindToolMarker(m.buffer);
      if tm.Some? then (EnterToolCall(m, tm.value), [], true)
      else
        var km := FindKey(m.buffer);
        if km.None? then (m, [], false)
        else
          var (m1, e1) := EnterValue(m, km.value);
          var (m2, e2) := StreamValue(m1);
          (m2, e1 + e2, m2.state == Idle)
    case ParsingToolCall =>
      var (m1, e1) := ToolCallStep(m, parse);
      (m1, e1, true)
    case StreamingValue =>
      var (m1, e1) := StreamValue(m);
      (m1, e1, m1.state == Idle)
  }

  /** The whole of `parse()`: the machine after the loop and the events it
      emitted, in order. */
  function Run(m: Machine, parse: string -> ToolJson): (r: (Machine, seq<Event>))
    ensures |r.0.buffer| <= |m.buffer|
    decreases |m.buffer|
  {
    if m.buffer == [] then (m, [])
    else
      var (m1, e1, more) := Step(m, parse);
      if more then
        var (m2, e2) := Run(m1, parse);
        (m2, e1 + e2)
      else (m1, e1)
  }

  // ---------------------------------------------------------------------
  // Properties of the loop
  // ---------------------------------------------------------------------

  /** A machine the loop has nothing more to do for. */
  predicate Quiescent(m: Machine) {
    || m.buffer == []
    || (m.state == Idle && FindToolMarker(m.buffer).None? && FindKey(m.buffer).None?)
    || (m.state == StreamingValue && m.buffer == "\\")
  }

  /** With nothing matching in `Idle`, the buffer is kept whole for the next
      call and nothing is emitted. */
  lemma QuiescentIsFixed(m: Machine, parse: string -> ToolJson)
    requires Quiescent(m)
    ensures Run(m, parse) == (m, [])
  {
    if m.buffer != [] && m.state == StreamingValue {
      assert ScanValue(m.buffer) == ValueScan([], "\\", false);
    }
  }

  /** The loop is one iteration followed, when it goes on, by the rest. */
  lemma RunUnfold(m: Machine, parse: string -> ToolJson)
    requires m.buffer != []
    ensures var s := Step(m, parse);
            Run(m, parse) == if s.2 then (Run(s.0, parse).0, s.1 + Run(s.0, parse).1) else (s.0, s.1)
  {
  }

  /** An iteration that ends the loop leaves a quiescent machine. */
  lemma StepQuiescent(m: Machine, parse: string -> ToolJson)
    requires m.buffer != [] && !Step(m, parse).2
    ensures Quiescent(Step(m, parse).0)
  {
  }

  /** The loop always stops in a quiescent machine. */
  lemma {:induction false} RunQuiescent(m: Machine, parse: string -> ToolJson)
    ensures Quiescent(Run(m, parse).0)
    decreases |m.buffer|
  {
    if m.buffer != [] {
      var (m1, e1, more) := Step(m, parse);
      if more {
        RunQuiescent(m1, parse);
      } else {
        StepQuiescent(m, parse);
      }
    }
  }

  /** Feeding an empty chunk after any call changes nothing and emits
      nothing. */
  lemma EmptyChunkIsNoOp(m: Machine, parse: string -> ToolJson)
    ensures var m1 := Run(m, parse).0;
            Run(m1.(buffer := m1.buffer + ""), parse) == (m1, [])
  {
    var m1 := Run(m, parse).0;
    assert m1.(buffer := m1.buffer + "") == m1;
    RunQuiescent(m, parse);
    QuiescentIsFixed(m1, parse);
  }

  /** The machine invariant: the file index never drops below -1, a
      `FileName` value always has a file, and the tool-call fields are set
      exactly while a tool call is being read. */
  predicate Inv(m: Machine) {
    && m.fileIndex >= -1
    && (m.currentKey == FileName ==> m.fileIndex >= 0)
    && (m.state == ParsingToolCall ==>
          m.toolCallPosition.Some? &&
          m.pendingFileIndexForTool == (if m.toolCallPosition.value == AfterFile then m.fileIndex else -1))
    && (m.state != ParsingToolCall ==> m.toolCallPosition.None? && m.pendingFileIndexForTool == -1)
  }

  /** Events are consistent with a file index that starts at `cur` and ends
      at `final`: each `FileStart` announces the next index, each file
      field chunk carries the index of the latest file (a `FileName` chunk
      only after a `FileStart`), and a tool call carries a name, a query,
      and the current file index exactly when it is `after_file` and a file
      exists. */
  predicate EventsIndexed(cur: int, events: seq<Event>, final: int)
    decreases |events|
  {
    if events == [] then cur == final
    else
      var ok :=
        match events[0]
        case FileStart(i) => i == cur + 1
        case FileNameChunk(_, i) => i == cur && i >= 0
        case FileVersionChunk(_, i) => i == cur
        case FileCodeChunk(_, i) => i == cur
        case FileTextChunk(_, i) => i == cur
        case ToolCall(name, query, pos, fi) =>
          name != "" && query != "" &&
          fi == (if pos == AfterFile && cur >= 0 then Some(cur) else None)
        case _ => true;
      ok && EventsIndexed(if events[0].FileStart? then cur + 1 else cur, events[1..], final)
  }

  lemma {:induction false} EventsIndexedAppend(a: int, e1: seq<Event>, b: int, e2: seq<Event>, c: int)
    requires EventsIndexed(a, e1, b) && EventsIndexed(b, e2, c)
    ensures EventsIndexed(a, e1 + e2, c)
    decreases |e1|
  {
    if e1 == [] {
      assert e1 + e2 == e2;
    } else {
      assert (e1 + e2)[0] == e1[0];
      assert (e1 + e2)[1..] == e1[1..] + e2;
      EventsIndexedAppend(if e1[0].FileStart? then a + 1 else a, e1[1..], b, e2, c);
    }
  }

  /** The file index only grows, one step per announced file. */
  lemma {:induction false} EventsIndexedMonotone(cur: int, events: seq<Event>, final: int)
    requires EventsIndexed(cur, events, final)
    ensures final == cur + |FileStarts(events)|
    decreases |events|
  {
    if events != [] {
      EventsIndexedMonotone(if events[0].FileStart? then cur + 1 else cur, events[1..], final);
    }
  }

  function FileStarts(events: seq<Event>): (r: seq<int>)
    ensures |r| <= |events|
  {
    if events == [] then []
    else (if events[0].FileStart? then [events[0].index] else []) + FileStarts(events[1..])
  }

  lemma StreamValueIndexed(m: Machine)
    requires Inv(m) && m.state == StreamingValue
    ensures Inv(StreamValue(m).0) && StreamValue(m).0.fileIndex == m.fileIndex
    ensures EventsIndexed(m.fileIndex, StreamValue(m).1, m.fileIndex)
  {
    var e := StreamValue(m).1;
    if e != [] {
      assert e[1..] == [];
    }
  }

  lemma EnterValueIndexed(m: Machine, km: Match<Key>)
    requires Inv(m) && m.state == Idle && km.end <= |m.buffer|
    ensures Inv(EnterValue(m, km).0)
    ensures EventsIndexed(m.fileIndex, EnterValue(m, km).1, EnterValue(m, km).0.fileIndex)
  {
    var e := EnterValue(m, km).1;
    if e != [] {
      assert e[1..] == [];
    }
  }

  /** One iteration keeps the invariant and emits consistently indexed events. */
  lemma StepIndexed(m: Machine, parse: string -> ToolJson)
    requires Inv(m) && m.buffer != []
    ensures Inv(Step(m, parse).0)
    ensures EventsIndexed(m.fileIndex, Step(m, parse).1, Step(m, parse).0.fileIndex)
  {
    match m.state
    case Idle =>
      var tm := FindToolMarker(m.buffer);
      if tm.None? {
        var km := FindKey(m.buffer);
        if km.Some? {
          var (m1, e1) := EnterValue(m, km.value);
          EnterValueIndexed(m, km.value);
          StreamValueIndexed(m1);
          var (m2, e2) := StreamValue(m1);
          EventsIndexedAppend(m.fileIndex, e1, m1.fileIndex, e2, m2.fileIndex);
        }
      }
    case ParsingToolCall =>
      ToolCallStepIndexed(m, parse);
    case StreamingValue =>
      StreamValueIndexed(m);
  }

  /** The loop keeps the machine invariant, and what it emits is indexed
      consistently with how the file index moves. */
  lemma {:induction false} RunIndexed(m: Machine, parse: string -> ToolJson)
    requires Inv(m)
    ensures Inv(Run(m, parse).0)
    ensures EventsIndexed(m.fileIndex, Run(m, parse).1, Run(m, parse).0.fileIndex)
    decreases |m.buffer|
  {
    if m.buffer != [] {
      var (m1, e1, more) := Step(m, parse);
      StepIndexed(m, parse);
      if more {
        RunIndexed(m1, parse);
        var (m2, e2) := Run(m1, parse);
        EventsIndexedAppend(m.fileIndex, e1, m1.fileIndex, e2, m2.fileIndex);
      }
    }
  }

  lemma ToolCallStepIndexed(m: Machine, parse: string -> ToolJson)
    requires Inv(m) && m.state == ParsingToolCall && |m.buffer| > 0
    ensures Inv(ToolCallStep(m, parse).0)
    ensures EventsIndexed(m.fileIndex, ToolCallStep(m, parse).1, ToolCallStep(m, parse).0.fileIndex)
  {
    var r := ToolCallStep(m, parse);
    if r.1 != [] {
      assert r.1[1..] == [];
    }
  }

  // ---------------------------------------------------------------------
  // The class
  // ---------------------------------------------------------------------

  class StreamProcessor {
    var state: State
    var buffer: string
    var currentKey: Key
    var fileIndex: int
    var toolCallBuffer: string
    var toolCallPosition: Option<Position>
    var pendingFileIndexForTool: int

    function Snapshot(): Machine
      reads this
    {
      Machine(state, buffer, currentKey, fileIndex, toolCallBuffer, toolCallPosition, pendingFileIndexForTool)
    }

    /** Between calls the machine satisfies its invariant and has consumed
        everything it can. */
    ghost predicate Valid()
      reads this
    {
      Inv(Snapshot()) && Quiescent(Snapshot())
    }

    constructor ()
      ensures Snapshot() == Initial && Valid()
    {
      state := Idle;
      buffer := "";
      currentKey := NoKey;
      fileIndex := -1;
      toolCallBuffer := "";
      toolCallPosition := None;
      pendingFileIndexForTool := -1;
    }

    /** `process(chunk)`: append the chunk to the retained buffer, then run
        the loop over all of it. */
    method Process(chunk: string, parse: string -> ToolJson) returns (events: seq<Event>)
      requires Valid()
      modifies this
      ensures Valid()
      ensures (Snapshot(), events) == Run(old(Snapshot()).(buffer := old(buffer) + chunk), parse)
      ensures EventsIndexed(old(fileIndex), events, fileIndex)
    {
      buffer := buffer + chunk;
      ghost var start := Snapshot();
      events := Parse(parse);
      RunIndexed(start, parse);
      RunQuiescent(start, parse);
    }

    /** `close()`: the completion callback. */
    method Close() returns (events: seq<Event>)
      ensures events == [Complete]
    {
      events := [Complete];
    }

    /** `parse()`: run the loop body until it asks to stop or the buffer
        is empty. */
    method Parse(parse: string -> ToolJson) returns (events: seq<Event>)
      modifies this
      ensures (Snapshot(), events) == Run(old(Snapshot()), parse)
    {
      ghost var total := Run(Snapshot(), parse);
      assert total == Run(old(Snapshot()), parse);
      events := [];
      while |buffer| > 0
        invariant Run(Snapshot(), parse).0 == total.0
        invariant events + Run(Snapshot(), parse).1 == total.1
        decreases |buffer|
      {
        ghost var head := Snapshot();
        var e, more := Iterate(parse);
        if !more {
          assert Run(head, parse) == (Snapshot(), e) by {
            RunUnfold(head, parse);
          }
          events := events + e;
          return;
        }
        ghost var tail := Run(Snapshot(), parse);
        assert Run(head, parse) == (tail.0, e + tail.1) by {
          RunUnfold(head, parse);
        }
        assert events + (e + tail.1) == (events + e) + tail.1;
        events := events + e;
      }
      assert buffer == [] && events + [] == events;
      assert (Snapshot(), events) == total;
    }

    /** One pass of the body of the `while` loop of `parse()`; `more` is
        false where the source returns. */
    method Iterate(parse: string -> ToolJson) returns (events: seq<Event>, more: bool)
      requires |buffer| > 0
      modifies this
      ensures (Snapshot(), events, more) == Step(old(Snapshot()), parse)
    {
      ghost var head := Snapshot();
      events := [];
      if state == Idle {
        var toolMatch := FindToolMarker(buffer);
        if toolMatch.Some? {
          OpenToolCall(toolMatch.value);
          return events, true;
        }
        var keyMatch := FindKey(buffer);
        if keyMatch.None? {
          return events, false;
        }
        events := OpenValue(keyMatch.value);
        var e := StreamValueChars();
        events := events + e;
        more := state == Idle;
        return;
      }
      if state == ParsingToolCall {
        events := ConsumeToolCall(parse);
        return events, true;
      }
      events := StreamValueChars();
      more := state == Idle;
    }

    /** The tool-marker branch of the `Idle` case. */
    method OpenToolCall(tm: Match<Position>)
      requires tm.end <= |buffer|
      modifies this
      ensures Snapshot() == EnterToolCall(old(Snapshot()), tm)
    {
      toolCallPosition := Some(tm.what);
      if tm.what == AfterFile {
        pendingFileIndexForTool := fileIndex;
      }
      buffer := buffer[tm.end..];
      toolCallBuffer := "{";
      state := ParsingToolCall;
    }

    /** The key branch of the `Idle` case, up to the value loop. */
    method OpenValue(km: Match<Key>) returns (events: seq<Event>)
      requires km.end <= |buffer|
      modifies this
      ensures (Snapshot(), events) == EnterValue(old(Snapshot()), km)
    {
      events := [];
      currentKey := km.what;
      buffer := buffer[km.end..];
      if currentKey == FileName {
        fileIndex := fileIndex + 1;
        events := [FileStart(fileIndex)];
      }
      state := StreamingValue;
    }

    /** The brace-counting loop, then `parseToolCall` when the count hits 0. */
    method ConsumeToolCall(parse: string -> ToolJson) returns (events: seq<Event>)
      requires |buffer| > 0
      modifies this
      ensures (Snapshot(), events) == ToolCallStep(old(Snapshot()), parse)
    {
      ghost var m0 := Snapshot();
      var braceCount := 1;
      var i := 0;
      while i < |buffer| && braceCount > 0
        invariant 0 <= i <= |m0.buffer|
        invariant Snapshot() == m0.(toolCallBuffer := m0.toolCallBuffer + m0.buffer[..i])
        invariant BraceScan(buffer, i, braceCount) == BraceScan(buffer, 0, 1)
        decreases |buffer| - i
      {
        if buffer[i] == '{' {
          braceCount := braceCount + 1;
        } else if buffer[i] == '}' {
          braceCount := braceCount - 1;
        }
        toolCallBuffer := toolCallBuffer + [buffer[i]];
        assert buffer[..i + 1] == buffer[..i] + [buffer[i]];
        i := i + 1;
      }
      assert (i, braceCount) == BraceScan(m0.buffer, 0, 1);
      buffer := buffer[i..];
      assert Snapshot() == m0.(buffer := m0.buffer[i..], toolCallBuffer := m0.toolCallBuffer + m0.buffer[..i]);
      events := [];
      if braceCount == 0 {
        events := ParseToolCall(parse);
      }
    }

    method ParseToolCall(parse: string -> ToolJson) returns (events: seq<Event>)
      modifies this
      ensures (Snapshot(), events) == FinishToolCall(old(Snapshot()), parse)
    {
      events := [];
      var parsed := parse(toolCallBuffer);
      if parsed.Parsed? {
        if parsed.toolName != "" && parsed.query != "" && toolCallPosition.Some? {
          events := [ToolCall(parsed.toolName, parsed.query, toolCallPosition.value,
                              if pendingFileIndexForTool >= 0 then Some(pendingFileIndexForTool) else None)];
        }
        toolCallBuffer := "";
        toolCallPosition := None;
        pendingFileIndexForTool := -1;
        state := Idle;
      }
    }

    /** The value loop, one character at a time, then `emitChunk`. */
    method StreamValueChars() returns (events: seq<Event>)
      requires state == StreamingValue
      modifies this
      ensures (Snapshot(), events) == StreamValue(old(Snapshot()))
    {
      ghost var target := ScanValue(buffer);
      var valueChunk := "";
      var valueEndFound := false;
      while |buffer| > 0
        invariant target == ValueScan(valueChunk + ScanValue(buffer).chunk, ScanValue(buffer).rest, ScanValue(buffer).endFound)
        invariant !valueEndFound
        invariant Snapshot() == old(Snapshot()).(buffer := buffer)
        decreases |buffer|
      {
        ghost var before := buffer;
        var c := buffer[0];
        buffer := buffer[1..];
        if c == '\\' {
          if |buffer| > 0 {
            var next := buffer[0];
            buffer := buffer[1..];
            ghost var r := ScanValue(buffer);
            assert target == ValueScan((valueChunk + DecodeEscape(next)) + r.chunk, r.rest, r.endFound) by {
              ScanValueHead(before, 2);
              assert before[2..] == buffer;
              SeqAssoc(valueChunk, DecodeEscape(next), r.chunk);
            }
            valueChunk := valueChunk + DecodeEscape(next);
          } else {
            buffer := [c] + buffer;
            assert target == ValueScan(valueChunk, buffer, false) by {
              assert before == [c] == buffer;
            }
            break;
          }
        } else if c == '"' {
          valueEndFound := true;
          assert target == ValueScan(valueChunk, buffer, true);
          break;
        } else {
          ghost var r := ScanValue(buffer);
          assert target == ValueScan((valueChunk + [c]) + r.chunk, r.rest, r.endFound) by {
            ScanValueHead(before, 1);
            assert before[1..] == buffer;
            SeqAssoc(valueChunk, [c], r.chunk);
          }
          valueChunk := valueChunk + [c];
        }
      }
      assert target == ValueScan(valueChunk, buffer, valueEndFound);
      events := EmitChunk(currentKey, valueChunk, fileIndex);
      if valueEndFound {
        state := Idle;
      }
    }
  }
}
