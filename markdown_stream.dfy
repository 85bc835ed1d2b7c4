/** The streaming markdown splitter (src/lib/markdown-stream-parser.ts): it
    turns a growing message into text chunks, fenced code chunks and inline
    code chunks, and shows a block or span that is still open as an
    incomplete chunk. */
module MarkdownStream {
  import JsStrings

  datatype Chunk =
    | CodeChunk(id: nat, language: string, code: string, isComplete: bool)
    | TextChunk(id: nat, content: string)
    | InlineChunk(id: nat, code: string, isComplete: bool)

  /** The parser's fields other than `buffer`. */
  datatype Md = Md(chunks: seq<Chunk>, inCodeBlock: bool, inInlineCode: bool, codeLanguage: string,
                   codeContent: string, backtickCount: nat, idCounter: nat)

  const InitialMd := Md([], false, false, "", "", 0, 0)

  /** The parser: `buffer` is the whole content read so far. */
  datatype Parser = Parser(md: Md, buffer: string)

  const Initial := Parser(InitialMd, "")

  /** Length of the run of backticks starting at `i`. */
  function RunLength(s: string, i: nat): (n: nat)
    requires i <= |s|
    ensures i + n <= |s|
    ensures forall k :: i <= k < i + n ==> s[k] == '`'
    ensures i + n < |s| ==> s[i + n] != '`'
    decreases |s| - i
  {
    if i < |s| && s[i] == '`' then 1 + RunLength(s, i + 1) else 0
  }

  /** Index of the first newline at or after `j`, or the length. */
  function LineEnd(s: string, j: nat): (e: nat)
    requires j <= |s|
    ensures j <= e <= |s|
    decreases |s| - j
  {
    if j < |s| && s[j] != '\n' then LineEnd(s, j + 1) else j
  }

  /** The language line stops at the first newline after the fence. */
  lemma {:induction false} LineEndSpec(s: string, j: nat)
    requires j <= |s|
    ensures var e := LineEnd(s, j);
            (forall k :: j <= k < e ==> s[k] != '\n') && (e < |s| ==> s[e] == '\n')
    decreases |s| - j
  {
    if j < |s| && s[j] != '\n' {
      LineEndSpec(s, j + 1);
    }
  }

  predicate Incomplete(c: Chunk) {
    !c.TextChunk? && !c.isComplete
  }

  /** The chunk marked complete. */
  function Completed(c: Chunk): (r: Chunk)
    ensures r.id == c.id && r.TextChunk? == c.TextChunk? && r.CodeChunk? == c.CodeChunk?
    ensures c.TextChunk? ==> r == c
    ensures !c.TextChunk? ==> r.isComplete && (Incomplete(c) <==> r != c)
  {
    match c
    case CodeChunk(id, language, code, _) => CodeChunk(id, language, code, true)
    case InlineChunk(id, code, _) => InlineChunk(id, code, true)
    case TextChunk(_, _) => c
  }

  /** `finalizeCurrentChunk`: an incomplete trailing code or inline chunk is
      marked complete. */
  function Finalize(chunks: seq<Chunk>): (r: seq<Chunk>)
    ensures |r| == |chunks| && (chunks != [] ==> r[..|r| - 1] == chunks[..|chunks| - 1])
    ensures chunks != [] && Incomplete(chunks[|chunks| - 1]) ==>
              r[|r| - 1] == Completed(chunks[|chunks| - 1])
    ensures chunks != [] && !Incomplete(chunks[|chunks| - 1]) ==> r == chunks
  {
    if chunks != [] && Incomplete(chunks[|chunks| - 1]) then
      chunks[..|chunks| - 1] + [Completed(chunks[|chunks| - 1])]
    else chunks
  }

  /** A character that is not a delimiter: it goes to the open block or
      span, or else to the trailing text chunk (a new one if the last chunk
      is not text). */
  function AddChar(md: Md, ch: char): (r: Md)
    ensures md.inCodeBlock || md.inInlineCode ==> r == md.(codeContent := md.codeContent + [ch])
  {
    if md.inCodeBlock || md.inInlineCode then md.(codeContent := md.codeContent + [ch])
    else if md.chunks == [] || !md.chunks[|md.chunks| - 1].TextChunk? then
      md.(chunks := md.chunks + [TextChunk(md.idCounter, [ch])], idCounter := md.idCounter + 1)
    else
      var last := md.chunks[|md.chunks| - 1];
      md.(chunks := md.chunks[..|md.chunks| - 1] + [TextChunk(last.id, last.content + [ch])])
  }

  /** The trimmed rest of the line after an opening fence. */
  function LanguageLine(s: string, j: nat): string
    requires j <= |s|
  {
    JsStrings.Trim(s[j..LineEnd(s, j)])
  }

  /** An opening fence: the trailing chunk is finalized and a block with
      the given language starts. */
  function OpenBlock(md: Md, language: string, count: nat): Md {
    md.(chunks := Finalize(md.chunks), inCodeBlock := true, backtickCount := count,
        codeLanguage := language, codeContent := "")
  }

  /** A run of three or more backticks outside inline code, ending at
      `j`: it opens a block (the rest of the line is the language, the
      newline is skipped), closes the open block if the run has the opening
      length, or else is code. */
  function FenceStep(md: Md, s: string, j: nat, count: nat): (r: (Md, nat))
    requires j <= |s|
    ensures j <= r.1 <= |s| + 1
    ensures r.0.inCodeBlock <==> !md.inCodeBlock || count != md.backtickCount
  {
    if !md.inCodeBlock then
      (OpenBlock(md, LanguageLine(s, j), count), LineEnd(s, j) + 1)
    else if count == md.backtickCount then
      (md.(chunks := md.chunks + [CodeChunk(md.idCounter, md.codeLanguage, md.codeContent, true)],
           idCounter := md.idCounter + 1, inCodeBlock := false, codeLanguage := "",
           codeContent := "", backtickCount := 0),
       j)
    else
      (md.(codeContent := md.codeContent + JsStrings.Repeat('`', count)), j)
  }

  /** A single backtick outside a code block opens or closes inline code. */
  function InlineToggle(md: Md): (r: Md)
    ensures r.inInlineCode == !md.inInlineCode && r.inCodeBlock == md.inCodeBlock && r.codeContent == ""
    ensures md.inInlineCode ==>
              |r.chunks| == |md.chunks| + 1 && r.chunks[..|md.chunks|] == md.chunks
              && r.chunks[|md.chunks|] == InlineChunk(md.idCounter, md.codeContent, true)
  {
    if !md.inInlineCode then
      md.(chunks := Finalize(md.chunks), inInlineCode := true, codeContent := "")
    else
      md.(chunks := md.chunks + [InlineChunk(md.idCounter, md.codeContent, true)],
          idCounter := md.idCounter + 1, inInlineCode := false, codeContent := "")
  }

  /** One iteration of the `for` loop of `parse` at index `i` of
      `newContent`: the new fields and the next index, after the jumps the
      source makes past a delimiter. Any other backtick is an ordinary
      character. */
  function Advance(md: Md, s: string, i: nat): (r: (Md, nat))
    requires i < |s|
    ensures i < r.1 <= |s| + 1
  {
    if s[i] == '`' then
      var count := RunLength(s, i);
      if count >= 3 && !md.inInlineCode then FenceStep(md, s, i + count, count)
      else if count == 1 && !md.inCodeBlock then (InlineToggle(md), i + 1)
      else (AddChar(md, '`'), i + 1)
    else (AddChar(md, s[i]), i + 1)
  }

  /** The branches of `Advance`, one per line. */
  lemma AdvanceCases(md: Md, s: string, i: nat)
    requires i < |s|
    ensures var count := RunLength(s, i);
            && (s[i] == '`' && count >= 3 && !md.inInlineCode ==> Advance(md, s, i) == FenceStep(md, s, i + count, count))
            && (s[i] == '`' && !(count >= 3 && !md.inInlineCode) && count == 1 && !md.inCodeBlock ==>
                  Advance(md, s, i) == (InlineToggle(md), i + 1))
            && (s[i] == '`' && !(count >= 3 && !md.inInlineCode) && !(count == 1 && !md.inCodeBlock) ==>
                  Advance(md, s, i) == (AddChar(md, '`'), i + 1))
            && (s[i] != '`' ==> Advance(md, s, i) == (AddChar(md, s[i]), i + 1))
  {
  }

  /** The `for` loop of `parse` over `newContent` from index `i`. */
  function ScanFrom(md: Md, s: string, i: nat): Md
    requires i <= |s| + 1
    decreases |s| + 1 - i
  {
    if i >= |s| then md
    else
      var (next, ni) := Advance(md, s, i);
      ScanFrom(next, s, ni)
  }

  /** One step of the loop, stated once so that callers need not unfold it. */
  lemma ScanStep(md: Md, s: string, i: nat, next: Md, ni: nat)
    requires i < |s| && Advance(md, s, i) == (next, ni)
    ensures ScanFrom(md, s, i) == ScanFrom(next, s, ni)
  {
  }

  /** Any character but a backtick is added as it is. */
  lemma AdvanceText(md: Md, s: string, i: nat)
    requires i < |s| && s[i] != '`'
    ensures Advance(md, s, i) == (AddChar(md, s[i]), i + 1)
  {
  }

  /** The end of `parse`: an open block or span is shown as an incomplete
      trailing chunk, updated in place if the last chunk already is one. */
  function ExposeOpen(md: Md): (r: Md)
    ensures r.inCodeBlock == md.inCodeBlock && r.inInlineCode == md.inInlineCode
    ensures r.codeContent == md.codeContent && r.codeLanguage == md.codeLanguage
    ensures r.backtickCount == md.backtickCount
    ensures md.inCodeBlock ==>
              (r.chunks != [] && r.chunks[|r.chunks| - 1] ==
               CodeChunk(r.chunks[|r.chunks| - 1].id, md.codeLanguage, md.codeContent, false))
    ensures !md.inCodeBlock && md.inInlineCode ==>
              (r.chunks != [] && r.chunks[|r.chunks| - 1] ==
               InlineChunk(r.chunks[|r.chunks| - 1].id, md.codeContent, false))
    ensures !md.inCodeBlock && !md.inInlineCode ==> r == md
  {
    var n := |md.chunks|;
    if md.inCodeBlock then
      if n > 0 && md.chunks[n - 1].CodeChunk? && !md.chunks[n - 1].isComplete then
        md.(chunks := md.chunks[..n - 1] + [CodeChunk(md.chunks[n - 1].id, md.codeLanguage, md.codeContent, false)])
      else
        md.(chunks := md.chunks + [CodeChunk(md.idCounter, md.codeLanguage, md.codeContent, false)],
            idCounter := md.idCounter + 1)
    else if md.inInlineCode then
      if n > 0 && md.chunks[n - 1].InlineChunk? && !md.chunks[n - 1].isComplete then
        md.(chunks := md.chunks[..n - 1] + [InlineChunk(md.chunks[n - 1].id, md.codeContent, false)])
      else
        md.(chunks := md.chunks + [InlineChunk(md.idCounter, md.codeContent, false)],
            idCounter := md.idCounter + 1)
    else md
  }

  /** `parse(fullContent)`: reset on shorter content, read what is new,
      expose what is open. */
  function AfterParse(p: Parser, full: string): (r: Parser)
    ensures r.buffer == full
  {
    var p0 := if |full| < |p.buffer| then Initial else p;
    Parser(ExposeOpen(ScanFrom(p0.md, full[|p0.buffer|..], 0)), full)
  }

  // ---------------------------------------------------------------------
  // Invariant: ids
  // ---------------------------------------------------------------------

  /** Ids grow strictly along the chunk list and stay below the counter; a
      code block and an inline span are never open together, and an open
      block remembers a fence of three or more backticks. */
  predicate Inv(md: Md) {
    && (forall a, b :: 0 <= a < b < |md.chunks| ==> md.chunks[a].id < md.chunks[b].id)
    && (forall a :: 0 <= a < |md.chunks| ==> md.chunks[a].id < md.idCounter)
    && !(md.inCodeBlock && md.inInlineCode)
    && (md.inCodeBlock ==> md.backtickCount >= 3)
  }

  /** Replacing the last chunk by one with the same id keeps the ids. */
  lemma ReplaceLastInv(md: Md, c: Chunk)
    requires Inv(md) && md.chunks != [] && c.id == md.chunks[|md.chunks| - 1].id
    ensures Inv(md.(chunks := md.chunks[..|md.chunks| - 1] + [c]))
  {
    var r := md.chunks[..|md.chunks| - 1] + [c];
    assert forall a :: 0 <= a < |r| ==> r[a].id == md.chunks[a].id by {
      forall a | 0 <= a < |r| ensures r[a].id == md.chunks[a].id {
        if a < |r| - 1 {
          assert r[a] == md.chunks[a];
        }
      }
    }
  }

  lemma FinalizeInv(md: Md)
    requires Inv(md)
    ensures Inv(md.(chunks := Finalize(md.chunks)))
  {
    if md.chunks != [] && Incomplete(md.chunks[|md.chunks| - 1]) {
      ReplaceLastInv(md, Completed(md.chunks[|md.chunks| - 1]));
    }
  }

  lemma AddCharInv(md: Md, ch: char)
    requires Inv(md)
    ensures Inv(AddChar(md, ch))
  {
    if !(md.inCodeBlock || md.inInlineCode) && md.chunks != [] && md.chunks[|md.chunks| - 1].TextChunk? {
      var last := md.chunks[|md.chunks| - 1];
      ReplaceLastInv(md, TextChunk(last.id, last.content + [ch]));
    }
  }

  lemma AdvanceInv(md: Md, s: string, i: nat)
    requires i < |s| && Inv(md)
    ensures Inv(Advance(md, s, i).0)
  {
    if s[i] == '`' {
      var count := RunLength(s, i);
      if count >= 3 && !md.inInlineCode && !md.inCodeBlock {
        FinalizeInv(md);
      } else if count == 1 && !md.inCodeBlock && !md.inInlineCode {
        FinalizeInv(md);
      } else if !(count >= 3 && !md.inInlineCode) && !(count == 1 && !md.inCodeBlock) {
        AddCharInv(md, '`');
      }
    } else {
      AddCharInv(md, s[i]);
    }
  }

  lemma {:induction false} ScanFromInv(md: Md, s: string, i: nat)
    requires i <= |s| + 1 && Inv(md)
    ensures Inv(ScanFrom(md, s, i))
    decreases |s| + 1 - i
  {
    if i < |s| {
      AdvanceInv(md, s, i);
      var (next, ni) := Advance(md, s, i);
      ScanFromInv(next, s, ni);
    }
  }

  lemma ExposeOpenInv(md: Md)
    requires Inv(md)
    ensures Inv(ExposeOpen(md))
  {
    var n := |md.chunks|;
    if md.inCodeBlock && n > 0 && md.chunks[n - 1].CodeChunk? && !md.chunks[n - 1].isComplete {
      ReplaceLastInv(md, CodeChunk(md.chunks[n - 1].id, md.codeLanguage, md.codeContent, false));
    } else if !md.inCodeBlock && md.inInlineCode && n > 0 && md.chunks[n - 1].InlineChunk? && !md.chunks[n - 1].isComplete {
      ReplaceLastInv(md, InlineChunk(md.chunks[n - 1].id, md.codeContent, false));
    }
  }

  /** Every call keeps the ids of the chunks distinct and increasing. */
  lemma ParseInv(p: Parser, full: string)
    requires Inv(p.md)
    ensures Inv(AfterParse(p, full).md)
  {
    var p0 := if |full| < |p.buffer| then Initial else p;
    ScanFromInv(p0.md, full[|p0.buffer|..], 0);
    ExposeOpenInv(ScanFrom(p0.md, full[|p0.buffer|..], 0));
  }

  // ---------------------------------------------------------------------
  // Chunks already shown only grow
  // ---------------------------------------------------------------------

  /** How a chunk may change between two moments: not at all, a text chunk
      by having text appended, or an incomplete block or span by being
      updated or completed (keeping its id and its kind). */
  predicate Evolves(x: Chunk, y: Chunk) {
    || x == y
    || (x.TextChunk? && y.TextChunk? && y.id == x.id && JsStrings.StartsWith(y.content, x.content))
    || (Incomplete(x) && !y.TextChunk? && y.id == x.id && (x.CodeChunk? <==> y.CodeChunk?))
  }

  lemma EvolvesTrans(x: Chunk, y: Chunk, z: Chunk)
    requires Evolves(x, y) && Evolves(y, z)
    ensures Evolves(x, z)
  {
    if x.TextChunk? && y.TextChunk? && z.TextChunk? && x != y && y != z {
      assert z.content[..|x.content|] == z.content[..|y.content|][..|x.content|];
    }
  }

  /** Between two moments, every chunk but the last is unchanged, the last
      one evolves, and none is removed. */
  predicate Frozen(before: seq<Chunk>, after: seq<Chunk>) {
    && |before| <= |after|
    && (forall k :: 0 <= k < |before| - 1 ==> after[k] == before[k])
    && (before != [] ==> Evolves(before[|before| - 1], after[|before| - 1]))
  }

  lemma FrozenTrans(a: seq<Chunk>, b: seq<Chunk>, c: seq<Chunk>)
    requires Frozen(a, b) && Frozen(b, c)
    ensures Frozen(a, c)
  {
    if a != [] {
      var n := |a|;
      if n < |b| {
        assert b[n - 1] == c[n - 1];
      } else {
        EvolvesTrans(a[n - 1], b[n - 1], c[n - 1]);
      }
    }
  }

  lemma FrozenPush(a: seq<Chunk>, c: Chunk)
    ensures Frozen(a, a + [c])
  {
  }

  lemma FrozenFinalize(a: seq<Chunk>)
    ensures Frozen(a, Finalize(a))
  {
  }

  lemma FrozenAddChar(md: Md, ch: char)
    ensures Frozen(md.chunks, AddChar(md, ch).chunks)
  {
    if !(md.inCodeBlock || md.inInlineCode) && md.chunks != [] && md.chunks[|md.chunks| - 1].TextChunk? {
      var last := md.chunks[|md.chunks| - 1];
      assert (last.content + [ch])[..|last.content|] == last.content;
    }
  }

  lemma AdvanceFrozen(md: Md, s: string, i: nat)
    requires i < |s|
    ensures Frozen(md.chunks, Advance(md, s, i).0.chunks)
  {
    if s[i] == '`' {
      var count := RunLength(s, i);
      if count >= 3 && !md.inInlineCode {
        if !md.inCodeBlock {
          FrozenFinalize(md.chunks);
        } else if count == md.backtickCount {
          FrozenPush(md.chunks, CodeChunk(md.idCounter, md.codeLanguage, md.codeContent, true));
        }
      } else if count == 1 && !md.inCodeBlock {
        if !md.inInlineCode {
          FrozenFinalize(md.chunks);
        } else {
          FrozenPush(md.chunks, InlineChunk(md.idCounter, md.codeContent, true));
        }
      } else {
        FrozenAddChar(md, '`');
      }
    } else {
      FrozenAddChar(md, s[i]);
    }
  }

  lemma {:induction false} ScanFromFrozen(md: Md, s: string, i: nat)
    requires i <= |s| + 1
    ensures Frozen(md.chunks, ScanFrom(md, s, i).chunks)
    decreases |s| + 1 - i
  {
    if i < |s| {
      AdvanceFrozen(md, s, i);
      var (next, ni) := Advance(md, s, i);
      ScanFromFrozen(next, s, ni);
      FrozenTrans(md.chunks, next.chunks, ScanFrom(next, s, ni).chunks);
    }
  }

  lemma FrozenExposeOpen(md: Md)
    ensures Frozen(md.chunks, ExposeOpen(md).chunks)
  {
  }

  /** What a call has already shown is never taken back: each chunk except
      the last stays exactly as it was, and the last can only grow (text)
      or be brought up to date (an open block or span). In particular a
      complete code or inline chunk never changes again. */
  lemma ParseFrozen(p: Parser, full: string)
    requires |p.buffer| <= |full|
    ensures Frozen(p.md.chunks, AfterParse(p, full).md.chunks)
  {
    var mid := ScanFrom(p.md, full[|p.buffer|..], 0);
    ScanFromFrozen(p.md, full[|p.buffer|..], 0);
    FrozenExposeOpen(mid);
    FrozenTrans(p.md.chunks, mid.chunks, ExposeOpen(mid).chunks);
  }

  lemma CompleteStays(p: Parser, full: string, k: nat)
    requires |p.buffer| <= |full| && k < |p.md.chunks|
    requires !p.md.chunks[k].TextChunk? && p.md.chunks[k].isComplete
    ensures k < |AfterParse(p, full).md.chunks| && AfterParse(p, full).md.chunks[k] == p.md.chunks[k]
  {
    ParseFrozen(p, full);
  }

  // ---------------------------------------------------------------------
  // What the parser makes of text and fenced blocks
  // ---------------------------------------------------------------------

  /** Text without backticks outside any block extends the trailing text
      chunk. */
  lemma {:induction false} TextRun(md: Md, s: string, i: nat, last: Chunk)
    requires i <= |s| && JsStrings.Lacks(s[i..], '`') && !md.inCodeBlock && !md.inInlineCode
    requires md.chunks != [] && md.chunks[|md.chunks| - 1] == last && last.TextChunk?
    ensures ScanFrom(md, s, i) ==
            md.(chunks := md.chunks[..|md.chunks| - 1] + [TextChunk(last.id, last.content + s[i..])])
    decreases |s| - i
  {
    if i == |s| {
      assert last.content + s[i..] == last.content;
      assert md.chunks[..|md.chunks| - 1] + [last] == md.chunks;
    } else {
      assert s[i] == s[i..][0];
      var next := AddChar(md, s[i]);
      AdvanceText(md, s, i);
      ScanStep(md, s, i, next, i + 1);
      var grown := TextChunk(last.id, last.content + [s[i]]);
      assert next.chunks == md.chunks[..|md.chunks| - 1] + [grown];
      assert s[i + 1..] == s[i..][1..];
      TextRun(next, s, i + 1, grown);
      assert (md.chunks[..|md.chunks| - 1] + [grown])[..|md.chunks| - 1] == md.chunks[..|md.chunks| - 1];
      assert last.content + [s[i]] + s[i + 1..] == last.content + s[i..];
    }
  }

  /** A message without backticks is one text chunk. */
  lemma PlainMessage(s: string)
    requires s != [] && JsStrings.Lacks(s, '`')
    ensures AfterParse(Initial, s).md.chunks == [TextChunk(0, s)]
  {
    var done := InitialMd.(chunks := [TextChunk(0, s)], idCounter := 1);
    assert ScanFrom(InitialMd, s, 0) == done by {
      var first := AddChar(InitialMd, s[0]);
      AdvanceText(InitialMd, s, 0);
      ScanStep(InitialMd, s, 0, first, 1);
      assert first.chunks == [TextChunk(0, [s[0]])];
      assert JsStrings.Lacks(s[1..], '`');
      TextRun(first, s, 1, TextChunk(0, [s[0]]));
      assert [s[0]] + s[1..] == s;
    }
    assert s[0..] == s;
  }

  /** Characters without backticks inside an open block or span are
      collected. */
  lemma {:induction false} BodyRun(md: Md, s: string, i: nat, e: nat)
    requires i <= e <= |s| && (md.inCodeBlock || md.inInlineCode)
    requires forall k :: i <= k < e ==> s[k] != '`'
    ensures ScanFrom(md, s, i) == ScanFrom(md.(codeContent := md.codeContent + s[i..e]), s, e)
    decreases e - i
  {
    if i == e {
      assert md.codeContent + s[i..e] == md.codeContent;
    } else {
      var next := md.(codeContent := md.codeContent + [s[i]]);
      assert ScanFrom(md, s, i) == ScanFrom(next, s, i + 1) by {
        AdvanceText(md, s, i);
        ScanStep(md, s, i, next, i + 1);
      }
      BodyRun(next, s, i + 1, e);
      assert md.codeContent + [s[i]] + s[i + 1..e] == md.codeContent + s[i..e];
    }
  }

  /** A run of exactly `c` backticks at `i`. */
  lemma {:induction false} RunLengthAt(s: string, i: nat, c: nat)
    requires i + c <= |s| && s[i..i + c] == JsStrings.Repeat('`', c)
    requires i + c < |s| ==> s[i + c] != '`'
    ensures RunLength(s, i) == c
    decreases c
  {
    if c > 0 {
      assert s[i] == s[i..i + c][0];
      assert s[i + 1..i + c] == s[i..i + c][1..];
      assert JsStrings.Repeat('`', c)[1..] == JsStrings.Repeat('`', c - 1);
      RunLengthAt(s, i + 1, c - 1);
    }
  }

  /** The run at `off + k` inside a copy of `t` that does not end with a
      backtick is the run at `k` in `t`. */
  lemma {:induction false} RunLengthIn(s: string, off: nat, t: string, k: nat)
    requires off + |t| <= |s| && s[off..off + |t|] == t && k < |t| && t[|t| - 1] != '`'
    ensures RunLength(s, off + k) == RunLength(t, k)
    decreases |t| - k
  {
    assert s[off + k] == t[k];
    if t[k] == '`' {
      RunLengthIn(s, off, t, k + 1);
    }
  }

  /** A fresh parser reading an opening fence of `c` backticks, three or
      more, and a language line enters the block after the newline; `c` is
      the length a closing fence must have. */
  lemma OpenFence(s: string, c: nat, n: nat)
    requires 3 <= c && c + n < |s| && s[..c] == JsStrings.Repeat('`', c) && s[c] != '`' && s[c + n] == '\n'
    requires JsStrings.Lacks(s[c..c + n], '\n')
    ensures Advance(InitialMd, s, 0) ==
            (InitialMd.(inCodeBlock := true, backtickCount := c, codeLanguage := JsStrings.Trim(s[c..c + n])), c + n + 1)
  {
    assert s[0..c] == s[..c];
    RunLengthAt(s, 0, c);
    assert s[0] == '`';
    assert Advance(InitialMd, s, 0) == FenceStep(InitialMd, s, c, c);
    LanguageLineAt(s, c, n);
    assert Finalize([]) == [];
  }

  /** The language line after a fence ending at `c` is the `n` characters
      before the first newline. */
  lemma LanguageLineAt(s: string, c: nat, n: nat)
    requires c + n < |s| && s[c + n] == '\n' && JsStrings.Lacks(s[c..c + n], '\n')
    ensures LineEnd(s, c) == c + n && LanguageLine(s, c) == JsStrings.Trim(s[c..c + n])
  {
    assert forall k :: c <= k < c + n ==> s[k] == s[c..c + n][k - c];
    LineEndAt(s, c, c + n);
  }

  /** Inside a block, a run of the opening length closes it, wherever it
      stands: the complete code chunk is pushed, the block is left and
      reading goes on after the run. */
  lemma CloseFence(md: Md, s: string, j: nat)
    requires j < |s| && md.inCodeBlock && !md.inInlineCode && md.backtickCount >= 3
    requires RunLength(s, j) == md.backtickCount
    ensures Advance(md, s, j) ==
            (md.(chunks := md.chunks + [CodeChunk(md.idCounter, md.codeLanguage, md.codeContent, true)],
                 idCounter := md.idCounter + 1, inCodeBlock := false, codeLanguage := "",
                 codeContent := "", backtickCount := 0),
             j + md.backtickCount)
  {
    AdvanceCases(md, s, j);
  }

  /** Inside a block, a run of three or more backticks of any other length
      is code: it is appended as it stands and the block stays open. */
  lemma OtherRunIsCode(md: Md, s: string, i: nat)
    requires i < |s| && md.inCodeBlock && !md.inInlineCode
    requires RunLength(s, i) >= 3 && RunLength(s, i) != md.backtickCount
    ensures Advance(md, s, i) ==
            (md.(codeContent := md.codeContent + JsStrings.Repeat('`', RunLength(s, i))), i + RunLength(s, i))
  {
    AdvanceCases(md, s, i);
  }

  /** Inside a block, a backtick in a run of one or two is code. */
  lemma ShortRunIsCode(md: Md, s: string, i: nat)
    requires i < |s| && md.inCodeBlock && s[i] == '`' && RunLength(s, i) < 3
    ensures Advance(md, s, i) == (md.(codeContent := md.codeContent + "`"), i + 1)
  {
    AdvanceCases(md, s, i);
  }

  /** Inside a block, a run of three or more backticks of another length
      than the opening one is read in one step, and what follows it is not
      a backtick. */
  lemma LongRunStep(md: Md, s: string, i: nat)
    requires i < |s| && md.inCodeBlock && !md.inInlineCode
    requires RunLength(s, i) >= 3 && RunLength(s, i) != md.backtickCount
    ensures var e := i + RunLength(s, i);
            && ScanFrom(md, s, i) == ScanFrom(md.(codeContent := md.codeContent + s[i..e]), s, e)
            && (e < |s| ==> RunLength(s, e) == 0)
  {
    var count := RunLength(s, i);
    OtherRunIsCode(md, s, i);
    assert s[i..i + count] == JsStrings.Repeat('`', count);
    ScanStep(md, s, i, md.(codeContent := md.codeContent + s[i..i + count]), i + count);
  }

  /** Inside a block, any other character is read alone. */
  lemma CharStep(md: Md, s: string, i: nat)
    requires i < |s| && md.inCodeBlock && (s[i] == '`' ==> RunLength(s, i) < 3)
    ensures ScanFrom(md, s, i) == ScanFrom(md.(codeContent := md.codeContent + [s[i]]), s, i + 1)
    ensures s[i] == '`' ==> RunLength(s, i + 1) == RunLength(s, i) - 1
  {
    var next := md.(codeContent := md.codeContent + [s[i]]);
    if s[i] == '`' {
      ShortRunIsCode(md, s, i);
    } else {
      AdvanceText(md, s, i);
    }
    ScanStep(md, s, i, next, i + 1);
  }

  /** Every run that starts in `s[i..e]` has a length other than `n` and
      ends by `e`. */
  predicate RunsAvoid(s: string, i: nat, e: nat, n: nat)
    requires i <= e <= |s|
  {
    forall k :: i <= k < e && (k == i || s[k - 1] != '`') ==> RunLength(s, k) != n && k + RunLength(s, k) <= e
  }

  lemma AppendSlices(x: string, s: string, i: nat, j: nat, e: nat)
    requires i <= j <= e <= |s|
    ensures x + s[i..j] + s[j..e] == x + s[i..e]
  {
    assert s[i..e] == s[i..j] + s[j..e];
  }

  /** What `RunsAvoid` says of the runs after `j` carries over once the
      run at `j` is known to avoid `n` too. */
  lemma RunsAvoidFrom(s: string, i: nat, j: nat, e: nat, n: nat)
    requires i < j <= e <= |s| && RunsAvoid(s, i, e, n)
    requires j < e && s[j - 1] == '`' ==> RunLength(s, j) != n && j + RunLength(s, j) <= e
    ensures RunsAvoid(s, j, e, n)
  {
    forall k | j <= k < e && (k == j || s[k - 1] != '`')
      ensures RunLength(s, k) != n && k + RunLength(s, k) <= e
    {
      if s[k - 1] != '`' {
        assert i <= k < e && (k == i || s[k - 1] != '`');
      }
    }
  }

  /** Inside a block, text in which no run of backticks has the opening
      length is collected as it stands. */
  lemma {:induction false} BlockBody(md: Md, s: string, i: nat, e: nat)
    requires i <= e <= |s| && md.inCodeBlock && !md.inInlineCode && md.backtickCount >= 3
    requires RunsAvoid(s, i, e, md.backtickCount)
    ensures ScanFrom(md, s, i) == ScanFrom(md.(codeContent := md.codeContent + s[i..e]), s, e)
    decreases e - i
  {
    if i == e {
      assert md.codeContent + s[i..e] == md.codeContent;
    } else {
      var ni := BodyStep(md, s, i, e);
      BlockBody(md.(codeContent := md.codeContent + s[i..ni]), s, ni, e);
      AppendSlices(md.codeContent, s, i, ni, e);
    }
  }

  /** One step of `BlockBody`: a long run or a single character. */
  lemma BodyStep(md: Md, s: string, i: nat, e: nat) returns (ni: nat)
    requires i < e <= |s| && md.inCodeBlock && !md.inInlineCode && md.backtickCount >= 3
    requires RunsAvoid(s, i, e, md.backtickCount)
    ensures i < ni <= e && RunsAvoid(s, ni, e, md.backtickCount)
    ensures ScanFrom(md, s, i) == ScanFrom(md.(codeContent := md.codeContent + s[i..ni]), s, ni)
  {
    var count := RunLength(s, i);
    if s[i] == '`' && count >= 3 {
      ni := i + count;
      LongRunStep(md, s, i);
    } else {
      ni := i + 1;
      CharStep(md, s, i);
      assert s[i..ni] == [s[i]];
    }
    RunsAvoidFrom(s, i, ni, e, md.backtickCount);
  }

  /** A closing fence of the opening length at the end of the input ends
      the scan with the block pushed as a complete chunk. */
  lemma FenceAtEnd(md: Md, s: string, j: nat)
    requires j < |s| && md.inCodeBlock && !md.inInlineCode && md.backtickCount >= 3
    requires s[j..] == JsStrings.Repeat('`', md.backtickCount)
    ensures ScanFrom(md, s, j) ==
            md.(chunks := md.chunks + [CodeChunk(md.idCounter, md.codeLanguage, md.codeContent, true)],
                idCounter := md.idCounter + 1, inCodeBlock := false, codeLanguage := "",
                codeContent := "", backtickCount := 0)
  {
    assert s[j..j + md.backtickCount] == s[j..];
    RunLengthAt(s, j, md.backtickCount);
    CloseFence(md, s, j);
  }

  /** No run of backticks in `t` has length `n`. */
  predicate NoRunOf(t: string, n: nat) {
    forall k :: 0 <= k < |t| && (k == 0 || t[k - 1] != '`') ==> RunLength(t, k) != n
  }

  /** The runs of a body copied into the input are the body's own. */
  lemma BodyRunsAvoid(s: string, off: nat, t: string, n: nat)
    requires off + |t| <= |s| && s[off..off + |t|] == t
    requires (t == [] || t[|t| - 1] != '`') && NoRunOf(t, n)
    ensures RunsAvoid(s, off, off + |t|, n)
  {
    forall k | off <= k < off + |t| && (k == off || s[k - 1] != '`')
      ensures RunLength(s, k) != n && k + RunLength(s, k) <= off + |t|
    {
      RunLengthIn(s, off, t, k - off);
      if k > off {
        assert t[k - off - 1] == s[k - 1];
      }
    }
  }

  lemma FenceLayout(c: nat, lang: string, body: string)
    requires c >= 1 && (lang == [] || lang[0] != '`')
    ensures var f := JsStrings.Repeat('`', c);
            var s := f + lang + "\n" + body + f;
            var n := |lang|;
            && |s| == c + n + 1 + |body| + c
            && s[..c] == f && s[c] != '`' && s[c..c + n] == lang && s[c + n] == '\n'
            && s[c + n + 1..c + n + 1 + |body|] == body && s[c + n + 1 + |body|..] == f
  {
    var f := JsStrings.Repeat('`', c);
    var s := f + lang + "\n" + body + f;
    if lang != [] {
      assert s[c] == lang[0];
    }
  }

  /** A whole fenced block of `c` backticks, read in one call by a fresh
      parser, is one complete code chunk with the trimmed language and the
      body, newline before the closing fence included, when no run in the
      body has the opening length (runs of other lengths stay in the code). */
  lemma FencedBlock(c: nat, lang: string, body: string)
    requires c >= 3 && JsStrings.Lacks(lang, '\n') && (lang == [] || lang[0] != '`')
    requires (body == [] || body[|body| - 1] != '`') && NoRunOf(body, c)
    ensures var f := JsStrings.Repeat('`', c);
            AfterParse(Initial, f + lang + "\n" + body + f).md ==
            InitialMd.(chunks := [CodeChunk(0, JsStrings.Trim(lang), body, true)], idCounter := 1)
  {
    var f := JsStrings.Repeat('`', c);
    var s := f + lang + "\n" + body + f;
    var n := |lang|;
    var bodyStart := c + n + 1;
    var close := bodyStart + |body|;
    var started := InitialMd.(inCodeBlock := true, backtickCount := c, codeLanguage := JsStrings.Trim(lang));
    var full := started.(codeContent := body);
    var done := InitialMd.(chunks := [CodeChunk(0, JsStrings.Trim(lang), body, true)], idCounter := 1);
    FenceLayout(c, lang, body);
    assert ScanFrom(InitialMd, s, 0) == ScanFrom(started, s, bodyStart) by {
      OpenFence(s, c, n);
      ScanStep(InitialMd, s, 0, started, bodyStart);
    }
    assert ScanFrom(started, s, bodyStart) == ScanFrom(full, s, close) by {
      BodyRunsAvoid(s, bodyStart, body, c);
      BlockBody(started, s, bodyStart, close);
      assert "" + body == body;
    }
    assert ScanFrom(full, s, close) == done by {
      FenceAtEnd(full, s, close);
      assert [] + [CodeChunk(0, JsStrings.Trim(lang), body, true)] == done.chunks;
    }
    assert s[|Initial.buffer|..] == s;
  }

  /** The fence example of the parser's design: a block opened by four
      backticks is not closed by a run of three, which stays in the code;
      only the four-backtick fence closes it. */
  lemma NestedFence()
    ensures AfterParse(Initial, "````python\ncode\n```\nstill code\n````").md.chunks ==
            [CodeChunk(0, "python", "code\n```\nstill code\n", true)]
  {
    var body := "code\n```\nstill code\n";
    NestedBody();
    assert JsStrings.Trim("python") == "python" by {
      JsStrings.VisibleNotWhitespace('p', 0);
      JsStrings.VisibleNotWhitespace('n', 0);
      JsStrings.TrimNoWhitespace("python");
    }
    assert JsStrings.Repeat('`', 4) == "````";
    NestedText();
    FencedBlock(4, "python", body);
  }

  lemma NestedText()
    ensures "````" + "python" + "\n" + "code\n```\nstill code\n" + "````" == "````python\ncode\n```\nstill code\n````"
  {
  }

  /** The body of that example has one run, of three backticks. */
  lemma NestedBody()
    ensures NoRunOf("code\n```\nstill code\n", 4)
  {
    var body := "code\n```\nstill code\n";
    forall k | 0 <= k < |body| && (k == 0 || body[k - 1] != '`')
      ensures RunLength(body, k) != 4
    {
      if body[k] == '`' {
        assert k == 5;
        assert RunLength(body, 8) == 0;
        assert RunLength(body, 7) == 1;
        assert RunLength(body, 6) == 2;
      }
    }
  }

  lemma {:induction false} LineEndAt(s: string, j: nat, e: nat)
    requires j <= e < |s| && s[e] == '\n' && forall k :: j <= k < e ==> s[k] != '\n'
    ensures LineEnd(s, j) == e
    decreases e - j
  {
    if j < e {
      LineEndAt(s, j + 1, e);
    }
  }

  /** A block still open at the end of a call is shown as an incomplete
      chunk. */
  lemma OpenBlockShown()
    ensures AfterParse(Initial, "```\nab") ==
            Parser(Md([CodeChunk(0, "", "ab", false)], true, false, "", "ab", 3, 1), "```\nab")
  {
    var s1 := "```\nab";
    var m1 := InitialMd.(inCodeBlock := true, backtickCount := 3, codeContent := "ab");
    assert ScanFrom(InitialMd, s1, 0) == m1 by {
      assert s1[..3] == "```" && s1[3] == '\n' && s1[3..3] == "";
      assert JsStrings.Repeat('`', 3) == "```";
      OpenFence(s1, 3, 0);
      JsStrings.TrimNoWhitespace("");
      var started := InitialMd.(inCodeBlock := true, backtickCount := 3);
      ScanStep(InitialMd, s1, 0, started, 4);
      BodyRun(started, s1, 4, 6);
      assert s1[4..6] == "ab";
    }
    assert s1[|Initial.buffer|..] == s1;
  }

  /** When a later call closes that block, a new complete chunk is pushed
      and the incomplete one stays in the list. */
  lemma ClosedInLaterCall()
    ensures AfterParse(Initial, "```\nab").md.chunks == [CodeChunk(0, "", "ab", false)]
    ensures AfterParse(AfterParse(Initial, "```\nab"), "```\nab\n```").md.chunks ==
            [CodeChunk(0, "", "ab", false), CodeChunk(1, "", "ab\n", true)]
  {
    OpenBlockShown();
    var p1 := Parser(Md([CodeChunk(0, "", "ab", false)], true, false, "", "ab", 3, 1), "```\nab");
    var rest := "```\nab\n```"[6..];
    var m2 := p1.md.(codeContent := "ab\n");
    var m3 := Md([CodeChunk(0, "", "ab", false), CodeChunk(1, "", "ab\n", true)], false, false, "", "", 0, 2);
    assert ScanFrom(p1.md, rest, 0) == m3 by {
      assert rest == "\n```";
      assert "ab" + ['\n'] == "ab\n";
      AdvanceText(p1.md, rest, 0);
      ScanStep(p1.md, rest, 0, m2, 1);
      assert rest[1..] == JsStrings.Repeat('`', 3) by {
        assert JsStrings.Repeat('`', 3) == "```";
      }
      FenceAtEnd(m2, rest, 1);
      assert m2.chunks + [CodeChunk(1, "", "ab\n", true)] == m3.chunks;
    }
  }

  /** Two backticks outside code are not a delimiter: the first one is
      text, and the second, now a run of one, opens an inline span. */
  lemma DoubleBacktick()
    ensures AfterParse(Initial, "``x`").md.chunks == [TextChunk(0, "`"), InlineChunk(1, "x", true)]
  {
    var s := "``x`";
    assert s[|Initial.buffer|..] == s;
    assert RunLength(s, 2) == 0;
    assert RunLength(s, 1) == 1;
    assert RunLength(s, 0) == 2;
    assert RunLength(s, 4) == 0;
    assert RunLength(s, 3) == 1;
    AdvanceCases(InitialMd, s, 0);
    var m1 := InitialMd.(chunks := [TextChunk(0, "`")], idCounter := 1);
    assert [] + [TextChunk(0, ['`'])] == [TextChunk(0, "`")];
    assert Advance(InitialMd, s, 0) == (m1, 1);
    AdvanceCases(m1, s, 1);
    var m2 := m1.(inInlineCode := true);
    assert Advance(m1, s, 1) == (m2, 2);
    AdvanceCases(m2, s, 2);
    var m3 := m2.(codeContent := "x");
    assert s[2] == 'x' && "" + ['x'] == "x";
    assert Advance(m2, s, 2) == (m3, 3);
    AdvanceCases(m3, s, 3);
    var m4 := m1.(chunks := [TextChunk(0, "`"), InlineChunk(1, "x", true)], idCounter := 2);
    assert m3.chunks + [InlineChunk(1, "x", true)] == m4.chunks;
    assert Advance(m3, s, 3) == (m4, 4);
    assert ScanFrom(m3, s, 3) == m4;
    assert ScanFrom(m2, s, 2) == m4;
    assert ScanFrom(InitialMd, s, 0) == m4;
  }

  // ---------------------------------------------------------------------
  // The class
  // ---------------------------------------------------------------------

  class MarkdownStreamParser {
    var chunks: seq<Chunk>
    var buffer: string
    var inCodeBlock: bool
    var inInlineCode: bool
    var codeLanguage: string
    var codeContent: string
    var backtickCount: nat
    var idCounter: nat

    function State(): Md
      reads this
    {
      Md(chunks, inCodeBlock, inInlineCode, codeLanguage, codeContent, backtickCount, idCounter)
    }

    function Snapshot(): Parser
      reads this
    {
      Parser(State(), buffer)
    }

    ghost predicate Valid()
      reads this
    {
      Inv(State())
    }

    constructor ()
      ensures Snapshot() == Initial && Valid()
    {
      chunks := [];
      buffer := "";
      inCodeBlock := false;
      inInlineCode := false;
      codeLanguage := "";
      codeContent := "";
      backtickCount := 0;
      idCounter := 0;
    }

    /** `parse(fullContent)`. */
    method Parse(fullContent: string) returns (result: seq<Chunk>)
      requires Valid()
      modifies this
      ensures Valid()
      ensures Snapshot() == AfterParse(old(Snapshot()), fullContent)
      ensures result == chunks
    {
      ghost var before := Snapshot();
      ParseInv(before, fullContent);
      if |fullContent| < |buffer| {
        Reset();
      }
      ghost var start := Snapshot();
      assert start == if |fullContent| < |before.buffer| then Initial else before;
      var newContent := fullContent[|buffer|..];
      buffer := fullContent;
      ghost var target := ScanFrom(State(), newContent, 0);
      var i := 0;
      while i < |newContent|
        invariant i <= |newContent| + 1
        invariant ScanFrom(State(), newContent, i) == target
        invariant buffer == fullContent
        decreases |newContent| + 1 - i
      {
        i := Iteration(newContent, i);
      }
      assert State() == target;
      ShowIncomplete();
      assert State() == ExposeOpen(target);
      result := chunks;
    }

    /** The end of `parse`: show an open block or span as an incomplete
        trailing chunk. */
    method ShowIncomplete()
      modifies this
      ensures State() == ExposeOpen(old(State())) && buffer == old(buffer)
    {
      var n := |chunks|;
      if inCodeBlock {
        if n > 0 && chunks[n - 1].CodeChunk? && !chunks[n - 1].isComplete {
          chunks := chunks[..n - 1] + [CodeChunk(chunks[n - 1].id, codeLanguage, codeContent, false)];
        } else {
          chunks := chunks + [CodeChunk(idCounter, codeLanguage, codeContent, false)];
          idCounter := idCounter + 1;
        }
      } else if inInlineCode {
        if n > 0 && chunks[n - 1].InlineChunk? && !chunks[n - 1].isComplete {
          chunks := chunks[..n - 1] + [InlineChunk(chunks[n - 1].id, codeContent, false)];
        } else {
          chunks := chunks + [InlineChunk(idCounter, codeContent, false)];
          idCounter := idCounter + 1;
        }
      }
    }

    /** The body of the `for` loop at index `i`; `next` is the index the
        loop goes on with. */
    method Iteration(newContent: string, i: nat) returns (next: nat)
      requires i < |newContent|
      modifies this
      ensures (State(), next) == Advance(old(State()), newContent, i)
      ensures buffer == old(buffer)
    {
      ghost var m := State();
      var ch := newContent[i];
      if ch == '`' {
        var count := CountBackticks(newContent, i);
        var j := i + count;
        if count >= 3 && !inInlineCode {
          AdvanceCases(m, newContent, i);
          next := Fence(newContent, j, count);
        } else if count == 1 && !inCodeBlock {
          AdvanceCases(m, newContent, i);
          ToggleInline();
          next := j;
        } else {
          AdvanceCases(m, newContent, i);
          AppendChar(ch);
          next := i + 1;
        }
      } else {
        AdvanceCases(m, newContent, i);
        AppendChar(ch);
        next := i + 1;
      }
    }

    /** The code-fence branch of the loop body. */
    method Fence(newContent: string, j: nat, count: nat) returns (next: nat)
      requires j <= |newContent|
      modifies this
      ensures (State(), next) == FenceStep(old(State()), newContent, j, count)
      ensures buffer == old(buffer)
    {
      if !inCodeBlock {
        FinalizeCurrentChunk();
        inCodeBlock := true;
        backtickCount := count;
        var langEnd := FindLineEnd(newContent, j);
        codeLanguage := JsStrings.Trim(newContent[j..langEnd]);
        codeContent := "";
        next := langEnd + 1;
      } else if count == backtickCount {
        chunks := chunks + [CodeChunk(idCounter, codeLanguage, codeContent, true)];
        idCounter := idCounter + 1;
        inCodeBlock := false;
        codeLanguage := "";
        codeContent := "";
        backtickCount := 0;
        next := j;
      } else {
        codeContent := codeContent + JsStrings.Repeat('`', count);
        next := j;
      }
    }

    /** The inline-code branch of the loop body. */
    method ToggleInline()
      modifies this
      ensures State() == InlineToggle(old(State())) && buffer == old(buffer)
    {
      if !inInlineCode {
        FinalizeCurrentChunk();
        inInlineCode := true;
        codeContent := "";
      } else {
        chunks := chunks + [InlineChunk(idCounter, codeContent, true)];
        idCounter := idCounter + 1;
        inInlineCode := false;
        codeContent := "";
      }
    }

    /** The last part of the loop body: add the character to the open
        block or span, or to the text. */
    method AppendChar(ch: char)
      modifies this
      ensures State() == AddChar(old(State()), ch) && buffer == old(buffer)
    {
      if inCodeBlock {
        codeContent := codeContent + [ch];
      } else if inInlineCode {
        codeContent := codeContent + [ch];
      } else {
        if |chunks| == 0 || !chunks[|chunks| - 1].TextChunk? {
          chunks := chunks + [TextChunk(idCounter, [ch])];
          idCounter := idCounter + 1;
        } else {
          var last := chunks[|chunks| - 1];
          chunks := chunks[..|chunks| - 1] + [TextChunk(last.id, last.content + [ch])];
        }
      }
    }

    /** The loop counting consecutive backticks from `i`. */
    static method CountBackticks(s: string, i: nat) returns (count: nat)
      requires i < |s| && s[i] == '`'
      ensures count == RunLength(s, i) && count >= 1
    {
      count := 1;
      var j := i + 1;
      while j < |s| && s[j] == '`'
        invariant i < j <= |s| && count == j - i
        invariant RunLength(s, i) == count + RunLength(s, j)
        decreases |s| - j
      {
        count := count + 1;
        j := j + 1;
      }
    }

    /** The loop looking for the end of the language line. */
    static method FindLineEnd(s: string, j: nat) returns (langEnd: nat)
      requires j <= |s|
      ensures langEnd == LineEnd(s, j)
    {
      langEnd := j;
      while langEnd < |s| && s[langEnd] != '\n'
        invariant j <= langEnd <= |s|
        invariant LineEnd(s, j) == LineEnd(s, langEnd)
        decreases |s| - langEnd
      {
        langEnd := langEnd + 1;
      }
    }

    /** `finalizeCurrentChunk()`. */
    method FinalizeCurrentChunk()
      modifies this
      ensures State() == old(State()).(chunks := Finalize(old(chunks))) && buffer == old(buffer)
    {
      if |chunks| > 0 {
        var last := chunks[|chunks| - 1];
        if last.CodeChunk? && !last.isComplete {
          chunks := chunks[..|chunks| - 1] + [CodeChunk(last.id, last.language, last.code, true)];
        } else if last.InlineChunk? && !last.isComplete {
          chunks := chunks[..|chunks| - 1] + [InlineChunk(last.id, last.code, true)];
        }
      }
    }

    /** `reset()`. */
    method Reset()
      modifies this
      ensures Snapshot() == Initial
    {
      chunks := [];
      buffer := "";
      inCodeBlock := false;
      inInlineCode := false;
      codeLanguage := "";
      codeContent := "";
      backtickCount := 0;
      idCounter := 0;
    }

    /** `getChunks()`. */
    method GetChunks() returns (result: seq<Chunk>)
      ensures result == chunks
    {
      result := chunks;
    }
  }
}
