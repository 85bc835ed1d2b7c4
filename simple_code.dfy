/** The character-level parser that splits a growing assistant message into
    text, fenced code blocks and inline code spans (src/lib/simple-code-parser.ts).
    The parser keeps its position, so each call only reads what was appended
    since the previous one. */
module SimpleCode {
  import opened Wrappers
  import JsStrings

  datatype Kind = TextKind | CodeKind | InlineKind

  /** A segment. `id` is the counter value the source appends to the kind
      prefix (`text-`, `code-`, `inline-`); only code segments carry a
      language. */
  datatype Segment = Segment(id: nat, kind: Kind, content: string, language: Option<string>)

  datatype ParserState = TextState | LanguageLine | CodeContent | InlineCode

  /** Everything the parser keeps except its position. */
  datatype Core = Core(segments: seq<Segment>, state: ParserState, counter: nat,
                       languageBuffer: string, backtickBuffer: string)

  const InitialCore := Core([], TextState, 0, "", "")

  function Last(segs: seq<Segment>): Segment
    requires segs != []
  {
    segs[|segs| - 1]
  }

  predicate LastIs(segs: seq<Segment>, k: Kind) {
    segs != [] && Last(segs).kind == k
  }

  /** Replace the content of the last segment. */
  function WithLastContent(segs: seq<Segment>, content: string): (r: seq<Segment>)
    requires segs != []
    ensures |r| == |segs| && r[..|r| - 1] == segs[..|segs| - 1]
    ensures Last(r) == Last(segs).(content := content)
  {
    segs[..|segs| - 1] + [Last(segs).(content := content)]
  }

  /** `addToTextSegment`: extend a trailing text segment, or open a new one. */
  function AddText(c: Core, text: string): (r: Core)
    ensures r.state == c.state && r.languageBuffer == c.languageBuffer && r.backtickBuffer == c.backtickBuffer
    ensures LastIs(c.segments, TextKind) ==>
              r.counter == c.counter && r.segments == WithLastContent(c.segments, Last(c.segments).content + text)
    ensures !LastIs(c.segments, TextKind) ==>
              r.counter == c.counter + 1 && r.segments == c.segments + [Segment(c.counter, TextKind, text, None)]
  {
    if LastIs(c.segments, TextKind) then
      c.(segments := WithLastContent(c.segments, Last(c.segments).content + text))
    else
      c.(segments := c.segments + [Segment(c.counter, TextKind, text, None)], counter := c.counter + 1)
  }

  /** `addToCodeSegment` and `addToInlineCodeSegment`: extend the trailing
      segment when it has the given kind, otherwise do nothing. */
  function AddTo(c: Core, k: Kind, text: string): (r: Core)
    ensures LastIs(c.segments, k) ==> r == c.(segments := WithLastContent(c.segments, Last(c.segments).content + text))
    ensures !LastIs(c.segments, k) ==> r == c
  {
    if LastIs(c.segments, k) then c.(segments := WithLastContent(c.segments, Last(c.segments).content + text))
    else c
  }

  /** Drop one trailing newline from a closed code block. */
  function DropTrailingNewline(s: string): (r: string)
    ensures JsStrings.EndsWith(s, "\n") ==> r + "\n" == s
    ensures !JsStrings.EndsWith(s, "\n") ==> r == s
  {
    if JsStrings.EndsWith(s, "\n") then s[..|s| - 1] else s
  }

  /** A run of three or more backticks: it opens a fence from text, closes
      the code block (dropping one trailing newline), or, right after an
      opening fence, opens an empty code segment with no language. */
  function OnFence(c: Core): (r: Core)
    ensures r.backtickBuffer == c.backtickBuffer && |c.segments| <= |r.segments|
    ensures c.state == TextState ==> r.state == LanguageLine && r.segments == c.segments
    ensures c.state == CodeContent ==> r.state == TextState && |r.segments| == |c.segments|
    ensures c.state == LanguageLine ==> r.state == CodeContent && |r.segments| == |c.segments| + 1
    ensures c.state == InlineCode ==> r == c
  {
    match c.state
    case TextState => c.(state := LanguageLine, languageBuffer := "")
    case CodeContent =>
      var c2 :=
        if LastIs(c.segments, CodeKind) then
          c.(segments := WithLastContent(c.segments, DropTrailingNewline(Last(c.segments).content)))
        else c;
      c2.(state := TextState)
    case LanguageLine =>
      c.(segments := c.segments + [Segment(c.counter, CodeKind, "", Some(""))],
         counter := c.counter + 1, state := CodeContent)
    case InlineCode => c
  }

  /** A single backtick: it opens or closes inline code, and is literal
      inside a code block or a language line. */
  function OnSingle(c: Core): (r: Core)
    ensures r.backtickBuffer == c.backtickBuffer && |c.segments| <= |r.segments|
    ensures c.state == TextState ==> r.state == InlineCode && LastIs(r.segments, InlineKind) && Last(r.segments).content == ""
    ensures c.state == InlineCode ==> r == c.(state := TextState)
    ensures c.state == CodeContent || c.state == LanguageLine ==> r.state == c.state
  {
    match c.state
    case TextState =>
      c.(state := InlineCode, segments := c.segments + [Segment(c.counter, InlineKind, "", None)],
         counter := c.counter + 1)
    case InlineCode => c.(state := TextState)
    case CodeContent => AddTo(c, CodeKind, "`")
    case LanguageLine => c.(languageBuffer := c.languageBuffer + "`")
  }

  /** Two backticks are literal wherever they are. */
  function OnDouble(c: Core): (r: Core)
    ensures r.state == c.state && r.backtickBuffer == c.backtickBuffer && |c.segments| <= |r.segments|
  {
    match c.state
    case TextState => AddText(c, "``")
    case CodeContent => AddTo(c, CodeKind, "``")
    case InlineCode => AddTo(c, InlineKind, "``")
    case LanguageLine => c.(languageBuffer := c.languageBuffer + "``")
  }

  /** `processBackticks`: act on the run of backticks that a non-backtick
      character has just ended, then empty the run. */
  function OnBackticks(c: Core): (r: Core)
    ensures r.backtickBuffer == ""
  {
    var count := |c.backtickBuffer|;
    var c1 :=
      if count >= 3 then OnFence(c)
      else if count == 1 then OnSingle(c)
      else if count == 2 then OnDouble(c)
      else c;
    c1.(backtickBuffer := "")
  }

  /** `processCharacter`: a non-backtick character in the current state. A
      newline ends the language line and opens the code segment with the
      trimmed language. */
  function OnCharacter(c: Core, ch: char): (r: Core)
    ensures r.backtickBuffer == c.backtickBuffer
  {
    match c.state
    case TextState => AddText(c, [ch])
    case LanguageLine =>
      if ch == '\n' then
        c.(segments := c.segments + [Segment(c.counter, CodeKind, "", Some(JsStrings.Trim(c.languageBuffer)))],
           counter := c.counter + 1, state := CodeContent, languageBuffer := "")
      else c.(languageBuffer := c.languageBuffer + [ch])
    case CodeContent => AddTo(c, CodeKind, [ch])
    case InlineCode => AddTo(c, InlineKind, [ch])
  }

  /** One iteration of the `for` loop of `parse`. */
  function Feed(c: Core, ch: char): Core {
    if ch == '`' then c.(backtickBuffer := c.backtickBuffer + "`")
    else
      var c1 := if |c.backtickBuffer| > 0 then OnBackticks(c) else c;
      OnCharacter(c1, ch)
  }

  /** The loop over a whole piece of text. */
  function FeedAll(c: Core, s: string): Core
    decreases |s|
  {
    if s == [] then c else FeedAll(Feed(c, s[0]), s[1..])
  }

  /** The parser with its position. */
  datatype Parser = Parser(core: Core, position: nat)

  const Initial := Parser(InitialCore, 0)

  /** `parse(fullContent)`: reset when the content got shorter than what was
      read already, read the rest, remember the new length. */
  function AfterParse(p: Parser, full: string): (r: Parser)
    ensures r.position == |full|
    ensures |full| < p.position ==> r.core == FeedAll(InitialCore, full)
    ensures p.position <= |full| ==> r.core == FeedAll(p.core, full[p.position..])
  {
    var p0 := if |full| < p.position then Initial else p;
    Parser(FeedAll(p0.core, full[p0.position..]), |full|)
  }

  // ---------------------------------------------------------------------
  // Invariant
  // ---------------------------------------------------------------------

  predicate IdsBelow(segs: seq<Segment>, counter: nat) {
    && (forall i, j :: 0 <= i < j < |segs| ==> segs[i].id < segs[j].id)
    && (forall i :: 0 <= i < |segs| ==> segs[i].id < counter)
  }

  /** What holds between characters: inside a code block or an inline span
      the trailing segment is that block or span; ids grow strictly and stay
      below the counter; only code segments carry a language; the pending
      run holds nothing but backticks. */
  predicate Inv(c: Core) {
    && (c.state == CodeContent ==> LastIs(c.segments, CodeKind))
    && (c.state == InlineCode ==> LastIs(c.segments, InlineKind))
    && IdsBelow(c.segments, c.counter)
    && (forall i :: 0 <= i < |c.segments| ==> (c.segments[i].kind == CodeKind <==> c.segments[i].language.Some?))
    && (forall k :: 0 <= k < |c.backtickBuffer| ==> c.backtickBuffer[k] == '`')
  }

  lemma IdsAppend(segs: seq<Segment>, counter: nat, s: Segment)
    requires IdsBelow(segs, counter) && s.id == counter
    ensures IdsBelow(segs + [s], counter + 1)
  {
  }

  lemma AddTextInv(c: Core, text: string)
    requires Inv(c) && c.state != CodeContent && c.state != InlineCode
    ensures Inv(AddText(c, text))
  {
    if !LastIs(c.segments, TextKind) {
      IdsAppend(c.segments, c.counter, Segment(c.counter, TextKind, text, None));
    }
  }

  lemma WithLastContentPush(segs: seq<Segment>, s: Segment, content: string)
    ensures WithLastContent(segs + [s], content) == segs + [s.(content := content)]
  {
    assert (segs + [s])[..|segs|] == segs;
  }

  /** Changing the content of the trailing segment keeps the invariant. */
  lemma WithLastContentInv(c: Core, content: string)
    requires Inv(c) && c.segments != []
    ensures Inv(c.(segments := WithLastContent(c.segments, content)))
  {
    var r := WithLastContent(c.segments, content);
    assert forall i :: 0 <= i < |r| ==> (r[i].id == c.segments[i].id && r[i].kind == c.segments[i].kind &&
                                        r[i].language == c.segments[i].language) by {
      forall i | 0 <= i < |r|
        ensures r[i].id == c.segments[i].id && r[i].kind == c.segments[i].kind && r[i].language == c.segments[i].language
      {
        if i < |r| - 1 {
          assert r[i] == r[..|r| - 1][i];
          assert c.segments[i] == c.segments[..|c.segments| - 1][i];
        }
      }
    }
  }

  lemma AddToInv(c: Core, k: Kind, text: string)
    requires Inv(c)
    ensures Inv(AddTo(c, k, text))
  {
    if LastIs(c.segments, k) {
      WithLastContentInv(c, Last(c.segments).content + text);
    }
  }

  lemma OnFenceInv(c: Core)
    requires Inv(c)
    ensures Inv(OnFence(c))
  {
    match c.state
    case TextState =>
    case CodeContent =>
      WithLastContentInv(c, DropTrailingNewline(Last(c.segments).content));
    case LanguageLine =>
      IdsAppend(c.segments, c.counter, Segment(c.counter, CodeKind, "", Some("")));
    case InlineCode =>
  }

  lemma OnSingleInv(c: Core)
    requires Inv(c)
    ensures Inv(OnSingle(c))
  {
    match c.state
    case TextState =>
      IdsAppend(c.segments, c.counter, Segment(c.counter, InlineKind, "", None));
    case InlineCode =>
    case CodeContent => AddToInv(c, CodeKind, "`");
    case LanguageLine =>
  }

  lemma OnDoubleInv(c: Core)
    requires Inv(c)
    ensures Inv(OnDouble(c))
  {
    match c.state
    case TextState => AddTextInv(c, "``");
    case CodeContent => AddToInv(c, CodeKind, "``");
    case InlineCode => AddToInv(c, InlineKind, "``");
    case LanguageLine =>
  }

  lemma OnBackticksInv(c: Core)
    requires Inv(c)
    ensures Inv(OnBackticks(c))
  {
    var count := |c.backtickBuffer|;
    if count >= 3 {
      OnFenceInv(c);
    } else if count == 1 {
      OnSingleInv(c);
    } else if count == 2 {
      OnDoubleInv(c);
    }
  }

  lemma OnCharacterInv(c: Core, ch: char)
    requires Inv(c)
    ensures Inv(OnCharacter(c, ch))
  {
    match c.state
    case TextState => AddTextInv(c, [ch]);
    case LanguageLine =>
      if ch == '\n' {
        IdsAppend(c.segments, c.counter, Segment(c.counter, CodeKind, "", Some(JsStrings.Trim(c.languageBuffer))));
      }
    case CodeContent => AddToInv(c, CodeKind, [ch]);
    case InlineCode => AddToInv(c, InlineKind, [ch]);
  }

  lemma FeedInv(c: Core, ch: char)
    requires Inv(c)
    ensures Inv(Feed(c, ch))
  {
    if ch != '`' {
      var c1 := if |c.backtickBuffer| > 0 then OnBackticks(c) else c;
      if |c.backtickBuffer| > 0 {
        OnBackticksInv(c);
      }
      OnCharacterInv(c1, ch);
    }
  }

  /** The invariant holds after any amount of input. */
  lemma {:induction false} FeedAllInv(c: Core, s: string)
    requires Inv(c)
    ensures Inv(FeedAll(c, s))
    decreases |s|
  {
    if s != [] {
      FeedInv(c, s[0]);
      FeedAllInv(Feed(c, s[0]), s[1..]);
    }
  }

  // ---------------------------------------------------------------------
  // Resumption
  // ---------------------------------------------------------------------

  /** Reading `a` then `b` is reading `a + b`. */
  lemma {:induction false} FeedAllAppend(c: Core, a: string, b: string)
    ensures FeedAll(c, a + b) == FeedAll(FeedAll(c, a), b)
    decreases |a|
  {
    if a == [] {
      assert a + b == b;
    } else {
      assert (a + b)[0] == a[0];
      assert (a + b)[1..] == a[1..] + b;
      FeedAllAppend(Feed(c, a[0]), a[1..], b);
    }
  }

  /** Streaming a message in two calls gives the same parser as one call
      with the whole message: no character is read twice or skipped, and a
      backtick run cut by the chunk boundary is still seen whole. */
  lemma Resumes(p: Parser, a: string, b: string)
    requires p.position <= |a|
    ensures AfterParse(AfterParse(p, a), a + b) == AfterParse(p, a + b)
  {
    var mid := AfterParse(p, a);
    assert (a + b)[|a|..] == b;
    assert (a + b)[p.position..] == a[p.position..] + b;
    FeedAllAppend(p.core, a[p.position..], b);
  }

  /** Content shorter than the position is treated as a new message. */
  lemma ShorterContentResets(p: Parser, full: string)
    requires |full| < p.position
    ensures AfterParse(p, full) == AfterParse(Initial, full)
  {
  }

  // ---------------------------------------------------------------------
  // Earlier segments are final
  // ---------------------------------------------------------------------

  predicate KeepsEarlier(before: seq<Segment>, after: seq<Segment>) {
    |before| <= |after| && (before != [] ==> after[..|before| - 1] == before[..|before| - 1])
  }

  lemma AddTextKeeps(c: Core, text: string)
    ensures KeepsEarlier(c.segments, AddText(c, text).segments)
  {
    if c.segments != [] && !LastIs(c.segments, TextKind) {
      assert (c.segments + [Segment(c.counter, TextKind, text, None)])[..|c.segments| - 1] == c.segments[..|c.segments| - 1];
    }
  }

  lemma PushKeeps(segs: seq<Segment>, s: Segment)
    ensures KeepsEarlier(segs, segs + [s])
  {
    if segs != [] {
      assert (segs + [s])[..|segs| - 1] == segs[..|segs| - 1];
    }
  }

  lemma KeepsEarlierTrans(a: seq<Segment>, b: seq<Segment>, c: seq<Segment>)
    requires KeepsEarlier(a, b) && KeepsEarlier(b, c)
    ensures KeepsEarlier(a, c)
  {
    if a != [] {
      assert c[..|a| - 1] == c[..|b| - 1][..|a| - 1];
      assert b[..|a| - 1] == b[..|b| - 1][..|a| - 1];
    }
  }

  lemma OnBackticksKeeps(c: Core)
    ensures KeepsEarlier(c.segments, OnBackticks(c).segments)
  {
    var count := |c.backtickBuffer|;
    if c.state == TextState && count == 1 {
      PushKeeps(c.segments, Segment(c.counter, InlineKind, "", None));
    } else if c.state == TextState && count == 2 {
      AddTextKeeps(c, "``");
    } else if c.state == LanguageLine && count >= 3 {
      PushKeeps(c.segments, Segment(c.counter, CodeKind, "", Some("")));
    }
  }

  lemma OnCharacterKeeps(c: Core, ch: char)
    ensures KeepsEarlier(c.segments, OnCharacter(c, ch).segments)
  {
    match c.state
    case TextState => AddTextKeeps(c, [ch]);
    case LanguageLine =>
      if ch == '\n' {
        PushKeeps(c.segments, Segment(c.counter, CodeKind, "", Some(JsStrings.Trim(c.languageBuffer))));
      }
    case CodeContent =>
    case InlineCode =>
  }

  lemma FeedKeeps(c: Core, ch: char)
    ensures KeepsEarlier(c.segments, Feed(c, ch).segments)
  {
    if ch != '`' {
      if |c.backtickBuffer| > 0 {
        var c1 := OnBackticks(c);
        OnBackticksKeeps(c);
        OnCharacterKeeps(c1, ch);
        KeepsEarlierTrans(c.segments, c1.segments, OnCharacter(c1, ch).segments);
      } else {
        OnCharacterKeeps(c, ch);
      }
    }
  }

  /** Only the trailing segment is ever changed: every segment before it
      stays as it is for the rest of the message, and none is removed. */
  lemma {:induction false} FeedAllKeepsEarlier(c: Core, s: string)
    ensures KeepsEarlier(c.segments, FeedAll(c, s).segments)
    decreases |s|
  {
    if s != [] {
      var c1 := Feed(c, s[0]);
      FeedKeeps(c, s[0]);
      FeedAllKeepsEarlier(c1, s[1..]);
      var n := |c.segments|;
      var m := |c1.segments|;
      var fin := FeedAll(c1, s[1..]).segments;
      if n > 0 {
        assert fin[..n - 1] == fin[..m - 1][..n - 1];
        assert c1.segments[..n - 1] == c1.segments[..m - 1][..n - 1];
      }
    }
  }

  // ---------------------------------------------------------------------
  // What the parser makes of plain text, inline code and code blocks
  // ---------------------------------------------------------------------

  /** Text without backticks, read in the text state, extends the text
      segment it follows. */
  lemma {:induction false} PlainTextExtends(c: Core, s: string)
    requires c.state == TextState && c.backtickBuffer == "" && LastIs(c.segments, TextKind) && JsStrings.Lacks(s, '`')
    ensures FeedAll(c, s) == c.(segments := WithLastContent(c.segments, Last(c.segments).content + s))
    decreases |s|
  {
    if s != [] {
      var c1 := Feed(c, s[0]);
      assert c1 == c.(segments := WithLastContent(c.segments, Last(c.segments).content + [s[0]]));
      PlainTextExtends(c1, s[1..]);
      assert Last(c.segments).content + [s[0]] + s[1..] == Last(c.segments).content + s;
      assert WithLastContent(c1.segments, Last(c.segments).content + s) == WithLastContent(c.segments, Last(c.segments).content + s);
    } else {
      assert Last(c.segments).content + s == Last(c.segments).content;
      assert WithLastContent(c.segments, Last(c.segments).content) == c.segments;
    }
  }

  /** A message without backticks is a single text segment. */
  lemma PlainMessage(s: string)
    requires s != [] && JsStrings.Lacks(s, '`')
    ensures FeedAll(InitialCore, s).segments == [Segment(0, TextKind, s, None)]
    ensures FeedAll(InitialCore, s).state == TextState
  {
    var c1 := Feed(InitialCore, s[0]);
    assert c1.segments == [Segment(0, TextKind, [s[0]], None)];
    PlainTextExtends(c1, s[1..]);
    assert [s[0]] + s[1..] == s;
  }

  /** Characters without backticks inside a segment of kind `k` that the
      state keeps appending to. */
  lemma {:induction false} ContentExtends(c: Core, k: Kind, s: string)
    requires (c.state == CodeContent && k == CodeKind) || (c.state == InlineCode && k == InlineKind)
    requires c.backtickBuffer == "" && LastIs(c.segments, k) && JsStrings.Lacks(s, '`')
    ensures FeedAll(c, s) == c.(segments := WithLastContent(c.segments, Last(c.segments).content + s))
    decreases |s|
  {
    if s != [] {
      var c1 := Feed(c, s[0]);
      assert c1 == c.(segments := WithLastContent(c.segments, Last(c.segments).content + [s[0]]));
      ContentExtends(c1, k, s[1..]);
      assert Last(c.segments).content + [s[0]] + s[1..] == Last(c.segments).content + s;
      assert WithLastContent(c1.segments, Last(c.segments).content + s) == WithLastContent(c.segments, Last(c.segments).content + s);
    } else {
      assert Last(c.segments).content + s == Last(c.segments).content;
      assert WithLastContent(c.segments, Last(c.segments).content) == c.segments;
    }
  }

  /** Characters of a language line before its newline are collected. */
  lemma {:induction false} LanguageExtends(c: Core, s: string)
    requires c.state == LanguageLine && c.backtickBuffer == "" && JsStrings.Lacks(s, '`') && JsStrings.Lacks(s, '\n')
    ensures FeedAll(c, s) == c.(languageBuffer := c.languageBuffer + s)
    decreases |s|
  {
    if s != [] {
      LanguageExtends(Feed(c, s[0]), s[1..]);
      assert c.languageBuffer + [s[0]] + s[1..] == c.languageBuffer + s;
    } else {
      assert c.languageBuffer + s == c.languageBuffer;
    }
  }

  /** Backticks read in a row wait in the run buffer; nothing else changes. */
  lemma {:induction false} BackticksWaitFrom(c: Core, n: nat)
    ensures FeedAll(c, JsStrings.Repeat('`', n)) == c.(backtickBuffer := c.backtickBuffer + JsStrings.Repeat('`', n))
    decreases n
  {
    if n == 0 {
      assert c.backtickBuffer + JsStrings.Repeat('`', 0) == c.backtickBuffer;
    } else {
      BackticksWaitFrom(Feed(c, '`'), n - 1);
      assert c.backtickBuffer + "`" + JsStrings.Repeat('`', n - 1) == c.backtickBuffer + JsStrings.Repeat('`', n);
    }
  }

  lemma FeedAllCons(c: Core, ch: char, t: string)
    ensures FeedAll(c, [ch] + t) == FeedAll(Feed(c, ch), t)
  {
    assert ([ch] + t)[0] == ch && ([ch] + t)[1..] == t;
  }

  /** A backtick and a non-empty `x` without backticks, read in the text
      state, open an inline-code segment holding `x`. */
  lemma InlineOpens(c: Core, x: string)
    requires c.state == TextState && c.backtickBuffer == "" && x != [] && JsStrings.Lacks(x, '`')
    ensures FeedAll(c, "`" + x) ==
            c.(segments := c.segments + [Segment(c.counter, InlineKind, x, None)],
               counter := c.counter + 1, state := InlineCode)
  {
    var c1 := Feed(c, '`');
    FeedAllCons(c, '`', x);
    RunSettles(c1, x);
    var open := c.(segments := c.segments + [Segment(c.counter, InlineKind, "", None)],
                   counter := c.counter + 1, state := InlineCode);
    assert OnBackticks(c1) == open;
    ContentExtends(open, InlineKind, x);
    WithLastContentPush(c.segments, Segment(c.counter, InlineKind, "", None), "" + x);
    assert "" + x == x;
  }

  /** A closing backtick and a character `ch` end the inline span and start
      a text segment. */
  lemma InlineCloses(c: Core, ch: char)
    requires c.state == InlineCode && c.backtickBuffer == "" && LastIs(c.segments, InlineKind) && ch != '`'
    ensures FeedAll(c, "`" + [ch]) ==
            c.(segments := c.segments + [Segment(c.counter, TextKind, [ch], None)],
               counter := c.counter + 1, state := TextState)
  {
    var c1 := Feed(c, '`');
    FeedAllCons(c, '`', [ch]);
    RunSettles(c1, [ch]);
    var closed := c.(state := TextState);
    assert OnBackticks(c1) == closed;
    FeedAllCons(closed, ch, []);
  }

  /** An inline span `` `x` `` with a non-empty `x`, followed by a
      character `ch`, read in the text state, adds an inline-code segment
      holding `x` and a text segment holding `ch`. */
  lemma InlineSpan(c: Core, x: string, ch: char)
    requires c.state == TextState && c.backtickBuffer == "" && x != [] && JsStrings.Lacks(x, '`') && ch != '`'
    ensures FeedAll(c, "`" + x + "`" + [ch]).segments ==
            c.segments + [Segment(c.counter, InlineKind, x, None), Segment(c.counter + 1, TextKind, [ch], None)]
    ensures FeedAll(c, "`" + x + "`" + [ch]).state == TextState
  {
    InlineOpens(c, x);
    var c1 := FeedAll(c, "`" + x);
    InlineCloses(c1, ch);
    assert "`" + x + "`" + [ch] == ("`" + x) + ("`" + [ch]);
    FeedAllAppend(c, "`" + x, "`" + [ch]);
  }

  /** Replacing the content of the last segment twice keeps the second. */
  lemma WithLastContentTwice(segs: seq<Segment>, a: string, b: string)
    requires segs != []
    ensures WithLastContent(WithLastContent(segs, a), b) == WithLastContent(segs, b)
  {
    var once := WithLastContent(segs, a);
    assert once[..|once| - 1] == segs[..|segs| - 1];
  }

  /** Two backticks and a character `ch` are literal text in every state:
      they extend the trailing text, code or inline segment, or the
      language line, by the two backticks and `ch`. */
  lemma DoubleBacktick(c: Core, ch: char)
    requires c.backtickBuffer == "" && ch != '`'
    ensures c.state == TextState ==> FeedAll(c, "``" + [ch]) == AddText(c, "``" + [ch])
    ensures c.state == CodeContent && LastIs(c.segments, CodeKind) ==>
              FeedAll(c, "``" + [ch]) == AddTo(c, CodeKind, "``" + [ch])
    ensures c.state == InlineCode && LastIs(c.segments, InlineKind) ==>
              FeedAll(c, "``" + [ch]) == AddTo(c, InlineKind, "``" + [ch])
    ensures c.state == LanguageLine && ch != '\n' ==>
              FeedAll(c, "``" + [ch]) == c.(languageBuffer := c.languageBuffer + "``" + [ch])
  {
    DoubleSettles(c, ch);
    var tail := "``" + [ch];
    match c.state
    case TextState =>
      if LastIs(c.segments, TextKind) {
        var l := Last(c.segments).content;
        assert l + "``" + [ch] == l + tail;
        WithLastContentTwice(c.segments, l + "``", l + tail);
      } else {
        WithLastContentPush(c.segments, Segment(c.counter, TextKind, "``", None), tail);
      }
    case CodeContent =>
      if LastIs(c.segments, CodeKind) {
        var l := Last(c.segments).content;
        assert l + "``" + [ch] == l + tail;
        WithLastContentTwice(c.segments, l + "``", l + tail);
      }
    case InlineCode =>
      if LastIs(c.segments, InlineKind) {
        var l := Last(c.segments).content;
        assert l + "``" + [ch] == l + tail;
        WithLastContentTwice(c.segments, l + "``", l + tail);
      }
    case LanguageLine =>
  }

  /** Two backticks wait in the run buffer until the next character, which
      settles them as a literal pair and is then read itself. */
  lemma DoubleSettles(c: Core, ch: char)
    requires c.backtickBuffer == "" && ch != '`'
    ensures FeedAll(c, "``" + [ch]) == OnCharacter(OnDouble(c), ch)
  {
    var c2 := c.(backtickBuffer := "``");
    assert FeedAll(c, "``") == c2 by {
      BackticksWaitFrom(c, 2);
      assert JsStrings.Repeat('`', 2) == "``";
      assert c.backtickBuffer + "``" == "``";
    }
    assert FeedAll(c, "``" + [ch]) == FeedAll(c2, [ch]) by {
      FeedAllAppend(c, "``", [ch]);
    }
    assert FeedAll(c2, [ch]) == Feed(c2, ch) by {
      FeedAllCons(c2, ch, []);
      assert [ch] + [] == [ch];
    }
    assert OnBackticks(c2) == OnDouble(c) by {
      assert OnBackticks(c2) == OnDouble(c2).(backtickBuffer := "");
      OnDoubleKeepsRun(c, "``");
      var d := OnDouble(c);
      assert d.(backtickBuffer := "``").(backtickBuffer := "") == d;
    }
  }

  /** `OnDouble` leaves the pending run alone. */
  lemma OnDoubleKeepsRun(c: Core, run: string)
    ensures OnDouble(c.(backtickBuffer := run)) == OnDouble(c).(backtickBuffer := run)
    ensures OnDouble(c).backtickBuffer == c.backtickBuffer
  {
    var d := c.(backtickBuffer := run);
    match c.state
    case TextState =>
      assert LastIs(d.segments, TextKind) == LastIs(c.segments, TextKind);
    case CodeContent =>
      assert LastIs(d.segments, CodeKind) == LastIs(c.segments, CodeKind);
    case InlineCode =>
      assert LastIs(d.segments, InlineKind) == LastIs(c.segments, InlineKind);
    case LanguageLine =>
  }

  /** A pending run of backticks is settled by the next character, so
      reading on from the buffered state is reading on from the settled
      one. */
  lemma RunSettles(c: Core, t: string)
    requires t != [] && t[0] != '`' && c.backtickBuffer != ""
    ensures FeedAll(c, t) == FeedAll(OnBackticks(c), t)
  {
    var settled := OnBackticks(c);
    assert settled.backtickBuffer == "";
    assert Feed(c, t[0]) == Feed(settled, t[0]);
  }

  /** A language line and its newline open the code segment with the
      trimmed language. */
  lemma LanguageLineEnds(c: Core, lang: string)
    requires c.state == LanguageLine && c.backtickBuffer == "" && JsStrings.Lacks(lang, '`') && JsStrings.Lacks(lang, '\n')
    ensures FeedAll(c, lang + "\n") ==
            c.(segments := c.segments + [Segment(c.counter, CodeKind, "", Some(JsStrings.Trim(c.languageBuffer + lang)))],
               counter := c.counter + 1, state := CodeContent, languageBuffer := "")
  {
    FeedAllAppend(c, lang, "\n");
    LanguageExtends(c, lang);
    FeedAllCons(c.(languageBuffer := c.languageBuffer + lang), '\n', []);
  }

  /** An opening fence with its language line: the code segment is opened,
      with the trimmed language and no content yet. */
  lemma FenceOpens(c: Core, lang: string)
    requires c.state == TextState && c.backtickBuffer == "" && JsStrings.Lacks(lang, '`') && JsStrings.Lacks(lang, '\n')
    ensures FeedAll(c, "```" + lang + "\n") ==
            c.(segments := c.segments + [Segment(c.counter, CodeKind, "", Some(JsStrings.Trim(lang)))],
               counter := c.counter + 1, state := CodeContent, languageBuffer := "")
  {
    BackticksWaitFrom(c, 3);
    assert JsStrings.Repeat('`', 3) == "```";
    var c3 := c.(backtickBuffer := "```");
    var line := lang + "\n";
    assert "```" + lang + "\n" == "```" + line;
    FeedAllAppend(c, "```", line);
    assert line[0] != '`' by {
      if lang != [] {
        assert line[0] == lang[0];
      }
    }
    RunSettles(c3, line);
    var open := c.(state := LanguageLine, languageBuffer := "");
    assert OnBackticks(c3) == open;
    LanguageLineEnds(open, lang);
    assert "" + lang == lang;
  }

  /** A closing fence followed by a character `ch` in a code segment:
      one trailing newline is dropped from the code and `ch` starts a new
      text segment. */
  lemma FenceCloses(c: Core, ch: char)
    requires c.state == CodeContent && c.backtickBuffer == "" && LastIs(c.segments, CodeKind) && ch != '`'
    ensures FeedAll(c, "```" + [ch]).segments ==
            WithLastContent(c.segments, DropTrailingNewline(Last(c.segments).content)) +
            [Segment(c.counter, TextKind, [ch], None)]
    ensures FeedAll(c, "```" + [ch]).state == TextState
  {
    BackticksWaitFrom(c, 3);
    assert JsStrings.Repeat('`', 3) == "```";
    var c3 := c.(backtickBuffer := "```");
    FeedAllAppend(c, "```", [ch]);
    FeedAllCons(c3, ch, []);
    var closed := OnBackticks(c3);
    assert closed.segments == WithLastContent(c.segments, DropTrailingNewline(Last(c.segments).content));
    assert closed.state == TextState;
  }

  /** A complete fenced block followed by a character `ch`, read in the
      text state, adds a code segment holding the body less one trailing
      newline, with the trimmed language, and a text segment holding `ch`. */
  lemma FencedBlock(c: Core, lang: string, code: string, ch: char)
    requires c.state == TextState && c.backtickBuffer == ""
    requires JsStrings.Lacks(lang, '`') && JsStrings.Lacks(lang, '\n') && JsStrings.Lacks(code, '`') && ch != '`'
    ensures FeedAll(c, "```" + lang + "\n" + code + "```" + [ch]).segments ==
            c.segments + [Segment(c.counter, CodeKind, DropTrailingNewline(code), Some(JsStrings.Trim(lang))),
                          Segment(c.counter + 1, TextKind, [ch], None)]
    ensures FeedAll(c, "```" + lang + "\n" + code + "```" + [ch]).state == TextState
  {
    var head := "```" + lang + "\n";
    var tail := "```" + [ch];
    var empty := Segment(c.counter, CodeKind, "", Some(JsStrings.Trim(lang)));
    var full := Segment(c.counter, CodeKind, code, Some(JsStrings.Trim(lang)));
    var c1 := FeedAll(c, head);
    assert c1 == c.(segments := c.segments + [empty], counter := c.counter + 1, state := CodeContent, languageBuffer := "") by {
      FenceOpens(c, lang);
    }
    var c2 := FeedAll(c1, code);
    assert c2 == c1.(segments := c.segments + [full]) by {
      ContentExtends(c1, CodeKind, code);
      WithLastContentPush(c.segments, empty, code);
      assert "" + code == code;
    }
    assert FeedAll(c2, tail).segments ==
           c.segments + [full.(content := DropTrailingNewline(code)), Segment(c.counter + 1, TextKind, [ch], None)]
      && FeedAll(c2, tail).state == TextState by {
      FenceCloses(c2, ch);
      WithLastContentPush(c.segments, full, DropTrailingNewline(code));
    }
    assert FeedAll(c, "```" + lang + "\n" + code + "```" + [ch]) == FeedAll(c2, tail) by {
      assert "```" + lang + "\n" + code + "```" + [ch] == head + (code + tail);
      FeedAllAppend(c, head, code + tail);
      FeedAllAppend(c1, code, tail);
    }
  }

  // ---------------------------------------------------------------------
  // The class
  // ---------------------------------------------------------------------

  lemma FeedAllSnoc(c: Core, s: string, ch: char)
    ensures FeedAll(c, s + [ch]) == Feed(FeedAll(c, s), ch)
  {
    FeedAllAppend(c, s, [ch]);
    FeedAllCons(FeedAll(c, s), ch, []);
  }

  /** Reading one more character of `s` is one more `Feed`. */
  lemma FeedAllPrefix(c: Core, s: string, i: nat)
    requires i < |s|
    ensures FeedAll(c, s[..i + 1]) == Feed(FeedAll(c, s[..i]), s[i])
  {
    FeedAllSnoc(c, s[..i], s[i]);
    assert s[..i + 1] == s[..i] + [s[i]];
  }

  class SimpleCodeParser {
    var segments: seq<Segment>
    var position: nat
    var state: ParserState
    var segmentIdCounter: nat
    var languageBuffer: string
    var backtickBuffer: string

    function CoreState(): Core
      reads this
    {
      Core(segments, state, segmentIdCounter, languageBuffer, backtickBuffer)
    }

    function Snapshot(): Parser
      reads this
    {
      Parser(CoreState(), position)
    }

    ghost predicate Valid()
      reads this
    {
      Inv(CoreState())
    }

    constructor ()
      ensures Snapshot() == Initial && Valid()
    {
      segments := [];
      position := 0;
      state := TextState;
      segmentIdCounter := 0;
      languageBuffer := "";
      backtickBuffer := "";
    }

    /** `parse(fullContent)`: the segments after reading what was appended. */
    method Parse(fullContent: string) returns (result: seq<Segment>)
      requires Valid()
      modifies this
      ensures Valid()
      ensures Snapshot() == AfterParse(old(Snapshot()), fullContent)
      ensures result == segments
    {
      if |fullContent| < position {
        Reset();
      }
      var newContent := fullContent[position..];
      ghost var start := CoreState();
      for i := 0 to |newContent|
        invariant CoreState() == FeedAll(start, newContent[..i])
        invariant Valid()
        invariant position == old(position) || (position == 0 && |fullContent| < old(position))
      {
        var ch := newContent[i];
        FeedAllPrefix(start, newContent, i);
        FeedInv(CoreState(), ch);
        ReadChar(ch);
      }
      assert newContent[..|newContent|] == newContent;
      position := |fullContent|;
      result := segments;
    }

    /** One pass of the loop in `parse`: a backtick is buffered, any other
        character first settles the buffered backticks. */
    method ReadChar(ch: char)
      modifies this
      ensures CoreState() == Feed(old(CoreState()), ch) && position == old(position)
    {
      if ch == '`' {
        backtickBuffer := backtickBuffer + "`";
        return;
      }
      if |backtickBuffer| > 0 {
        ProcessBackticks();
      }
      ProcessCharacter(ch);
    }

    method ProcessBackticks()
      modifies this
      ensures CoreState() == OnBackticks(old(CoreState())) && position == old(position)
    {
      var count := |backtickBuffer|;
      if count >= 3 {
        if state == TextState {
          state := LanguageLine;
          languageBuffer := "";
        } else if state == CodeContent {
          if segments != [] && Last(segments).kind == CodeKind && JsStrings.EndsWith(Last(segments).content, "\n") {
            var content := Last(segments).content;
            segments := WithLastContent(segments, content[..|content| - 1]);
          }
          state := TextState;
        } else if state == LanguageLine {
          segments := segments + [Segment(segmentIdCounter, CodeKind, "", Some(""))];
          segmentIdCounter := segmentIdCounter + 1;
          state := CodeContent;
        }
      } else if count == 1 {
        if state == TextState {
          state := InlineCode;
          segments := segments + [Segment(segmentIdCounter, InlineKind, "", None)];
          segmentIdCounter := segmentIdCounter + 1;
        } else if state == InlineCode {
          state := TextState;
        } else if state == CodeContent {
          AddToSegment(CodeKind, "`");
        } else if state == LanguageLine {
          languageBuffer := languageBuffer + "`";
        }
      } else if count == 2 {
        if state == TextState {
          AddToTextSegment("``");
        } else if state == CodeContent {
          AddToSegment(CodeKind, "``");
        } else if state == InlineCode {
          AddToSegment(InlineKind, "``");
        } else if state == LanguageLine {
          languageBuffer := languageBuffer + "``";
        }
      }
      backtickBuffer := "";
    }

    method ProcessCharacter(ch: char)
      modifies this
      ensures CoreState() == OnCharacter(old(CoreState()), ch) && position == old(position)
    {
      match state
      case TextState => AddToTextSegment([ch]);
      case LanguageLine =>
        if ch == '\n' {
          segments := segments + [Segment(segmentIdCounter, CodeKind, "", Some(JsStrings.Trim(languageBuffer)))];
          segmentIdCounter := segmentIdCounter + 1;
          state := CodeContent;
          languageBuffer := "";
        } else {
          languageBuffer := languageBuffer + [ch];
        }
      case CodeContent => AddToSegment(CodeKind, [ch]);
      case InlineCode => AddToSegment(InlineKind, [ch]);
    }

    /** `addToTextSegment`. */
    method AddToTextSegment(text: string)
      modifies this
      ensures CoreState() == AddText(old(CoreState()), text) && position == old(position)
    {
      if segments != [] && Last(segments).kind == TextKind {
        segments := WithLastContent(segments, Last(segments).content + text);
      } else {
        segments := segments + [Segment(segmentIdCounter, TextKind, text, None)];
        segmentIdCounter := segmentIdCounter + 1;
      }
    }

    /** `addToCodeSegment` (kind `CodeKind`) and `addToInlineCodeSegment`
        (kind `InlineKind`). */
    method AddToSegment(k: Kind, text: string)
      modifies this
      ensures CoreState() == AddTo(old(CoreState()), k, text) && position == old(position)
    {
      if segments != [] && Last(segments).kind == k {
        segments := WithLastContent(segments, Last(segments).content + text);
      }
    }

    /** `reset()`. */
    method Reset()
      modifies this
      ensures Snapshot() == Initial
    {
      segments := [];
      position := 0;
      state := TextState;
      segmentIdCounter := 0;
      languageBuffer := "";
      backtickBuffer := "";
    }

    /** `getSegments()`. */
    method GetSegments() returns (result: seq<Segment>)
      ensures result == segments
    {
      result := segments;
    }
  }
}
