/** `parseUserMessage` of src/lib/user-message-parser.ts: split a message
    the user typed into text and fenced code segments, using the pattern
    "three backticks, an optional word, a newline, the shortest body, three
    backticks", matched here by hand. */
module UserMessage {
  import opened Wrappers
  import JsStrings

  datatype Kind = TextKind | CodeKind

  /** A segment; only code segments carry a language. */
  datatype Segment = Segment(kind: Kind, content: string, language: Option<string>)

  const Fence := "```"

  /** One match of the pattern: where it starts, the word after the opening
      fence (empty when there is none), the body, and the index past the
      closing fence. */
  datatype Block = Block(start: nat, language: string, body: string, end: nat)

  /** The end of the run of word characters `\w` from `i`. */
  function WordEnd(s: string, i: nat): (r: nat)
    requires i <= |s|
    ensures i <= r <= |s|
    decreases |s| - i
  {
    if i < |s| && JsStrings.IsWordChar(s[i]) then WordEnd(s, i + 1) else i
  }

  /** The run is made of word characters and stops at a non-word one or at
      the end. */
  lemma {:induction false} WordEndSpec(s: string, i: nat)
    requires i <= |s|
    ensures forall k :: i <= k < WordEnd(s, i) ==> JsStrings.IsWordChar(s[k])
    ensures WordEnd(s, i) < |s| ==> !JsStrings.IsWordChar(s[WordEnd(s, i)])
    decreases |s| - i
  {
    if i < |s| && JsStrings.IsWordChar(s[i]) {
      WordEndSpec(s, i + 1);
    }
  }

  /** The first fence at or after `i`: what the lazy body stops at. */
  function FenceFrom(s: string, i: nat): (r: Option<nat>)
    ensures r.Some? ==> i <= r.value && JsStrings.OccursAt(s, Fence, r.value)
    decreases |s| - i
  {
    if i + 3 > |s| then None
    else if s[i..i + 3] == Fence then Some(i)
    else FenceFrom(s, i + 1)
  }

  /** No fence starts between `i` and the one found, and none at all when
      nothing is found. */
  lemma {:induction false} FenceFromFirst(s: string, i: nat)
    ensures FenceFrom(s, i).Some? ==> forall k :: i <= k < FenceFrom(s, i).value ==> !JsStrings.OccursAt(s, Fence, k)
    ensures FenceFrom(s, i).None? ==> forall k :: i <= k ==> !JsStrings.OccursAt(s, Fence, k)
    decreases |s| - i
  {
    if i + 3 <= |s| && s[i..i + 3] != Fence {
      FenceFromFirst(s, i + 1);
    }
  }

  /** The pattern matched at exactly `p`. The optional word is greedy and
      must be followed by the newline: a shorter word, or none, would leave
      a word character where the newline must be. */
  function MatchAt(s: string, p: nat): (r: Option<Block>)
    ensures r.Some? ==> r.value.start == p && p + 7 <= r.value.end <= |s|
  {
    if JsStrings.OccursAt(s, Fence, p) then
      var w := WordEnd(s, p + 3);
      if w < |s| && s[w] == '\n' then
        match FenceFrom(s, w + 1)
        case Some(q) => Some(Block(p, s[p + 3..w], s[w + 1..q], q + 3))
        case None => None
      else None
    else None
  }

  /** A match is an opening fence, a word, a newline, a body holding no
      fence, and the closing fence. */
  lemma MatchAtSpec(s: string, p: nat)
    requires MatchAt(s, p).Some?
    ensures var b := MatchAt(s, p).value;
            && p + 7 + |b.language| <= b.end <= |s|
            && s[p..p + 3] == Fence && s[p + 3..p + 3 + |b.language|] == b.language
            && s[p + 3 + |b.language|] == '\n'
            && b.body == s[p + 4 + |b.language|..b.end - 3] && s[b.end - 3..b.end] == Fence
            && (forall k :: 0 <= k < |b.language| ==> JsStrings.IsWordChar(b.language[k]))
            && (forall k :: p + 4 + |b.language| <= k < b.end - 3 ==> !JsStrings.OccursAt(s, Fence, k))
  {
    WordEndSpec(s, p + 3);
    FenceFromFirst(s, p + 4 + |MatchAt(s, p).value.language|);
  }

  /** `exec` of the global pattern from `from`: the leftmost match. */
  function FindBlock(s: string, from: nat): (r: Option<Block>)
    ensures r.Some? ==> from <= r.value.start && MatchAt(s, r.value.start) == r
    decreases |s| - from
  {
    if from >= |s| then None
    else
      var m := MatchAt(s, from);
      if m.Some? then m else FindBlock(s, from + 1)
  }

  /** The match found is the leftmost one: none starts before it, and none
      at all when nothing is found. */
  lemma {:induction false} FindBlockLeftmost(s: string, from: nat)
    ensures FindBlock(s, from).Some? ==> forall p :: from <= p < FindBlock(s, from).value.start ==> MatchAt(s, p).None?
    ensures FindBlock(s, from).None? ==> forall p :: from <= p < |s| ==> MatchAt(s, p).None?
    decreases |s| - from
  {
    if from < |s| && MatchAt(s, from).None? {
      FindBlockLeftmost(s, from + 1);
      var r := FindBlock(s, from);
      assert r == FindBlock(s, from + 1);
      var stop := if r.Some? then r.value.start else |s|;
      forall p | from <= p < stop ensures MatchAt(s, p).None? {
        if p > from {
          assert from + 1 <= p < stop;
        }
      }
    }
  }

  /** A text segment, when the (trimmed) text is not empty. */
  function TextPart(t: string): (r: seq<Segment>)
    ensures |r| <= 1 && (r == [] <==> t == "")
    ensures r != [] ==> r[0].kind == TextKind && r[0].content == t && r[0].language.None?
  {
    if t == "" then [] else [Segment(TextKind, t, None)]
  }

  /** The code segment of a block: trimmed body, and `plaintext` when no
      word followed the opening fence. */
  function CodePart(b: Block): (r: Segment)
    ensures r.kind == CodeKind && r.content == JsStrings.Trim(b.body)
    ensures r.language.Some? && r.language.value != ""
    ensures b.language != "" ==> r.language == Some(b.language)
  {
    Segment(CodeKind, JsStrings.Trim(b.body), Some(if b.language == "" then "plaintext" else b.language))
  }

  /** The text between `from` and a block starting at `to`. */
  function Gap(s: string, from: nat, to: nat): (r: seq<Segment>)
    requires from <= to <= |s|
    ensures |r| <= 1
    ensures r != [] ==> from < to && r[0].kind == TextKind && r[0].content == JsStrings.Trim(s[from..to]) != ""
  {
    if to > from then TextPart(JsStrings.Trim(s[from..to])) else []
  }

  /** The segments the loop pushes from `from` on, including the remaining
      text after the last block. */
  function SplitFrom(s: string, from: nat): seq<Segment>
    requires from <= |s|
    decreases |s| - from
  {
    match FindBlock(s, from)
    case None => if from < |s| then TextPart(JsStrings.Trim(s[from..])) else []
    case Some(b) => Gap(s, from, b.start) + [CodePart(b)] + SplitFrom(s, b.end)
  }

  /** `parseUserMessage(content)`. */
  function ParseUserMessage(content: string): (r: seq<Segment>)
    ensures r != []
  {
    var segs := SplitFrom(content, 0);
    if segs == [] then [Segment(TextKind, content, None)] else segs
  }

  /** A segment as the parser leaves it: non-empty trimmed text, or code
      with trimmed content and a non-empty language. */
  predicate WellFormed(seg: Segment) {
    && JsStrings.Trim(seg.content) == seg.content
    && (seg.kind == TextKind ==> seg.content != "" && seg.language.None?)
    && (seg.kind == CodeKind ==> seg.language.Some? && seg.language.value != "")
  }

  lemma TextPartWellFormed(t: string)
    requires JsStrings.Trim(t) == t
    ensures AllWellFormed(TextPart(t))
  {
  }

  /** One turn of the loop: the text before the block, the block, and
      what follows it. */
  lemma SplitStep(s: string, from: nat, b: Block)
    requires from <= |s| && FindBlock(s, from) == Some(b)
    ensures SplitFrom(s, from) == Gap(s, from, b.start) + [CodePart(b)] + SplitFrom(s, b.end)
  {
  }

  /** After the last block: the remaining text, if any. */
  lemma SplitLast(s: string, from: nat)
    requires from <= |s| && FindBlock(s, from).None?
    ensures SplitFrom(s, from) == if from < |s| then TextPart(JsStrings.Trim(s[from..])) else []
  {
  }

  /** A trimmed text gives well-formed segments. */
  lemma TrimmedPartWellFormed(t: string)
    ensures AllWellFormed(TextPart(JsStrings.Trim(t)))
  {
    JsStrings.TrimIdempotent(t);
    TextPartWellFormed(JsStrings.Trim(t));
  }

  /** Every segment of a list is well formed. */
  predicate AllWellFormed(segs: seq<Segment>) {
    forall i :: 0 <= i < |segs| ==> WellFormed(segs[i])
  }

  /** Every segment pushed by the loop is well formed. */
  lemma {:induction false} SplitWellFormed(s: string, from: nat)
    requires from <= |s|
    ensures AllWellFormed(SplitFrom(s, from))
    decreases |s| - from
  {
    var m := FindBlock(s, from);
    if m.None? {
      SplitLast(s, from);
      if from < |s| {
        TrimmedPartWellFormed(s[from..]);
      }
    } else {
      var b := m.value;
      var gap := Gap(s, from, b.start);
      var rest := SplitFrom(s, b.end);
      assert AllWellFormed(rest) by {
        SplitWellFormed(s, b.end);
      }
      assert AllWellFormed(gap) by {
        if b.start > from {
          TrimmedPartWellFormed(s[from..b.start]);
        }
      }
      assert AllWellFormed([CodePart(b)]) by {
        JsStrings.TrimIdempotent(b.body);
      }
      assert SplitFrom(s, from) == gap + [CodePart(b)] + rest by {
        SplitStep(s, from, b);
      }
      SegmentsAppend(gap, [CodePart(b)], rest);
    }
  }

  /** Well-formedness of a concatenation of three lists. */
  lemma SegmentsAppend(a: seq<Segment>, b: seq<Segment>, c: seq<Segment>)
    requires AllWellFormed(a) && AllWellFormed(b) && AllWellFormed(c)
    ensures AllWellFormed(a + b + c)
  {
  }

  /** With no fenced block the message stays one text segment: the trimmed
      message, or the message as typed when it is only white space. */
  lemma NoBlockOneText(content: string)
    requires FindBlock(content, 0).None?
    ensures ParseUserMessage(content) ==
            [Segment(TextKind, if JsStrings.Trim(content) == "" then content else JsStrings.Trim(content), None)]
  {
    assert content[0..] == content;
  }

  /** A message that is a single block with nothing around it gives exactly
      one code segment. */
  lemma SingleBlock(language: string, body: string)
    requires forall k :: 0 <= k < |language| ==> JsStrings.IsWordChar(language[k])
    requires forall k :: 0 <= k <= |body| - 3 ==> !JsStrings.OccursAt(body, Fence, k)
    requires |body| < 2 || body[|body| - 2..] != "``"
    requires body == [] || body[|body| - 1] != '`'
    ensures var s := Fence + language + "\n" + body + Fence;
            ParseUserMessage(s) ==
            [Segment(CodeKind, JsStrings.Trim(body), Some(if language == "" then "plaintext" else language))]
  {
    var s := Fence + language + "\n" + body + Fence;
    var q := 4 + |language| + |body|;
    var b := Block(0, language, body, q + 3);
    BlockMatches(language, body);
    assert SplitFrom(s, 0) == [CodePart(b)] by {
      assert FindBlock(s, 0) == Some(b);
      SplitStep(s, 0, b);
      SplitLast(s, q + 3);
    }
  }

  /** The single block of `SingleBlock` is matched at its first character. */
  lemma BlockMatches(language: string, body: string)
    requires forall k :: 0 <= k < |language| ==> JsStrings.IsWordChar(language[k])
    requires forall k :: 0 <= k <= |body| - 3 ==> !JsStrings.OccursAt(body, Fence, k)
    requires |body| < 2 || body[|body| - 2..] != "``"
    requires body == [] || body[|body| - 1] != '`'
    ensures var s := Fence + language + "\n" + body + Fence;
            MatchAt(s, 0) == Some(Block(0, language, body, |s|))
  {
    BlockLayout(language, body);
    LaidOutMatches(Fence + language + "\n" + body + Fence, language, body);
  }

  /** A message whose parts sit where `BlockLayout` puts them matches at its
      first character. */
  lemma LaidOutMatches(s: string, language: string, body: string)
    requires forall k :: 0 <= k < |language| ==> JsStrings.IsWordChar(language[k])
    requires forall k :: 0 <= k <= |body| - 3 ==> !JsStrings.OccursAt(body, Fence, k)
    requires |body| < 2 || body[|body| - 2..] != "``"
    requires body == [] || body[|body| - 1] != '`'
    requires var w := 3 + |language|;
             && |s| == w + 4 + |body| && s[..3] == Fence && s[3..w] == language && s[w] == '\n'
             && s[w + 1..] == body + Fence && s[w + 1..w + 1 + |body|] == body
    ensures MatchAt(s, 0) == Some(Block(0, language, body, |s|))
  {
    var w := 3 + |language|;
    var q := w + 1 + |body|;
    assert forall k :: 3 <= k < w ==> JsStrings.IsWordChar(s[k]) by {
      forall k | 3 <= k < w
        ensures JsStrings.IsWordChar(s[k])
      {
        assert s[k] == s[3..w][k - 3];
      }
    }
    WordEndAt(s, 3, w);
    BodyFenceFrom(s, body, w + 1);
    MatchAtFound(s, w, q);
  }

  /** Where the parts of `Fence + language + "\n" + body + Fence` sit. */
  lemma BlockLayout(language: string, body: string)
    ensures var s := Fence + language + "\n" + body + Fence;
            var w := 3 + |language|;
            && |s| == w + 4 + |body| && s[..3] == Fence && s[3..w] == language && s[w] == '\n'
            && s[w + 1..] == body + Fence && s[w + 1..w + 1 + |body|] == body
  {
    var s := Fence + language + "\n" + body + Fence;
    var w := 3 + |language|;
    var head := Fence + language + "\n";
    assert s == head + (body + Fence);
    assert s[..w + 1] == head;
    assert head[..3] == Fence && head[3..w] == language && head[w] == '\n';
    assert s[w + 1..][..|body|] == (body + Fence)[..|body|];
  }

  /** The pattern at the start of a message laid out as a fence, a word, a
      newline and a body followed by its closing fence. */
  lemma MatchAtFound(s: string, w: nat, q: nat)
    requires 3 <= w < q <= |s| && s[..3] == Fence && s[w] == '\n'
    requires WordEnd(s, 3) == w && FenceFrom(s, w + 1) == Some(q)
    ensures MatchAt(s, 0) == Some(Block(0, s[3..w], s[w + 1..q], q + 3))
  {
    assert JsStrings.OccursAt(s, Fence, 0);
  }

  /** After the newline, the lazy body of such a block stops at the closing
      fence. */
  lemma BodyFenceFrom(s: string, body: string, b: nat)
    requires b <= |s| && s[b..] == body + Fence
    requires forall k :: 0 <= k <= |body| - 3 ==> !JsStrings.OccursAt(body, Fence, k)
    requires |body| < 2 || body[|body| - 2..] != "``"
    requires body == [] || body[|body| - 1] != '`'
    ensures FenceFrom(s, b) == Some(b + |body|)
  {
    var q := b + |body|;
    forall k | b <= k < q
      ensures !JsStrings.OccursAt(s, Fence, k)
    {
      NoFenceInBody(s, body, b, k);
    }
    assert s[q..q + 3] == Fence by {
      assert s[b..][|body|..] == Fence;
    }
    FenceFromAt(s, b, q);
  }

  /** `WordEnd` stops at the first non-word character. */
  lemma {:induction false} WordEndAt(s: string, i: nat, w: nat)
    requires i <= w < |s| && !JsStrings.IsWordChar(s[w])
    requires forall k :: i <= k < w ==> JsStrings.IsWordChar(s[k])
    ensures WordEnd(s, i) == w
    decreases w - i
  {
    if i < w {
      WordEndAt(s, i + 1, w);
    }
  }

  /** `FenceFrom` finds the first fence. */
  lemma {:induction false} FenceFromAt(s: string, i: nat, q: nat)
    requires i <= q && JsStrings.OccursAt(s, Fence, q)
    requires forall k :: i <= k < q ==> !JsStrings.OccursAt(s, Fence, k)
    ensures FenceFrom(s, i) == Some(q)
    decreases q - i
  {
    if i < q {
      FenceFromAt(s, i + 1, q);
    }
  }

  /** A fence starting inside the body of `Fence + language + "\n" + body +
      Fence` would be a fence in the body, or would need the body to end in
      one or two backticks. */
  lemma NoFenceInBody(s: string, body: string, b: nat, k: nat)
    requires b <= |s| && s[b..] == body + Fence && b <= k < b + |body|
    requires forall j :: 0 <= j <= |body| - 3 ==> !JsStrings.OccursAt(body, Fence, j)
    requires |body| < 2 || body[|body| - 2..] != "``"
    requires body == [] || body[|body| - 1] != '`'
    ensures !JsStrings.OccursAt(s, Fence, k)
  {
    var j := k - b;
    assert forall t :: 0 <= t < |body| ==> s[b + t] == body[t] by {
      forall t | 0 <= t < |body|
        ensures s[b + t] == body[t]
      {
        assert s[b..][t] == (body + Fence)[t];
      }
    }
    if j + 3 <= |body| {
      assert s[k..k + 3] == body[j..j + 3] by {
        assert s[k] == body[j] && s[k + 1] == body[j + 1] && s[k + 2] == body[j + 2];
      }
      assert !JsStrings.OccursAt(body, Fence, j);
    } else if j + 2 == |body| {
      assert s[k] == body[j] && s[k + 1] == body[j + 1];
      assert body[|body| - 2..] == [body[j], body[j + 1]];
      if k + 3 <= |s| {
        assert s[k..k + 3][0] == s[k] && s[k..k + 3][1] == s[k + 1];
      }
    } else {
      assert s[k] == body[|body| - 1];
      if k + 3 <= |s| {
        assert s[k..k + 3][0] == s[k];
      }
    }
  }

  /** Regrouping four concatenated lists. */
  lemma Regroup(a: seq<Segment>, b: seq<Segment>, c: seq<Segment>, d: seq<Segment>)
    ensures a + b + c + d == a + (b + c + d)
  {
  }

  /** The loop of `parseUserMessage`: `exec` the pattern from the end of
      the previous match, push the trimmed text before each block and the
      block itself, then the trimmed remaining text; an empty result
      becomes the whole message as one text segment. */
  method Parse(content: string) returns (segments: seq<Segment>)
    ensures segments == ParseUserMessage(content)
  {
    segments := [];
    var lastIndex := 0;
    var match_ := FindBlock(content, lastIndex);
    while match_.Some?
      invariant lastIndex <= |content|
      invariant match_ == FindBlock(content, lastIndex)
      invariant segments + SplitFrom(content, lastIndex) == SplitFrom(content, 0)
      decreases |content| - lastIndex
    {
      var b := match_.value;
      ghost var before := segments;
      if b.start > lastIndex {
        var textContent := JsStrings.Trim(content[lastIndex..b.start]);
        if textContent != "" {
          segments := segments + [Segment(TextKind, textContent, None)];
        }
      }
      segments := segments + [Segment(CodeKind, JsStrings.Trim(b.body), Some(if b.language == "" then "plaintext" else b.language))];
      assert segments + SplitFrom(content, b.end) == SplitFrom(content, 0) by {
        var gap, rest := Gap(content, lastIndex, b.start), SplitFrom(content, b.end);
        assert segments == before + gap + [CodePart(b)];
        SplitStep(content, lastIndex, b);
        Regroup(before, gap, [CodePart(b)], rest);
      }
      lastIndex := b.end;
      match_ := FindBlock(content, lastIndex);
    }
    assert segments + SplitFrom(content, lastIndex) == SplitFrom(content, 0);
    SplitLast(content, lastIndex);
    if lastIndex < |content| {
      var textContent := JsStrings.Trim(content[lastIndex..]);
      if textContent != "" {
        segments := segments + [Segment(TextKind, textContent, None)];
      }
    }
    if |segments| == 0 {
      segments := [Segment(TextKind, content, None)];
    }
  }
}
