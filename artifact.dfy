/** The artifact side panel store of src/stores/artifact.ts: the file shown
    in the panel, its code (possibly still streaming in) and its key. */
module Artifact {
  import opened Wrappers
  import JsStrings

  /** The store cell. `version` is a JavaScript number; it is modelled as
      an integer. */
  datatype ArtifactState = ArtifactState(
    show: bool,
    filename: string,
    code: string,
    isStreaming: bool,
    version: Option<int>,
    activeFileKey: Option<string>)

  /** The hidden panel: the initial value and the value after `close`. */
  const Hidden := ArtifactState(false, "", "", false, None, None)

  /** `${filename}_v${version}` when a version is given, else the file name. */
  function FileKey(filename: string, version: Option<int>): (r: string)
    ensures version.None? ==> r == filename
    ensures version.Some? ==> JsStrings.StartsWith(r, filename + "_v") && r[|filename| + 2..] == JsStrings.IntString(version.value)
  {
    if version.Some? then filename + "_v" + JsStrings.IntString(version.value) else filename
  }

  /** Two versions of one file never share a key. */
  lemma FileKeyInjective(filename: string, v: int, w: int)
    requires FileKey(filename, Some(v)) == FileKey(filename, Some(w))
    ensures v == w
  {
    JsStrings.IntStringInjective(v, w);
  }

  /** `open(filename, code, streaming, version)`. */
  function Opened(filename: string, code: string, streaming: bool, version: Option<int>): (r: ArtifactState)
    ensures r.show && r.filename == filename && r.code == code && r.isStreaming == streaming
    ensures r.version == version && r.activeFileKey == Some(FileKey(filename, version))
  {
    ArtifactState(true, filename, code, streaming, version, Some(FileKey(filename, version)))
  }

  /** `appendCode(chunk)`: only a shown panel takes code. */
  function CodeAppended(s: ArtifactState, chunk: string): (r: ArtifactState)
    ensures !s.show ==> r == s
    ensures s.show ==> r.code == s.code + chunk && r == s.(code := r.code)
  {
    if !s.show then s else s.(code := s.code + chunk)
  }

  /** `updateCode(code)`: only a shown panel takes code. */
  function CodeReplaced(s: ArtifactState, code: string): (r: ArtifactState)
    ensures !s.show ==> r == s
    ensures s.show ==> r == s.(code := code)
  {
    if !s.show then s else s.(code := code)
  }

  /** Appending two chunks is appending their concatenation. */
  lemma AppendTwice(s: ArtifactState, a: string, b: string)
    ensures CodeAppended(CodeAppended(s, a), b) == CodeAppended(s, a + b)
  {
    if s.show {
      assert s.code + a + b == s.code + (a + b);
    }
  }

  /** A replaced code followed by appended chunks is the concatenation. */
  lemma ReplaceThenAppend(s: ArtifactState, code: string, chunk: string)
    ensures CodeAppended(CodeReplaced(s, code), chunk) == CodeReplaced(s, code + chunk)
  {
  }

  /** Code streamed into a freshly opened panel accumulates after the
      initial code. */
  lemma OpenThenAppend(filename: string, code: string, streaming: bool, version: Option<int>, chunk: string)
    ensures CodeAppended(Opened(filename, code, streaming, version), chunk) == Opened(filename, code + chunk, streaming, version)
  {
  }

  class ArtifactStore {
    var state: ArtifactState

    constructor ()
      ensures state == Hidden
    {
      state := Hidden;
    }

    method Open(filename: string, code: string, streaming: bool, version: Option<int>)
      modifies this
      ensures state == Opened(filename, code, streaming, version)
    {
      var key := if version.Some? then filename + "_v" + JsStrings.IntString(version.value) else filename;
      state := ArtifactState(true, filename, code, streaming, version, Some(key));
    }

    method AppendCode(chunk: string)
      modifies this
      ensures state == CodeAppended(old(state), chunk)
    {
      if state.show {
        state := state.(code := state.code + chunk);
      }
    }

    method UpdateCode(code: string)
      modifies this
      ensures state == CodeReplaced(old(state), code)
    {
      if state.show {
        state := state.(code := code);
      }
    }

    /** `finishStreaming()`: only the streaming flag changes. */
    method FinishStreaming()
      modifies this
      ensures state == old(state).(isStreaming := false)
    {
      state := state.(isStreaming := false);
    }

    /** `close()`: back to the hidden default. */
    method Close()
      modifies this
      ensures state == Hidden
    {
      state := Hidden;
    }
  }
}
