/** The two entry points of the error reporter and the banner they share.
    The process-wide highlighter is passed in explicitly as an `Env`; what the
    handlers `echo` is returned instead, and a snippet the highlighter cannot
    produce (an unreadable file) is an error that propagates unchanged,
    together with whatever was written before it was raised. */
module Handler {

  import opened Wrappers
  import opened Style
  import opened Text
  import opened Trace
  import Severity

  /** The collaborators: the line renderer, `getSnippet(file, line, context)`
      of the highlighter, and the value stringifier used for trace arguments. */
  datatype Env<!V> = Env(renderer: Renderer,
                        snippet: (string, int, nat) -> Result<string, string>,
                        stringify: Arg<V> -> string)

  /** Lines of context requested around the failing line. */
  const SnippetContext: nat := 9

  /** Tags of the title badge. */
  const BadgeTags: seq<Tag> := [BgRed, White, Bold]

  /** What each newline of the snippet becomes, so that the snippet nests under the banner. */
  const NewlineIndent: string := "\n " + LeftPadding

  /** The `str_replace` applied to the snippet. */
  function Reindent(snippet: string): string
  {
    Replace(snippet, '\n', NewlineIndent)
  }

  /** Re-indenting changes nothing but the newlines: the snippet can be read back. */
  lemma {:induction false} ReindentKeepsSnippet(snippet: string)
    ensures Restore(Reindent(snippet), '\n', NewlineIndent) == snippet
    ensures |Reindent(snippet)| == |snippet| + 5 * Count(snippet, '\n')
  {
    RestoreReplace(snippet, '\n', NewlineIndent);
    ReplaceLength(snippet, '\n', NewlineIndent);
  }

  /** Every newline of the re-indented snippet is followed by the indentation. */
  lemma {:induction false} ReindentIndentsEveryLine(snippet: string, i: nat)
    requires i < |Reindent(snippet)| && Reindent(snippet)[i] == '\n'
    ensures i + |NewlineIndent| <= |Reindent(snippet)|
    ensures Reindent(snippet)[i..i + |NewlineIndent|] == NewlineIndent
    decreases |snippet|
  {
    var t := Reindent(snippet);
    var head := if snippet[0] == '\n' then NewlineIndent else [snippet[0]];
    var rest := Reindent(snippet[1..]);
    assert t == head + rest;
    if i < |head| {
      assert i == 0 && snippet[0] == '\n';
      assert t[..|NewlineIndent|] == NewlineIndent;
    } else {
      var j := i - |head|;
      assert rest[j] == t[i];
      ReindentIndentsEveryLine(snippet[1..], j);
      SliceOfAppend(head, rest, j, |NewlineIndent|);
    }
  }

  /** The lines above the snippet: the badge, the message, a blank line and the file. */
  function BannerHead(r: Renderer, title: string, message: string, file: string): string
  {
    (LeftPadding + PrintText(r, " " + title + " ", BadgeTags))
    + (" : " + PrintText(r, message, [Yellow]))
    + ("\n" + "\n" + LeftPadding)
    + ("at " + PrintText(r, file, [Green]))
    + "\n"
  }

  /** `buildBaseError`: fails exactly when the snippet (asked for with nine
      lines of context) fails, with the same error; otherwise the banner opens
      with the padded title badge, shows the message in yellow after " : ",
      names the file after "at ", and ends with the padded, re-indented
      snippet. */
  function BuildBaseError<V>(env: Env<V>, title: string, message: string, file: string, line: int)
    : (res: Result<string, string>)
    ensures res.Failure? <==> env.snippet(file, line, SnippetContext).Failure?
    ensures res.Failure? ==> res.error == env.snippet(file, line, SnippetContext).error
    ensures res.Success? ==>
              var badge := LeftPadding + PrintText(env.renderer, " " + title + " ", BadgeTags);
              |badge| <= |res.value| && res.value[..|badge|] == badge
    ensures res.Success? ==>
              var tail := LeftPadding + " " + Reindent(env.snippet(file, line, SnippetContext).value);
              |tail| <= |res.value| && res.value[|res.value| - |tail|..] == tail
    ensures res.Success? ==>
              var badge := LeftPadding + PrintText(env.renderer, " " + title + " ", BadgeTags);
              var msg := " : " + PrintText(env.renderer, message, [Yellow]);
              |badge| + |msg| <= |res.value| && res.value[|badge|..|badge| + |msg|] == msg
    ensures res.Success? ==>
              var tail := LeftPadding + " " + Reindent(env.snippet(file, line, SnippetContext).value);
              var atLine := "at " + PrintText(env.renderer, file, [Green]) + "\n";
              |atLine| + |tail| <= |res.value|
              && res.value[|res.value| - |tail| - |atLine|..|res.value| - |tail|] == atLine
  {
    var snippet :- env.snippet(file, line, SnippetContext);
    var tail := LeftPadding + " " + Reindent(snippet);
    BannerLayout(env.renderer, title, message, file, tail);
    Success(BannerHead(env.renderer, title, message, file) + tail)
  }

  /** Where the badge, the file and the snippet sit in a banner. */
  lemma BannerLayout(r: Renderer, title: string, message: string, file: string, tail: string)
    ensures var out := BannerHead(r, title, message, file) + tail;
            var badge := LeftPadding + PrintText(r, " " + title + " ", BadgeTags);
            && |badge| <= |out| && out[..|badge|] == badge
            && |tail| <= |out| && out[|out| - |tail|..] == tail
    ensures var out := BannerHead(r, title, message, file) + tail;
            var badge := LeftPadding + PrintText(r, " " + title + " ", BadgeTags);
            var msg := " : " + PrintText(r, message, [Yellow]);
            var atLine := "at " + PrintText(r, file, [Green]) + "\n";
            && |badge| + |msg| <= |out| && out[|badge|..|badge| + |msg|] == msg
            && |atLine| + |tail| <= |out| && out[|out| - |tail| - |atLine|..|out| - |tail|] == atLine
  {
    var badge := LeftPadding + PrintText(r, " " + title + " ", BadgeTags);
    var msg := " : " + PrintText(r, message, [Yellow]);
    var gap := "\n" + "\n" + LeftPadding;
    var at := "at " + PrintText(r, file, [Green]);
    var out := BannerHead(r, title, message, file) + tail;
    assert out == (((badge + msg) + gap) + at) + "\n" + tail;
    AppendAssoc(badge + msg + gap, at, "\n");
    AppendAssoc(badge + msg + gap + at, "\n", tail);
    assert out == (badge + msg + gap) + at + ("\n" + tail);
    AppendAssoc(badge + msg, gap, at);
    AppendAssoc(badge + msg, gap + at, "\n");
    AppendAssoc(badge + msg, gap + at + "\n", tail);
    var rest := gap + at + "\n" + tail;
    assert out == badge + msg + rest;
    AppendAssoc(badge, msg, rest);
    assert out[|badge|..|badge| + |msg|] == msg;
    var front := badge + msg + gap;
    AppendAssoc(front, at, "\n");
    AppendAssoc(front, at + "\n", tail);
    assert out == front + (at + "\n") + tail;
    SliceOfAppend(front, (at + "\n") + tail, 0, |at + "\n"|);
  }

  /** `errorHandler`: the banner titled with the classification of `code`. */
  function ErrorHandler<V>(env: Env<V>, code: int, message: string, file: string, line: int)
    : (res: Result<string, string>)
    ensures res.Failure? <==> env.snippet(file, line, SnippetContext).Failure?
    ensures res.Failure? ==> res.error == env.snippet(file, line, SnippetContext).error
    ensures res.Success? ==>
              var title := Severity.LabelText(Severity.Classify(code));
              var badge := LeftPadding + PrintText(env.renderer, " " + title + " ", BadgeTags);
              |badge| <= |res.value| && res.value[..|badge|] == badge
    ensures res.Success? ==>
              var tail := LeftPadding + " " + Reindent(env.snippet(file, line, SnippetContext).value);
              |tail| <= |res.value| && res.value[|res.value| - |tail|..] == tail
    ensures res.Success? ==>
              var title := Severity.LabelText(Severity.Classify(code));
              var badge := LeftPadding + PrintText(env.renderer, " " + title + " ", BadgeTags);
              var msg := " : " + PrintText(env.renderer, message, [Yellow]);
              |badge| + |msg| <= |res.value| && res.value[|badge|..|badge| + |msg|] == msg
    ensures res.Success? ==>
              var tail := LeftPadding + " " + Reindent(env.snippet(file, line, SnippetContext).value);
              var atLine := "at " + PrintText(env.renderer, file, [Green]) + "\n";
              |atLine| + |tail| <= |res.value|
              && res.value[|res.value| - |tail| - |atLine|..|res.value| - |tail|] == atLine
  {
    BuildBaseError(env, Severity.LabelText(Severity.Classify(code)), message, file, line)
  }

  /** An uncaught exception as the handler sees it. */
  datatype Exception<V> = Exception(className: string, message: string, file: string, line: int,
                                    trace: seq<Frame<V>>)

  /** What a handler has written when it returns, and the fault it raised,
      if any, after writing it. */
  datatype Output = Output(written: string, fault: Option<string>)

  /** `exceptionHandler`: a newline, the banner titled with the exception's
      class, the call trace, and a final newline. The leading newline is
      written before the banner is built, so a failing snippet raises its
      error after that newline and nothing else has been written. */
  method ExceptionHandler<V>(env: Env<V>, e: Exception<V>) returns (res: Output)
    ensures res.fault.Some? <==> env.snippet(e.file, e.line, SnippetContext).Failure?
    ensures res.fault.Some? ==>
              res.fault.value == env.snippet(e.file, e.line, SnippetContext).error && res.written == "\n"
    ensures res.fault.None? ==>
              var base := BuildBaseError(env, e.className, e.message, e.file, e.line).value;
              var trace := if |e.trace| == 0 then ""
                           else TraceHeader(env.renderer) + Concat(TraceBlocks(env.renderer, env.stringify, e.trace));
              res.written == "\n" + base + trace + "\n"
  {
    var written := "\n";
    var base := BuildBaseError(env, e.className, e.message, e.file, e.line);
    if base.Failure? {
      return Output(written, Some(base.error));
    }
    written := written + base.value;
    var trace := BuildStackTrace(env.renderer, env.stringify, e.trace);
    written := written + trace;
    written := written + "\n";
    res := Output(written, None);
  }
}
