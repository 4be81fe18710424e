/** Styled text: the line renderer of the highlighting library turns a list of
    style tags into a terminal escape prologue, and one fixed reset sequence
    ends every styled unit. Both are supplied by the library and are kept
    uninterpreted: they are fields of `Renderer`. */
module Style {

  import opened Wrappers

  /** `LEFT_PADDING`: the indentation unit of the whole report. */
  const LeftPadding: string := "    "

  /** The style tags the handler asks for. */
  datatype Tag = BgRed | White | Bold | Yellow | Green | Blue | LightGray | LightCyan

  /** The collaborator: `buildStyleCode(tags)` and the `ANSI_RESET_STYLES` constant. */
  datatype Renderer = Renderer(styleCode: seq<Tag> -> string, reset: string)

  /** `printText(s, tags)`: the prologue for `tags`, then `s`, then the reset. */
  function PrintText(r: Renderer, s: string, tags: seq<Tag>): string
  {
    r.styleCode(tags) + s + r.reset
  }

  /** Every styled unit begins with the prologue for its tags and ends with
      the reset, so styling never leaks into what follows. */
  lemma PrintTextBrackets(r: Renderer, s: string, tags: seq<Tag>)
    ensures var out := PrintText(r, s, tags);
            && |out| == |r.styleCode(tags)| + |s| + |r.reset|
            && out[..|r.styleCode(tags)|] == r.styleCode(tags)
            && out[|out| - |r.reset|..] == r.reset
  {
  }

  /** Strips the prologue for `tags` and the trailing reset from a styled unit;
      `None` when `out` is not a unit styled with `tags`. */
  function Unstyle(r: Renderer, out: string, tags: seq<Tag>): Option<string>
  {
    var p := r.styleCode(tags);
    if |p| + |r.reset| <= |out| && out[..|p|] == p && out[|out| - |r.reset|..] == r.reset
    then Some(out[|p|..|out| - |r.reset|])
    else None
  }

  /** Styling neither loses nor alters the content: it is exactly what sits
      between the prologue and the reset, whatever `s` holds (newlines,
      escape codes, even the reset sequence itself). */
  lemma UnstylePrintText(r: Renderer, s: string, tags: seq<Tag>)
    ensures Unstyle(r, PrintText(r, s, tags), tags) == Some(s)
  {
  }

  /** Two styled units with the same tags are equal only if their contents are. */
  lemma PrintTextInjective(r: Renderer, s: string, t: string, tags: seq<Tag>)
    ensures PrintText(r, s, tags) == PrintText(r, t, tags) ==> s == t
  {
    UnstylePrintText(r, s, tags);
    UnstylePrintText(r, t, tags);
  }
}
