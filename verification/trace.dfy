/** Rendering of an exception's call trace (`buildStackTrace`). The frames
    arrive innermost first; they are emitted in reverse order, numbered from 1,
    each with its class, call type, function, argument list and location. */
module Trace {

  import opened Style
  import opened Text

  /** The `gettype` kinds of an argument other than string and integer. */
  datatype OtherKind = Boolean | Double | ArrayValue | Object | Null | Resource

  /** A trace argument, tagged with its runtime kind; `V` stands for the
      runtime value handed to the stringifier. */
  datatype Arg<V> = Str(s: string) | Int(n: int) | Other(kind: OtherKind, v: V)

  /** One entry of `getTrace()`. A missing `class` or `type` key reads as
      PHP null, which prints as the empty string. */
  datatype Frame<V> = Frame(className: string, callType: string, functionName: string,
                            args: seq<Arg<V>>, file: string, line: int)

  /** PHP's `is_string`. */
  predicate IsString<V>(a: Arg<V>)
  {
    a.Str?
  }

  /** PHP's `gettype`: note that integers are reported as "integer". */
  function GetType<V>(a: Arg<V>): string
  {
    match a
    case Str(_) => "string"
    case Int(_) => "integer"
    case Other(k, _) =>
      match k
      case Boolean => "boolean"
      case Double => "double"
      case ArrayValue => "array"
      case Object => "object"
      case Null => "NULL"
      case Resource => "resource"
  }

  /** The switch on `gettype($arg)` choosing the argument's colour, as
      written: its `'int'` case compares against a name `gettype` never
      returns. */
  function ArgStyle<V>(a: Arg<V>): seq<Tag>
  {
    var t := GetType(a);
    if t == "string" then [Green]
    else if t == "int" then [Blue]
    else [LightCyan]
  }

  /** The display text of an argument: strings quoted, everything else through
      the stringifier. */
  function ArgDisplay<V>(stringify: Arg<V> -> string, a: Arg<V>): string
  {
    if IsString(a) then "\"" + a.s + "\"" else stringify(a)
  }

  /** One rendered argument: strings are quoted and green, every other value,
      integers included, is stringified and light cyan. */
  function RenderArg<V>(r: Renderer, stringify: Arg<V> -> string, a: Arg<V>): (out: string)
    ensures a.Str? ==> out == PrintText(r, "\"" + a.s + "\"", [Green])
    ensures !a.Str? ==> out == PrintText(r, stringify(a), [LightCyan])
  {
    PrintText(r, ArgDisplay(stringify, a), ArgStyle(a))
  }

  /** The `'int'` branch is dead: no argument is ever coloured blue, and an
      integer is coloured like any other non-string value. */
  lemma NoArgumentIsBlue<V>(a: Arg<V>)
    ensures ArgStyle(a) != [Blue]
    ensures a.Int? ==> ArgStyle(a) == [LightCyan]
    ensures ArgStyle(a) == [Green] <==> IsString(a)
  {
  }

  /** The `$argArray` built for a frame, in argument order. */
  function RenderArgs<V>(r: Renderer, stringify: Arg<V> -> string, args: seq<Arg<V>>): (out: seq<string>)
    ensures |out| == |args|
    ensures forall i :: 0 <= i < |args| ==> out[i] == RenderArg(r, stringify, args[i])
  {
    if |args| == 0 then [] else [RenderArg(r, stringify, args[0])] + RenderArgs(r, stringify, args[1..])
  }

  /** A string argument and an integer argument: the string is quoted and
      green, the integer stringified and light cyan, separated by a bare comma. */
  lemma StringThenIntegerArgs<V>(r: Renderer, stringify: Arg<V> -> string, s: string, n: int)
    ensures Join(",", RenderArgs(r, stringify, [Str(s), Int(n)]))
            == PrintText(r, "\"" + s + "\"", [Green]) + "," + PrintText(r, stringify(Int(n)), [LightCyan])
  {
  }

  /** The frame number: `sprintf("%s%d %s", style(blue), k, reset)`. */
  function IndexBadge(r: Renderer, k: nat): (out: string)
    ensures out == PrintText(r, NatToDecimal(k) + " ", [Blue])
  {
    r.styleCode([Blue]) + NatToDecimal(k) + " " + r.reset
  }

  /** The text every frame block starts with. */
  const BlockOpening: string := "\n\n" + LeftPadding

  /** The number of pieces a frame block is appended from. */
  const BlockPieceCount: nat := 11

  /** Piece `j` of the block emitted for frame `f` shown with number `k`,
      numbered in the order the pieces are appended. */
  function BlockPiece<V>(r: Renderer, stringify: Arg<V> -> string, f: Frame<V>, k: nat, j: nat): string
    requires j < BlockPieceCount
  {
    match j
    case 0 => BlockOpening
    case 1 => IndexBadge(r, k)
    case 2 => LeftPadding
    case 3 => PrintText(r, f.className, [Yellow])
    case 4 => PrintText(r, f.callType, [White])
    case 5 => PrintText(r, f.functionName, [LightGray])
    case 6 => "("
    case 7 => Join(",", RenderArgs(r, stringify, f.args))
    case 8 => ")"
    case 9 => "\n" + LeftPadding + LeftPadding + "  "
    case 10 => PrintText(r, f.file + " : " + IntToDecimal(f.line), [Green])
    case _ => assert false; ""
  }

  /** The first `n` pieces of a block, appended in order. */
  function BlockPrefix<V>(r: Renderer, stringify: Arg<V> -> string, f: Frame<V>, k: nat, n: nat): string
    requires n <= BlockPieceCount
  {
    if n == 0 then "" else BlockPrefix(r, stringify, f, k, n - 1) + BlockPiece(r, stringify, f, k, n - 1)
  }

  /** The block emitted for frame `f` shown with number `k`: all its pieces
      in order. `BlockLayout` spells the result out piece by piece. */
  function Block<V>(r: Renderer, stringify: Arg<V> -> string, f: Frame<V>, k: nat): string
  {
    BlockPrefix(r, stringify, f, k, BlockPieceCount)
  }

  /** The layout of a block, piece by piece: the opening blank line and
      padding, the blue frame number, the padding, the class in yellow, the
      call type in white, the function in light gray, the rendered arguments
      joined by bare commas inside parentheses, then on an indented line of
      its own the location `file : line` in green. */
  lemma BlockLayout<V>(r: Renderer, stringify: Arg<V> -> string, f: Frame<V>, k: nat)
    ensures Block(r, stringify, f, k)
            == BlockOpening + IndexBadge(r, k) + LeftPadding
               + PrintText(r, f.className, [Yellow])
               + PrintText(r, f.callType, [White])
               + PrintText(r, f.functionName, [LightGray])
               + "(" + Join(",", RenderArgs(r, stringify, f.args)) + ")"
               + ("\n" + LeftPadding + LeftPadding + "  ")
               + PrintText(r, f.file + " : " + IntToDecimal(f.line), [Green])
  {
    assert BlockPrefix(r, stringify, f, k, 1) == BlockOpening;
    assert BlockPrefix(r, stringify, f, k, 2) == BlockPrefix(r, stringify, f, k, 1) + IndexBadge(r, k);
    assert BlockPrefix(r, stringify, f, k, 3) == BlockPrefix(r, stringify, f, k, 2) + LeftPadding;
    assert BlockPrefix(r, stringify, f, k, 4)
        == BlockPrefix(r, stringify, f, k, 3) + PrintText(r, f.className, [Yellow]);
    assert BlockPrefix(r, stringify, f, k, 5)
        == BlockPrefix(r, stringify, f, k, 4) + PrintText(r, f.callType, [White]);
    assert BlockPrefix(r, stringify, f, k, 6)
        == BlockPrefix(r, stringify, f, k, 5) + PrintText(r, f.functionName, [LightGray]);
    assert BlockPrefix(r, stringify, f, k, 7) == BlockPrefix(r, stringify, f, k, 6) + "(";
    assert BlockPrefix(r, stringify, f, k, 8)
        == BlockPrefix(r, stringify, f, k, 7) + Join(",", RenderArgs(r, stringify, f.args));
    assert BlockPrefix(r, stringify, f, k, 9) == BlockPrefix(r, stringify, f, k, 8) + ")";
    assert BlockPrefix(r, stringify, f, k, 10)
        == BlockPrefix(r, stringify, f, k, 9) + ("\n" + LeftPadding + LeftPadding + "  ");
  }

  /** Every block opens with a blank line and the padding, then shows its
      number `k` as a blue unit from which `k` can be read back. */
  lemma BlockOpensWithIndex<V>(r: Renderer, stringify: Arg<V> -> string, f: Frame<V>, k: nat)
    ensures var b := Block(r, stringify, f, k);
            var head := BlockOpening + PrintText(r, NatToDecimal(k) + " ", [Blue]);
            |head| <= |b| && b[..|head|] == head
    ensures ParseDecimal(NatToDecimal(k)) == k
  {
    var head := BlockOpening + IndexBadge(r, k);
    assert BlockPrefix(r, stringify, f, k, 1) == BlockOpening;
    assert BlockPrefix(r, stringify, f, k, 2) == head;
    // Each further piece keeps the head in front.
    PrefixOfAppend(BlockPrefix(r, stringify, f, k, 2), BlockPiece(r, stringify, f, k, 2), |head|);
    PrefixOfAppend(BlockPrefix(r, stringify, f, k, 3), BlockPiece(r, stringify, f, k, 3), |head|);
    PrefixOfAppend(BlockPrefix(r, stringify, f, k, 4), BlockPiece(r, stringify, f, k, 4), |head|);
    PrefixOfAppend(BlockPrefix(r, stringify, f, k, 5), BlockPiece(r, stringify, f, k, 5), |head|);
    PrefixOfAppend(BlockPrefix(r, stringify, f, k, 6), BlockPiece(r, stringify, f, k, 6), |head|);
    PrefixOfAppend(BlockPrefix(r, stringify, f, k, 7), BlockPiece(r, stringify, f, k, 7), |head|);
    PrefixOfAppend(BlockPrefix(r, stringify, f, k, 8), BlockPiece(r, stringify, f, k, 8), |head|);
    PrefixOfAppend(BlockPrefix(r, stringify, f, k, 9), BlockPiece(r, stringify, f, k, 9), |head|);
    PrefixOfAppend(BlockPrefix(r, stringify, f, k, 10), BlockPiece(r, stringify, f, k, 10), |head|);
    NatDecimalRoundTrip(k);
  }

  /** The label emitted before the first block of a non-empty trace. */
  function TraceHeader(r: Renderer): string
  {
    PrintText(r, "\n" + LeftPadding + "Call trace: ", [Yellow])
  }

  /** `array_reverse` on a list. */
  function Reverse<T>(s: seq<T>): (r: seq<T>)
    ensures |r| == |s|
    ensures forall i :: 0 <= i < |s| ==> r[i] == s[|s| - 1 - i]
  {
    if |s| == 0 then [] else [s[|s| - 1]] + Reverse(s[..|s| - 1])
  }

  /** Reversing twice gives back the trace. */
  lemma ReverseInvolutive<T>(s: seq<T>)
    ensures Reverse(Reverse(s)) == s
  {
  }

  /** Reference for the emitted blocks, built frame by frame from the
      ORIGINAL trace without reversing it: the block of `trace[0]` comes last,
      numbered `|trace|`. */
  function TraceBlocks<V>(r: Renderer, stringify: Arg<V> -> string, trace: seq<Frame<V>>): (bs: seq<string>)
    ensures |bs| == |trace|
  {
    if |trace| == 0 then [] else TraceBlocks(r, stringify, trace[1..]) + [Block(r, stringify, trace[0], |trace|)]
  }

  /** The k-th reference block (1-based) renders `trace[|trace| - k]` with number k. */
  lemma {:induction false} TraceBlocksAt<V>(r: Renderer, stringify: Arg<V> -> string, trace: seq<Frame<V>>, i: nat)
    requires i < |trace|
    ensures TraceBlocks(r, stringify, trace)[i] == Block(r, stringify, trace[|trace| - 1 - i], i + 1)
    decreases |trace|
  {
    var rest := trace[1..];
    var bs := TraceBlocks(r, stringify, trace);
    assert bs == TraceBlocks(r, stringify, rest) + [Block(r, stringify, trace[0], |trace|)];
    if i < |trace| - 1 {
      TraceBlocksAt(r, stringify, rest, i);
      assert rest[|rest| - 1 - i] == trace[|trace| - 1 - i];
      assert bs[i] == TraceBlocks(r, stringify, rest)[i];
    }
  }

  /** `buildStackTrace`: nothing for an empty trace; otherwise the label
      followed by one block per frame, outermost frame first, numbered 1, 2, … */
  method BuildStackTrace<V>(r: Renderer, stringify: Arg<V> -> string, trace: seq<Frame<V>>) returns (out: string)
    ensures out == if |trace| == 0 then "" else TraceHeader(r) + Concat(TraceBlocks(r, stringify, trace))
  {
    out := if |trace| > 0 then TraceHeader(r) else "";
    ghost var head := out;
    ghost var blocks := TraceBlocks(r, stringify, trace);
    var reversed := Reverse(trace);
    var i := 0;
    AppendEmpty(head);
    while i < |reversed|
      invariant 0 <= i <= |reversed|
      invariant out == head + Concat(blocks[..i])
    {
      var b := Block(r, stringify, reversed[i], i + 1);
      EmittedBlockStep(r, stringify, trace, reversed, i);
      AppendAssoc(head, Concat(blocks[..i]), b);
      out := out + b;
      i := i + 1;
    }
    PrefixAll(blocks);
  }

  /** One iteration of the frame loop: the block for position `i` of the
      reversed trace is the next reference block. */
  lemma EmittedBlockStep<V>(r: Renderer, stringify: Arg<V> -> string, trace: seq<Frame<V>>,
                            reversed: seq<Frame<V>>, i: nat)
    requires reversed == Reverse(trace) && i < |trace|
    ensures Concat(TraceBlocks(r, stringify, trace)[..i + 1])
            == Concat(TraceBlocks(r, stringify, trace)[..i]) + Block(r, stringify, reversed[i], i + 1)
  {
    var bs := TraceBlocks(r, stringify, trace);
    var f := trace[|trace| - 1 - i];
    assert reversed[i] == f;
    TraceBlocksAt(r, stringify, trace, i);
    ConcatPrefixStep(bs, i);
  }

  /** A runtime trace lists the innermost call first: with `[inner, outer]`
      the outer call is emitted first as frame 1, the inner one as frame 2. */
  lemma TwoFrameTrace<V>(r: Renderer, stringify: Arg<V> -> string, inner: Frame<V>, outer: Frame<V>)
    ensures Concat(TraceBlocks(r, stringify, [inner, outer]))
            == Block(r, stringify, outer, 1) + Block(r, stringify, inner, 2)
  {
  }

  /** The first emitted block is the last frame of the input, numbered 1; the
      last emitted block is the first frame, numbered |trace|. */
  lemma OutermostFrameFirst<V>(r: Renderer, stringify: Arg<V> -> string, trace: seq<Frame<V>>)
    requires |trace| > 0
    ensures TraceBlocks(r, stringify, trace)[0] == Block(r, stringify, trace[|trace| - 1], 1)
    ensures TraceBlocks(r, stringify, trace)[|trace| - 1] == Block(r, stringify, trace[0], |trace|)
  {
    TraceBlocksAt(r, stringify, trace, 0);
  }
}
