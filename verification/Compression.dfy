/** The prompt compressor: token estimate, fence splitter, sentence selection. */
module Compression {
  import opened Wrappers
  import opened Text
  import opened Collections

  datatype Mode = Off | Balanced | Aggressive

  function Retain(mode: Mode): real {
    match mode
    case Balanced => 0.55
    case Aggressive => 0.35
    case Off => 1.0
  }

  function Utf8Width(c: char): nat {
    if c <= '\U{007F}' then 1 else if c <= '\U{07FF}' then 2 else if c <= '\U{FFFF}' then 3 else 4
  }

  function ByteLength(s: string): nat {
    if s == "" then 0 else Utf8Width(s[0]) + ByteLength(s[1..])
  }

  /** About four bytes to a token, never zero. */
  function Tokens(s: string): nat {
    ByteLength(s) / 4 + 1
  }

  // ---- Substrings ----

  predicate At(s: string, i: nat, pat: string) {
    i + |pat| <= |s| && s[i..i + |pat|] == pat
  }

  function FindFrom(s: string, pat: string, i: nat): (r: Option<nat>)
    ensures r.Some? ==> i <= r.value && At(s, r.value, pat) && forall j :: i <= j < r.value ==> !At(s, j, pat)
    ensures r.None? ==> forall j :: i <= j ==> !At(s, j, pat)
    decreases |s| - i
  {
    if i + |pat| > |s| then None
    else if s[i..i + |pat|] == pat then Some(i)
    else FindFrom(s, pat, i + 1)
  }

  function Find(s: string, pat: string): Option<nat> {
    FindFrom(s, pat, 0)
  }

  // ---- Fence splitter ----

  const FENCE: string := "```"

  datatype Block = Prose(text: string) | Code(text: string, closed: bool)

  datatype Piece = Piece(blocks: seq<Block>, rest: string)

  /** Cut off the text before the first fence and the code block that the fence opens. */
  function Cut(rest: string, f: nat): (r: Piece)
    requires Find(rest, FENCE) == Some(f)
    ensures |r.rest| < |rest|
  {
    var before := if f > 0 then [Prose(rest[..f])] else [];
    var inside := rest[f + 3..];
    match Find(inside, FENCE)
    case None => Piece(before + [Code(FENCE + inside, false)], "")
    case Some(e) => Piece(before + [Code(FENCE + inside[..e] + FENCE, true)], inside[e + 3..])
  }

  function Split(rest: string): seq<Block>
    decreases |rest|
  {
    match Find(rest, FENCE)
    case None => if rest == "" then [] else [Prose(rest)]
    case Some(f) => Cut(rest, f).blocks + Split(Cut(rest, f).rest)
  }

  method SplitFences(text: string) returns (blocks: seq<Block>)
    ensures blocks == Split(text)
  {
    hide Find, Cut;
    blocks := [];
    var rest := text;
    var f := Find(rest, FENCE);
    while f.Some?
      invariant f == Find(rest, FENCE)
      invariant blocks + Split(rest) == Split(text)
      decreases |rest|
    {
      var piece := CutFence(rest, f.value);
      assert blocks + (piece.blocks + Split(piece.rest)) == blocks + piece.blocks + Split(piece.rest);
      blocks, rest := blocks + piece.blocks, piece.rest;
      f := Find(rest, FENCE);
    }
    if rest != "" {
      blocks := blocks + [Prose(rest)];
    }
  }

  method CutFence(rest: string, f: nat) returns (piece: Piece)
    requires Find(rest, FENCE) == Some(f)
    ensures piece == Cut(rest, f)
  {
    var blocks := [];
    if f > 0 {
      blocks := [Prose(rest[..f])];
    }
    var inside := rest[f + 3..];
    var e := Find(inside, FENCE);
    if e.Some? {
      piece := Piece(blocks + [Code(FENCE + inside[..e.value] + FENCE, true)], inside[e.value + 3..]);
    } else {
      piece := Piece(blocks + [Code(FENCE + inside, false)], "");
    }
  }

  function Texts(blocks: seq<Block>): string {
    if blocks == [] then "" else blocks[0].text + Texts(blocks[1..])
  }

  lemma {:induction false} TextsAppend(a: seq<Block>, b: seq<Block>)
    ensures Texts(a + b) == Texts(a) + Texts(b)
  {
    if a == [] {
      assert a + b == b;
    } else {
      assert (a + b)[1..] == a[1..] + b;
      TextsAppend(a[1..], b);
    }
  }

  lemma Around(s: string, i: nat, pat: string)
    requires At(s, i, pat)
    ensures s == s[..i] + pat + s[i + |pat|..]
  {
  }

  lemma CutIsLossless(rest: string, f: nat)
    requires Find(rest, FENCE) == Some(f)
    ensures Texts(Cut(rest, f).blocks) + Cut(rest, f).rest == rest
  {
    hide FindFrom, Texts;
    var inside := rest[f + 3..];
    Around(rest, f, FENCE);
    var e := Find(inside, FENCE);
    if e.Some? {
      Around(inside, e.value, FENCE);
      CutTexts(rest[..f], FENCE + inside[..e.value] + FENCE, true);
      Regroup(rest[..f], FENCE, inside[..e.value], FENCE, inside[e.value + 3..]);
    } else {
      CutTexts(rest[..f], FENCE + inside, false);
    }
  }

  lemma CutTexts(prose: string, code: string, closed: bool)
    ensures var before := if |prose| > 0 then [Prose(prose)] else [];
            Texts(before + [Code(code, closed)]) == prose + code
  {
    var before := if |prose| > 0 then [Prose(prose)] else [];
    TextsAppend(before, [Code(code, closed)]);
    assert [Code(code, closed)][1..] == [] && [Prose(prose)][1..] == [];
  }

  lemma Regroup(a: string, b: string, c: string, d: string, e: string)
    ensures a + (b + c + d) + e == a + b + (c + d + e)
  {
  }

  /** No text is lost or invented: the blocks concatenate to the input. */
  lemma {:induction false} SplitIsLossless(rest: string)
    ensures Texts(Split(rest)) == rest
    decreases |rest|
  {
    hide Find, Cut;
    var f := Find(rest, FENCE);
    if f.Some? {
      var piece := Cut(rest, f.value);
      CutIsLossless(rest, f.value);
      SplitIsLossless(piece.rest);
      TextsAppend(piece.blocks, Split(piece.rest));
    } else if rest != "" {
      assert [Prose(rest)][1..] == [];
    }
  }

  ghost predicate Fenceless(s: string) {
    forall i: nat :: !At(s, i, FENCE)
  }

  ghost predicate FirstFence(s: string, i: nat) {
    At(s, i, FENCE) && forall j :: 0 <= j < i ==> !At(s, j, FENCE)
  }

  /** A fence put behind `x` is the first one there. */
  ghost predicate EndsAtFence(x: string) {
    FirstFence(x + FENCE, |x|)
  }

  /** A prose block holds no fence; a closed block is a fence, the text up to the next fence,
      and that fence; an open block is a fence with fence-free text behind it. */
  ghost predicate WellShaped(b: Block) {
    match b
    case Prose(t) => t != "" && Fenceless(t)
    case Code(t, closed) =>
      if closed then exists x :: t == FENCE + x + FENCE && EndsAtFence(x)
      else exists x :: t == FENCE + x && Fenceless(x)
  }

  /** What may stand before another block: prose that runs up to its fence, or closed code. */
  ghost predicate MayPrecede(b: Block, next: Block) {
    match b
    case Prose(t) => next.Code? && EndsAtFence(t)
    case Code(_, closed) => closed
  }

  ghost predicate Shaped(blocks: seq<Block>) {
    && (forall b :: b in blocks ==> WellShaped(b))
    && (forall i :: 0 < i < |blocks| ==> MayPrecede(blocks[i - 1], blocks[i]))
  }

  lemma FenceIsLocal(a: string, b: string)
    ensures FirstFence(a + FENCE + b, |a|) <==> EndsAtFence(a)
  {
    var s, t := a + FENCE + b, a + FENCE;
    forall j: nat | j <= |a| ensures At(s, j, FENCE) <==> At(t, j, FENCE) {
      assert s[j..j + 3] == t[j..j + 3];
    }
  }

  lemma FenceFound(s: string, f: nat)
    ensures Find(s, FENCE) == Some(f) <==> FirstFence(s, f)
  {
  }

  lemma PrefixEndsAtFence(s: string, f: nat)
    requires Find(s, FENCE) == Some(f)
    ensures EndsAtFence(s[..f]) && Fenceless(s[..f])
  {
    Around(s, f, FENCE);
    FenceIsLocal(s[..f], s[f + 3..]);
    FencelessPrefix(s, f);
  }

  lemma CutIsShaped(rest: string, f: nat)
    requires Find(rest, FENCE) == Some(f)
    ensures var blocks := Cut(rest, f).blocks;
            && Shaped(blocks) && blocks != []
            && var last := blocks[|blocks| - 1];
               && last.Code? && (!last.closed ==> Cut(rest, f).rest == "")
  {
    hide FindFrom;
    PrefixEndsAtFence(rest, f);
    var inside := rest[f + 3..];
    var e := Find(inside, FENCE);
    if e.Some? {
      PrefixEndsAtFence(inside, e.value);
      assert WellShaped(Code(FENCE + inside[..e.value] + FENCE, true));
    } else {
      NoFence(inside);
      assert WellShaped(Code(FENCE + inside, false));
    }
  }

  lemma NoFence(s: string)
    ensures Find(s, FENCE).None? <==> Fenceless(s)
  {
  }

  lemma {:induction false} SplitIsShaped(rest: string)
    ensures Shaped(Split(rest)) && (rest != "" ==> Split(rest) != [])
    decreases |rest|
  {
    hide Find, Cut, WellShaped, MayPrecede;
    var f := Find(rest, FENCE);
    if f.Some? {
      CutIsShaped(rest, f.value);
      var piece := Cut(rest, f.value);
      SplitIsShaped(piece.rest);
      ShapedConcat(piece.blocks, Split(piece.rest));
    } else if rest != "" {
      assert WellShaped(Prose(rest)) by {
        ProseIsWellShaped(rest);
      }
    }
  }

  lemma ShapedConcat(a: seq<Block>, b: seq<Block>)
    requires Shaped(a) && Shaped(b) && a != []
    requires a[|a| - 1].Code? && (b != [] ==> a[|a| - 1].closed)
    ensures Shaped(a + b)
  {
    hide WellShaped;
    var all := a + b;
    forall i | 0 < i < |all| ensures MayPrecede(all[i - 1], all[i]) {
      if i < |a| {
        assert MayPrecede(a[i - 1], a[i]);
      } else if i > |a| {
        assert MayPrecede(b[i - |a| - 1], b[i - |a|]);
      }
    }
  }

  /** The splitting is the only one of its kind: no other blocks of these shapes, in this
      order, concatenate to the text. */
  lemma SplitExactly(text: string, blocks: seq<Block>)
    ensures blocks == Split(text) <==> Texts(blocks) == text && Shaped(blocks)
  {
    SplitIsLossless(text);
    SplitIsShaped(text);
    if Texts(blocks) == text && Shaped(blocks) {
      ShapedIsSplit(blocks);
    }
  }

  lemma {:induction false} ShapedIsSplit(blocks: seq<Block>)
    requires Shaped(blocks)
    ensures Split(Texts(blocks)) == blocks
    decreases |blocks|
  {
    hide Find, Cut, EndsAtFence, Split;
    if blocks == [] {
      EmptySplit();
    } else if |blocks| == 1 && blocks[0].Prose? {
      assert blocks[0] in blocks && Texts(blocks[1..]) == "" && blocks == [blocks[0]];
      assert Texts(blocks) == blocks[0].text + "" == blocks[0].text;
      LoneProse(blocks[0]);
    } else if blocks[0].Code? {
      ShapedIsSplit(blocks[1..]);
      FenceAlone();
      SplitFromCode("", blocks, 0);
    } else {
      assert MayPrecede(blocks[0], blocks[1]);
      ShapedIsSplit(blocks[2..]);
      SplitFromCode(blocks[0].text, blocks, 1);
    }
  }

  lemma FenceAlone()
    ensures EndsAtFence("")
  {
  }

  lemma EmptySplit()
    ensures Split("") == []
  {
  }

  /** With the code block at `i` and prose before it, if any, the splitter cuts exactly there. */
  lemma SplitFromCode(prose: string, blocks: seq<Block>, i: nat)
    requires Shaped(blocks) && i < |blocks| && blocks[i].Code? && EndsAtFence(prose)
    requires if i == 0 then prose == "" else i == 1 && blocks[0] == Prose(prose)
    requires Split(Texts(blocks[i + 1..])) == blocks[i + 1..]
    ensures Split(Texts(blocks)) == blocks
  {
    hide Find, Cut, EndsAtFence, Texts;
    var tail := Texts(blocks[i + 1..]);
    assert blocks[i] in blocks;
    if |blocks| == i + 1 {
      TextsOfNone(blocks[i + 1..]);
    } else {
      assert MayPrecede(blocks[i], blocks[i + 1]);
    }
    CutIsForced(prose, blocks[i], tail);
    TextsAround(prose, blocks, i);
    var text := Texts(blocks);
    assert WellShaped(blocks[0]);
    assert Split(text) == Cut(text, |prose|).blocks + Split(tail);
    assert blocks == blocks[..i] + [blocks[i]] + blocks[i + 1..];
  }

  lemma TextsOfNone(blocks: seq<Block>)
    requires |blocks| == 0
    ensures Texts(blocks) == ""
  {
  }

  lemma TextsAround(prose: string, blocks: seq<Block>, i: nat)
    requires i < |blocks| && if i == 0 then prose == "" else i == 1 && blocks[0] == Prose(prose)
    ensures Texts(blocks) == prose + blocks[i].text + Texts(blocks[i + 1..])
  {
    if i == 1 {
      var tail := Texts(blocks[2..]);
      assert blocks[1..][1..] == blocks[2..];
      assert Texts(blocks[1..]) == blocks[1].text + tail;
      Associate(prose, blocks[1].text, tail);
    } else {
      assert "" + blocks[0].text == blocks[0].text;
    }
  }

  lemma CutIsForced(prose: string, code: Block, tail: string)
    requires code.Code? && WellShaped(code) && EndsAtFence(prose)
    requires !code.closed ==> tail == ""
    ensures var text := prose + code.text + tail;
            && Find(text, FENCE) == Some(|prose|)
            && Cut(text, |prose|) == Piece((if prose == "" then [] else [Prose(prose)]) + [code], tail)
  {
    hide Find, Cut, EndsAtFence, Fenceless;
    if code.closed {
      var x :| code.text == FENCE + x + FENCE && EndsAtFence(x);
      ClosedCut(prose, x, tail);
      Regroup(prose, FENCE, x, FENCE, tail);
    } else {
      var x :| code.text == FENCE + x && Fenceless(x);
      OpenCut(prose, x);
      assert prose + (FENCE + x) + "" == prose + FENCE + x;
    }
  }

  lemma FirstCut(prose: string, inside: string)
    requires EndsAtFence(prose)
    ensures var text := prose + FENCE + inside;
            Find(text, FENCE) == Some(|prose|) && text[..|prose|] == prose && text[|prose| + 3..] == inside
  {
    FenceIsLocal(prose, inside);
    FenceFound(prose + FENCE + inside, |prose|);
  }

  lemma OpenCut(prose: string, x: string)
    requires EndsAtFence(prose) && Fenceless(x)
    ensures var text := prose + FENCE + x;
            && Find(text, FENCE) == Some(|prose|)
            && Cut(text, |prose|) == Piece((if prose == "" then [] else [Prose(prose)]) + [Code(FENCE + x, false)], "")
  {
    hide FindFrom, EndsAtFence, Fenceless;
    FirstCut(prose, x);
    NoFence(x);
  }

  lemma ClosedCut(prose: string, x: string, tail: string)
    requires EndsAtFence(prose) && EndsAtFence(x)
    ensures var text := prose + FENCE + (x + FENCE + tail);
            && Find(text, FENCE) == Some(|prose|)
            && Cut(text, |prose|) ==
               Piece((if prose == "" then [] else [Prose(prose)]) + [Code(FENCE + x + FENCE, true)], tail)
  {
    hide FindFrom, EndsAtFence;
    FirstCut(prose, x + FENCE + tail);
    FirstCut(x, tail);
  }

  lemma LoneProse(b: Block)
    requires b.Prose? && WellShaped(b)
    ensures Split(b.text) == [b]
  {
    hide FindFrom;
    NoFence(b.text);
  }
  lemma ProseIsWellShaped(rest: string)
    requires rest != "" && Find(rest, FENCE).None?
    ensures WellShaped(Prose(rest))
  {
  }

  lemma FencelessPrefix(s: string, n: nat)
    requires n <= |s| && forall j :: 0 <= j < n ==> !At(s, j, FENCE)
    ensures Fenceless(s[..n])
  {
    forall i: nat ensures !At(s[..n], i, FENCE) {
      if i + 3 <= n {
        assert s[..n][i..i + 3] == s[i..i + 3];
        assert !At(s, i, FENCE);
      }
    }
  }

  // ---- compress ----

  datatype Compressed = Compressed(text: string, originalTokens: nat, compressedTokens: nat)

  function JoinParas(parts: seq<string>): string {
    if parts == [] then "" else if |parts| == 1 then parts[0] else parts[0] + "\n\n" + JoinParas(parts[1..])
  }

  /** Blocks in order: code verbatim, prose through `prose` with what is left of its budget. */
  function Rewrite(blocks: seq<Block>, prose: (string, nat) -> string, budget: nat): (r: seq<string>)
    ensures |r| == |blocks|
    decreases |blocks|
  {
    if blocks == [] then []
    else if blocks[0].Code? then [blocks[0].text] + Rewrite(blocks[1..], prose, budget)
    else
      var p := prose(blocks[0].text, budget);
      [p] + Rewrite(blocks[1..], prose, Max(budget - Tokens(p), 0))
  }

  function CodeTokens(blocks: seq<Block>): nat {
    if blocks == [] then 0
    else (if blocks[0].Code? then Tokens(blocks[0].text) else 0) + CodeTokens(blocks[1..])
  }

  function TargetTokens(orig: nat, mode: Mode): nat {
    Max((orig as real * Retain(mode)).Floor, orig / 4)
  }

  function Assembled(text: string, mode: Mode, prose: (string, nat) -> string): string {
    var blocks := Split(text);
    Trim(JoinParas(Rewrite(blocks, prose, Max(TargetTokens(Tokens(text), mode) - CodeTokens(blocks), 0))))
  }

  /** Short texts and mode Off pass through; so does any text that compression would not
      make smaller. */
  function CompressedText(text: string, mode: Mode, prose: (string, nat) -> string): (r: string)
    ensures Tokens(r) <= Tokens(text)
    ensures r == text || (Tokens(r) < Tokens(text) && r == Assembled(text, mode, prose))
  {
    if mode == Off || Tokens(text) < 80 || Tokens(Assembled(text, mode, prose)) >= Tokens(text)
    then text
    else Assembled(text, mode, prose)
  }

  method Compress(text: string, mode: Mode, prose: (string, nat) -> string) returns (r: Compressed)
    ensures r.text == CompressedText(text, mode, prose)
    ensures r.originalTokens == Tokens(text) && r.compressedTokens == Tokens(r.text)
  {
    hide Split, Trim, Tokens, TargetTokens, CodeTokens, JoinParas;
    var orig := Tokens(text);
    if mode == Off || orig < 80 {
      return Compressed(text, orig, orig);
    }
    var blocks := SplitFences(text);
    var out := RewriteBlocks(blocks, prose, Max(TargetTokens(orig, mode) - CodeTokens(blocks), 0));
    var result := Trim(JoinParas(out));
    var c := Tokens(result);
    if c >= orig {
      r := Compressed(text, orig, orig);
    } else {
      r := Compressed(result, orig, c);
    }
  }

  method RewriteBlocks(blocks: seq<Block>, prose: (string, nat) -> string, proseBudget: nat) returns (out: seq<string>)
    ensures out == Rewrite(blocks, prose, proseBudget)
  {
    hide Tokens, Rewrite;
    out := [];
    var budget: nat := proseBudget;
    assert blocks[0..] == blocks && [] + Rewrite(blocks, prose, budget) == Rewrite(blocks, prose, budget);
    for i := 0 to |blocks|
      invariant out + Rewrite(blocks[i..], prose, budget) == Rewrite(blocks, prose, proseBudget)
    {
      RewriteStep(blocks, i, prose, budget);
      var p := blocks[i].text;
      if blocks[i].Prose? {
        p := prose(blocks[i].text, budget);
        budget := Max(budget - Tokens(p), 0);
      }
      assert out + ([p] + Rewrite(blocks[i + 1..], prose, budget)) == out + [p] + Rewrite(blocks[i + 1..], prose, budget);
      out := out + [p];
    }
  }

  lemma RewriteStep(blocks: seq<Block>, i: nat, prose: (string, nat) -> string, budget: nat)
    requires i < |blocks|
    ensures var p := if blocks[i].Code? then blocks[i].text else prose(blocks[i].text, budget);
            var left := if blocks[i].Code? then budget else Max(budget - Tokens(p), 0);
            Rewrite(blocks[i..], prose, budget) == [p] + Rewrite(blocks[i + 1..], prose, left)
  {
    assert blocks[i..][0] == blocks[i] && blocks[i..][1..] == blocks[i + 1..];
  }

  // ---- Closed fences survive ----

  function ClosedFences(blocks: seq<Block>): seq<string> {
    if blocks == [] then []
    else (if blocks[0].Code? && blocks[0].closed then [blocks[0].text] else []) + ClosedFences(blocks[1..])
  }

  /** The strings occur in `s`, in order and without overlap. */
  ghost predicate OccurInOrder(parts: seq<string>, s: string)
    decreases |parts|
  {
    parts == [] || exists a, b :: Around3(s, a, parts[0], b) && OccurInOrder(parts[1..], b)
  }

  ghost predicate Around3(s: string, a: string, part: string, b: string) {
    s == a + part + b
  }

  lemma OccurAfterPrefix(parts: seq<string>, prefix: string, s: string)
    requires OccurInOrder(parts, s)
    ensures OccurInOrder(parts, prefix + s)
  {
    if parts != [] {
      var a, b :| Around3(s, a, parts[0], b) && OccurInOrder(parts[1..], b);
      assert prefix + (a + parts[0] + b) == (prefix + a) + parts[0] + b;
      assert Around3(prefix + s, prefix + a, parts[0], b);
    }
  }

  lemma OccurCons(part: string, parts: seq<string>, s: string)
    requires OccurInOrder(parts, s)
    ensures OccurInOrder([part] + parts, part + s)
  {
    var all := [part] + parts;
    assert all[1..] == parts && all[0] == part;
    assert "" + part + s == part + s;
    assert Around3(part + s, "", all[0], s);
  }

  lemma {:induction false} FencesInOutput(blocks: seq<Block>, prose: (string, nat) -> string, budget: nat)
    ensures OccurInOrder(ClosedFences(blocks), JoinParas(Rewrite(blocks, prose, budget)))
    decreases |blocks|
  {
    if blocks != [] {
      var out := Rewrite(blocks, prose, budget);
      var left := if blocks[0].Code? then budget else Max(budget - Tokens(prose(blocks[0].text, budget)), 0);
      FencesInOutput(blocks[1..], prose, left);
      assert out[1..] == Rewrite(blocks[1..], prose, left);
      var tail := if |out| == 1 then "" else "\n\n" + JoinParas(out[1..]);
      if |out| == 1 {
        assert blocks[1..] == [];
      } else {
        OccurAfterPrefix(ClosedFences(blocks[1..]), "\n\n", JoinParas(out[1..]));
      }
      assert JoinParas(out) == out[0] + tail;
      if blocks[0].Code? && blocks[0].closed {
        OccurCons(blocks[0].text, ClosedFences(blocks[1..]), tail);
      } else {
        assert ClosedFences(blocks) == ClosedFences(blocks[1..]);
        OccurAfterPrefix(ClosedFences(blocks[1..]), out[0], tail);
      }
    }
  }

  lemma {:induction false} FencesInInput(blocks: seq<Block>)
    ensures OccurInOrder(ClosedFences(blocks), Texts(blocks))
    decreases |blocks|
  {
    if blocks != [] {
      FencesInInput(blocks[1..]);
      if blocks[0].Code? && blocks[0].closed {
        OccurCons(blocks[0].text, ClosedFences(blocks[1..]), Texts(blocks[1..]));
      } else {
        assert ClosedFences(blocks) == ClosedFences(blocks[1..]);
        OccurAfterPrefix(ClosedFences(blocks[1..]), blocks[0].text, Texts(blocks[1..]));
      }
    }
  }

  ghost predicate SolidEnds(s: string) {
    s != "" && !IsSpace(s[0]) && !IsSpace(s[|s| - 1])
  }

  lemma {:induction false} OccurTrimStart(parts: seq<string>, s: string)
    requires OccurInOrder(parts, s) && forall p :: p in parts ==> SolidEnds(p)
    ensures OccurInOrder(parts, TrimStart(s, IsSpace))
    decreases |s|
  {
    if s != "" && IsSpace(s[0]) {
      if parts != [] {
        var a, b :| Around3(s, a, parts[0], b) && OccurInOrder(parts[1..], b);
        assert SolidEnds(parts[0]);
        assert (parts[0] + b)[0] == parts[0][0];
        assert a != "";
        assert (a + parts[0] + b)[1..] == a[1..] + parts[0] + b;
        assert Around3(s[1..], a[1..], parts[0], b);
      }
      OccurTrimStart(parts, s[1..]);
    }
  }

  lemma {:induction false} OccurDropLast(parts: seq<string>, s: string)
    requires OccurInOrder(parts, s) && forall p :: p in parts ==> SolidEnds(p)
    requires s != "" && IsSpace(s[|s| - 1])
    ensures OccurInOrder(parts, s[..|s| - 1])
    decreases |parts|
  {
    if parts != [] {
      var a, b :| Around3(s, a, parts[0], b) && OccurInOrder(parts[1..], b);
      assert SolidEnds(parts[0]);
      assert (a + parts[0])[|a + parts[0]| - 1] == parts[0][|parts[0]| - 1];
      assert b != "";
      assert s[|s| - 1] == b[|b| - 1];
      OccurDropLast(parts[1..], b);
      assert (a + parts[0] + b)[..|s| - 1] == a + parts[0] + b[..|b| - 1];
      assert Around3(s[..|s| - 1], a, parts[0], b[..|b| - 1]);
    }
  }

  lemma {:induction false} OccurTrimEnd(parts: seq<string>, s: string)
    requires OccurInOrder(parts, s) && forall p :: p in parts ==> SolidEnds(p)
    ensures OccurInOrder(parts, TrimEnd(s, IsSpace))
    decreases |s|
  {
    if s != "" && IsSpace(s[|s| - 1]) {
      OccurDropLast(parts, s);
      OccurTrimEnd(parts, s[..|s| - 1]);
    }
  }

  lemma {:induction false} ClosedFencesSolid(blocks: seq<Block>)
    requires forall b :: b in blocks ==> WellShaped(b)
    ensures forall p :: p in ClosedFences(blocks) ==> SolidEnds(p)
  {
    if blocks != [] {
      ClosedFencesSolid(blocks[1..]);
      assert blocks[0] in blocks && WellShaped(blocks[0]);
      if blocks[0].Code? && blocks[0].closed {
        var t := blocks[0].text;
        var x :| t == FENCE + x + FENCE && EndsAtFence(x);
        assert t[0] == FENCE[0] && t[|t| - 1] == FENCE[2];
      }
    }
  }

  /** Whatever the prose compressor does, every closed code fence of the input occurs
      verbatim, in order, in what `Compress` returns. */
  lemma ClosedFencesSurvive(text: string, mode: Mode, prose: (string, nat) -> string)
    ensures OccurInOrder(ClosedFences(Split(text)), CompressedText(text, mode, prose))
  {
    hide Split, Rewrite, CodeTokens, TargetTokens, Tokens, ClosedFences, OccurInOrder, JoinParas, Texts;
    var blocks := Split(text);
    SplitIsLossless(text);
    FencesInInput(blocks);
    var budget := Max(TargetTokens(Tokens(text), mode) - CodeTokens(blocks), 0);
    FencesInOutput(blocks, prose, budget);
    SplitIsShaped(text);
    ClosedFencesSolid(blocks);
    var joined := JoinParas(Rewrite(blocks, prose, budget));
    OccurTrimStart(ClosedFences(blocks), joined);
    OccurTrimEnd(ClosedFences(blocks), TrimStart(joined, IsSpace));
  }

  // ---- What compression returns, exactly ----

  ghost predicate IsAscii(s: string) {
    forall i :: 0 <= i < |s| ==> s[i] <= '\U{007F}'
  }

  lemma {:induction false} TokensOfAscii(s: string)
    requires IsAscii(s)
    ensures Tokens(s) == |s| / 4 + 1
  {
    AsciiBytes(s);
  }

  lemma {:induction false} AsciiBytes(s: string)
    requires IsAscii(s)
    ensures ByteLength(s) == |s|
  {
    if s != "" {
      AsciiBytes(s[1..]);
    }
  }

  /** The length in bytes of the UTF-8 encoding adds up over the characters. */
  lemma {:induction false} BytesAddUp(s: string, c: char)
    ensures ByteLength("") == 0
    ensures ByteLength(s + [c]) == ByteLength(s) +
              if (c as int) < 0x80 then 1 else if (c as int) < 0x800 then 2 else if (c as int) < 0x10000 then 3 else 4
  {
    if s == "" {
      assert (s + [c])[1..] == "";
    } else {
      assert (s + [c])[1..] == s[1..] + [c];
      BytesAddUp(s[1..], c);
    }
  }

  lemma {:induction false} JoinParasExactly(parts: seq<string>, last: string)
    ensures JoinParas([]) == "" && JoinParas([last]) == last
    ensures parts != [] ==> JoinParas(parts + [last]) == JoinParas(parts) + "\n\n" + last
  {
    if |parts| > 0 {
      var all := parts + [last];
      assert all[1..] == parts[1..] + [last];
      JoinParasExactly(parts[1..], last);
      if |parts| == 1 {
        assert all[1..] == [last];
      } else {
        assert JoinParas(all) == parts[0] + "\n\n" + (JoinParas(parts[1..]) + "\n\n" + last);
        assert JoinParas(all) == parts[0] + "\n\n" + JoinParas(parts[1..]) + "\n\n" + last;
      }
    }
  }

  /** `codes[i]` counts the tokens of the code blocks from the i-th block on. */
  ghost predicate CountsCode(blocks: seq<Block>, codes: seq<nat>) {
    && |codes| == |blocks| + 1 && codes[|blocks|] == 0
    && forall i :: 0 <= i < |blocks| ==>
         codes[i] == codes[i + 1] + if blocks[i].Code? then Tokens(blocks[i].text) else 0
  }

  /** Code comes out verbatim; prose compressed to what is left of its budget, which what
      comes out then shrinks. */
  ghost predicate EmitsBlock(b: Block, prose: (string, nat) -> string, part: string, budget: nat, left: nat) {
    if b.Code? then part == b.text && left == budget
    else part == prose(b.text, budget) && left == if Tokens(part) < budget then budget - Tokens(part) else 0
  }

  ghost predicate Emits(blocks: seq<Block>, prose: (string, nat) -> string, parts: seq<string>, budgets: seq<nat>) {
    && |parts| == |blocks| && |budgets| == |blocks| + 1
    && forall i :: 0 <= i < |blocks| ==> EmitsBlock(blocks[i], prose, parts[i], budgets[i], budgets[i + 1])
  }

  lemma {:induction false} CodeIsCounted(blocks: seq<Block>) returns (codes: seq<nat>)
    ensures CountsCode(blocks, codes) && codes[0] == CodeTokens(blocks)
  {
    hide Tokens;
    if blocks == [] {
      codes := [0];
    } else {
      var rest := CodeIsCounted(blocks[1..]);
      codes := [CodeTokens(blocks)] + rest;
      forall i | 0 < i < |blocks| ensures codes[i] == codes[i + 1] + if blocks[i].Code? then Tokens(blocks[i].text) else 0 {
        assert blocks[1..][i - 1] == blocks[i];
      }
    }
  }

  lemma {:induction false} RewriteEmits(blocks: seq<Block>, prose: (string, nat) -> string, budget: nat)
    returns (budgets: seq<nat>)
    ensures Emits(blocks, prose, Rewrite(blocks, prose, budget), budgets) && budgets[0] == budget
    decreases |blocks|
  {
    hide Tokens;
    if blocks == [] {
      budgets := [budget];
    } else {
      var parts := Rewrite(blocks, prose, budget);
      var left := if blocks[0].Code? then budget else Max(budget - Tokens(parts[0]), 0);
      var rest := RewriteEmits(blocks[1..], prose, left);
      budgets := [budget] + rest;
      var tail := Rewrite(blocks[1..], prose, left);
      assert parts == [parts[0]] + tail;
      forall i | 0 <= i < |blocks| ensures EmitsBlock(blocks[i], prose, parts[i], budgets[i], budgets[i + 1]) {
        if i > 0 {
          assert EmitsBlock(blocks[1..][i - 1], prose, tail[i - 1], rest[i - 1], rest[i]);
        }
      }
    }
  }

  /** Off, short texts and texts that would not shrink come back as they are; any other text
      comes back as its blocks, code verbatim and prose compressed to its share: 55 or 35
      percent of the input, at least a quarter, less what the code takes. */
  lemma CompressExactly(text: string, mode: Mode, prose: (string, nat) -> string)
    returns (parts: seq<string>, budgets: seq<nat>, codes: seq<nat>)
    ensures CountsCode(Split(text), codes) && Emits(Split(text), prose, parts, budgets)
    ensures var orig := Tokens(text);
            var share := (orig as real * if mode == Balanced then 0.55 else 0.35).Floor;
            var target := if share < orig / 4 then orig / 4 else share;
            mode != Off ==> budgets[0] == if codes[0] < target then target - codes[0] else 0
    ensures var result := Trim(JoinParas(parts));
            CompressedText(text, mode, prose) ==
            if mode == Off || Tokens(text) < 80 || Tokens(result) >= Tokens(text) then text else result
  {
    hide Split, Trim, JoinParas, Rewrite, Tokens, CountsCode, Emits;
    var blocks := Split(text);
    codes := CodeIsCounted(blocks);
    var budget := Max(TargetTokens(Tokens(text), mode) - CodeTokens(blocks), 0);
    parts := Rewrite(blocks, prose, budget);
    budgets := RewriteEmits(blocks, prose, budget);
    assert |codes| > 0 && |budgets| > 0 by {
      CountsAreNonEmpty(blocks, prose, codes, parts, budgets);
    }
  }

  lemma CountsAreNonEmpty(blocks: seq<Block>, prose: (string, nat) -> string, codes: seq<nat>,
                          parts: seq<string>, budgets: seq<nat>)
    requires CountsCode(blocks, codes) && Emits(blocks, prose, parts, budgets)
    ensures |codes| > 0 && |budgets| > 0
  {
  }

  /** Without a fence the whole text is one piece of prose. */
  lemma PlainTextCompresses(text: string, prose: (string, nat) -> string)
    requires Fenceless(text) && Tokens(text) >= 80
    ensures var orig := Tokens(text);
            var result := Trim(prose(text, (orig as real * 0.55).Floor));
            CompressedText(text, Balanced, prose) == if Tokens(result) < orig then result else text
  {
    hide Trim, Tokens, Split;
    var orig := Tokens(text);
    assert text != "" by {
      if text == "" {
        TokensOfAscii(text);
      }
    }
    assert WellShaped(Prose(text));
    LoneProse(Prose(text));
    var parts, budgets, codes := CompressExactly(text, Balanced, prose);
    var share := (orig as real * 0.55).Floor;
    assert share >= orig / 4;
    assert Split(text) == [Prose(text)] && codes[0] == codes[1] == 0 && budgets[0] == share;
    assert EmitsBlock(Split(text)[0], prose, parts[0], budgets[0], budgets[1]);
    assert JoinParas(parts) == parts[0];
  }
}
