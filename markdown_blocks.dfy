/**
 * The line level of the import script's Markdown converter
 * (`convertMarkdownToBlocks` and `flushList`, scripts/importPage.js): each
 * non-blank line becomes one Portable Text block, a bullet item or a normal
 * paragraph, whose children come from the span parser of module `Markdown`.
 */
module MarkdownBlocks {
  import opened Strings
  import opened Json
  import opened Markdown

  /** A Portable Text block of style `normal`; a bullet item also has `listItem: 'bullet'` and `level: 1`. */
  datatype Block = Paragraph(children: seq<Span>) | BulletItem(children: seq<Span>)

  // ---------------------------------------------------------------------------
  // Lines and blocks
  // ---------------------------------------------------------------------------

  /** `/^[-*]\s+/.test(trimmed)` */
  predicate IsBulletLine(t: string) {
    |t| >= 2 && (t[0] == '-' || t[0] == '*') && IsSpace(t[1])
  }

  /** `trimmed.replace(/^[-*]\s+/, '')`: the marker and the white space after it removed. */
  function StripBullet(t: string): string
    requires IsBulletLine(t)
  {
    TrimStart(t[1..])
  }

  /** The block a non-blank trimmed line becomes. */
  function LineBlock(t: string): Block {
    if IsBulletLine(t) then BulletItem(ParseLine(StripBullet(t))) else Paragraph(ParseLine(t))
  }

  /**
   * The line loop from line `i` on: bullet items wait in `currentList` and are
   * flushed into `blocks` before the next paragraph, at a blank line and at
   * the end.
   */
  function ConvertScan(lines: seq<string>, i: nat, blocks: seq<Block>, currentList: seq<Block>): seq<Block>
    requires i <= |lines|
    decreases |lines| - i
  {
    if i == |lines| then blocks + currentList
    else
      var trimmed := Trim(lines[i]);
      if IsBulletLine(trimmed) then ConvertScan(lines, i + 1, blocks, currentList + [LineBlock(trimmed)])
      else if trimmed == "" then ConvertScan(lines, i + 1, blocks + currentList, [])
      else ConvertScan(lines, i + 1, blocks + currentList + [LineBlock(trimmed)], [])
  }

  /** `convertMarkdownToBlocks(text)` for a string; the empty string gives no blocks. */
  function ConvertMarkdown(text: string): seq<Block> {
    if text == "" then [] else ConvertScan(Split(text, '\n'), 0, [], [])
  }

  method ConvertMarkdownToBlocks(text: string) returns (blocks: seq<Block>)
    ensures blocks == ConvertMarkdown(text)
  {
    if text == "" {
      return [];
    }
    var lines := Split(text, '\n');
    blocks := [];
    var currentList: seq<Block> := [];
    for i := 0 to |lines|
      invariant ConvertScan(lines, i, blocks, currentList) == ConvertMarkdown(text)
    {
      var trimmed := Trim(lines[i]);
      if IsBulletLine(trimmed) {
        var content := StripBullet(trimmed);
        var children := ParseLineForHighlights(content);
        assert BulletItem(children) == LineBlock(trimmed);
        currentList := currentList + [BulletItem(children)];
        continue;
      }
      if trimmed == "" {
        blocks, currentList := blocks + currentList, [];
        continue;
      }
      blocks, currentList := blocks + currentList, [];
      var children := ParseLineForHighlights(trimmed);
      assert Paragraph(children) == LineBlock(trimmed);
      blocks := blocks + [Paragraph(children)];
    }
    blocks, currentList := blocks + currentList, [];
  }

  /** The blocks of the non-blank lines, one per line, in line order. */
  function BlocksOf(lines: seq<string>): seq<Block> {
    if lines == [] then []
    else
      var t := Trim(lines[0]);
      (if t == "" then [] else [LineBlock(t)]) + BlocksOf(lines[1..])
  }

  /** Holding bullet items back until a flush neither loses nor reorders a block. */
  lemma BlocksOfStep(lines: seq<string>, i: nat)
    requires i < |lines|
    ensures BlocksOf(lines[i..]) ==
      (if Trim(lines[i]) == "" then [] else [LineBlock(Trim(lines[i]))]) + BlocksOf(lines[i + 1..])
  {
    assert lines[i..][1..] == lines[i + 1..];
  }

  lemma {:induction false} ConvertScanBlocks(lines: seq<string>, i: nat, blocks: seq<Block>, currentList: seq<Block>)
    requires i <= |lines|
    ensures ConvertScan(lines, i, blocks, currentList) == blocks + currentList + BlocksOf(lines[i..])
    decreases |lines| - i, 1
  {
    if i == |lines| {
      assert lines[i..] == [];
    } else {
      BlocksOfStep(lines, i);
      ConvertScanLine(lines, i, blocks, currentList);
    }
  }

  /** One step of the line loop, for each of its three branches. */
  lemma {:induction false} ConvertScanLine(lines: seq<string>, i: nat, blocks: seq<Block>, currentList: seq<Block>)
    requires i < |lines|
    ensures ConvertScan(lines, i, blocks, currentList) ==
      blocks + currentList + ((if Trim(lines[i]) == "" then [] else [LineBlock(Trim(lines[i]))]) + BlocksOf(lines[i + 1..]))
    decreases |lines| - i, 0
  {
    var trimmed := Trim(lines[i]);
    var rest := BlocksOf(lines[i + 1..]);
    if trimmed == "" {
      ConvertScanBlocks(lines, i + 1, blocks + currentList, []);
      AppendEmpty(blocks + currentList);
      assert [] + rest == rest;
    } else if IsBulletLine(trimmed) {
      var b := LineBlock(trimmed);
      ConvertScanBlocks(lines, i + 1, blocks, currentList + [b]);
      Assoc(blocks, currentList + [b], rest);
      Assoc(currentList, [b], rest);
      Assoc(blocks, currentList, [b] + rest);
    } else {
      var b := LineBlock(trimmed);
      ConvertScanBlocks(lines, i + 1, blocks + currentList + [b], []);
      AppendEmpty(blocks + currentList + [b]);
      Assoc(blocks + currentList, [b], rest);
    }
  }

  /** The trimmed non-blank lines, in order. */
  function NonBlank(lines: seq<string>): (r: seq<string>)
    ensures forall k :: 0 <= k < |r| ==> r[k] != ""
  {
    if lines == [] then []
    else
      var t := Trim(lines[0]);
      (if t == "" then [] else [t]) + NonBlank(lines[1..])
  }

  /** Every non-blank line yields exactly one block, in source-line order; bullet lines yield bullet items. */
  lemma {:induction false} BlocksFollowLines(lines: seq<string>)
    ensures |BlocksOf(lines)| == |NonBlank(lines)|
    ensures forall k :: 0 <= k < |BlocksOf(lines)| ==>
      BlocksOf(lines)[k] == LineBlock(NonBlank(lines)[k]) &&
      (BlocksOf(lines)[k].BulletItem? <==> IsBulletLine(NonBlank(lines)[k]))
  {
    if lines != [] {
      var t := Trim(lines[0]);
      var bs, ts := BlocksOf(lines[1..]), NonBlank(lines[1..]);
      BlocksFollowLines(lines[1..]);
      if t == "" {
        EmptyAppend(bs);
        EmptyAppend(ts);
        assert BlocksOf(lines) == bs && NonBlank(lines) == ts;
      } else {
        assert BlocksOf(lines) == [LineBlock(t)] + bs && NonBlank(lines) == [t] + ts;
        ConsLineBlock(t, bs, ts);
      }
    }
  }

  lemma ConsLineBlock(t: string, bs: seq<Block>, ts: seq<string>)
    requires |bs| == |ts| && forall k :: 0 <= k < |bs| ==> bs[k] == LineBlock(ts[k])
    ensures |[LineBlock(t)] + bs| == |[t] + ts|
    ensures forall k :: 0 <= k < |bs| + 1 ==> ([LineBlock(t)] + bs)[k] == LineBlock(([t] + ts)[k])
  {
    ConsMap(LineBlock, t, ts, bs);
  }

  lemma ConsMap<A, B>(f: A -> B, x: A, xs: seq<A>, ys: seq<B>)
    requires |xs| == |ys| && forall k :: 0 <= k < |ys| ==> ys[k] == f(xs[k])
    ensures forall k :: 0 <= k < |ys| + 1 ==> ([f(x)] + ys)[k] == f(([x] + xs)[k])
  {
    forall k | 0 < k < |ys| + 1 ensures ([f(x)] + ys)[k] == f(([x] + xs)[k]) {
      assert ([f(x)] + ys)[k] == ys[k - 1];
      assert ([x] + xs)[k] == xs[k - 1];
    }
  }

  /** The converter's result, line by line. */
  lemma ConvertMarkdownBlocks(text: string)
    requires text != ""
    ensures ConvertMarkdown(text) == BlocksOf(Split(text, '\n'))
  {
    var lines := Split(text, '\n');
    ConvertScanBlocks(lines, 0, [], []);
    assert lines[0..] == lines;
  }

  // ---------------------------------------------------------------------------
  // As stored: Portable Text JSON
  // ---------------------------------------------------------------------------

  function SpanJson(s: Span): Json {
    JObj([Member("_type", JStr("span")), Member("text", JStr(s.text)),
          Member("marks", JArr(seq(|s.marks|, k requires 0 <= k < |s.marks| => JStr(s.marks[k]))))])
  }

  function BlockJson(b: Block): Json {
    var children := JArr(seq(|b.children|, k requires 0 <= k < |b.children| => SpanJson(b.children[k])));
    match b
    case Paragraph(_) =>
      JObj([Member("_type", JStr("block")), Member("style", JStr("normal")),
            Member("children", children), Member("markDefs", JArr([]))])
    case BulletItem(_) =>
      JObj([Member("_type", JStr("block")), Member("style", JStr("normal")),
            Member("listItem", JStr("bullet")), Member("level", JNum(1)),
            Member("children", children), Member("markDefs", JArr([]))])
  }

  /** The converter's result as the JSON array stored in the document. */
  function MarkdownJson(text: string): Json {
    var bs := ConvertMarkdown(text);
    JArr(seq(|bs|, k requires 0 <= k < |bs| => BlockJson(bs[k])))
  }
}
