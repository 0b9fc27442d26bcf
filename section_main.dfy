/**
 * The layout logic of the `sectionMain` renderer
 * (components/sections/SectionMain.tsx): for each row, the grid class from
 * the column split, the order classes of the two columns, where the label
 * goes, which column receives the content blocks, and what each content
 * block renders as. Rows and blocks are the JSON records the page receives;
 * the markup itself (React elements, class strings other than the ones
 * decided here, animation) is not modelled.
 */
module SectionMain {
  import opened Wrappers
  import opened Json

  const LayoutKey: string := "layout"
  const ColumnsKey: string := "columns"
  const TextColumnKey: string := "textColumn"
  const LabelPositionKey: string := "labelPosition"
  const LabelKey: string := "label"
  const HeadingKey: string := "heading"
  const SubheadingKey: string := "subheading"
  const BodyKey: string := "body"
  const LinkKey: string := "link"
  const ContentBlocksKey: string := "contentBlocks"
  const TypeKey: string := "_type"
  const AltKey: string := "alt"
  const ItemsKey: string := "items"
  const VariantKey: string := "variant"
  const HeadersKey: string := "headers"
  const RowsKey: string := "rows"

  /** `a?.k`: a member of an optional value, `undefined` when the value is absent. */
  function PropOf(f: Option<Json>, k: string): (r: Option<Json>)
    ensures f.None? ==> r.None?
  {
    if f.Some? then Prop(f.value, k) else None
  }

  // ---------------------------------------------------------------------------
  // Portable Text helper
  // ---------------------------------------------------------------------------

  /** The one-span block a plain value is wrapped into. */
  function SpanBlock(v: Json): Json {
    JObj([Member(TypeKey, JStr("block")),
          Member("children", JArr([JObj([Member(TypeKey, JStr("span")), Member("text", v)])]))])
  }

  /**
   * `renderPT`: the blocks handed to the Portable Text renderer, or `None`
   * when nothing is rendered.
   */
  function RenderPT(v: Json): (r: Option<seq<Json>>)
    ensures r.None? <==> !Truthy(v)
    ensures Truthy(v) && v.JArr? ==> r == Some(v.items)
    ensures Truthy(v) && !v.JArr? ==> r == Some([SpanBlock(v)])
  {
    if !Truthy(v) then None
    else if v.JArr? then Some(v.items)
    else Some([SpanBlock(v)])
  }

  /** The blocks of a row text field (heading, subheading, body): rendered only when truthy. */
  function TextField(row: Json, k: string): Option<seq<Json>> {
    var f := Prop(row, k);
    if TruthyField(f) then RenderPT(f.value) else None
  }

  // ---------------------------------------------------------------------------
  // Row layout
  // ---------------------------------------------------------------------------

  /** `row.layout?.columns || '1/1'`. */
  function Columns(row: Json): Json {
    Or(PropOf(Prop(row, LayoutKey), ColumnsKey), JStr("1/1"))
  }

  /** `row.layout?.textColumn !== 'right'`. */
  predicate TextLeft(row: Json) {
    PropOf(Prop(row, LayoutKey), TextColumnKey) != Some(JStr("right"))
  }

  /** `row.layout?.labelPosition || 'stacked'`. */
  function LabelPosition(row: Json): Json {
    Or(PropOf(Prop(row, LayoutKey), LabelPositionKey), JStr("stacked"))
  }

  /** The responsive grid class for a column split. */
  function GridClass(columns: Json): (r: string)
    ensures r in {"md:grid-cols-2", "md:grid-cols-[2fr_1fr]", "md:grid-cols-[1fr_2fr]", "md:grid-cols-1"}
  {
    if columns == JStr("1/2-1/2") then "md:grid-cols-2"
    else if columns == JStr("2/3-1/3") then "md:grid-cols-[2fr_1fr]"
    else if columns == JStr("1/3-2/3") then "md:grid-cols-[1fr_2fr]"
    else "md:grid-cols-1"
  }

  /** The order class (`textOrderClass`), which both columns carry. */
  function OrderClass(textLeft: bool): string {
    if textLeft then "" else "md:order-2"
  }

  // ---------------------------------------------------------------------------
  // Content blocks
  // ---------------------------------------------------------------------------

  /** What a content block renders as. */
  datatype BlockView =
    | ImageView(alt: Json)
    | ListView(items: Json, columns: Json, theme: Json)
    | TableView(headers: Option<Json>, rows: Option<Json>)

  /** The `switch (block._type)`: `None` is the `null` of the default case. */
  function ViewBlock(block: Json): (r: Option<BlockView>)
    ensures r.Some? <==> Prop(block, TypeKey) in {Some(JStr("image")), Some(JStr("listBlock")), Some(JStr("tableBlock"))}
  {
    var t := Prop(block, TypeKey);
    if t == Some(JStr("image")) then Some(ImageView(Or(Prop(block, AltKey), JStr("Image"))))
    else if t == Some(JStr("listBlock")) then
      Some(ListView(Or(Prop(block, ItemsKey), JArr([])), Or(Prop(block, ColumnsKey), JNum(1)), Or(Prop(block, VariantKey), JStr("default"))))
    else if t == Some(JStr("tableBlock")) then Some(TableView(Prop(block, HeadersKey), Prop(block, RowsKey)))
    else None
  }

  /** `row.contentBlocks?.map(...)`: one view per block, nothing when the member is absent or not an array. */
  function ViewBlocks(row: Json): (r: seq<Option<BlockView>>)
    ensures var bs := Prop(row, ContentBlocksKey);
            bs.Some? && bs.value.JArr? ==> |r| == |bs.value.items| && forall i :: 0 <= i < |r| ==> r[i] == ViewBlock(bs.value.items[i])
    ensures var bs := Prop(row, ContentBlocksKey);
            !(bs.Some? && bs.value.JArr?) ==> r == []
  {
    var bs := Prop(row, ContentBlocksKey);
    if bs.Some? && bs.value.JArr? then seq(|bs.value.items|, i requires 0 <= i < |bs.value.items| => ViewBlock(bs.value.items[i]))
    else []
  }

  // ---------------------------------------------------------------------------
  // A row and the section
  // ---------------------------------------------------------------------------

  /** What one row renders: the label above the grid, then the left column and the text column. */
  datatype RowView = RowView(
    stackedLabel: Option<Json>,
    gridClass: string,
    leftClass: string,
    leftLabel: Option<Json>,
    leftBlocks: seq<Option<BlockView>>,
    textClass: string,
    heading: Option<seq<Json>>,
    subheading: Option<seq<Json>>,
    body: Option<seq<Json>>,
    link: Option<Json>,
    textBlocks: seq<Option<BlockView>>)

  function RenderRow(row: Json): RowView {
    var textLeft := TextLeft(row);
    var labelPosition := LabelPosition(row);
    var rowLabel := Prop(row, LabelKey);
    var rowLink := Prop(row, LinkKey);
    RowView(
      if TruthyField(rowLabel) && labelPosition == JStr("stacked") then rowLabel else None,
      GridClass(Columns(row)),
      OrderClass(textLeft),
      if labelPosition == JStr("leftCol") && TruthyField(rowLabel) then rowLabel else None,
      if labelPosition == JStr("leftCol") then ViewBlocks(row) else [],
      OrderClass(textLeft),
      TextField(row, HeadingKey),
      TextField(row, SubheadingKey),
      TextField(row, BodyKey),
      if TruthyField(rowLink) then rowLink else None,
      if labelPosition != JStr("leftCol") then ViewBlocks(row) else [])
  }

  datatype SectionView = SectionView(backgroundClass: string, proseClass: string, rows: seq<RowView>)

  /** `SectionMain({ rows, theme = 'light' })`. */
  function RenderSection(rows: seq<Json>, theme: Option<Json>): (r: SectionView)
    ensures |r.rows| == |rows|
  {
    var t := theme.GetOr(JStr("light"));
    SectionView(
      if t == JStr("dark") then "bg-gray-100" else "bg-white",
      if t == JStr("midnight") then "prose-invert" else "",
      seq(|rows|, i requires 0 <= i < |rows| => RenderRow(rows[i])))
  }

  // ---------------------------------------------------------------------------
  // Properties
  // ---------------------------------------------------------------------------

  /** The column split decides the grid class; every other value, absent included, gives one column. */
  lemma GridClassOfSplit(row: Json)
    ensures var c, g := PropOf(Prop(row, LayoutKey), ColumnsKey), RenderRow(row).gridClass;
            && (g == "md:grid-cols-2" <==> c == Some(JStr("1/2-1/2")))
            && (g == "md:grid-cols-[2fr_1fr]" <==> c == Some(JStr("2/3-1/3")))
            && (g == "md:grid-cols-[1fr_2fr]" <==> c == Some(JStr("1/3-2/3")))
            && (g == "md:grid-cols-1" <==> c !in {Some(JStr("1/2-1/2")), Some(JStr("2/3-1/3")), Some(JStr("1/3-2/3"))})
  {
  }

  /**
   * The left column and the text column always carry the same order class:
   * empty unless the text column is exactly `'right'`.
   */
  lemma OrderClassesAgree(row: Json)
    ensures RenderRow(row).leftClass == RenderRow(row).textClass
    ensures RenderRow(row).textClass == (if PropOf(Prop(row, LayoutKey), TextColumnKey) == Some(JStr("right")) then "md:order-2" else "")
  {
  }

  /** CSS `order` of a grid item with the given class (0 unless it is `md:order-2`). */
  function OrderOf(cls: string): nat {
    if cls == "md:order-2" then 2 else 0
  }

  /**
   * On a wide screen the grid places items by `order`, ties in source order;
   * since both columns share one order class, the left column is always
   * placed first, whatever `textColumn` says.
   */
  lemma LeftColumnAlwaysFirst(row: Json)
    ensures var v := RenderRow(row); OrderOf(v.leftClass) <= OrderOf(v.textClass)
  {
    OrderClassesAgree(row);
  }

  /**
   * A label shows above the grid only when present and stacked, inside the
   * left column only when present and `'leftCol'`, and never in both places.
   */
  lemma LabelPlacement(row: Json)
    ensures var v, rowLabel, pos := RenderRow(row), Prop(row, LabelKey), LabelPosition(row);
            && (v.stackedLabel.Some? <==> TruthyField(rowLabel) && pos == JStr("stacked"))
            && (v.leftLabel.Some? <==> TruthyField(rowLabel) && pos == JStr("leftCol"))
            && !(v.stackedLabel.Some? && v.leftLabel.Some?)
  {
  }

  /** With no layout at all a present label is stacked. */
  lemma LabelStackedByDefault(row: Json)
    requires PropOf(Prop(row, LayoutKey), LabelPositionKey).None? && TruthyField(Prop(row, LabelKey))
    ensures RenderRow(row).stackedLabel == Prop(row, LabelKey)
  {
  }

  /** The content blocks are rendered in exactly one column: the left one iff the label position is `'leftCol'`. */
  lemma BlocksInOneColumn(row: Json)
    ensures var v := RenderRow(row);
            && (LabelPosition(row) == JStr("leftCol") ==> v.leftBlocks == ViewBlocks(row) && v.textBlocks == [])
            && (LabelPosition(row) != JStr("leftCol") ==> v.textBlocks == ViewBlocks(row) && v.leftBlocks == [])
  {
  }

  /** A list block renders with `items` `[]`, `columns` 1 and theme `'default'` when those are missing. */
  lemma ListViewDefaults(block: Json)
    requires Prop(block, TypeKey) == Some(JStr("listBlock"))
    ensures ViewBlock(block) == Some(ListView(Or(Prop(block, ItemsKey), JArr([])), Or(Prop(block, ColumnsKey), JNum(1)), Or(Prop(block, VariantKey), JStr("default"))))
    ensures !TruthyField(Prop(block, ColumnsKey)) ==> ViewBlock(block).value.columns == JNum(1)
  {
  }

  /** The section background is grey only for the dark theme; only midnight inverts the prose. */
  lemma SectionThemeClasses(rows: seq<Json>, theme: Option<Json>)
    ensures var v := RenderSection(rows, theme);
            && (v.backgroundClass == "bg-gray-100" <==> theme == Some(JStr("dark")))
            && (v.proseClass == "prose-invert" <==> theme == Some(JStr("midnight")))
            && forall i :: 0 <= i < |rows| ==> v.rows[i] == RenderRow(rows[i])
  {
  }
}
