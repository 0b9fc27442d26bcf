/**
 * The legacy content-block normaliser of the import script
 * (`processContentBlock`, scripts/importPage.js) and the handling of a row's
 * `contentBlocks` inside `importPage`: a block authored as
 * `{ image: ... }`, `{ listBlock: ... }`, `{ tableBlock: ... }`,
 * `{ ctaBlock: ... }`, `{ buttonBlock: ... }` or `{ linkBlock: ... }` is
 * lifted into a flat block tagged with that `_type`, its fields defaulted and
 * the wrapper key deleted; text fields are converted from Markdown.
 *
 * Image resolution (`handleImage`) is modelled except for its I/O: finding
 * the file and uploading it is the parameter `resolve`, which maps the image
 * path to the id of the uploaded asset, or to `None` (the script's `null`)
 * when the file is missing or the upload fails.
 */
module ContentBlocks {
  import opened Wrappers
  import opened Json
  import MarkdownBlocks
  import Strings

  // Member names the normaliser reads and writes.
  const TypeKey: string := "_type"
  const ImageKey: string := "image"
  const ListBlockKey: string := "listBlock"
  const TableBlockKey: string := "tableBlock"
  const CtaBlockKey: string := "ctaBlock"
  const ButtonBlockKey: string := "buttonBlock"
  const LinkBlockKey: string := "linkBlock"
  const ContentRowKey: string := "contentRow"
  const ImagesKey: string := "images"
  const DisplayKey: string := "display"
  const AltKey: string := "alt"
  const AssetKey: string := "asset"
  const VariantKey: string := "variant"
  const ColumnsKey: string := "columns"
  const ItemsKey: string := "items"
  const HeadingKey: string := "heading"
  const BodyKey: string := "body"
  const IconKey: string := "icon"
  const ColumnAKey: string := "columnA"
  const ColumnBKey: string := "columnB"
  const RowsKey: string := "rows"
  const CellAKey: string := "a"
  const CellBKey: string := "b"
  const TitleKey: string := "title"
  const UrlKey: string := "url"
  const StyleKey: string := "style"
  const ButtonsKey: string := "buttons"
  const TextKey: string := "text"
  const BlocksKey: string := "blocks"
  const SubheadingKey: string := "subheading"
  const ContentBlocksKey: string := "contentBlocks"
  const BackgroundImageKey: string := "backgroundImage"
  const SectionMainType: string := "sectionMain"
  const RefKey: string := "_ref"
  const ReferenceType: string := "reference"
  const PathKey: string := "path"
  const AssetIdPrefix: string := "image-"

  /** File look-up and upload: an image path to the uploaded asset's id, `None` on failure. */
  type Resolver = string -> Option<string>

  /** The kinds of wrapped block, each authored under its own wrapper key. */
  datatype Wrapper = ImageWrapper | ListWrapper | TableWrapper | CtaWrapper | ButtonWrapper | LinkWrapper

  /** The wrapper key, which also becomes the block's `_type`. */
  function Key(w: Wrapper): string {
    match w
    case ImageWrapper => ImageKey
    case ListWrapper => ListBlockKey
    case TableWrapper => TableBlockKey
    case CtaWrapper => CtaBlockKey
    case ButtonWrapper => ButtonBlockKey
    case LinkWrapper => LinkBlockKey
  }

  /** The position of a wrapper key in the order the normaliser probes them. */
  function Rank(w: Wrapper): nat {
    match w
    case ImageWrapper => 0
    case ListWrapper => 1
    case TableWrapper => 2
    case CtaWrapper => 3
    case ButtonWrapper => 4
    case LinkWrapper => 5
  }

  lemma KeyInjective(w: Wrapper, w': Wrapper)
    ensures Key(w) == Key(w') <==> w == w'
  {
  }

  /** Which kind of block a raw block is: its first truthy wrapper key in probe order, if any. */
  function FirstWrapper(ms: seq<Member>): Option<Wrapper> {
    if TruthyField(Get(ms, ImageKey)) then Some(ImageWrapper)
    else if TruthyField(Get(ms, ListBlockKey)) then Some(ListWrapper)
    else if TruthyField(Get(ms, TableBlockKey)) then Some(TableWrapper)
    else if TruthyField(Get(ms, CtaBlockKey)) then Some(CtaWrapper)
    else if TruthyField(Get(ms, ButtonBlockKey)) then Some(ButtonWrapper)
    else if TruthyField(Get(ms, LinkBlockKey)) then Some(LinkWrapper)
    else None
  }

  /** The chosen wrapper key is truthy. */
  lemma FirstWrapperTruthy(ms: seq<Member>, w: Wrapper)
    requires FirstWrapper(ms) == Some(w)
    ensures TruthyField(Get(ms, Key(w)))
  {
  }

  /** Every wrapper key probed before the chosen one is falsy. */
  lemma FirstWrapperEarlierFalsy(ms: seq<Member>, w: Wrapper, v: Wrapper)
    requires FirstWrapper(ms) == Some(w) && Rank(v) < Rank(w)
    ensures !TruthyField(Get(ms, Key(v)))
  {
  }

  /** No wrapper is chosen exactly when every wrapper key is falsy. */
  lemma FirstWrapperNone(ms: seq<Member>)
    ensures FirstWrapper(ms).None? <==> forall w :: !TruthyField(Get(ms, Key(w)))
  {
    if FirstWrapper(ms).Some? {
      FirstWrapperTruthy(ms, FirstWrapper(ms).value);
    }
  }

  /** An image object referring to an uploaded asset by id. */
  function ImageReference(id: string): Json {
    JObj([Member(TypeKey, JStr(ImageKey)), Member(AssetKey, JObj([Member(RefKey, JStr(id)), Member(TypeKey, JStr(ReferenceType))]))])
  }

  /** An image already in stored form: an object of `_type` `image` with a truthy `asset`. */
  predicate IsProcessedImage(v: Json) {
    v.JObj? && Get(v.members, TypeKey) == Some(JStr(ImageKey)) && TruthyField(Get(v.members, AssetKey))
  }

  /** An asset id written as a string (`image-...`); such a string also contains `-`. */
  predicate IsAssetId(v: Json) {
    v.JStr? && Strings.StartsWith(v.s, AssetIdPrefix)
  }

  /** The file path of an image reference: the string itself, or the first truthy of `url`, `image`, `path` when that is a string. */
  function ImagePath(v: Json): (r: Option<string>)
    ensures v.JStr? ==> r == Some(v.s)
    ensures r.Some? && !v.JStr? ==>
              v.JObj? && r.value != "" && (Prop(v, UrlKey) == Some(JStr(r.value)) || Prop(v, ImageKey) == Some(JStr(r.value)) || Prop(v, PathKey) == Some(JStr(r.value)))
  {
    if v.JStr? then Some(v.s)
    else
      var extracted :=
        if TruthyField(Prop(v, UrlKey)) then Prop(v, UrlKey)
        else if TruthyField(Prop(v, ImageKey)) then Prop(v, ImageKey)
        else Prop(v, PathKey);
      if TruthyField(extracted) && extracted.value.JStr? then Some(extracted.value.s) else None
  }

  /**
   * Image resolution: nothing for a falsy reference; a processed image as
   * it is; an asset id as a reference to that asset; otherwise the file at
   * the reference's path uploaded and referred to, or nothing.
   */
  function HandleImage(resolve: Resolver, ref: Option<Json>): (r: Option<Json>)
    ensures !TruthyField(ref) ==> r.None?
    ensures TruthyField(ref) && IsProcessedImage(ref.value) ==> r == ref
    ensures TruthyField(ref) && !IsProcessedImage(ref.value) && IsAssetId(ref.value) ==> r == Some(ImageReference(ref.value.s))
    ensures r.Some? ==> IsProcessedImage(r.value)
  {
    if !TruthyField(ref) then None
    else if IsProcessedImage(ref.value) then ref
    else if IsAssetId(ref.value) then Some(ImageReference(ref.value.s))
    else
      match ImagePath(ref.value)
      case None => None
      case Some(path) =>
        match resolve(path)
        case Some(id) => Some(ImageReference(id))
        case None => None
  }

  /** A path or object reference that is not a processed image or an asset id is uploaded, and resolves exactly when the upload succeeds. */
  lemma HandleImageUploads(resolve: Resolver, ref: Option<Json>)
    requires TruthyField(ref) && !IsProcessedImage(ref.value) && !IsAssetId(ref.value)
    ensures HandleImage(resolve, ref).Some? <==> ImagePath(ref.value).Some? && resolve(ImagePath(ref.value).value).Some?
    ensures HandleImage(resolve, ref).Some? ==> HandleImage(resolve, ref) == Some(ImageReference(resolve(ImagePath(ref.value).value).value))
  {
  }

  /** Resolving an already resolved image changes nothing, whatever the upload would do. */
  lemma HandleImageIdempotent(resolve: Resolver, resolve': Resolver, ref: Option<Json>)
    ensures HandleImage(resolve', HandleImage(resolve, ref)) == HandleImage(resolve, ref)
  {
  }

  /** A text field given as Markdown: the converted blocks. */
  function MarkdownField(s: string): Json {
    MarkdownBlocks.MarkdownJson(s)
  }

  /** A member holding a non-empty string is replaced by its Markdown conversion; anything else is left alone. */
  function ConvertTextField(ms: seq<Member>, k: string): (r: seq<Member>)
    ensures TruthyField(Get(ms, k)) && IsString(Get(ms, k)) ==> Get(r, k) == Some(MarkdownField(Get(ms, k).value.s))
    ensures !(TruthyField(Get(ms, k)) && IsString(Get(ms, k))) ==> r == ms
    ensures forall k' :: k' != k ==> Get(r, k') == Get(ms, k')
  {
    var f := Get(ms, k);
    if TruthyField(f) && IsString(f) then Put(ms, k, MarkdownField(f.value.s)) else ms
  }

  // ---------------------------------------------------------------------------
  // Images
  // ---------------------------------------------------------------------------

  /** An entry of `images`: tagged `image`, the resolved asset (left out when it has none) and the alt text. */
  function ImageEntry(data: Json, alt: Json): Json {
    var asset := Prop(data, AssetKey);
    JObj([Member(TypeKey, JStr(ImageKey))] + (if asset.Some? then [Member(AssetKey, asset.value)] else []) + [Member(AltKey, alt)])
  }

  /** One slideshow item: its image entry, or `null` when its image does not resolve. */
  function ResolveImageItem(resolve: Resolver, imgItem: Json): (r: Json)
    ensures r != JNull <==> HandleImage(resolve, Prop(imgItem, ImageKey)).Some?
  {
    match HandleImage(resolve, Prop(imgItem, ImageKey))
    case Some(data) => ImageEntry(data, Or(Prop(imgItem, AltKey), JStr("")))
    case None => JNull
  }

  /** The values other than `null`, in order. */
  function DropNulls(xs: seq<Json>): (r: seq<Json>)
    ensures |r| <= |xs|
    ensures forall x :: x in r <==> x in xs && x != JNull
  {
    if xs == [] then []
    else (if xs[0] == JNull then [] else [xs[0]]) + DropNulls(xs[1..])
  }

  /** The slideshow images that resolved, in order; none exactly when no item's image resolves. */
  function ResolvedImages(resolve: Resolver, items: seq<Json>): (r: seq<Json>)
    ensures |r| <= |items|
    ensures forall x :: x in r ==> x != JNull
    ensures |r| == 0 <==> forall i :: 0 <= i < |items| ==> HandleImage(resolve, Prop(items[i], ImageKey)).None?
  {
    var all := seq(|items|, i requires 0 <= i < |items| => ResolveImageItem(resolve, items[i]));
    var r := DropNulls(all);
    assert |r| == 0 ==> forall i :: 0 <= i < |items| ==> HandleImage(resolve, Prop(items[i], ImageKey)).None? by {
      if |r| == 0 {
        forall i | 0 <= i < |items|
          ensures HandleImage(resolve, Prop(items[i], ImageKey)).None?
        {
          assert all[i] in all;
          assert all[i] !in r;
        }
      }
    }
    assert |r| != 0 ==> exists i :: 0 <= i < |items| && HandleImage(resolve, Prop(items[i], ImageKey)).Some? by {
      if |r| != 0 {
        assert r[0] in r;
        var i :| 0 <= i < |all| && all[i] == r[0];
      }
    }
    r
  }

  /** The image reference of the legacy form: the string itself, or the `image` member of an object. */
  function LegacyImagePath(img: Json): Option<Json> {
    if img.JStr? then Some(img) else Prop(img, ImageKey)
  }

  /** Whether an image wrapper is the slideshow form: it holds an `images` array. */
  predicate IsSlideshow(img: Json) {
    var images := Prop(img, ImagesKey);
    TruthyField(images) && images.value.JArr?
  }

  /**
   * An image block: tagged `image`, given a non-empty `images` array, the
   * wrapper (and, in the legacy form, the block's `alt`) deleted, `display`
   * copied from a slideshow. `None` (the script's `null`) when no image resolves.
   */
  function LiftImage(resolve: Resolver, block: seq<Member>): Option<seq<Member>>
    requires TruthyField(Get(block, ImageKey))
  {
    var img := Get(block, ImageKey).value;
    var b := Put(block, TypeKey, JStr(ImageKey));
    if IsSlideshow(img) then
      var kept := ResolvedImages(resolve, Prop(img, ImagesKey).value.items);
      if |kept| == 0 then None
      else
        var withImages := Put(b, ImagesKey, JArr(kept));
        var display := Prop(img, DisplayKey);
        var withDisplay := if TruthyField(display) then Put(withImages, DisplayKey, display.value) else withImages;
        Some(Delete(withDisplay, ImageKey))
    else
      match HandleImage(resolve, LegacyImagePath(img))
      case None => None
      case Some(data) =>
        var alt := Or(Prop(img, AltKey), Or(Get(b, AltKey), JStr("")));
        Some(Delete(Delete(Put(b, ImagesKey, JArr([ImageEntry(data, alt)])), ImageKey), AltKey))
  }

  /**
   * An image block is dropped exactly when nothing resolves: every slideshow
   * item's image, or the single legacy image.
   */
  lemma ImageDroppedIffUnresolved(resolve: Resolver, block: seq<Member>)
    requires TruthyField(Get(block, ImageKey))
    ensures var img := Get(block, ImageKey).value;
            LiftImage(resolve, block).None? <==>
              if IsSlideshow(img) then
                var items := Prop(img, ImagesKey).value.items;
                forall i :: 0 <= i < |items| ==> HandleImage(resolve, Prop(items[i], ImageKey)).None?
              else HandleImage(resolve, LegacyImagePath(img)).None?
  {
  }

  // ---------------------------------------------------------------------------
  // Lists, tables, calls to action, buttons, links
  // ---------------------------------------------------------------------------

  /**
   * A list item: tagged `listItem`, its Markdown heading and body converted,
   * a truthy icon replaced by its resolved image (`null` on failure).
   */
  function ListItem(resolve: Resolver, item: Json): (r: Json)
    ensures r.JObj? <==> item.JObj?
    ensures !item.JObj? ==> r == item
  {
    if item.JObj? then
      var typed := Put(item.members, TypeKey, JStr("listItem"));
      var texts := ConvertTextField(ConvertTextField(typed, HeadingKey), BodyKey);
      var icon := Get(texts, IconKey);
      if TruthyField(icon) then JObj(Put(texts, IconKey, HandleImage(resolve, icon).GetOr(JNull)))
      else JObj(texts)
    else item
  }

  /**
   * A processed list item is tagged `listItem`; a truthy icon is replaced by
   * its resolved image or `null`, a falsy one is kept; members other than
   * `_type`, `heading`, `body` and `icon` are untouched.
   */
  lemma ListItemShape(resolve: Resolver, ms: seq<Member>, k: string)
    requires k !in {TypeKey, HeadingKey, BodyKey, IconKey}
    ensures var r := ListItem(resolve, JObj(ms)).members;
            && Get(r, TypeKey) == Some(JStr("listItem"))
            && Get(r, IconKey) == (if TruthyField(Get(ms, IconKey)) then Some(HandleImage(resolve, Get(ms, IconKey)).GetOr(JNull)) else Get(ms, IconKey))
            && Get(r, k) == Get(ms, k)
  {
    var typed := Put(ms, TypeKey, JStr("listItem"));
    var texts := ConvertTextField(ConvertTextField(typed, HeadingKey), BodyKey);
    assert Get(texts, TypeKey) == Some(JStr("listItem")) && Get(texts, IconKey) == Get(ms, IconKey) && Get(texts, k) == Get(ms, k);
  }

  /** Every item of a list processed. */
  function ListItems(resolve: Resolver, xs: seq<Json>): seq<Json>
  {
    seq(|xs|, i requires 0 <= i < |xs| => ListItem(resolve, xs[i]))
  }

  /** The `heading` a list block gets: Markdown for a string, the value itself otherwise. */
  function ListHeading(heading: Json): Json {
    if heading.JStr? then MarkdownField(heading.s) else heading
  }

  /**
   * A list block: tagged `listBlock`, `variant` defaulting to "default",
   * `columns` to 2, `items` the processed items (empty unless an array is
   * given), a truthy `heading` copied over (converted when a string).
   */
  function LiftList(resolve: Resolver, block: seq<Member>): seq<Member>
    requires TruthyField(Get(block, ListBlockKey))
  {
    var listData := Get(block, ListBlockKey).value;
    var b0 := Put(block, TypeKey, JStr(ListBlockKey));
    var b1 := Put(b0, VariantKey, Or(Prop(listData, VariantKey), JStr("default")));
    var b2 := Put(b1, ColumnsKey, Or(Prop(listData, ColumnsKey), JNum(2)));
    var b3 := Put(b2, ItemsKey, JArr([]));
    var heading := Prop(listData, HeadingKey);
    var b4 := if TruthyField(heading) then Put(b3, HeadingKey, ListHeading(heading.value)) else b3;
    var items := Prop(listData, ItemsKey);
    var b5 :=
      if items.Some? && items.value.JArr? then
        var xs := items.value.items;
        Put(b4, ItemsKey, JArr(ListItems(resolve, xs)))
      else b4;
    Delete(b5, ListBlockKey)
  }

  /**
   * A table cell: a non-empty string is converted from Markdown, another
   * truthy value is kept, an absent or falsy one becomes `[]`.
   */
  function Cell(c: Option<Json>): (r: Json)
    ensures TruthyField(c) && IsString(c) ==> r == MarkdownField(c.value.s)
    ensures TruthyField(c) && !IsString(c) ==> r == c.value
    ensures !TruthyField(c) ==> r == JArr([])
  {
    if TruthyField(c) && IsString(c) then MarkdownField(c.value.s) else Or(c, JArr([]))
  }

  /** A table row with both cells converted. */
  function TableRow(row: Json): (r: Json)
    ensures row.JObj? ==>
      r.JObj? && Get(r.members, CellAKey) == Some(Cell(Get(row.members, CellAKey))) && Get(r.members, CellBKey) == Some(Cell(Get(row.members, CellBKey)))
    ensures !row.JObj? ==> r == row
  {
    if row.JObj? then
      var withA := Put(row.members, CellAKey, Cell(Get(row.members, CellAKey)));
      JObj(Put(withA, CellBKey, Cell(Get(withA, CellBKey))))
    else row
  }

  /** Every row of a table converted. */
  function TableRows(xs: seq<Json>): seq<Json>
  {
    seq(|xs|, i requires 0 <= i < |xs| => TableRow(xs[i]))
  }

  /** A table block: tagged `tableBlock`, column titles defaulting to "", `rows` converted (empty unless an array is given). */
  function LiftTable(block: seq<Member>): seq<Member>
    requires TruthyField(Get(block, TableBlockKey))
  {
    var tableData := Get(block, TableBlockKey).value;
    var b0 := Put(block, TypeKey, JStr(TableBlockKey));
    var b1 := Put(b0, ColumnAKey, Or(Prop(tableData, ColumnAKey), JStr("")));
    var b2 := Put(b1, ColumnBKey, Or(Prop(tableData, ColumnBKey), JStr("")));
    var b3 := Put(b2, RowsKey, JArr([]));
    var rows := Prop(tableData, RowsKey);
    var b4 :=
      if rows.Some? && rows.value.JArr? then
        var xs := rows.value.items;
        Put(b3, RowsKey, JArr(TableRows(xs)))
      else b3;
    Delete(b4, TableBlockKey)
  }

  /** A call-to-action block: tagged `ctaBlock`, `title` and `url` defaulting to "", `style` to "primary". */
  function LiftCta(block: seq<Member>): seq<Member>
    requires TruthyField(Get(block, CtaBlockKey))
  {
    var ctaData := Get(block, CtaBlockKey).value;
    var b0 := Put(block, TypeKey, JStr(CtaBlockKey));
    var b1 := Put(b0, TitleKey, Or(Prop(ctaData, TitleKey), JStr("")));
    var b2 := Put(b1, UrlKey, Or(Prop(ctaData, UrlKey), JStr("")));
    var b3 := Put(b2, StyleKey, Or(Prop(ctaData, StyleKey), JStr("primary")));
    Delete(b3, CtaBlockKey)
  }

  /** A button as stored: a fresh object of exactly `title`, `url` and `style`, defaulted. */
  function Button(button: Json): (r: Json)
    ensures r.JObj? && Keys(r.members) == [TitleKey, UrlKey, StyleKey]
  {
    JObj([Member(TitleKey, Or(Prop(button, TitleKey), JStr(""))),
          Member(UrlKey, Or(Prop(button, UrlKey), JStr(""))),
          Member(StyleKey, Or(Prop(button, StyleKey), JStr("primary")))])
  }

  /** A rebuilt button's `title` and `url` default to "", its `style` to "primary". */
  lemma ButtonDefaults(button: Json)
    ensures var ms := Button(button).members;
            && Get(ms, TitleKey) == Some(Or(Prop(button, TitleKey), JStr("")))
            && Get(ms, UrlKey) == Some(Or(Prop(button, UrlKey), JStr("")))
            && Get(ms, StyleKey) == Some(Or(Prop(button, StyleKey), JStr("primary")))
  {
    var ms := Button(button).members;
    assert TitleKey != UrlKey && TitleKey != StyleKey && UrlKey != StyleKey;
    assert Get(ms, StyleKey) == Get(ms[1..], StyleKey) == Get([ms[2]], StyleKey);
  }

  /** Every button rebuilt. */
  function Buttons(xs: seq<Json>): seq<Json>
  {
    seq(|xs|, i requires 0 <= i < |xs| => Button(xs[i]))
  }

  /** A button block: tagged `buttonBlock`, `buttons` the rebuilt buttons (empty unless an array is given). */
  function LiftButton(block: seq<Member>): seq<Member>
    requires TruthyField(Get(block, ButtonBlockKey))
  {
    var buttonData := Get(block, ButtonBlockKey).value;
    var b0 := Put(block, TypeKey, JStr(ButtonBlockKey));
    var b1 := Put(b0, ButtonsKey, JArr([]));
    var buttons := Prop(buttonData, ButtonsKey);
    var b2 :=
      if buttons.Some? && buttons.value.JArr? then
        var xs := buttons.value.items;
        Put(b1, ButtonsKey, JArr(Buttons(xs)))
      else b1;
    Delete(b2, ButtonBlockKey)
  }

  /** A link block: tagged `linkBlock`, `text` and `url` defaulting to "". */
  function LiftLink(block: seq<Member>): seq<Member>
    requires TruthyField(Get(block, LinkBlockKey))
  {
    var linkData := Get(block, LinkBlockKey).value;
    var b0 := Put(block, TypeKey, JStr(LinkBlockKey));
    var b1 := Put(b0, TextKey, Or(Prop(linkData, TextKey), JStr("")));
    var b2 := Put(b1, UrlKey, Or(Prop(linkData, UrlKey), JStr("")));
    Delete(b2, LinkBlockKey)
  }

  // ---------------------------------------------------------------------------
  // What each kind of block becomes
  // ---------------------------------------------------------------------------

  /** A lifted image block is tagged `image`, has lost its wrapper and holds a non-empty `images` array. */
  lemma ImageShape(resolve: Resolver, block: seq<Member>)
    requires TruthyField(Get(block, ImageKey)) && LiftImage(resolve, block).Some?
    ensures var r := LiftImage(resolve, block).value;
            && Get(r, TypeKey) == Some(JStr(ImageKey)) && Get(r, ImageKey) == None
            && Get(r, ImagesKey).Some? && Get(r, ImagesKey).value.JArr? && |Get(r, ImagesKey).value.items| > 0
  {
  }

  /** Lifting an image block leaves every member but `_type`, `image`, `alt`, `images` and `display` alone. */
  lemma ImageFrame(resolve: Resolver, block: seq<Member>, k: string)
    requires TruthyField(Get(block, ImageKey)) && LiftImage(resolve, block).Some?
    requires k !in {TypeKey, ImageKey, AltKey, ImagesKey, DisplayKey}
    ensures Get(LiftImage(resolve, block).value, k) == Get(block, k)
  {
  }

  /** In particular every other wrapper key survives. */
  lemma ImageKeepsWrappers(resolve: Resolver, block: seq<Member>)
    requires TruthyField(Get(block, ImageKey)) && LiftImage(resolve, block).Some?
    ensures forall w :: w != ImageWrapper ==> Get(LiftImage(resolve, block).value, Key(w)) == Get(block, Key(w))
  {
    forall w | w != ImageWrapper ensures Get(LiftImage(resolve, block).value, Key(w)) == Get(block, Key(w)) {
      ImageFrame(resolve, block, Key(w));
    }
  }

  /** A list block: tagged `listBlock`, unwrapped, and its `items` an array. */
  lemma ListShape(resolve: Resolver, block: seq<Member>)
    requires TruthyField(Get(block, ListBlockKey))
    ensures var r := LiftList(resolve, block);
            && Get(r, TypeKey) == Some(JStr(ListBlockKey)) && Get(r, ListBlockKey) == None
            && Get(r, ItemsKey).Some? && Get(r, ItemsKey).value.JArr?
  {
    var listData := Get(block, ListBlockKey).value;
    var b3 := Put(Put(Put(Put(block, TypeKey, JStr(ListBlockKey)), VariantKey, Or(Prop(listData, VariantKey), JStr("default"))),
                      ColumnsKey, Or(Prop(listData, ColumnsKey), JNum(2))), ItemsKey, JArr([]));
    assert Get(b3, TypeKey) == Some(JStr(ListBlockKey));
    var heading := Prop(listData, HeadingKey);
    var b4 := if TruthyField(heading) then Put(b3, HeadingKey, ListHeading(heading.value)) else b3;
    assert Get(b4, TypeKey) == Some(JStr(ListBlockKey)) && Get(b4, ItemsKey).Some? && Get(b4, ItemsKey).value.JArr?;
  }

  /** A list block's `variant` defaults to "default" and its `columns` to 2. */
  lemma ListDefaults(resolve: Resolver, block: seq<Member>)
    requires TruthyField(Get(block, ListBlockKey))
    ensures var r, listData := LiftList(resolve, block), Get(block, ListBlockKey).value;
            && Get(r, VariantKey) == Some(Or(Prop(listData, VariantKey), JStr("default")))
            && Get(r, ColumnsKey) == Some(Or(Prop(listData, ColumnsKey), JNum(2)))
  {
    var listData := Get(block, ListBlockKey).value;
    var variant, columns := Or(Prop(listData, VariantKey), JStr("default")), Or(Prop(listData, ColumnsKey), JNum(2));
    var b2 := Put(Put(Put(block, TypeKey, JStr(ListBlockKey)), VariantKey, variant), ColumnsKey, columns);
    assert Get(b2, VariantKey) == Some(variant);
    var b3 := Put(b2, ItemsKey, JArr([]));
    assert Get(b3, VariantKey) == Some(variant) && Get(b3, ColumnsKey) == Some(columns);
    var heading := Prop(listData, HeadingKey);
    var b4 := if TruthyField(heading) then Put(b3, HeadingKey, ListHeading(heading.value)) else b3;
    assert Get(b4, VariantKey) == Some(variant) && Get(b4, ColumnsKey) == Some(columns);
  }

  lemma ListFrame(resolve: Resolver, block: seq<Member>, k: string)
    requires TruthyField(Get(block, ListBlockKey))
    requires k !in {TypeKey, ListBlockKey, VariantKey, ColumnsKey, ItemsKey, HeadingKey}
    ensures Get(LiftList(resolve, block), k) == Get(block, k)
  {
  }

  /** In particular every other wrapper key survives. */
  lemma ListKeepsWrappers(resolve: Resolver, block: seq<Member>)
    requires TruthyField(Get(block, ListBlockKey))
    ensures forall w :: w != ListWrapper ==> Get(LiftList(resolve, block), Key(w)) == Get(block, Key(w))
  {
    forall w | w != ListWrapper ensures Get(LiftList(resolve, block), Key(w)) == Get(block, Key(w)) {
      ListFrame(resolve, block, Key(w));
    }
  }

  /** A table block: tagged `tableBlock`, unwrapped, and its `rows` an array. */
  lemma TableShape(block: seq<Member>)
    requires TruthyField(Get(block, TableBlockKey))
    ensures var r := LiftTable(block);
            && Get(r, TypeKey) == Some(JStr(TableBlockKey)) && Get(r, TableBlockKey) == None
            && Get(r, RowsKey).Some? && Get(r, RowsKey).value.JArr?
  {
    var tableData := Get(block, TableBlockKey).value;
    var b3 := Put(Put(Put(Put(block, TypeKey, JStr(TableBlockKey)), ColumnAKey, Or(Prop(tableData, ColumnAKey), JStr(""))),
                      ColumnBKey, Or(Prop(tableData, ColumnBKey), JStr(""))), RowsKey, JArr([]));
    assert Get(b3, TypeKey) == Some(JStr(TableBlockKey));
  }

  /** A table block's column titles default to "". */
  lemma TableDefaults(block: seq<Member>)
    requires TruthyField(Get(block, TableBlockKey))
    ensures var r, tableData := LiftTable(block), Get(block, TableBlockKey).value;
            && Get(r, ColumnAKey) == Some(Or(Prop(tableData, ColumnAKey), JStr("")))
            && Get(r, ColumnBKey) == Some(Or(Prop(tableData, ColumnBKey), JStr("")))
  {
    var tableData := Get(block, TableBlockKey).value;
    var columnA, columnB := Or(Prop(tableData, ColumnAKey), JStr("")), Or(Prop(tableData, ColumnBKey), JStr(""));
    var b2 := Put(Put(Put(block, TypeKey, JStr(TableBlockKey)), ColumnAKey, columnA), ColumnBKey, columnB);
    assert Get(b2, ColumnAKey) == Some(columnA);
    var b3 := Put(b2, RowsKey, JArr([]));
    assert Get(b3, ColumnAKey) == Some(columnA) && Get(b3, ColumnBKey) == Some(columnB);
  }

  lemma TableFrame(block: seq<Member>, k: string)
    requires TruthyField(Get(block, TableBlockKey))
    requires k !in {TypeKey, TableBlockKey, ColumnAKey, ColumnBKey, RowsKey}
    ensures Get(LiftTable(block), k) == Get(block, k)
  {
  }

  /** In particular every other wrapper key survives. */
  lemma TableKeepsWrappers(block: seq<Member>)
    requires TruthyField(Get(block, TableBlockKey))
    ensures forall w :: w != TableWrapper ==> Get(LiftTable(block), Key(w)) == Get(block, Key(w))
  {
    forall w | w != TableWrapper ensures Get(LiftTable(block), Key(w)) == Get(block, Key(w)) {
      TableFrame(block, Key(w));
    }
  }

  /** A call-to-action block: tagged, unwrapped, `title` and `url` defaulting to "", `style` to "primary". */
  lemma CtaShape(block: seq<Member>)
    requires TruthyField(Get(block, CtaBlockKey))
    ensures var r, ctaData := LiftCta(block), Get(block, CtaBlockKey).value;
            && Get(r, TypeKey) == Some(JStr(CtaBlockKey)) && Get(r, CtaBlockKey) == None
            && Get(r, TitleKey) == Some(Or(Prop(ctaData, TitleKey), JStr("")))
            && Get(r, UrlKey) == Some(Or(Prop(ctaData, UrlKey), JStr("")))
            && Get(r, StyleKey) == Some(Or(Prop(ctaData, StyleKey), JStr("primary")))
  {
  }

  lemma CtaFrame(block: seq<Member>, k: string)
    requires TruthyField(Get(block, CtaBlockKey))
    requires k !in {TypeKey, CtaBlockKey, TitleKey, UrlKey, StyleKey}
    ensures Get(LiftCta(block), k) == Get(block, k)
  {
  }

  /** In particular every other wrapper key survives. */
  lemma CtaKeepsWrappers(block: seq<Member>)
    requires TruthyField(Get(block, CtaBlockKey))
    ensures forall w :: w != CtaWrapper ==> Get(LiftCta(block), Key(w)) == Get(block, Key(w))
  {
    forall w | w != CtaWrapper ensures Get(LiftCta(block), Key(w)) == Get(block, Key(w)) {
      CtaFrame(block, Key(w));
    }
  }

  /** A button block: tagged, unwrapped, `buttons` an array. */
  lemma ButtonShape(block: seq<Member>)
    requires TruthyField(Get(block, ButtonBlockKey))
    ensures var r := LiftButton(block);
            && Get(r, TypeKey) == Some(JStr(ButtonBlockKey)) && Get(r, ButtonBlockKey) == None
            && Get(r, ButtonsKey).Some? && Get(r, ButtonsKey).value.JArr?
  {
  }

  lemma ButtonFrame(block: seq<Member>, k: string)
    requires TruthyField(Get(block, ButtonBlockKey))
    requires k !in {TypeKey, ButtonBlockKey, ButtonsKey}
    ensures Get(LiftButton(block), k) == Get(block, k)
  {
  }

  /** In particular every other wrapper key survives. */
  lemma ButtonKeepsWrappers(block: seq<Member>)
    requires TruthyField(Get(block, ButtonBlockKey))
    ensures forall w :: w != ButtonWrapper ==> Get(LiftButton(block), Key(w)) == Get(block, Key(w))
  {
    forall w | w != ButtonWrapper ensures Get(LiftButton(block), Key(w)) == Get(block, Key(w)) {
      ButtonFrame(block, Key(w));
    }
  }

  /** A link block: tagged, unwrapped, `text` and `url` defaulting to "". */
  lemma LinkShape(block: seq<Member>)
    requires TruthyField(Get(block, LinkBlockKey))
    ensures var r, linkData := LiftLink(block), Get(block, LinkBlockKey).value;
            && Get(r, TypeKey) == Some(JStr(LinkBlockKey)) && Get(r, LinkBlockKey) == None
            && Get(r, TextKey) == Some(Or(Prop(linkData, TextKey), JStr("")))
            && Get(r, UrlKey) == Some(Or(Prop(linkData, UrlKey), JStr("")))
  {
  }

  lemma LinkFrame(block: seq<Member>, k: string)
    requires TruthyField(Get(block, LinkBlockKey))
    requires k !in {TypeKey, LinkBlockKey, TextKey, UrlKey}
    ensures Get(LiftLink(block), k) == Get(block, k)
  {
  }

  /** In particular every other wrapper key survives. */
  lemma LinkKeepsWrappers(block: seq<Member>)
    requires TruthyField(Get(block, LinkBlockKey))
    ensures forall w :: w != LinkWrapper ==> Get(LiftLink(block), Key(w)) == Get(block, Key(w))
  {
    forall w | w != LinkWrapper ensures Get(LiftLink(block), Key(w)) == Get(block, Key(w)) {
      LinkFrame(block, Key(w));
    }
  }

  // ---------------------------------------------------------------------------
  // The normaliser
  // ---------------------------------------------------------------------------

  /**
   * A content block after normalisation (leaving out the `_key` it is
   * stamped with): the wrapper keys are probed in order and the first truthy
   * one decides how the block is lifted; a block without one is returned as
   * it is. `None` is the script's `null`.
   */
  function Normalize(resolve: Resolver, block: seq<Member>): Option<seq<Member>> {
    if TruthyField(Get(block, ImageKey)) then LiftImage(resolve, block)
    else if TruthyField(Get(block, ListBlockKey)) then Some(LiftList(resolve, block))
    else if TruthyField(Get(block, TableBlockKey)) then Some(LiftTable(block))
    else if TruthyField(Get(block, CtaBlockKey)) then Some(LiftCta(block))
    else if TruthyField(Get(block, ButtonBlockKey)) then Some(LiftButton(block))
    else if TruthyField(Get(block, LinkBlockKey)) then Some(LiftLink(block))
    else Some(block)
  }

  /** The import script's normaliser, rewriting the block one member at a time. */
  method ProcessContentBlock(resolve: Resolver, block: seq<Member>) returns (r: Option<seq<Member>>)
    ensures r == Normalize(resolve, block)
  {
    var b := block;
    if TruthyField(Get(b, ImageKey)) {
      var img := Get(b, ImageKey).value;
      b := Put(b, TypeKey, JStr(ImageKey));
      if IsSlideshow(img) {
        var kept := ResolvedImages(resolve, Prop(img, ImagesKey).value.items);
        if |kept| == 0 {
          return None;
        }
        b := Put(b, ImagesKey, JArr(kept));
        if TruthyField(Prop(img, DisplayKey)) {
          b := Put(b, DisplayKey, Prop(img, DisplayKey).value);
        }
        b := Delete(b, ImageKey);
      } else {
        var imageData := HandleImage(resolve, LegacyImagePath(img));
        if imageData.None? {
          return None;
        }
        var alt := Or(Prop(img, AltKey), Or(Get(b, AltKey), JStr("")));
        b := Put(b, ImagesKey, JArr([ImageEntry(imageData.value, alt)]));
        b := Delete(b, ImageKey);
        b := Delete(b, AltKey);
      }
      return Some(b);
    } else if TruthyField(Get(b, ListBlockKey)) {
      var listData := Get(b, ListBlockKey).value;
      b := Put(b, TypeKey, JStr(ListBlockKey));
      b := Put(b, VariantKey, Or(Prop(listData, VariantKey), JStr("default")));
      b := Put(b, ColumnsKey, Or(Prop(listData, ColumnsKey), JNum(2)));
      b := Put(b, ItemsKey, JArr([]));
      var heading := Prop(listData, HeadingKey);
      if TruthyField(heading) {
        b := Put(b, HeadingKey, ListHeading(heading.value));
      }
      var items := Prop(listData, ItemsKey);
      if items.Some? && items.value.JArr? {
        var xs := items.value.items;
        b := Put(b, ItemsKey, JArr(ListItems(resolve, xs)));
      }
      b := Delete(b, ListBlockKey);
      return Some(b);
    } else if TruthyField(Get(b, TableBlockKey)) {
      var tableData := Get(b, TableBlockKey).value;
      b := Put(b, TypeKey, JStr(TableBlockKey));
      b := Put(b, ColumnAKey, Or(Prop(tableData, ColumnAKey), JStr("")));
      b := Put(b, ColumnBKey, Or(Prop(tableData, ColumnBKey), JStr("")));
      b := Put(b, RowsKey, JArr([]));
      var rows := Prop(tableData, RowsKey);
      if rows.Some? && rows.value.JArr? {
        var xs := rows.value.items;
        b := Put(b, RowsKey, JArr(TableRows(xs)));
      }
      b := Delete(b, TableBlockKey);
      return Some(b);
    } else if TruthyField(Get(b, CtaBlockKey)) {
      var ctaData := Get(b, CtaBlockKey).value;
      b := Put(b, TypeKey, JStr(CtaBlockKey));
      b := Put(b, TitleKey, Or(Prop(ctaData, TitleKey), JStr("")));
      b := Put(b, UrlKey, Or(Prop(ctaData, UrlKey), JStr("")));
      b := Put(b, StyleKey, Or(Prop(ctaData, StyleKey), JStr("primary")));
      b := Delete(b, CtaBlockKey);
      return Some(b);
    } else if TruthyField(Get(b, ButtonBlockKey)) {
      var buttonData := Get(b, ButtonBlockKey).value;
      b := Put(b, TypeKey, JStr(ButtonBlockKey));
      b := Put(b, ButtonsKey, JArr([]));
      var buttons := Prop(buttonData, ButtonsKey);
      if buttons.Some? && buttons.value.JArr? {
        var xs := buttons.value.items;
        b := Put(b, ButtonsKey, JArr(Buttons(xs)));
      }
      b := Delete(b, ButtonBlockKey);
      return Some(b);
    } else if TruthyField(Get(b, LinkBlockKey)) {
      var linkData := Get(b, LinkBlockKey).value;
      b := Put(b, TypeKey, JStr(LinkBlockKey));
      b := Put(b, TextKey, Or(Prop(linkData, TextKey), JStr("")));
      b := Put(b, UrlKey, Or(Prop(linkData, UrlKey), JStr("")));
      b := Delete(b, LinkBlockKey);
      return Some(b);
    }
    return Some(b);
  }

  // ---------------------------------------------------------------------------
  // Properties of the normaliser
  // ---------------------------------------------------------------------------

  /** A block with none of the wrapper keys comes back unchanged. */
  lemma NoWrapperUnchanged(resolve: Resolver, block: seq<Member>)
    requires forall w :: !TruthyField(Get(block, Key(w)))
    ensures Normalize(resolve, block) == Some(block)
  {
    FirstWrapperNone(block);
  }

  /** Only an image block can become `null`. */
  lemma OnlyImagesFail(resolve: Resolver, block: seq<Member>)
    ensures Normalize(resolve, block).None? ==> FirstWrapper(block) == Some(ImageWrapper)
  {
  }

  /**
   * A lifted block carries its first wrapper key as `_type`, no longer holds
   * that key, and holds every other wrapper key as it was.
   */
  lemma NormalizeTagsFirstWrapper(resolve: Resolver, block: seq<Member>, w: Wrapper)
    requires FirstWrapper(block) == Some(w) && Normalize(resolve, block).Some?
    ensures var r := Normalize(resolve, block).value;
            && Get(r, TypeKey) == Some(JStr(Key(w)))
            && Get(r, Key(w)) == None
            && forall w' :: w' != w ==> Get(r, Key(w')) == Get(block, Key(w'))
  {
    var r := Normalize(resolve, block).value;
    match w
    case ImageWrapper =>
      ImageShape(resolve, block);
      ImageKeepsWrappers(resolve, block);
    case ListWrapper =>
      ListShape(resolve, block);
      ListKeepsWrappers(resolve, block);
    case TableWrapper =>
      TableShape(block);
      TableKeepsWrappers(block);
    case CtaWrapper =>
      CtaShape(block);
      CtaKeepsWrappers(block);
    case ButtonWrapper =>
      ButtonShape(block);
      ButtonKeepsWrappers(block);
    case LinkWrapper =>
      LinkShape(block);
      LinkKeepsWrappers(block);
  }

  /**
   * A block with a single wrapper key is normalised once and for all: running
   * the normaliser on the result gives it back.
   */
  lemma SingleWrapperStable(resolve: Resolver, block: seq<Member>, w: Wrapper)
    requires FirstWrapper(block) == Some(w) && Normalize(resolve, block).Some?
    requires forall w' :: w' != w ==> !TruthyField(Get(block, Key(w')))
    ensures Normalize(resolve, Normalize(resolve, block).value) == Normalize(resolve, block)
  {
    var r := Normalize(resolve, block).value;
    NormalizeTagsFirstWrapper(resolve, block, w);
    NoWrapperUnchanged(resolve, r);
  }

  /**
   * Normalisation is not idempotent for a block carrying two wrapper keys:
   * the second key survives the first pass, so a second pass lifts the block
   * again (re-tagging it, or dropping it for a failed image).
   */
  lemma TwoWrappersRetagged(resolve: Resolver, block: seq<Member>, w: Wrapper, w2: Wrapper)
    requires FirstWrapper(block) == Some(w) && Normalize(resolve, block).Some?
    requires w2 != w && TruthyField(Get(block, Key(w2)))
    ensures FirstWrapper(Normalize(resolve, block).value).Some?
    ensures FirstWrapper(Normalize(resolve, block).value) != Some(w)
    ensures Normalize(resolve, Normalize(resolve, block).value) != Normalize(resolve, block)
  {
    var r := Normalize(resolve, block).value;
    NormalizeTagsFirstWrapper(resolve, block, w);
    FirstWrapperNone(r);
    var w3 := FirstWrapper(r).value;
    FirstWrapperTruthy(r, w3);
    if Normalize(resolve, r).Some? {
      NormalizeTagsFirstWrapper(resolve, r, w3);
      KeyInjective(w, w3);
    }
  }

  // ---------------------------------------------------------------------------
  // Rows: nested content rows and the null filter
  // ---------------------------------------------------------------------------

  /** `processContentBlock` on any value: a non-object is passed through. */
  function ProcessValue(resolve: Resolver, v: Json): (r: Option<Json>)
    ensures r.None? ==> v.JObj? && Normalize(resolve, v.members).None?
  {
    if v.JObj? then
      match Normalize(resolve, v.members)
      case Some(ms) => Some(JObj(ms))
      case None => None
    else Some(v)
  }

  /** The `null`s dropped: `.filter((b) => b !== null)` after the map. */
  function Present(xs: seq<Option<Json>>): (r: seq<Json>)
    ensures |r| <= |xs|
    ensures forall x :: x in r <==> Some(x) in xs
  {
    if xs == [] then []
    else (if xs[0].Some? then [xs[0].value] else []) + Present(xs[1..])
  }

  /** A row's text field: Markdown converted when it is a non-empty string, else copied when truthy. */
  function RowText(b: seq<Member>, rowData: Json, k: string): (r: seq<Member>)
    ensures Get(r, k) == if TruthyField(Prop(rowData, k)) then Some(RowTextValue(Prop(rowData, k).value)) else Get(b, k)
    ensures forall k' :: k' != k ==> Get(r, k') == Get(b, k')
  {
    var f := Prop(rowData, k);
    if TruthyField(f) && f.value.JStr? then Put(b, k, MarkdownField(f.value.s))
    else if TruthyField(f) then Put(b, k, f.value)
    else b
  }

  /** What a truthy row text field is stored as. */
  function RowTextValue(v: Json): Json {
    if v.JStr? then MarkdownField(v.s) else v
  }

  /** The nested blocks of a content row, each normalised, the failed ones dropped. */
  function NestedBlocks(resolve: Resolver, xs: seq<Json>): seq<Json> {
    Present(seq(|xs|, i requires 0 <= i < |xs| => ProcessValue(resolve, xs[i])))
  }

  /** A `{ contentRow: ... }` block lifted into a block of `_type: 'contentRow'`. */
  function ContentRow(resolve: Resolver, block: seq<Member>): seq<Member>
    requires TruthyField(Get(block, ContentRowKey))
  {
    var rowData := Get(block, ContentRowKey).value;
    var typed := Put(block, TypeKey, JStr(ContentRowKey));
    var texts := RowText(RowText(typed, rowData, HeadingKey), rowData, BodyKey);
    var blocks := Prop(rowData, BlocksKey);
    var withBlocks := if blocks.Some? && blocks.value.JArr? then Put(texts, BlocksKey, JArr(NestedBlocks(resolve, blocks.value.items))) else texts;
    Delete(withBlocks, ContentRowKey)
  }

  /**
   * A lifted content row is tagged `contentRow`, has lost its wrapper, and
   * its `blocks` are the wrapped row's blocks normalised with failures dropped.
   */
  lemma ContentRowShape(resolve: Resolver, block: seq<Member>)
    requires TruthyField(Get(block, ContentRowKey))
    ensures var r, rowData := ContentRow(resolve, block), Get(block, ContentRowKey).value;
            && Get(r, TypeKey) == Some(JStr(ContentRowKey)) && Get(r, ContentRowKey) == None
            && (Prop(rowData, BlocksKey).Some? && Prop(rowData, BlocksKey).value.JArr? ==>
                  Get(r, BlocksKey) == Some(JArr(NestedBlocks(resolve, Prop(rowData, BlocksKey).value.items))))
  {
    var rowData := Get(block, ContentRowKey).value;
    var typed := Put(block, TypeKey, JStr(ContentRowKey));
    var heading := RowText(typed, rowData, HeadingKey);
    assert Get(heading, TypeKey) == Some(JStr(ContentRowKey));
    var texts := RowText(heading, rowData, BodyKey);
    assert Get(texts, TypeKey) == Some(JStr(ContentRowKey));
  }

  /** A content row's heading and body come from the wrapped row when truthy there. */
  lemma ContentRowText(resolve: Resolver, block: seq<Member>)
    requires TruthyField(Get(block, ContentRowKey))
    ensures var r, rowData := ContentRow(resolve, block), Get(block, ContentRowKey).value;
            && Get(r, HeadingKey) == (if TruthyField(Prop(rowData, HeadingKey)) then Some(RowTextValue(Prop(rowData, HeadingKey).value)) else Get(block, HeadingKey))
            && Get(r, BodyKey) == (if TruthyField(Prop(rowData, BodyKey)) then Some(RowTextValue(Prop(rowData, BodyKey).value)) else Get(block, BodyKey))
  {
    var rowData := Get(block, ContentRowKey).value;
    var typed := Put(block, TypeKey, JStr(ContentRowKey));
    var heading := RowText(typed, rowData, HeadingKey);
    assert Get(heading, BodyKey) == Get(block, BodyKey);
    var texts := RowText(heading, rowData, BodyKey);
    assert Get(texts, HeadingKey) == Get(heading, HeadingKey);
    var blocks := Prop(rowData, BlocksKey);
    var withBlocks := if blocks.Some? && blocks.value.JArr? then Put(texts, BlocksKey, JArr(NestedBlocks(resolve, blocks.value.items))) else texts;
    assert Get(withBlocks, HeadingKey) == Get(texts, HeadingKey) && Get(withBlocks, BodyKey) == Get(texts, BodyKey);
  }

  /** One entry of a row's `contentBlocks`: a content row, or a block for the normaliser. */
  function ContentEntry(resolve: Resolver, v: Json): Option<Json> {
    if v.JObj? && TruthyField(Get(v.members, ContentRowKey)) then Some(JObj(ContentRow(resolve, v.members)))
    else ProcessValue(resolve, v)
  }

  /** A row's `contentBlocks` after import. */
  function ContentBlocks(resolve: Resolver, xs: seq<Json>): seq<Json> {
    Present(seq(|xs|, i requires 0 <= i < |xs| => ContentEntry(resolve, xs[i])))
  }

  /**
   * No `null` is stored: the imported `contentBlocks` (and a content row's
   * `blocks`) hold exactly the processed entries that are not `null`, and
   * an entry is `null` only for an image block none of whose images resolved.
   */
  lemma ContentBlocksNoNull(resolve: Resolver, xs: seq<Json>)
    ensures |ContentBlocks(resolve, xs)| <= |xs|
    ensures forall y :: y in ContentBlocks(resolve, xs) <==> exists i :: 0 <= i < |xs| && ContentEntry(resolve, xs[i]) == Some(y)
    ensures forall i :: 0 <= i < |xs| && ContentEntry(resolve, xs[i]).None? ==>
      xs[i].JObj? && FirstWrapper(xs[i].members) == Some(ImageWrapper)
  {
    var ps := seq(|xs|, i requires 0 <= i < |xs| => ContentEntry(resolve, xs[i]));
    forall y ensures y in ContentBlocks(resolve, xs) <==> exists i :: 0 <= i < |xs| && ContentEntry(resolve, xs[i]) == Some(y) {
      if y in ContentBlocks(resolve, xs) {
        var i :| 0 <= i < |ps| && ps[i] == Some(y);
      }
      if exists i :: 0 <= i < |xs| && ContentEntry(resolve, xs[i]) == Some(y) {
        var i :| 0 <= i < |xs| && ContentEntry(resolve, xs[i]) == Some(y);
        assert ps[i] == Some(y);
      }
    }
    forall i | 0 <= i < |xs| && ContentEntry(resolve, xs[i]).None?
      ensures xs[i].JObj? && FirstWrapper(xs[i].members) == Some(ImageWrapper)
    {
      OnlyImagesFail(resolve, xs[i].members);
    }
  }

  // ---------------------------------------------------------------------------
  // Rows and `sectionMain` sections
  // ---------------------------------------------------------------------------

  /** A row of a `sectionMain` section after import: text fields converted, `contentBlocks` processed when an array. */
  function ImportRow(resolve: Resolver, row: Json): (r: Json)
    ensures r.JObj? <==> row.JObj?
    ensures !row.JObj? ==> r == row
  {
    if row.JObj? then
      var texts := ConvertTextField(ConvertTextField(ConvertTextField(row.members, HeadingKey), SubheadingKey), BodyKey);
      var blocks := Get(texts, ContentBlocksKey);
      if blocks.Some? && blocks.value.JArr? then JObj(Put(texts, ContentBlocksKey, JArr(ContentBlocks(resolve, blocks.value.items))))
      else JObj(texts)
    else row
  }

  /**
   * An imported row's `contentBlocks` are its authored entries processed
   * with the failures dropped; members other than the three text fields
   * and `contentBlocks` are untouched.
   */
  lemma ImportRowShape(resolve: Resolver, ms: seq<Member>, k: string)
    requires k !in {HeadingKey, SubheadingKey, BodyKey, ContentBlocksKey}
    ensures var r, blocks := ImportRow(resolve, JObj(ms)).members, Get(ms, ContentBlocksKey);
            && Get(r, ContentBlocksKey) == (if blocks.Some? && blocks.value.JArr? then Some(JArr(ContentBlocks(resolve, blocks.value.items))) else blocks)
            && Get(r, k) == Get(ms, k)
  {
    var texts := ConvertTextField(ConvertTextField(ConvertTextField(ms, HeadingKey), SubheadingKey), BodyKey);
    assert Get(texts, ContentBlocksKey) == Get(ms, ContentBlocksKey) && Get(texts, k) == Get(ms, k);
  }

  /** Every row imported. */
  function ImportRows(resolve: Resolver, rows: seq<Json>): (r: seq<Json>)
    ensures |r| == |rows|
  {
    seq(|rows|, i requires 0 <= i < |rows| => ImportRow(resolve, rows[i]))
  }

  /**
   * A `sectionMain` section after import: a truthy background image is
   * replaced by its resolved image or removed when it does not resolve, and
   * its rows are imported. Sections of any other type are left alone here.
   */
  function ImportSectionMain(resolve: Resolver, section: seq<Member>): seq<Member> {
    if Get(section, TypeKey) == Some(JStr(SectionMainType)) then
      var bg := Get(section, BackgroundImageKey);
      var withBg :=
        if TruthyField(bg) then
          match HandleImage(resolve, bg)
          case Some(data) => Put(section, BackgroundImageKey, data)
          case None => Delete(section, BackgroundImageKey)
        else section;
      var rows := Get(withBg, RowsKey);
      if rows.Some? && rows.value.JArr? then Put(withBg, RowsKey, JArr(ImportRows(resolve, rows.value.items)))
      else withBg
    else section
  }

  /**
   * The background image of an imported `sectionMain` section is either
   * resolved or gone, and its rows are the authored rows imported one by one.
   */
  lemma ImportSectionMainShape(resolve: Resolver, section: seq<Member>)
    requires Get(section, TypeKey) == Some(JStr(SectionMainType))
    ensures var r, bg, rows := ImportSectionMain(resolve, section), Get(section, BackgroundImageKey), Get(section, RowsKey);
            && Get(r, BackgroundImageKey) == (if TruthyField(bg) then HandleImage(resolve, bg) else bg)
            && Get(r, RowsKey) == (if rows.Some? && rows.value.JArr? then Some(JArr(ImportRows(resolve, rows.value.items))) else rows)
            && Get(r, TypeKey) == Some(JStr(SectionMainType))
  {
  }

  /**
   * The background image of every section is resolved before the
   * `sectionMain` import (a failed resolution stores `null`), so the import's
   * second resolution keeps it as it is and never deletes it.
   */
  lemma ImportSectionMainKeepsResolvedBackground(resolve: Resolver, section: seq<Member>)
    requires Get(section, TypeKey) == Some(JStr(SectionMainType))
    ensures var bg := Get(section, BackgroundImageKey);
            var resolved := if TruthyField(bg) then Put(section, BackgroundImageKey, HandleImage(resolve, bg).GetOr(JNull)) else section;
            Get(ImportSectionMain(resolve, resolved), BackgroundImageKey) == Get(resolved, BackgroundImageKey)
  {
    var bg := Get(section, BackgroundImageKey);
    var resolved := if TruthyField(bg) then Put(section, BackgroundImageKey, HandleImage(resolve, bg).GetOr(JNull)) else section;
    assert Get(resolved, TypeKey) == Some(JStr(SectionMainType));
    ImportSectionMainShape(resolve, resolved);
  }

  /** Any other section passes through unchanged. */
  lemma ImportOtherSectionUnchanged(resolve: Resolver, section: seq<Member>)
    requires Get(section, TypeKey) != Some(JStr(SectionMainType))
    ensures ImportSectionMain(resolve, section) == section
  {
  }
}
