/**
 * The list component (components/ui/List.tsx): per item it decides which
 * icon to show (an uploaded icon, a theme's stock icon or one of the three
 * snapshot icons), which layout to use, whether the heading is a figure to
 * count up, which way the item slides in, and whether the whole item is a
 * link.
 *
 * The image URL builder and `toPlainText` are outside the model: an item
 * carries the URL built for its icon and the plain text of its heading.
 */
module ListRules {
  import opened Wrappers
  import opened Strings

  /** The stock icon of each theme that has one (`defaultIcons`). */
  const DefaultIcons: map<string, string> := map[
    "checks" := "/images/icon-list-check.png",
    "negatives" := "/images/icon-list-negative.png",
    "positives" := "/images/icon-list-check.png",
    "good" := "/images/icon-list-good.png",
    "bad" := "/images/icon-list-bad.png"
  ]

  /** The icons of the `snapshot` theme, by item position. */
  const SnapshotIcons: seq<string> := ["/images/icon-challenge.svg", "/images/icon-solution.svg", "/images/icon-impact.svg"]

  const UploadThemes: set<string> := {"default", "image-only", "cards", "cards-blue", "cards-white", "cards-service"}

  /**
   * What the list needs of an item. `heading` is the plain text of the
   * heading when the item has one; `iconUrl` is the URL built for the icon
   * when the item has one.
   */
  datatype Item = Item(heading: Option<string>, hasSubheading: bool, hasBody: bool, iconUrl: Option<string>, url: Option<string>, labelText: Option<string>)

  /** The list's theme, `'default'` when none is given. */
  function ListTheme(theme: Option<string>): string {
    theme.GetOr("default")
  }

  /** `cols-${columns}`, two columns when none are given. */
  function ColumnClass(columns: Option<nat>): (r: string)
    ensures columns.None? ==> r == "cols-2"
    ensures exists d :: r == "cols-" + d && AllDigits(d) && d == NatToString(columns.GetOr(2))
  {
    assert NatToString(2) == "2";
    "cols-" + NatToString(columns.GetOr(2))
  }

  /** Different column counts give different classes. */
  lemma ColumnClassInjective(a: Option<nat>, b: Option<nat>)
    ensures ColumnClass(a) == ColumnClass(b) ==> a.GetOr(2) == b.GetOr(2)
  {
    var p := "cols-";
    if ColumnClass(a) == ColumnClass(b) {
      assert ColumnClass(a)[|p|..] == NatToString(a.GetOr(2));
      assert ColumnClass(b)[|p|..] == NatToString(b.GetOr(2));
      NatToStringInjective(a.GetOr(2), b.GetOr(2));
    }
  }

  /** `themeAllowsUploaded`. */
  predicate ThemeAllowsUploaded(theme: string) {
    theme == "default" || theme == "image-only" || theme == "cards"
    || theme == "cards-blue" || theme == "cards-white" || theme == "cards-service"
  }

  /** `shouldShowImage`: snapshot always, flags and counter never, upload themes when the item has an icon, others when the theme has a stock icon. */
  predicate ShouldShowImage(theme: string, hasIcon: bool) {
    if theme == "snapshot" then true
    else if theme == "flags" then false
    else if theme == "counter" then false
    else if ThemeAllowsUploaded(theme) then hasIcon
    else theme in DefaultIcons
  }

  /** `getImageUrl`: the snapshot icon of the position, the uploaded icon, or the theme's stock icon. */
  function ImageUrl(theme: string, iconUrl: Option<string>, index: nat): (r: Option<string>)
    ensures theme == "snapshot" ==> (r.Some? <==> index < 3)
  {
    if theme == "snapshot" then (if index < |SnapshotIcons| then Some(SnapshotIcons[index]) else None)
    else if ThemeAllowsUploaded(theme) && iconUrl.Some? && iconUrl.value != "" then Some(iconUrl.value)
    else if theme in DefaultIcons then Some(DefaultIcons[theme])
    else None
  }

  /** A truthy image source. */
  predicate Truthy(src: Option<string>) {
    src.Some? && src.value != ""
  }

  /** The theme sets that allow uploads are exactly the six named ones. */
  lemma UploadThemesExactly(theme: string)
    ensures ThemeAllowsUploaded(theme) <==> theme in UploadThemes
  {
  }

  /**
   * Outside the snapshot theme the image is wanted exactly when there is a
   * source for it (an uploaded icon counts when its URL is not empty); in
   * the snapshot theme only the first three items have one.
   */
  lemma ShowIffSource(theme: string, iconUrl: Option<string>, index: nat)
    ensures theme != "snapshot" ==> (ShouldShowImage(theme, Truthy(iconUrl)) <==> Truthy(ImageUrl(theme, iconUrl, index)))
    ensures theme == "snapshot" ==> ShouldShowImage(theme, Truthy(iconUrl)) && (Truthy(ImageUrl(theme, iconUrl, index)) <==> index < 3)
  {
    if theme !in DefaultIcons {
      assert !("flags" in DefaultIcons) && !("counter" in DefaultIcons);
    }
  }

  /** Stock icons are never shown in upload themes, and uploads never in stock-icon themes. */
  lemma IconSourcesDisjoint(theme: string, iconUrl: Option<string>, index: nat)
    ensures ThemeAllowsUploaded(theme) ==> ImageUrl(theme, iconUrl, index) == (if Truthy(iconUrl) then iconUrl else None)
    ensures theme in DefaultIcons ==> ImageUrl(theme, iconUrl, index) == Some(DefaultIcons[theme])
  {
  }

  // ---------------------------------------------------------------------------
  // Headings that are figures
  // ---------------------------------------------------------------------------

  predicate IsSeparator(c: char) {
    c == ',' || c == '.'
  }

  /** The regular expression `^\d+([,.]\d+)*$`: runs of digits joined by single commas or points. */
  predicate NumberPattern(s: string)
    decreases |s|
  {
    var w := LeadingDigits(s);
    w != [] && (|w| == |s| || (IsSeparator(s[|w|]) && NumberPattern(s[|w| + 1..])))
  }

  /** The same language described character by character. */
  predicate NumberShape(s: string) {
    |s| >= 1 && IsDigit(s[0]) && IsDigit(s[|s| - 1])
    && (forall i :: 0 <= i < |s| ==> IsDigit(s[i]) || IsSeparator(s[i]))
    && (forall i :: 0 <= i < |s| - 1 && IsSeparator(s[i]) ==> IsDigit(s[i + 1]))
  }

  lemma {:induction false} PatternHasShape(s: string)
    requires NumberPattern(s)
    ensures NumberShape(s)
    decreases |s|
  {
    var w := LeadingDigits(s);
    if |w| == |s| {
      assert s == w;
    } else {
      var t := s[|w| + 1..];
      PatternHasShape(t);
      assert forall i :: 0 <= i < |w| ==> s[i] == w[i];
      assert forall i :: |w| < i < |s| ==> s[i] == t[i - |w| - 1];
      assert s[|s| - 1] == t[|t| - 1];
    }
  }

  lemma {:induction false} ShapeMatchesPattern(s: string)
    requires NumberShape(s)
    ensures NumberPattern(s)
    decreases |s|
  {
    var w := LeadingDigits(s);
    assert w != [] by {
      assert s[..1] == [s[0]];
    }
    if |w| < |s| {
      assert IsSeparator(s[|w|]);
      assert |w| < |s| - 1;
      var t := s[|w| + 1..];
      assert forall i :: 0 <= i < |t| ==> t[i] == s[i + |w| + 1];
      ShapeMatchesPattern(t);
    }
  }

  /** The pattern accepts exactly the texts that start and end with a digit, contain only digits and separators, and never two separators in a row. */
  lemma NumberPatternIff(s: string)
    ensures NumberPattern(s) <==> NumberShape(s)
  {
    if NumberPattern(s) {
      PatternHasShape(s);
    }
    if NumberShape(s) {
      ShapeMatchesPattern(s);
    }
  }

  /** `isHeadingNumber`: a cards-data heading whose trimmed text is a figure. */
  predicate IsHeadingNumber(theme: string, headingText: string) {
    theme == "cards-data" && NumberPattern(Trim(headingText))
  }

  /** Only plain figures count: a heading with a unit or sign is shown as text. */
  lemma FigureExamples()
    ensures IsHeadingNumber("cards-data", "1,250")
    ensures !IsHeadingNumber("cards-data", "98%")
    ensures !IsHeadingNumber("cards", "1,250")
  {
    var figure, percent := "1,250", "98%";
    TrimKeeps(figure);
    TrimKeeps(percent);
    assert NumberShape(figure) by {
      assert figure[1] == ',' && figure[2] == '2';
    }
    ShapeMatchesPattern(figure);
    assert !NumberShape(percent) by {
      assert percent[2] == '%';
    }
    PatternHasShapeContra(percent);
  }

  lemma PatternHasShapeContra(s: string)
    requires !NumberShape(s)
    ensures !NumberPattern(s)
  {
    if NumberPattern(s) {
      PatternHasShape(s);
    }
  }

  lemma TrimKeeps(s: string)
    requires s != [] && !IsSpace(s[0]) && !IsSpace(s[|s| - 1])
    ensures Trim(s) == s
  {
  }

  // ---------------------------------------------------------------------------
  // One item
  // ---------------------------------------------------------------------------

  /** The three layouts of an item. */
  datatype Layout = CardsDataLayout | CardsServiceIconLayout | DefaultLayout

  datatype Image = Image(src: string, alt: string)

  datatype Link = Link(href: string, ariaLabel: string)

  /** What one item renders. */
  datatype ItemView = ItemView(
    animation: string,
    layout: Layout,
    flagBar: bool,
    image: Option<Image>,
    counter: Option<string>,
    textContent: bool,
    link: Option<Link>,
    sectionThemeAttr: Option<string>)

  /** Even positions slide in from the left, odd ones from the right. */
  function Animation(i: nat): (r: string)
    ensures r == "fadeLeft" || r == "fadeRight"
  {
    if i % 2 == 0 then "fadeLeft" else "fadeRight"
  }

  /** The alt text of an icon; without a heading the template shows the word "undefined". */
  function AltText(heading: Option<string>): string {
    match heading
    case Some(text) => "Icon - " + text
    case None => "Icon undefined"
  }

  /** The aria label of an item link: the heading's text, or "Learn more" without a heading. */
  function AriaLabel(heading: Option<string>): string {
    heading.GetOr("Learn more")
  }

  /** Renders item `i` of a list with the given theme and section theme. */
  function RenderItem(theme: string, sectionTheme: string, item: Item, i: nat): (v: ItemView)
    ensures v.animation == Animation(i)
    ensures v.flagBar <==> theme == "flags"
  {
    var src := ImageUrl(theme, item.iconUrl, i);
    var show := ShouldShowImage(theme, Truthy(item.iconUrl));
    var layout :=
      if theme == "cards-data" then CardsDataLayout
      else if theme == "cards-service" && show && Truthy(src) then CardsServiceIconLayout
      else DefaultLayout;
    var image :=
      match layout
      case CardsDataLayout => None
      case CardsServiceIconLayout => Some(Image(src.value, AltText(item.heading)))
      case DefaultLayout => if show && Truthy(src) then Some(Image(src.value, AltText(item.heading))) else None;
    var counter :=
      match layout
      case CardsDataLayout =>
        if item.heading.Some? && IsHeadingNumber(theme, item.heading.value) then Some(Trim(item.heading.value)) else None
      case CardsServiceIconLayout => None
      case DefaultLayout =>
        if theme != "image-only" && theme == "counter" && item.heading.Some? then Some(item.heading.value) else None;
    var link := if Truthy(item.url) then Some(Link(item.url.value, AriaLabel(item.heading))) else None;
    ItemView(
      Animation(i), layout, theme == "flags", image, counter,
      layout != DefaultLayout || theme != "image-only",
      link,
      if theme == "cards-data" then Some(sectionTheme) else None)
  }

  /** Neighbouring items slide in from opposite sides, and the pattern repeats every two items. */
  lemma AnimationAlternates(i: nat)
    ensures Animation(i) != Animation(i + 1)
    ensures Animation(i + 2) == Animation(i)
    ensures Animation(0) == "fadeLeft"
  {
  }

  /** An icon is rendered exactly when the theme is not cards-data, the image is wanted and it has a source; it is that source. */
  lemma ImageRenderedIff(theme: string, sectionTheme: string, item: Item, i: nat)
    ensures var v := RenderItem(theme, sectionTheme, item, i);
      var src := ImageUrl(theme, item.iconUrl, i);
      (v.image.Some? <==> theme != "cards-data" && ShouldShowImage(theme, Truthy(item.iconUrl)) && Truthy(src))
      && (v.image.Some? ==> v.image.value.src == src.value && v.image.value.alt == AltText(item.heading))
  {
  }

  /** The inline icon-and-heading layout is used exactly for cards-service items that show an icon. */
  lemma CardsServiceLayoutIff(theme: string, sectionTheme: string, item: Item, i: nat)
    ensures RenderItem(theme, sectionTheme, item, i).layout == CardsServiceIconLayout
      <==> theme == "cards-service" && RenderItem(theme, sectionTheme, item, i).image.Some?
  {
  }

  /**
   * A heading counts up in two cases only: a cards-data heading whose
   * trimmed text is a figure (counted from the trimmed text), and any
   * heading in the counter theme (counted from its text as it is).
   */
  lemma CounterIff(theme: string, sectionTheme: string, item: Item, i: nat)
    ensures var v := RenderItem(theme, sectionTheme, item, i);
      v.counter.Some? <==> item.heading.Some? && (IsHeadingNumber(theme, item.heading.value) || theme == "counter")
    ensures var v := RenderItem(theme, sectionTheme, item, i);
      v.counter.Some? ==> v.counter.value == if theme == "counter" then item.heading.value else Trim(item.heading.value)
  {
  }

  /** The image-only theme renders no text; every other theme does. */
  lemma ImageOnlyHasNoText(theme: string, sectionTheme: string, item: Item, i: nat)
    ensures !RenderItem(theme, sectionTheme, item, i).textContent <==> theme == "image-only"
  {
  }

  /** An item with a non-empty URL is wrapped in a link to it, labelled by its heading or "Learn more". */
  lemma LinkWrapping(theme: string, sectionTheme: string, item: Item, i: nat)
    ensures var v := RenderItem(theme, sectionTheme, item, i);
      (v.link.Some? <==> item.url.Some? && item.url.value != "")
      && (v.link.Some? ==>
            v.link.value.href == item.url.value
            && v.link.value.ariaLabel == (if item.heading.Some? then item.heading.value else "Learn more"))
  {
  }

  /** Only cards-data lists pass the section theme on to their items. */
  lemma SectionThemeOnlyForCardsData(theme: string, sectionTheme: string, item: Item, i: nat)
    ensures RenderItem(theme, sectionTheme, item, i).sectionThemeAttr.Some? <==> theme == "cards-data"
  {
  }

  /** An icon shown for an item without a heading carries the alt text "Icon undefined". */
  lemma AltWithoutHeading(theme: string, sectionTheme: string, item: Item, i: nat)
    requires item.heading.None?
    ensures var v := RenderItem(theme, sectionTheme, item, i);
      v.image.Some? ==> v.image.value.alt == "Icon undefined"
  {
  }

  /** Renders every item of a list. */
  function RenderItems(theme: Option<string>, sectionTheme: Option<string>, items: seq<Item>): (vs: seq<ItemView>)
    ensures |vs| == |items|
    ensures forall i :: 0 <= i < |items| ==> vs[i] == RenderItem(ListTheme(theme), sectionTheme.GetOr("light"), items[i], i)
  {
    seq(|items|, i requires 0 <= i < |items| => RenderItem(ListTheme(theme), sectionTheme.GetOr("light"), items[i], i))
  }
}
