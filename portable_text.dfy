/**
 * The shared rich-text renderers (lib/portableTextComponents.tsx): a base
 * component set holding the four marks `highlight`, `strong`, `em` and
 * `link`, the rule that merges a caller's components over it, and the link
 * mark's choice of target.
 *
 * A component set is a map from names to entries; an entry is a renderer or
 * a nested table of renderers (as `marks` is). Renderers are named, not
 * executed.
 */
module PortableText {
  import opened Wrappers
  import opened Strings

  datatype Renderer = HighlightSpan | StrongTag | EmTag | LinkAnchor | CustomRenderer(name: string)

  datatype Entry = Single(renderer: Renderer) | Table(renderers: map<string, Renderer>)

  type Components = map<string, Entry>

  const MarksKey: string := "marks"
  const HighlightKey: string := "highlight"
  const StrongKey: string := "strong"
  const EmKey: string := "em"
  const LinkKey: string := "link"

  const BaseMarks: map<string, Renderer> :=
    map[HighlightKey := HighlightSpan, StrongKey := StrongTag, EmKey := EmTag, LinkKey := LinkAnchor]

  /** `portableTextComponents`: only the four marks. */
  const Base: Components := map[MarksKey := Table(BaseMarks)]

  /** The renderers that spreading an entry contributes: a table's, none for anything else. */
  function MarksOf(c: Components): map<string, Renderer> {
    if MarksKey in c && c[MarksKey].Table? then c[MarksKey].renderers else map[]
  }

  /**
   * `mergePortableTextComponents`: the caller's entries over the base ones,
   * then `marks` replaced by the base marks overlaid with the caller's.
   */
  function Merge(custom: Components): (r: Components)
    ensures MarksKey in r && r[MarksKey].Table?
  {
    (Base + custom)[MarksKey := Table(BaseMarks + MarksOf(custom))]
  }

  /** Every entry other than `marks` is the caller's when given, and absent otherwise. */
  lemma TopLevelOverride(custom: Components, k: string)
    requires k != MarksKey
    ensures k in Merge(custom) <==> k in custom
    ensures k in custom ==> Merge(custom)[k] == custom[k]
  {
  }

  /** The merged marks: each caller mark wins, every other base mark stays. */
  lemma MarksOverlay(custom: Components, k: string)
    ensures var marks := Merge(custom)[MarksKey].renderers;
      (k in marks <==> k in BaseMarks || k in MarksOf(custom))
      && (k in MarksOf(custom) ==> marks[k] == MarksOf(custom)[k])
      && (k !in MarksOf(custom) && k in BaseMarks ==> marks[k] == BaseMarks[k])
  {
  }

  /** The four base marks are always there, whatever the caller passes. */
  lemma BaseMarksAlwaysPresent(custom: Components)
    ensures var marks := Merge(custom)[MarksKey].renderers;
      HighlightKey in marks && StrongKey in marks && EmKey in marks && LinkKey in marks
  {
  }

  /** Without caller marks the merged marks are exactly the base marks. */
  lemma NoCustomMarks(custom: Components)
    requires MarksKey !in custom || !custom[MarksKey].Table?
    ensures Merge(custom)[MarksKey] == Table(BaseMarks)
  {
    assert MarksOf(custom) == map[];
    assert BaseMarks + map[] == BaseMarks;
  }

  /** Merging nothing gives back the base set. */
  lemma MergeEmpty()
    ensures Merge(map[]) == Base
  {
    assert Base + map[] == Base;
    assert BaseMarks + map[] == BaseMarks;
  }

  /** Merging a merged set again changes nothing. */
  lemma MergeIdempotent(custom: Components)
    ensures Merge(Merge(custom)) == Merge(custom)
  {
    var m := Merge(custom);
    assert MarksOf(m) == BaseMarks + MarksOf(custom);
    assert BaseMarks + (BaseMarks + MarksOf(custom)) == BaseMarks + MarksOf(custom);
    assert Base + m == m;
  }

  // ---------------------------------------------------------------------------
  // The link mark
  // ---------------------------------------------------------------------------

  /** The rendered anchor: its `href`, and `target`/`rel` when they are set. */
  datatype Anchor = Anchor(href: string, target: Option<string>, rel: Option<string>)

  /** `value?.href || '#'`. */
  function LinkHref(href: Option<string>): (r: string)
    ensures r != ""
    ensures href.Some? && href.value != "" ==> r == href.value
  {
    if href.Some? && href.value != "" then href.value else "#"
  }

  /** `href.startsWith('http')`. */
  predicate IsExternal(href: string) {
    StartsWith(href, "http")
  }

  /** The link mark's anchor: external links open in a new tab without an opener. */
  function LinkMark(href: Option<string>): (a: Anchor)
    ensures a.href == LinkHref(href)
  {
    var h := LinkHref(href);
    var external := IsExternal(h);
    Anchor(h, if external then Some("_blank") else None, if external then Some("noopener noreferrer") else None)
  }

  /** `target` and `rel` are set together, exactly for external links, with their fixed values. */
  lemma ExternalIff(href: Option<string>)
    ensures var a := LinkMark(href);
      (a.target.Some? <==> IsExternal(a.href)) && (a.rel.Some? <==> IsExternal(a.href))
      && (a.target.Some? ==> a.target.value == "_blank" && a.rel.value == "noopener noreferrer")
  {
  }

  /** A link without a usable href points at `#` and stays in the same tab. */
  lemma MissingHrefIsLocal(href: Option<string>)
    requires href.None? || href == Some("")
    ensures LinkMark(href) == Anchor("#", None, None)
  {
    assert !StartsWith("#", "http");
  }

  /** The test is on the prefix only: a relative path starting with "http" counts as external, an upper-case scheme does not. */
  lemma PrefixOnly()
    ensures LinkMark(Some("https://example.com")).target == Some("_blank")
    ensures LinkMark(Some("httpdocs/guide")).target == Some("_blank")
    ensures LinkMark(Some("HTTP://EXAMPLE.COM")).target.None?
    ensures LinkMark(Some("/contact")).target.None?
  {
    var p := "http";
    assert "https://example.com"[..4] == p;
    assert "httpdocs/guide"[..4] == p;
    assert "HTTP://EXAMPLE.COM"[0] != p[0];
    assert "/contact"[0] != p[0];
  }
}
