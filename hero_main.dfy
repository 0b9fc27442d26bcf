/**
 * The main hero carousel (components/sections/SectionHeroMain.tsx): an
 * interval advances the current slide every six seconds, wrapping around,
 * until the component is torn down; the current slide's theme decides the
 * background, the blend mode of the background media and the text colour.
 *
 * The timer is modelled by explicit `Tick` and `Cancel` calls on a
 * `Rotation`; the six-second period and the animations are not modelled.
 */
module HeroMain {
  import opened Wrappers

  // ---------------------------------------------------------------------------
  // Auto-rotation
  // ---------------------------------------------------------------------------

  /** The slide shown after `k` ticks from slide `c` of `count`. */
  function Advance(c: nat, k: nat, count: nat): (r: nat)
    requires count > 0 && c < count
    ensures r < count
  {
    if k == 0 then c else (Advance(c, k - 1, count) + 1) % count
  }

  /** One tick moves to the next slide, and from the last slide back to the first. */
  lemma TickWraps(c: nat, count: nat)
    requires c < count
    ensures (c + 1) % count == if c + 1 < count then c + 1 else 0
  {
  }

  /** Ticks that do not reach the end simply count forward. */
  lemma {:induction false} AdvanceForward(c: nat, k: nat, count: nat)
    requires c + k < count
    ensures Advance(c, k, count) == c + k
  {
    if k > 0 {
      AdvanceForward(c, k - 1, count);
      TickWraps(c + k - 1, count);
    }
  }

  /** Ticking `j` and then `k` times is ticking `j + k` times. */
  lemma {:induction false} AdvanceCompose(c: nat, j: nat, k: nat, count: nat)
    requires count > 0 && c < count
    ensures Advance(Advance(c, j, count), k, count) == Advance(c, j + k, count)
  {
    if k > 0 {
      AdvanceCompose(c, j, k - 1, count);
      var a, x := Advance(c, j, count), Advance(c, j + k - 1, count);
      assert Advance(a, k, count) == (Advance(a, k - 1, count) + 1) % count;
      assert Advance(c, j + k, count) == (x + 1) % count;
    }
  }

  /** After as many ticks as there are slides the carousel is back where it started. */
  lemma FullCycleReturns(c: nat, count: nat)
    requires count > 0 && c < count
    ensures Advance(c, count, count) == c
  {
    var toLast := count - 1 - c;
    AdvanceForward(c, toLast, count);
    TickWraps(count - 1, count);
    assert Advance(c, toLast + 1, count) == 0;
    AdvanceForward(0, c, count);
    AdvanceCompose(c, toLast + 1, c, count);
  }

  /** The rotation is periodic: `count` more ticks show the same slide. */
  lemma Periodic(c: nat, k: nat, count: nat)
    requires count > 0 && c < count
    ensures Advance(c, k + count, count) == Advance(c, k, count)
  {
    AdvanceCompose(c, k, count, count);
    FullCycleReturns(Advance(c, k, count), count);
  }

  /**
   * The `current` state and the interval. The component needs at least one
   * slide: it reads `slides[current]` on every render.
   */
  class Rotation {
    /** `slides.length`. */
    var count: nat
    /** `current`. */
    var current: nat
    /** Whether the interval is installed. */
    var running: bool

    predicate Valid()
      reads this
    {
      count > 0 && current < count
    }

    /** The first render and its effect: slide 0 with the interval started. */
    constructor(count: nat)
      requires count > 0
      ensures Valid()
      ensures this.count == count && current == 0 && running
    {
      this.count := count;
      current := 0;
      running := true;
    }

    /** The interval callback: `(prev + 1) % slides.length`; nothing once the interval is cleared. */
    method Tick()
      requires Valid()
      modifies this
      ensures Valid()
      ensures current == if old(running) then (old(current) + 1) % count else old(current)
      ensures count == old(count) && running == old(running)
    {
      if running {
        current := (current + 1) % count;
      }
    }

    /** The effect's cleanup on tear-down: `clearInterval`. */
    method Cancel()
      requires Valid()
      modifies this
      ensures Valid()
      ensures !running && current == old(current) && count == old(count)
    {
      running := false;
    }

    /**
     * A new slide count re-runs the effect: the old interval is cleared and
     * a new one started, but `current` is kept, so it can point past the
     * new last slide.
     */
    method SlidesChanged(newCount: nat)
      requires Valid()
      modifies this
      ensures count == newCount && current == old(current) && running
      ensures Valid() <==> 0 < newCount && old(current) < newCount
    {
      count := newCount;
      running := true;
    }

    /** `border={current != 0}`: the heading carries a border on every slide but the first. */
    predicate HeadingBorder()
      reads this
    {
      current != 0
    }
  }

  /** `k` ticks of a running carousel advance it `k` slides. */
  method TickTimes(r: Rotation, k: nat)
    requires r.Valid() && r.running
    modifies r
    ensures r.Valid() && r.running && r.count == old(r.count)
    ensures r.current == Advance(old(r.current), k, r.count)
  {
    ghost var start := r.current;
    var i := 0;
    while i < k
      invariant 0 <= i <= k
      invariant r.Valid() && r.running && r.count == old(r.count)
      invariant r.current == Advance(start, i, r.count)
    {
      r.Tick();
      i := i + 1;
    }
  }

  // ---------------------------------------------------------------------------
  // Theme mappings
  // ---------------------------------------------------------------------------

  /** The inline style of the section (`backgroundStyle`). */
  datatype BackgroundStyle = WhiteBackground | ColorBackground(color: string) | NoBackground

  function SectionBackground(theme: Option<string>): (r: BackgroundStyle)
    ensures r == WhiteBackground <==> theme == Some("default")
    ensures r == ColorBackground("#394FA2") <==> theme == Some("service")
    ensures r.ColorBackground? ==> r.color == "#394FA2"
  {
    if theme == Some("default") then WhiteBackground
    else if theme == Some("service") then ColorBackground("#394FA2")
    else NoBackground
  }

  /** The `mix-blend-mode` of the background image or video. */
  function BlendMode(theme: Option<string>): (r: string)
    ensures r == "multiply" <==> theme == Some("default")
    ensures r == "color-dodge" <==> theme == Some("service")
    ensures r == "normal" <==> theme !in {Some("default"), Some("service")}
  {
    if theme == Some("default") then "multiply"
    else if theme == Some("service") then "color-dodge"
    else "normal"
  }

  /** The text colour class. */
  function TextColor(theme: Option<string>): (r: string)
    ensures r == "text-gray-900" <==> theme in {Some("default"), Some("service")}
    ensures r == "text-white" <==> theme !in {Some("default"), Some("service")}
  {
    if theme == Some("default") || theme == Some("service") then "text-gray-900" else "text-white"
  }

  /** The colour of the animated overlay: a gradient for the default theme, blue otherwise. */
  function OverlayIsGradient(theme: Option<string>): bool {
    theme == Some("default")
  }

  /** The "Services" eyebrow is shown only on the service theme. */
  predicate ServicesLabel(theme: Option<string>) {
    theme == Some("service")
  }

  /** The background media of a slide: none, the image, or the video. */
  datatype Media = NoMedia | ImageMedia(url: string) | VideoMedia(url: string)

  /**
   * The background media. `imageUrl` is what the image URL builder gives
   * for the slide's background image (`None` when the slide has none);
   * `videoUrl` is `backgroundVideo?.asset?.url`.
   */
  function BackgroundMedia(backgroundType: Option<string>, imageUrl: Option<string>, videoUrl: Option<string>): (r: Media)
    ensures r.ImageMedia? <==> backgroundType == Some("image") && imageUrl.Some? && imageUrl.value != ""
    ensures r.VideoMedia? <==> backgroundType == Some("video") && videoUrl.Some? && videoUrl.value != ""
    ensures r.ImageMedia? ==> r.url == imageUrl.value
    ensures r.VideoMedia? ==> r.url == videoUrl.value
  {
    if backgroundType == Some("image") && imageUrl.Some? && imageUrl.value != "" then ImageMedia(imageUrl.value)
    else if backgroundType == Some("video") && videoUrl.Some? && videoUrl.value != "" then VideoMedia(videoUrl.value)
    else NoMedia
  }

  /** The height class of the section. */
  function HeightClass(autoHeight: bool): string {
    if autoHeight then "h-auto" else "min-h-[600px]"
  }

  /** The class of the `i`-th button: the first is primary, the rest secondary. */
  function ButtonClass(i: nat): (r: string)
    ensures r == "btn-primary" <==> i == 0
  {
    if i == 0 then "btn-primary" else "btn-secondary"
  }

  /** Dark text goes with exactly the two themes that paint a light section background. */
  lemma DarkTextOnStyledThemes(theme: Option<string>)
    ensures TextColor(theme) == "text-gray-900" <==> SectionBackground(theme) != NoBackground
    ensures BlendMode(theme) == "normal" <==> SectionBackground(theme) == NoBackground
  {
  }
}
