/**
 * The animated counter (components/ui/CountUp.tsx): a figure given as a
 * number or as text ("1,250", "98%") is read as a number, counted up from
 * zero once the counter scrolls into view, and shown in the figure's own
 * style (thousands separators only when the original text had a comma).
 *
 * The motion library's tween is modelled by the frames it reports
 * (`Update`) and its completion (`Complete`); frames are whole numbers.
 */
module CountUp {
  import opened Wrappers
  import opened Strings

  /** The `value` prop: a number (here a natural) or a text. */
  datatype Value = NumValue(n: nat) | StrValue(s: string)

  /** A non-negative decimal number `whole.frac`, as `parseFloat` reads it from digits and points. */
  datatype Decimal = Decimal(whole: nat, frac: string)

  function Whole(n: nat): Decimal {
    Decimal(n, "")
  }

  predicate NumericChar(c: char) {
    IsDigit(c) || c == '.'
  }

  /** `replace(/[^\d.]/g, '')`: everything but the digits and points removed. */
  function KeepNumeric(s: string): (r: string)
    ensures |r| <= |s|
    ensures forall i :: 0 <= i < |r| ==> NumericChar(r[i])
  {
    if s == [] then []
    else if NumericChar(s[0]) then [s[0]] + KeepNumeric(s[1..])
    else KeepNumeric(s[1..])
  }

  /**
   * `parseFloat` on a text made of digits and points: the digits before the
   * first point and those right after it; `None` (NaN) when there are none.
   */
  function ParseCleaned(c: string): (r: Option<Decimal>)
    requires forall i :: 0 <= i < |c| ==> NumericChar(c[i])
    ensures r.Some? ==> AllDigits(r.value.frac)
    ensures r.None? <==> LeadingDigits(c) == [] && (c == [] || c[0] != '.' || LeadingDigits(c[1..]) == [])
  {
    var w := LeadingDigits(c);
    var rest := c[|w|..];
    var f := if rest != [] && rest[0] == '.' then LeadingDigits(rest[1..]) else [];
    if w == [] && f == [] then None
    else Some(Decimal(if w == [] then 0 else DigitsValue(w), f))
  }

  /** `parseValue`: a number as it is; a text through its digits and points, NaN read as 0. */
  function ParseValue(v: Value): (r: Decimal)
    ensures AllDigits(r.frac)
    ensures v.NumValue? ==> r == Whole(v.n)
  {
    match v
    case NumValue(n) => Whole(n)
    case StrValue(s) =>
      var parsed := ParseCleaned(KeepNumeric(s));
      if parsed.None? then Whole(0) else parsed.value
  }

  /** `Math.round` of a non-negative decimal: up exactly when the first fractional digit is 5 or more. */
  function Round(d: Decimal): (r: nat)
    ensures r == d.whole || r == d.whole + 1
    ensures r == d.whole + 1 <==> d.frac != [] && d.frac[0] >= '5'
  {
    if d.frac != [] && d.frac[0] >= '5' then d.whole + 1 else d.whole
  }

  /** The separator insertion `/\B(?=(\d{3})+(?!\d))/g → ','` on a run of digits. */
  function Group(d: string): (r: string)
    ensures |d| <= 3 ==> r == d
  {
    if |d| <= 3 then d else Group(d[..|d| - 3]) + [','] + d[|d| - 3..]
  }

  /**
   * `formatValue`: after a whole number, the floor of `num`; after a text,
   * `num` rounded, with separators when the trimmed text has a comma and
   * the rounded value is at least 1000.
   */
  function FormatValue(num: Decimal, original: Value): (r: string)
    ensures |r| >= 1
    ensures original.NumValue? ==> r == NatToString(num.whole)
  {
    match original
    case NumValue(_) => NatToString(num.whole)
    case StrValue(s) =>
      var intValue := Round(num);
      var formatted := NatToString(intValue);
      if ',' in Trim(s) && intValue >= 1000 then Group(formatted) else formatted
  }

  // ---------------------------------------------------------------------------
  // Properties of parsing and formatting
  // ---------------------------------------------------------------------------

  lemma {:induction false} KeepNumericAppend(a: string, b: string)
    ensures KeepNumeric(a + b) == KeepNumeric(a) + KeepNumeric(b)
  {
    if a == [] {
      assert a + b == b;
    } else {
      assert (a + b)[0] == a[0] && (a + b)[1..] == a[1..] + b;
      KeepNumericAppend(a[1..], b);
    }
  }

  /** A run of digits is kept whole. */
  lemma {:induction false} KeepNumericDigits(d: string)
    requires AllDigits(d)
    ensures KeepNumeric(d) == d
  {
    if d != [] {
      KeepNumericDigits(d[1..]);
    }
  }

  /** Removing the separators again gives back the digits. */
  lemma {:induction false} GroupRoundTrip(d: string)
    requires AllDigits(d)
    ensures KeepNumeric(Group(d)) == d
  {
    if |d| > 3 {
      var head, tail := d[..|d| - 3], d[|d| - 3..];
      GroupRoundTrip(head);
      assert Group(d) == Group(head) + [','] + tail;
      KeepNumericAppend(Group(head) + [','], tail);
      KeepNumericAppend(Group(head), [',']);
      KeepNumericDigits(tail);
      assert KeepNumeric([',']) == KeepNumeric([]) == [];
      assert head + tail == d;
    } else {
      KeepNumericDigits(d);
    }
  }

  /** Grouping adds one separator per complete group of three digits after the first digit, and nothing else. */
  lemma {:induction false} GroupLength(d: string)
    requires |d| >= 1
    requires AllDigits(d)
    ensures |Group(d)| == |d| + (|d| - 1) / 3
    ensures forall i :: 0 <= i < |Group(d)| ==> IsDigit(Group(d)[i]) || Group(d)[i] == ','
  {
    if |d| > 3 {
      GroupLength(d[..|d| - 3]);
    }
  }

  /** A separator appears exactly when there are more than three digits. */
  lemma GroupCommaIff(d: string)
    requires AllDigits(d)
    ensures ',' in Group(d) <==> |d| >= 4
  {
    if |d| >= 4 {
      var g := Group(d);
      assert g[|g| - 4] == ',';
    } else {
      assert forall i :: 0 <= i < |d| ==> d[i] != ',';
    }
  }

  /** Rendered naturals have at least four digits exactly from 1000 on. */
  lemma NatToStringLength(n: nat)
    ensures |NatToString(n)| >= 4 <==> n >= 1000
  {
    if n >= 1000 {
      assert (n / 10) / 10 >= 10;
      assert |NatToString((n / 10) / 10)| >= 2;
    } else if n >= 100 {
      assert n / 10 / 10 < 10;
    }
  }

  /** A natural's decimal text is read back by `parseValue` as that natural. */
  lemma ParseRendered(n: nat)
    ensures ParseValue(StrValue(NatToString(n))) == Whole(n)
  {
    var s := NatToString(n);
    KeepNumericDigits(s);
    LeadingDigitsOfDigits(s);
    NatToStringRoundTrip(n);
  }

  /**
   * What the counter shows is read back by `parseValue` as the rounded
   * value, separators or not.
   */
  lemma FormatParseRoundTrip(num: Decimal, s: string)
    ensures ParseValue(StrValue(FormatValue(num, StrValue(s)))) == Whole(Round(num))
  {
    var f := NatToString(Round(num));
    if ',' in Trim(s) && Round(num) >= 1000 {
      GroupRoundTrip(f);
      LeadingDigitsOfDigits(f);
      NatToStringRoundTrip(Round(num));
    } else {
      ParseRendered(Round(num));
    }
  }

  /** A whole number formats back to a text that reads as the same number, for every original. */
  lemma WholeRoundTrip(n: nat, original: Value)
    ensures ParseValue(StrValue(FormatValue(Whole(n), original))) == Whole(n)
  {
    if original.StrValue? {
      FormatParseRoundTrip(Whole(n), original.s);
    } else {
      ParseRendered(n);
    }
  }

  /** Separators are shown exactly when the original text has a comma and the shown value is at least 1000. */
  lemma FormatCommaIff(num: Decimal, s: string)
    ensures ',' in FormatValue(num, StrValue(s)) <==> ',' in Trim(s) && Round(num) >= 1000
  {
    var f := NatToString(Round(num));
    NatToStringLength(Round(num));
    GroupCommaIff(f);
    assert forall i :: 0 <= i < |f| ==> f[i] != ',';
  }

  /** A numeric original never shows separators. */
  lemma NumberNeverGrouped(num: Decimal, n: nat)
    ensures ',' !in FormatValue(num, NumValue(n))
  {
    var f := NatToString(num.whole);
    assert forall i :: 0 <= i < |f| ==> f[i] != ',';
  }

  lemma Render1250()
    ensures NatToString(1250) == "1250"
  {
    assert NatToString(1) == "1";
    assert NatToString(12) == "12";
    assert NatToString(125) == "125";
  }

  lemma Group1250()
    ensures Group("1250") == "1,250"
  {
    assert "1250"[..1] == "1" && "1250"[1..] == "250";
  }

  lemma TrimNoSpace(s: string)
    requires s != [] && !IsSpace(s[0]) && !IsSpace(s[|s| - 1])
    ensures Trim(s) == s
  {
  }

  /** "1,250" counts up to 1250 and ends showing "1,250". */
  lemma GroupedExample()
    ensures ParseValue(StrValue("1,250")) == Whole(1250)
    ensures FormatValue(Whole(1250), StrValue("1,250")) == "1,250"
  {
    Render1250();
    Group1250();
    TrimNoSpace("1,250");
    assert ',' in "1,250" by {
      assert "1,250"[1] == ',';
    }
    FormatParseRoundTrip(Whole(1250), "1,250");
  }

  /** "98%" loses its suffix: the counter ends showing "98". */
  lemma SuffixDropped()
    ensures FormatValue(ParseValue(StrValue("98%")), StrValue("98%")) == "98"
  {
    var s := "98%";
    assert KeepNumeric(s) == "98" by {
      assert KeepNumeric(s[2..]) == "";
      assert KeepNumeric(s[1..]) == "8";
    }
    LeadingDigitsOfDigits("98");
    assert DigitsValue("98") == 98 by {
      assert "98"[..1] == "9";
    }
    assert NatToString(98) == "98" by {
      assert NatToString(9) == "9";
    }
  }

  // ---------------------------------------------------------------------------
  // The counter
  // ---------------------------------------------------------------------------

  /**
   * `latest >= targetValue - 0.5` for a whole-number frame: the frame is
   * past the target's whole part, or equal to it with at most half left.
   */
  predicate NearTarget(latest: nat, target: Decimal) {
    latest > target.whole
    || (latest == target.whole && (target.frac == [] || target.frac[0] < '5' || (target.frac[0] == '5' && forall i :: 1 <= i < |target.frac| ==> target.frac[i] == '0')))
  }

  /** On a whole target, a frame is near exactly when it has reached the target. */
  lemma NearWholeTarget(latest: nat, n: nat)
    ensures NearTarget(latest, Whole(n)) <==> latest >= n
  {
  }

  /** The value a frame shows: the target once the frame is within half of it, the frame otherwise. */
  function Shown(latest: nat, target: Decimal): Decimal {
    if NearTarget(latest, target) then target else Whole(latest)
  }

  /** For a whole-number text original, a frame's display reads back as the smaller of the frame and the target. */
  lemma ShownReadsBack(latest: nat, value: string)
    requires ParseValue(StrValue(value)).frac == []
    ensures var target := ParseValue(StrValue(value));
            ParseValue(StrValue(FormatValue(Shown(latest, target), StrValue(value)))) == Whole(if latest >= target.whole then target.whole else latest)
  {
    var target := ParseValue(StrValue(value));
    NearWholeTarget(latest, target.whole);
    FormatParseRoundTrip(Shown(latest, target), value);
  }

  /** The counter's state. `starts` counts the animations begun. */
  class Counter {
    const original: Value
    const target: Decimal
    /** `useInView(ref, { once: true })`. */
    var inView: bool
    /** `displayValue`. */
    var display: string
    var showGhost: bool
    var ghostValue: string
    ghost var starts: nat

    /** The target is the parsed value, and the animation starts once, when the counter first comes into view. */
    ghost predicate Valid()
      reads this
    {
      target == ParseValue(original) && starts <= 1 && (starts == 1 <==> inView)
    }

    /** The first render: "0" shown, nothing animated. */
    constructor(value: Value)
      ensures Valid()
      ensures original == value && !inView && display == "0" && !showGhost && ghostValue == "" && starts == 0
    {
      original := value;
      target := ParseValue(value);
      inView := false;
      display := "0";
      showGhost := false;
      ghostValue := "";
      starts := 0;
    }

    /**
     * The view observer reports `visible`. The first time the counter is
     * visible the effect resets the display to "0" and starts the
     * animation; once in view it stays in view, so nothing else happens.
     */
    method Observe(visible: bool)
      requires Valid()
      modifies this
      ensures Valid()
      ensures inView == (old(inView) || visible)
      ensures !old(inView) && visible ==> display == "0" && !showGhost && starts == 1
      ensures old(inView) || !visible ==> display == old(display) && showGhost == old(showGhost) && starts == old(starts)
      ensures ghostValue == old(ghostValue)
    {
      if !inView && visible {
        inView := true;
        starts := starts + 1;
        display := "0";
        showGhost := false;
      }
    }

    /** `onUpdate`: a frame shows the target once within half of it, the frame otherwise. */
    method Update(latest: nat)
      requires Valid() && inView
      modifies this
      ensures Valid() && inView
      ensures display == FormatValue(Shown(latest, target), original)
      ensures showGhost == old(showGhost) && ghostValue == old(ghostValue) && starts == old(starts)
    {
      display := FormatValue(Shown(latest, target), original);
    }

    /** `onComplete`: the target is shown and the ghost copy of it appears. */
    method Complete()
      requires Valid() && inView
      modifies this
      ensures Valid() && inView
      ensures display == FormatValue(target, original) && ghostValue == display && showGhost
      ensures starts == old(starts)
    {
      display := FormatValue(target, original);
      ghostValue := display;
      showGhost := true;
    }

    /** The timeout one second after completion hides the ghost. */
    method HideGhost()
      requires Valid()
      modifies this
      ensures Valid()
      ensures !showGhost && display == old(display) && ghostValue == old(ghostValue) && inView == old(inView)
      ensures starts == old(starts)
    {
      showGhost := false;
    }
  }

  /**
   * A whole-number text counts up: each frame's display reads back as the
   * smaller of the frame and the target, and at the end the display reads
   * back as the original's value.
   */
  method CountToEnd(value: string, frames: seq<nat>) returns (displays: seq<string>, shown: string)
    requires ParseValue(StrValue(value)).frac == []
    ensures |displays| == |frames|
    ensures forall k :: 0 <= k < |frames| ==> displays[k] == FormatValue(Shown(frames[k], ParseValue(StrValue(value))), StrValue(value))
    ensures forall k :: 0 <= k < |frames| ==>
              ParseValue(StrValue(displays[k])) == Whole(if frames[k] >= ParseValue(StrValue(value)).whole then ParseValue(StrValue(value)).whole else frames[k])
    ensures ParseValue(StrValue(shown)) == ParseValue(StrValue(value))
  {
    var c := new Counter(StrValue(value));
    c.Observe(true);
    displays := [];
    var i := 0;
    while i < |frames|
      invariant 0 <= i <= |frames| && |displays| == i
      invariant c.Valid() && c.inView && c.original == StrValue(value)
      invariant forall k :: 0 <= k < i ==> displays[k] == FormatValue(Shown(frames[k], c.target), c.original)
    {
      c.Update(frames[i]);
      displays := displays + [c.display];
      i := i + 1;
    }
    forall k | 0 <= k < |frames|
      ensures ParseValue(StrValue(displays[k])) == Whole(if frames[k] >= ParseValue(StrValue(value)).whole then ParseValue(StrValue(value)).whole else frames[k])
    {
      ShownReadsBack(frames[k], value);
    }
    c.Complete();
    shown := c.display;
    FormatParseRoundTrip(c.target, value);
  }
}
