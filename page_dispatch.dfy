/**
 * The home page's section dispatcher (app/page.tsx): each section record is
 * looked up in a fixed registry of renderers, unknown types are dropped, and
 * every retained section gets an anchor id that is unique on the page.
 */
module PageDispatch {
  import opened Wrappers
  import opened Strings
  import opened Json

  /** A section record: its `_type`, its authored `sectionId` (`""` when absent) and its other fields. */
  datatype Section = Section(typeTag: string, sectionId: string, fields: seq<Member>)

  /** What a renderer receives: the section without `_type`. */
  datatype SectionProps = SectionProps(sectionId: string, fields: seq<Member>)

  datatype Renderer = SectionMainRenderer | SectionHeroMainRenderer

  /** One emitted wrapper: `<div id={anchorId} key={key}>` around the renderer, for the section at `position`. */
  datatype Rendered = Rendered(anchorId: string, key: string, renderer: Renderer, props: SectionProps, position: nat)

  /** The `sectionComponents` registry. */
  function Registry(typeTag: string): (r: Option<Renderer>)
    ensures r.Some? <==> typeTag == "sectionMain" || typeTag == "sectionHeroMain"
  {
    if typeTag == "sectionMain" then Some(SectionMainRenderer)
    else if typeTag == "sectionHeroMain" then Some(SectionHeroMainRenderer)
    else None
  }

  function PropsOf(s: Section): SectionProps {
    SectionProps(s.sectionId, s.fields)
  }

  /** `generateAnchorId(section, index)`: the authored id, else `${_type || 'section'}-${index}`. */
  function AnchorCandidate(s: Section, index: nat): string {
    if s.sectionId != "" then s.sectionId
    else (if s.typeTag != "" then s.typeTag else "section") + "-" + NatToString(index)
  }

  /** The `k`-th id tried for a candidate: the candidate itself, then `candidate-1`, `candidate-2`, ... */
  function Suffixed(candidate: string, k: nat): string {
    if k == 0 then candidate else candidate + "-" + NatToString(k)
  }

  /** Different counters give different ids. */
  lemma SuffixedInjective(c: string, j: nat, k: nat)
    requires Suffixed(c, j) == Suffixed(c, k)
    ensures j == k
  {
    if j != 0 && k != 0 {
      var p := c + "-";
      assert Suffixed(c, j) == p + NatToString(j) && Suffixed(c, k) == p + NatToString(k);
      assert NatToString(j) == Suffixed(c, j)[|p|..];
      assert NatToString(k) == Suffixed(c, k)[|p|..];
      NatToStringInjective(j, k);
    }
  }

  /** The first `k` tried ids, as a set. */
  function Tried(c: string, k: nat): set<string> {
    set j | 0 <= j < k :: Suffixed(c, j)
  }

  lemma {:induction false} TriedSize(c: string, k: nat)
    ensures |Tried(c, k)| == k
  {
    if k > 0 {
      TriedSize(c, k - 1);
      assert Tried(c, k) == Tried(c, k - 1) + {Suffixed(c, k - 1)};
      if Suffixed(c, k - 1) in Tried(c, k - 1) {
        var j :| 0 <= j < k - 1 && Suffixed(c, j) == Suffixed(c, k - 1);
        SuffixedInjective(c, j, k - 1);
      }
    }
  }

  /** If the first `k` tried ids are all taken, at least `k` ids are taken. */
  lemma TakenBound(used: set<string>, c: string, k: nat)
    requires forall j :: 0 <= j < k ==> Suffixed(c, j) in used
    ensures k <= |used|
  {
    TriedSize(c, k);
    assert Tried(c, k) <= used;
    SubsetSize(Tried(c, k), used);
  }

  lemma SubsetSize<T>(a: set<T>, b: set<T>)
    requires a <= b
    ensures |a| <= |b|
  {
    assert b == a + (b - a);
  }

  /** The uniqueness search from counter `k` on: the first counter whose id is not in `used`. */
  function FreeFrom(used: set<string>, c: string, k: nat): (r: nat)
    requires forall j :: 0 <= j < k ==> Suffixed(c, j) in used
    ensures k <= r
    decreases |used| - k
  {
    TakenBound(used, c, k);
    if Suffixed(c, k) in used then
      TakenBound(used, c, k + 1);
      FreeFrom(used, c, k + 1)
    else k
  }

  /**
   * The search stops at a free id after at most `|used|` steps, and every
   * counter it passed was taken.
   */
  lemma {:induction false} FreeFromFree(used: set<string>, c: string, k: nat)
    requires forall j :: 0 <= j < k ==> Suffixed(c, j) in used
    ensures FreeFrom(used, c, k) <= |used|
    ensures Suffixed(c, FreeFrom(used, c, k)) !in used
    ensures forall j :: 0 <= j < FreeFrom(used, c, k) ==> Suffixed(c, j) in used
    decreases |used| - k
  {
    TakenBound(used, c, k);
    if Suffixed(c, k) in used {
      TakenBound(used, c, k + 1);
      FreeFromFree(used, c, k + 1);
    }
  }

  /** The counter the uniqueness loop stops at. */
  function FirstFree(used: set<string>, c: string): nat {
    FreeFrom(used, c, 0)
  }

  /**
   * The uniqueness loop: the candidate itself if it is unused, else
   * `candidate-k` for the smallest `k >= 1` not yet used. It tries at most
   * `|used| + 1` ids.
   */
  method UniqueId(used: set<string>, anchorId: string) returns (uniqueId: string, counter: nat)
    ensures uniqueId !in used
    ensures uniqueId == Suffixed(anchorId, counter)
    ensures forall j :: 0 <= j < counter ==> Suffixed(anchorId, j) in used
    ensures counter <= |used| && counter == FirstFree(used, anchorId)
  {
    uniqueId := anchorId;
    counter := 0;
    while uniqueId in used
      invariant uniqueId == Suffixed(anchorId, counter)
      invariant forall j :: 0 <= j < counter ==> Suffixed(anchorId, j) in used
      decreases |used| - counter
    {
      TakenBound(used, anchorId, counter + 1);
      counter := counter + 1;
      uniqueId := anchorId + "-" + NatToString(counter);
    }
    TakenBound(used, anchorId, counter);
    var f := FirstFree(used, anchorId);
    FreeFromFree(used, anchorId, 0);
    assert !(f < counter) && !(counter < f);
  }

  /** The ids emitted so far: the `usedIds` set of the render loop. */
  function IdSet(out: seq<Rendered>): set<string> {
    set r | r in out :: r.anchorId
  }

  /** What the render loop emits for the first `|sections|` sections, in order. */
  function Render(sections: seq<Section>): seq<Rendered>
    decreases |sections|
  {
    if sections == [] then []
    else
      var i := |sections| - 1;
      var prev := Render(sections[..i]);
      var s := sections[i];
      match Registry(s.typeTag)
      case None => prev
      case Some(renderer) =>
        var c := AnchorCandidate(s, i);
        prev + [Rendered(Suffixed(c, FirstFree(IdSet(prev), c)), s.typeTag + "-" + NatToString(i), renderer, PropsOf(s), i)]
  }

  /**
   * `Page()`: walks the sections with their positions, drops the unregistered
   * ones, and gives each retained one an id not used before on the page.
   */
  method RenderPage(sections: seq<Section>) returns (out: seq<Rendered>)
    ensures out == Render(sections)
  {
    var usedIds: set<string> := {};
    out := [];
    for i := 0 to |sections|
      invariant out == Render(sections[..i])
      invariant usedIds == IdSet(out)
    {
      assert sections[..i + 1][..i] == sections[..i];
      var section := sections[i];
      var component := Registry(section.typeTag);
      if component.None? {
        continue;
      }
      var anchorId := AnchorCandidate(section, i);
      var uniqueId, counter := UniqueId(usedIds, anchorId);
      usedIds := usedIds + {uniqueId};
      out := out + [Rendered(uniqueId, section.typeTag + "-" + NatToString(i), component.value, PropsOf(section), i)];
    }
    assert sections[..|sections|] == sections;
  }

  /** All ids emitted on a page are pairwise distinct. */
  lemma {:induction false} RenderIdsDistinct(sections: seq<Section>)
    ensures forall a, b :: 0 <= a < b < |Render(sections)| ==> Render(sections)[a].anchorId != Render(sections)[b].anchorId
  {
    if sections != [] {
      var i := |sections| - 1;
      RenderIdsDistinct(sections[..i]);
      var prev := Render(sections[..i]);
      var out := Render(sections);
      if out != prev {
        var c := AnchorCandidate(sections[i], i);
        FreeFromFree(IdSet(prev), c, 0);
        forall a | 0 <= a < |prev| ensures prev[a].anchorId != out[|prev|].anchorId {
          assert prev[a] in prev;
        }
      }
    }
  }

  /** Removing trailing sections never changes what is emitted for the sections before them. */
  lemma {:induction false} RenderPrefix(sections: seq<Section>, m: nat)
    requires m <= |sections|
    ensures Render(sections[..m]) <= Render(sections)
    decreases |sections| - m
  {
    if m < |sections| {
      var i := |sections| - 1;
      assert sections[..i][..m] == sections[..m];
      RenderPrefix(sections[..i], m);
      RenderStep(sections);
      PrefixTransitive(Render(sections[..m]), Render(sections[..i]), Render(sections));
    } else {
      assert sections[..m] == sections;
    }
  }

  /** Rendering one more section only appends to the output. */
  lemma RenderStep(sections: seq<Section>)
    requires sections != []
    ensures Render(sections[..|sections| - 1]) <= Render(sections)
  {
    var prev := Render(sections[..|sections| - 1]);
    var out := Render(sections);
    if out != prev {
      assert out[..|prev|] == prev;
    }
  }

  lemma PrefixTransitive<T>(a: seq<T>, b: seq<T>, c: seq<T>)
    requires a <= b && b <= c
    ensures a <= c
  {
  }

  /** The positions of the registered sections, in order. */
  function RegisteredPositions(sections: seq<Section>): seq<nat> {
    if sections == [] then []
    else
      var i := |sections| - 1;
      if Registry(sections[i].typeTag).Some? then RegisteredPositions(sections[..i]) + [i]
      else RegisteredPositions(sections[..i])
  }

  /**
   * Exactly the registered sections are emitted, in their original relative
   * order; each gets its own renderer and its fields without `_type`.
   */
  lemma {:induction false} RenderKeepsRegistered(sections: seq<Section>)
    ensures |Render(sections)| == |RegisteredPositions(sections)|
    ensures forall k :: 0 <= k < |Render(sections)| ==>
      && Render(sections)[k].position == RegisteredPositions(sections)[k]
      && Render(sections)[k].position < |sections|
      && Registry(sections[Render(sections)[k].position].typeTag) == Some(Render(sections)[k].renderer)
      && Render(sections)[k].props == PropsOf(sections[Render(sections)[k].position])
  {
    if sections != [] {
      var i := |sections| - 1;
      RenderKeepsRegistered(sections[..i]);
    }
  }

  /** A section of an unknown type adds nothing: no output and no used id. */
  lemma UnknownTypeDropped(sections: seq<Section>, s: Section)
    requires Registry(s.typeTag).None?
    ensures Render(sections + [s]) == Render(sections)
  {
    assert (sections + [s])[..|sections|] == sections;
  }

  /**
   * The id of a retained section: its candidate when that is still free,
   * otherwise the candidate with the smallest free suffix `-k`, `k >= 1`.
   */
  lemma RenderNewId(sections: seq<Section>, s: Section)
    requires Registry(s.typeTag).Some?
    ensures var c := AnchorCandidate(s, |sections|);
            var used := IdSet(Render(sections));
            var out := Render(sections + [s]);
            && |out| == |Render(sections)| + 1
            && (c !in used ==> out[|out| - 1].anchorId == c)
            && (c in used ==> exists k :: 1 <= k <= |used| && out[|out| - 1].anchorId == c + "-" + NatToString(k)
                                && forall j :: 1 <= j < k ==> c + "-" + NatToString(j) in used)
  {
    assert (sections + [s])[..|sections|] == sections;
    var c := AnchorCandidate(s, |sections|);
    var used := IdSet(Render(sections));
    var k := FirstFree(used, c);
    FreeFromFree(used, c, 0);
    if c in used {
      assert k != 0;
      forall j | 1 <= j < k ensures c + "-" + NatToString(j) in used {
        assert Suffixed(c, j) in used;
      }
    }
  }

  /** A retained section never falls back to the `section` prefix: its type is non-empty. */
  lemma RetainedUseOwnType(s: Section, index: nat)
    requires Registry(s.typeTag).Some? && s.sectionId == ""
    ensures AnchorCandidate(s, index) == s.typeTag + "-" + NatToString(index)
  {
  }

  /**
   * Fallback ids encode their position: two sections without an authored id
   * get the same candidate only if they have the same type and position.
   */
  lemma FallbackCandidatesDistinct(s: Section, i: nat, t: Section, j: nat)
    requires s.sectionId == "" && t.sectionId == ""
    requires AnchorCandidate(s, i) == AnchorCandidate(t, j)
    ensures i == j
  {
    var p := if s.typeTag != "" then s.typeTag else "section";
    var q := if t.typeTag != "" then t.typeTag else "section";
    var c := AnchorCandidate(s, i);
    var di, dj := NatToString(i), NatToString(j);
    assert c == p + "-" + di && c == q + "-" + dj;
    assert c[|p|] == '-' && c[|q|] == '-';
    assert |p| == |q|;
    assert di == c[|p| + 1..] && dj == c[|q| + 1..];
    NatToStringInjective(i, j);
  }

  /** A hero, a main section with the authored id `pricing` and a plain main section. */
  lemma ExamplePage()
    ensures var ids := Render([Section("sectionHeroMain", "", []), Section("sectionMain", "pricing", []), Section("sectionMain", "", [])]);
            |ids| == 3 && ids[0].anchorId == "sectionHeroMain-0" && ids[1].anchorId == "pricing" && ids[2].anchorId == "sectionMain-2"
  {
    var s := [Section("sectionHeroMain", "", []), Section("sectionMain", "pricing", []), Section("sectionMain", "", [])];
    assert s[..2] == [s[0], s[1]];
    ExamplePageStart();
    var r2 := Render([s[0], s[1]]);
    assert NatToString(2) == "2";
    assert IdSet(r2) == {"sectionHeroMain-0", "pricing"} by {
      assert r2[0] in r2 && r2[1] in r2;
    }
    assert FirstFree({"sectionHeroMain-0", "pricing"}, "sectionMain-2") == 0;
  }

  lemma ExamplePageStart()
    ensures var ids := Render([Section("sectionHeroMain", "", []), Section("sectionMain", "pricing", [])]);
            |ids| == 2 && ids[0].anchorId == "sectionHeroMain-0" && ids[1].anchorId == "pricing"
  {
    var s := [Section("sectionHeroMain", "", []), Section("sectionMain", "pricing", [])];
    assert s[..1] == [s[0]] && [s[0]][..0] == [];
    assert NatToString(0) == "0";
    var r0: seq<Rendered> := [];
    assert IdSet(r0) == {};
    assert Render([]) == r0;
    var r1 := Render([s[0]]);
    assert FirstFree({}, "sectionHeroMain-0") == 0;
    assert r1[0].anchorId == "sectionHeroMain-0";
    assert IdSet(r1) == {"sectionHeroMain-0"};
    assert FirstFree({"sectionHeroMain-0"}, "pricing") == 0;
  }

  /** Two sections authored with the same id: the second one is suffixed with `-1`. */
  lemma ExampleDuplicateAuthoredId()
    ensures var ids := Render([Section("sectionMain", "pricing", []), Section("sectionHeroMain", "pricing", [])]);
            |ids| == 2 && ids[0].anchorId == "pricing" && ids[1].anchorId == "pricing-1"
  {
    var s := [Section("sectionMain", "pricing", []), Section("sectionHeroMain", "pricing", [])];
    assert s[..1] == [s[0]] && [s[0]][..0] == [];
    var r0: seq<Rendered> := [];
    assert IdSet(r0) == {};
    assert Render([]) == r0;
    assert FirstFree({}, "pricing") == 0;
    var r1 := Render([s[0]]);
    assert IdSet(r1) == {"pricing"};
    assert NatToString(1) == "1";
    assert Suffixed("pricing", 1) == "pricing-1";
    assert FreeFrom({"pricing"}, "pricing", 1) == 1;
    assert FirstFree({"pricing"}, "pricing") == 1;
  }
}
