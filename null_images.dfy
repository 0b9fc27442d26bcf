/**
 * The repair script's `removeNullImages` (scripts/fixNullImages.js): a recursive
 * copy of a JSON-like value that leaves out every object member named `image`
 * or `backgroundImage` whose value is `null`.
 */
module NullImages {
  import opened Wrappers
  import opened Json

  /** A member the scrubber drops: an image field holding `null`. */
  predicate NullImage(m: Member) {
    (m.key == "backgroundImage" || m.key == "image") && m.value == JNull
  }

  /** `value && typeof value === 'object'`: arrays and objects, which are always truthy. */
  predicate IsContainer(v: Json) {
    v.JArr? || v.JObj?
  }

  /** No object at any depth has an image field holding `null`. */
  predicate NoNullImages(v: Json)
    decreases v
  {
    match v
    case JArr(items) => forall i :: 0 <= i < |items| ==> NoNullImages(items[i])
    case JObj(ms) => MembersClean(ms)
    case _ => true
  }

  predicate MembersClean(ms: seq<Member>)
    decreases ms
  {
    ms == [] || (MembersClean(ms[..|ms| - 1]) && !NullImage(ms[|ms| - 1]) && NoNullImages(ms[|ms| - 1].value))
  }

  /**
   * What `removeNullImages(v)` returns: scalars and `null` unchanged, arrays
   * mapped element by element (same length, same order), objects rebuilt.
   */
  function Clean(v: Json): (r: Json)
    ensures !IsContainer(v) ==> r == v
    ensures v.JArr? ==> r.JArr? && |r.items| == |v.items|
    ensures v.JArr? ==> forall i :: 0 <= i < |v.items| ==> r.items[i] == Clean(v.items[i])
    ensures v.JObj? ==> r.JObj?
    decreases v
  {
    match v
    case JArr(items) => JArr(seq(|items|, i requires 0 <= i < |items| => Clean(items[i])))
    case JObj(ms) => JObj(CleanMembers(ms))
    case _ => v
  }

  /** The `cleaned` object built from the members `ms`, in their order. */
  function CleanMembers(ms: seq<Member>): (r: seq<Member>)
    decreases ms
  {
    if ms == [] then []
    else
      var m := ms[|ms| - 1];
      var front := CleanMembers(ms[..|ms| - 1]);
      if NullImage(m) then front
      else if IsContainer(m.value) then front + [Member(m.key, Clean(m.value))]
      else front + [m]
  }

  /**
   * The script's function: scalars and `null` come back as they are, an array is
   * mapped element by element, an object is rebuilt member by member.
   */
  method RemoveNullImages(v: Json) returns (r: Json)
    ensures r == Clean(v)
    decreases v
  {
    if !IsContainer(v) {
      return v;
    }
    if v.JArr? {
      return JArr(seq(|v.items|, i requires 0 <= i < |v.items| => Clean(v.items[i])));
    }
    var ms := v.members;
    var cleaned: seq<Member> := [];
    for i := 0 to |ms|
      invariant cleaned == CleanMembers(ms[..i])
    {
      var m := ms[i];
      assert ms[..i + 1][..i] == ms[..i];
      if m.key == "backgroundImage" && m.value == JNull {
        continue;
      }
      if m.key == "image" && m.value == JNull {
        continue;
      }
      if IsContainer(m.value) {
        var c := RemoveNullImages(m.value);
        cleaned := cleaned + [Member(m.key, c)];
      } else {
        cleaned := cleaned + [Member(m.key, m.value)];
      }
    }
    assert ms[..|ms|] == ms;
    return JObj(cleaned);
  }

  /** The members of `ms` that are not null image fields, in their order. */
  function KeptMembers(ms: seq<Member>): (r: seq<Member>)
    ensures forall m :: m in r <==> m in ms && !NullImage(m)
  {
    if ms == [] then []
    else if NullImage(ms[|ms| - 1]) then KeptMembers(ms[..|ms| - 1])
    else
      assert forall m :: m in ms <==> m in ms[..|ms| - 1] || m == ms[|ms| - 1] by {
        assert ms == ms[..|ms| - 1] + [ms[|ms| - 1]];
      }
      KeptMembers(ms[..|ms| - 1]) + [ms[|ms| - 1]]
  }

  /**
   * The cleaned object holds exactly the members that are not null image
   * fields, in their original order, each under its own key with its value cleaned.
   */
  lemma {:induction false} CleanMembersShape(ms: seq<Member>)
    ensures |CleanMembers(ms)| == |KeptMembers(ms)|
    ensures forall i :: 0 <= i < |CleanMembers(ms)| ==>
      CleanMembers(ms)[i] == Member(KeptMembers(ms)[i].key, Clean(KeptMembers(ms)[i].value))
  {
    if ms != [] {
      CleanMembersShape(ms[..|ms| - 1]);
    }
  }

  /** After cleaning, no object at any depth has `image` or `backgroundImage` mapped to null. */
  lemma {:induction false} CleanRemovesNullImages(v: Json)
    ensures NoNullImages(Clean(v))
    decreases v
  {
    match v
    case JArr(items) =>
      forall i | 0 <= i < |items| ensures NoNullImages(Clean(items[i])) {
        CleanRemovesNullImages(items[i]);
      }
    case JObj(ms) => CleanMembersRemoveNullImages(ms);
    case _ =>
  }

  lemma {:induction false} CleanMembersRemoveNullImages(ms: seq<Member>)
    ensures MembersClean(CleanMembers(ms))
    decreases ms
  {
    if ms != [] {
      var m := ms[|ms| - 1];
      var front := CleanMembers(ms[..|ms| - 1]);
      CleanMembersRemoveNullImages(ms[..|ms| - 1]);
      if !NullImage(m) {
        var added := if IsContainer(m.value) then Member(m.key, Clean(m.value)) else m;
        CleanRemovesNullImages(m.value);
        assert (front + [added])[..|front + [added]| - 1] == front;
      }
    }
  }

  /** A value with no null image fields is left exactly as it is. */
  lemma {:induction false} CleanFixesClean(v: Json)
    requires NoNullImages(v)
    ensures Clean(v) == v
    decreases v
  {
    match v
    case JArr(items) =>
      forall i | 0 <= i < |items| ensures Clean(items[i]) == items[i] {
        CleanFixesClean(items[i]);
      }
      assert seq(|items|, i requires 0 <= i < |items| => Clean(items[i])) == items;
    case JObj(ms) => CleanMembersFixClean(ms);
    case _ =>
  }

  lemma {:induction false} CleanMembersFixClean(ms: seq<Member>)
    requires MembersClean(ms)
    ensures CleanMembers(ms) == ms
    decreases ms
  {
    if ms != [] {
      var m := ms[|ms| - 1];
      CleanMembersFixClean(ms[..|ms| - 1]);
      CleanFixesClean(m.value);
      assert ms[..|ms| - 1] + [m] == ms;
    }
  }

  /** Running the scrubber on its own output changes nothing. */
  lemma CleanIdempotent(v: Json)
    ensures Clean(Clean(v)) == Clean(v)
  {
    CleanRemovesNullImages(v);
    CleanFixesClean(Clean(v));
  }

  /** The script writes a page back exactly when cleaning changes its sections, that is, when they hold a null image field. */
  lemma CleanChangesExactlyDirty(v: Json)
    ensures Clean(v) == v <==> NoNullImages(v)
  {
    CleanRemovesNullImages(v);
    if NoNullImages(v) {
      CleanFixesClean(v);
    }
  }
}
