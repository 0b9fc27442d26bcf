/**
 * The content schema of the testimonials section
 * (sanity/schemaTypes/sectionTestimonials.ts): the check on an authored
 * section id, and the one-line previews of a testimonial and of the whole
 * section in the editor.
 *
 * The preview inputs are the texts the schema reads out of the rich-text
 * fields (the first span of the first block), `None` where that path is
 * missing.
 */
module TestimonialsSchema {
  import opened Wrappers
  import opened Strings
  import Json
  import PageDispatch

  /** The outcome of a custom validation rule: accepted, or an error message. */
  datatype Validation = Accepted | Rejected(message: string)

  const SectionIdMessage: string := "Section ID must be lowercase letters, numbers, and hyphens only"

  /** A character of `[a-z0-9-]`. */
  predicate UrlSafeChar(c: char) {
    'a' <= c <= 'z' || IsDigit(c) || c == '-'
  }

  /** `/^[a-z0-9-]+$/`. */
  predicate UrlSafe(s: string) {
    |s| >= 1 && forall i :: 0 <= i < |s| ==> UrlSafeChar(s[i])
  }

  /** The `sectionId` rule: an absent or empty id is fine, any other must be URL-safe. */
  function ValidateSectionId(value: Option<string>): (r: Validation)
    ensures r.Rejected? ==> r.message == SectionIdMessage
  {
    if value.None? || value.value == "" then Accepted
    else if UrlSafe(value.value) then Accepted
    else Rejected(SectionIdMessage)
  }

  /** An id is accepted exactly when it is absent, empty, or made of lower-case letters, digits and hyphens. */
  lemma ValidateIff(value: Option<string>)
    ensures ValidateSectionId(value) == Accepted <==>
      value.None? || value.value == "" || forall i :: 0 <= i < |value.value| ==> UrlSafeChar(value.value[i])
  {
  }

  /** Upper-case letters, spaces and underscores are rejected. */
  lemma RejectedExamples()
    ensures ValidateSectionId(Some("Our Clients")) == Rejected(SectionIdMessage)
    ensures ValidateSectionId(Some("client_quotes")) == Rejected(SectionIdMessage)
    ensures ValidateSectionId(Some("client-quotes-2")) == Accepted
  {
    assert !UrlSafeChar("Our Clients"[0]);
    assert !UrlSafeChar("client_quotes"[6]);
  }

  /** The longest title text before it is cut. */
  const TitleLength: nat := 50

  /** `substring(0, 50)` plus `'...'` when the text was longer. */
  function Truncate(text: string): (r: string)
    ensures |text| <= TitleLength ==> r == text
    ensures |text| > TitleLength ==> |r| == TitleLength + 3
  {
    if |text| <= TitleLength then text else text[..TitleLength] + "..."
  }

  /** The preview of one testimonial. */
  datatype Preview = Preview(title: string, subtitle: string)

  /** The item preview: the quote's first span or "Testimonial", cut to 50; the source's first span or "No source". */
  function ItemPreview(bodyText: Option<string>, sourceText: Option<string>): (p: Preview)
    ensures p.subtitle != ""
  {
    var body := if bodyText.Some? && bodyText.value != "" then bodyText.value else "Testimonial";
    var source := if sourceText.Some? && sourceText.value != "" then sourceText.value else "";
    Preview(Truncate(body), if source != "" then source else "No source")
  }

  /** The title keeps the start of the quote, is at most 53 characters long and ends in "..." exactly when the quote was cut. */
  lemma TitleIsPrefix(text: string)
    requires text != ""
    ensures var t := ItemPreview(Some(text), None).title;
      |t| <= TitleLength + 3
      && (|text| <= TitleLength ==> t == text)
      && (|text| > TitleLength ==> t[..TitleLength] == text[..TitleLength] && t[TitleLength..] == "...")
  {
  }

  /** Missing texts fall back to "Testimonial" and "No source". */
  lemma PreviewFallbacks(bodyText: Option<string>, sourceText: Option<string>)
    ensures bodyText.None? || bodyText == Some("") ==> ItemPreview(bodyText, sourceText).title == "Testimonial"
    ensures sourceText.None? || sourceText == Some("") ==> ItemPreview(bodyText, sourceText).subtitle == "No source"
    ensures sourceText.Some? && sourceText.value != "" ==> ItemPreview(bodyText, sourceText).subtitle == sourceText.value
  {
  }

  /** The section preview's subtitle: the number of items, in the singular for exactly one. */
  function SectionSubtitle(itemCount: Option<nat>): (r: string)
  {
    var count := itemCount.GetOr(0);
    NatToString(count) + " testimonial" + (if count != 1 then "s" else "")
  }

  /** The section preview: a fixed title over the item count. */
  function SectionPreview(itemCount: Option<nat>): Preview
  {
    Preview("Testimonials Section", SectionSubtitle(itemCount))
  }

  lemma {:induction false} LeadingDigitsThenSpace(d: string, rest: string)
    requires AllDigits(d) && rest != [] && !IsDigit(rest[0])
    ensures LeadingDigits(d + rest) == d
  {
    if d != [] {
      assert (d + rest)[1..] == d[1..] + rest;
      LeadingDigitsThenSpace(d[1..], rest);
    } else {
      assert d + rest == rest;
    }
  }

  /**
   * The section preview keeps its fixed title; its subtitle starts with
   * the item count (0 when the list is missing), which reads back, and
   * uses the plural exactly when the count is not 1.
   */
  lemma SectionPreviewStatesCount(itemCount: Option<nat>)
    ensures SectionPreview(itemCount).title == "Testimonials Section"
    ensures var s := SectionPreview(itemCount).subtitle;
      var count := itemCount.GetOr(0);
      DigitsValue(LeadingDigits(s)) == count
      && (s[|s| - 1] == 's' <==> count != 1)
  {
    var count := itemCount.GetOr(0);
    var d := NatToString(count);
    var rest := " testimonial" + (if count != 1 then "s" else "");
    assert SectionSubtitle(itemCount) == d + rest;
    LeadingDigitsThenSpace(d, rest);
    NatToStringRoundTrip(count);
  }

  /**
   * The id description promises `section-testimonials-{index}` as the
   * fallback anchor, but the page builds `sectionTestimonials-{index}`
   * from the type name; and the page's registry has no renderer for this
   * type, so such a section is dropped before any id is made.
   */
  lemma FallbackAnchorDiffers(index: nat, fields: seq<Json.Member>)
    ensures var s := PageDispatch.Section("sectionTestimonials", "", fields);
      PageDispatch.AnchorCandidate(s, index) == "sectionTestimonials-" + NatToString(index)
      && PageDispatch.AnchorCandidate(s, index) != "section-testimonials-" + NatToString(index)
      && PageDispatch.Registry(s.typeTag).None?
  {
    var s := PageDispatch.Section("sectionTestimonials", "", fields);
    assert PageDispatch.AnchorCandidate(s, index)[7] == 'T';
    assert ("section-testimonials-" + NatToString(index))[7] == '-';
  }
}
