# databridge — a verified model of the site's content pipeline and page rules

databridge is a marketing site. Editors write pages in a headless CMS, or in
Markdown files that an import script turns into CMS documents. A Next.js
front end then renders the documents as a stack of typed sections. This
project models the parts of that system where a value is computed rather
than laid out, and proves properties of them in Dafny 4.11.

- **Home-page dispatch** (`page_dispatch.dfy`). Each section is looked up
  in the registry by its type tag. Only `sectionMain` and `sectionHeroMain`
  are registered; other sections are dropped. Each retained section gets an
  anchor id: its authored `sectionId` or `{type}-{index}`. When that id is
  already used, `-1`, `-2`, … is appended until it is free. Proved: the
  suffix loop always terminates within `|used|` steps; the ids on a page are
  pairwise distinct; rendering is prefix-stable; every registered section is
  rendered, in order; an unregistered section changes nothing.
- **Markdown to rich text** (`markdown.dfy`, `markdown_blocks.dfy`). This
  is the import script's converter. It handles `==highlight==`,
  `**bold**`/`__bold__` (bold wraps highlights through a recursive parse),
  and bullet lists. Its loops are methods proved equal to scan functions.
  Proved of those functions: the leftmost-match semantics of the regular
  expression and of `indexOf`; the merged match list is sorted by start
  and is a permutation of bold matches plus the highlights outside them;
  spans carry only the marks `highlight` and `strong`; a line without
  markers is one plain span; each non-blank line becomes exactly one block,
  in order.
- **Content-block normalisation** (`content_blocks.dfy`). The first wrapper
  key present (`image`, `listBlock`, `tableBlock`, `ctaBlock`,
  `buttonBlock`, `linkBlock`) decides the block type. That wrapper is
  lifted into typed fields with the script's defaults. An image block whose
  images all fail to resolve is dropped. Image resolution keeps an image
  already in stored form and turns an `image-...` asset id into a
  reference. Otherwise the path is uploaded, and the upload is a resolver
  parameter. The `sectionMain` import applies this to rows,
  nested content rows and their blocks.
- **Null-image cleanup** (`null_images.dfy`). Every `image: null` and
  `backgroundImage: null` member is deleted at every depth. Proved: the
  result has none left; cleaning is idempotent; a document changes exactly
  when it contained one, which is the script's "only update if something
  changed" test.
- **Section rendering rules**:
  - `SectionMain`: grid classes, column order, label placement, content
    block views.
  - `SectionHeroMain`: slide rotation as a class with a timer tick, and
    theme styling.
  - `SectionTestimonials`: the pager as a class. It holds the index, the
    page size, drag state and the dots.
  - `List`: icon sources, the heading-number pattern, the layout switch.
  - `CountUp`: value parsing, comma formatting, a fire-once observer.
  - The shared Portable Text mark components and their merge.
  - The testimonials schema's id validation and previews.

Behaviour of the code that the model exhibits as lemmas:

- `app/page.tsx`'s `'section'` fallback for a missing type can never be
  used for a rendered section. Registered types are never empty
  (`PageDispatch.RetainedUseOwnType`).
- The testimonials schema's description promises
  `section-testimonials-{index}` as the fallback anchor. The page would
  build `sectionTestimonials-{index}`, and the page does not register that
  type at all (`TestimonialsSchema.FallbackAnchorDiffers`).
- The testimonials pager's `goToNext` clamps to `items.length -
  itemsPerPage`. With fewer items than a page, that is negative
  (`TestimonialsPager.NextWithShortList`). A swipe reaches it even though
  the arrow is disabled.
- The last pagination dot can land beyond the last full page
  (`TestimonialsPager.LastDotPastLastPage`).
- A resize does not re-clamp the index
  (`TestimonialsPager.ResizeKeepsIndex`).
- Block normalisation is not idempotent when a block holds two wrapper
  keys. The first one is consumed, and a second pass re-tags the block by
  the next one (`ContentBlocks.TwoWrappersRetagged`).
- `CountUp` drops any suffix such as `%`. A numeric original is never
  comma-grouped (`CountUp.SuffixDropped`, `CountUp.NumberNeverGrouped`).

Modules: `Wrappers` (Option), `Json` (a JSON value with ordered members and
get, put and delete), `Strings` (trim, split, decimal digits). Then one
module per source file listed below.

## Model

| member | source | states |
|---|---|---|
| PageDispatch.Registry | app/page.tsx:10-13 | A renderer exists exactly for `sectionMain` and `sectionHeroMain` |
| PageDispatch.SuffixedInjective | app/page.tsx:57 | Two different counters never produce the same `{anchorId}-{counter}` |
| PageDispatch.FreeFromFree | app/page.tsx:55-58 | The suffix search stops at a free id within `\|used\|` steps, and every id it skips is taken |
| PageDispatch.UniqueId | app/page.tsx:53-59 | The loop returns an id not in the used set, built from the first free counter, with the counter bounded by the set's size (termination) |
| PageDispatch.RenderPage | app/page.tsx:36-70 | The mapping loop builds exactly the rendered list the page specification defines |
| PageDispatch.RenderIdsDistinct | app/page.tsx:52-59 | All anchor ids on a rendered page are pairwise distinct |
| PageDispatch.RenderPrefix | app/page.tsx:40-59 | Rendering a prefix of the sections gives a prefix of the output, so earlier ids never depend on later sections |
| PageDispatch.RenderStep | app/page.tsx:40-59 | Adding one section only appends to the earlier output |
| PageDispatch.RenderKeepsRegistered | app/page.tsx:40-69 | The output has one entry per registered section, in order, each with that section's renderer and its fields without `_type` |
| PageDispatch.UnknownTypeDropped | app/page.tsx:42-47 | An unregistered section adds nothing and consumes no id |
| PageDispatch.RenderNewId | app/page.tsx:49-59 | A registered section adds one entry; it gets its candidate id when that is free, otherwise `{candidate}-{k}` with `1 <= k <= \|used\|` and every smaller suffix taken |
| PageDispatch.RetainedUseOwnType | app/page.tsx:16-24 | A retained section without an authored id always uses its own type name; the `'section'` fallback is unreachable |
| PageDispatch.FallbackCandidatesDistinct | app/page.tsx:22-23 | Fallback ids of sections at different indexes never collide |
| PageDispatch.ExamplePage | app/page.tsx:16-59 | A hero, an authored `pricing` section and a main section get `sectionHeroMain-0`, `pricing`, `sectionMain-2` |
| PageDispatch.ExamplePageStart | app/page.tsx:16-59 | The first two sections of that page get `sectionHeroMain-0` and `pricing` |
| PageDispatch.ExampleDuplicateAuthoredId | app/page.tsx:53-58 | Two sections authored as `pricing` get `pricing` and `pricing-1` |
| Markdown.RunEnd | scripts/importPage.js:179 | The run of non-`=` characters ends at the next `=` or at the end of the line |
| Markdown.HighlightAt | scripts/importPage.js:179 | A match of `==([^=]+)==` at a position has at least one non-`=` character inside two `==` pairs |
| Markdown.NextHighlight | scripts/importPage.js:179-181 | A found match starts at or after the search position, lies inside the line and is a highlight match |
| Markdown.NextHighlightLeftmost | scripts/importPage.js:179-181 | `exec` finds the leftmost match, and reports none exactly when no position matches |
| Markdown.NextHighlightPair | scripts/importPage.js:179-181 | A found highlight starts with `==` |
| Markdown.FindHighlights | scripts/importPage.js:178-188 | The `exec` loop collects exactly the global-regex match sequence |
| Markdown.HighlightScanGood | scripts/importPage.js:178-188 | Every collected highlight lies inside the line, starts at or after the scan position and ends where the pattern's match ends |
| Markdown.IndexOf | scripts/importPage.js:198 | `indexOf` returns -1 or a position at or after `from` holding the pattern |
| Markdown.IndexOfLeftmost | scripts/importPage.js:198 | That position is the first occurrence, and -1 means there is none |
| Markdown.FindBoldPairs | scripts/importPage.js:193-241 | The delimiter-pair loop collects exactly the bold-pair sequence |
| Markdown.BoldScanGood | scripts/importPage.js:196-241 | Every bold match is delimited on both sides and records whether its inner text holds a highlight |
| Markdown.OutsideScanMembers | scripts/importPage.js:251-259 | Highlights are kept exactly when no bold match encloses them |
| Markdown.InsertSorted | scripts/importPage.js:262 | Inserting into a start-sorted list keeps it sorted |
| Markdown.InsertPermutes | scripts/importPage.js:262 | Insertion adds exactly the new match |
| Markdown.SortByStartCorrect | scripts/importPage.js:262 | Sorting by start gives a sorted permutation of its input |
| Markdown.MergedMembers | scripts/importPage.js:243-259 | The merged list holds all bold matches plus the highlights outside them, all inside the line |
| Markdown.AllMatches | scripts/importPage.js:243-262 | Every match to process lies inside the line |
| Markdown.AllMatchesCharacterised | scripts/importPage.js:243-262 | The match list is sorted by start and is a permutation of the merged matches |
| Markdown.MergeMatches | scripts/importPage.js:243-262 | The merge-and-sort code computes the sorted list of bold matches plus the highlights outside bold |
| Markdown.AddStrong | scripts/importPage.js:286-289 | Each inner span keeps its text and gains `strong` after its own marks |
| Markdown.EmitSpans | scripts/importPage.js:264-315 | The match-processing loop emits exactly the gap and marked spans the span scan defines |
| Markdown.ParseLineForHighlights | scripts/importPage.js:169-328 | The whole line parser computes the span list the parse specification defines |
| Markdown.PlainLine | scripts/importPage.js:317-325 | A line without `**`, `__` or `==` becomes one unmarked span |
| Markdown.ParseLineMarks | scripts/importPage.js:282-298 | Every span carries only `highlight` and `strong` marks |
| Strings.TrimProperties | scripts/importPage.js:331 | The trimmed line is a slice of the input with no whitespace at either end, and trimming again changes nothing |
| Strings.SplitJoin | scripts/importPage.js:158 | Splitting on `\n` and joining back gives the text again |
| MarkdownBlocks.ConvertMarkdownToBlocks | scripts/importPage.js:155-367 | The line loop with its pending list computes the block conversion function |
| MarkdownBlocks.ConvertScanBlocks | scripts/importPage.js:160-165 | Flushing the pending list never reorders blocks; the result is the emitted blocks, then the pending ones, then the blocks of the remaining lines |
| MarkdownBlocks.ConvertScanLine | scripts/importPage.js:330-363 | One step of the loop: a bullet is queued, a blank line flushes, a paragraph flushes then appends |
| MarkdownBlocks.BlocksFollowLines | scripts/importPage.js:330-363 | Each non-blank line yields exactly one block, in order: a bullet item of its stripped content or a paragraph of its trimmed text |
| MarkdownBlocks.ConvertMarkdownBlocks | scripts/importPage.js:155-158 | Converting non-empty text equals mapping its `\n`-split lines to blocks |
| ContentBlocks.KeyInjective | scripts/importPage.js:383-525 | Each block kind has its own wrapper key |
| ContentBlocks.FirstWrapperTruthy | scripts/importPage.js:383-525 | The chosen wrapper's key is present and truthy |
| ContentBlocks.FirstWrapperEarlierFalsy | scripts/importPage.js:383-525 | Every wrapper tested before the chosen one is absent or falsy |
| ContentBlocks.FirstWrapperNone | scripts/importPage.js:383-532 | No wrapper is chosen exactly when every wrapper key is falsy |
| ContentBlocks.ImagePath | scripts/importPage.js:62-72 | A string is its own path; for an object, the path is a non-empty string found in `url`, `image` or `path` |
| ContentBlocks.HandleImage | scripts/importPage.js:42-101 | A falsy reference resolves to nothing, a stored image to itself, and an `image-` asset id to a reference to it; whatever resolves is a stored image |
| ContentBlocks.HandleImageUploads | scripts/importPage.js:62-101 | Any other reference resolves exactly when it has a path and the upload of that path succeeds, and then refers to the uploaded asset |
| ContentBlocks.HandleImageIdempotent | scripts/importPage.js:45-49 | Resolving a resolved image again gives it back unchanged, whatever the upload would do |
| ContentBlocks.ConvertTextField | scripts/importPage.js:456-460 | A truthy string field becomes converted blocks; anything else, and every other key, is untouched |
| ContentBlocks.ResolveImageItem | scripts/importPage.js:391-401 | A slideshow item maps to null exactly when its image does not resolve |
| ContentBlocks.DropNulls | scripts/importPage.js:404 | The filter keeps exactly the non-null entries, in order |
| ContentBlocks.ResolvedImages | scripts/importPage.js:390-407 | The resolved list has no nulls and is empty exactly when every image fails |
| ContentBlocks.ImageDroppedIffUnresolved | scripts/importPage.js:383-432 | An image block is dropped exactly when all its slideshow images, or its single legacy image, fail to resolve |
| ContentBlocks.ImageShape | scripts/importPage.js:383-432 | A kept image block is typed `image`, has its `images` and loses the `image` wrapper |
| ContentBlocks.ImageFrame | scripts/importPage.js:383-432 | Lifting an image block leaves every other key alone |
| ContentBlocks.ImageKeepsWrappers | scripts/importPage.js:383-432 | Lifting an image block leaves the other wrapper keys alone |
| ContentBlocks.ListItem | scripts/importPage.js:452-467 | Object items stay objects, and other items pass through unchanged |
| ContentBlocks.ListItemShape | scripts/importPage.js:452-467 | An item is typed `listItem`; its string heading and body are converted, its icon is resolved, and other keys are kept |
| ContentBlocks.ListShape | scripts/importPage.js:433-471 | A list block is typed `listBlock`, its items are the processed items, and the wrapper is removed |
| ContentBlocks.ListDefaults | scripts/importPage.js:437-448 | Variant defaults to `default`, columns to 2, and a string heading is converted |
| ContentBlocks.ListFrame | scripts/importPage.js:433-471 | Lifting a list block leaves every other key alone |
| ContentBlocks.ListKeepsWrappers | scripts/importPage.js:433-471 | Lifting a list block leaves the other wrapper keys alone |
| ContentBlocks.Cell | scripts/importPage.js:484-491 | A truthy string cell is converted, another truthy cell is kept, and a falsy cell becomes `[]` |
| ContentBlocks.TableRow | scripts/importPage.js:482-493 | A table row's `a` and `b` become cells, and non-object rows pass through |
| ContentBlocks.TableShape | scripts/importPage.js:472-497 | A table block is typed `tableBlock` with processed rows, and the wrapper is removed |
| ContentBlocks.TableDefaults | scripts/importPage.js:476-480 | Column headings default to the empty string, and missing rows to `[]` |
| ContentBlocks.TableFrame | scripts/importPage.js:472-497 | Lifting a table block leaves every other key alone |
| ContentBlocks.TableKeepsWrappers | scripts/importPage.js:472-497 | Lifting a table block leaves the other wrapper keys alone |
| ContentBlocks.CtaShape | scripts/importPage.js:498-505 | A CTA block gets title, url and style, defaulting to the empty string, the empty string and `primary` |
| ContentBlocks.CtaFrame | scripts/importPage.js:498-505 | Lifting a CTA block leaves every other key alone |
| ContentBlocks.CtaKeepsWrappers | scripts/importPage.js:498-505 | Lifting a CTA block leaves the other wrapper keys alone |
| ContentBlocks.Button | scripts/importPage.js:516-520 | Each button becomes exactly `{title, url, style}` |
| ContentBlocks.ButtonDefaults | scripts/importPage.js:516-520 | Button title and url default to the empty string, and style to `primary` |
| ContentBlocks.ButtonShape | scripts/importPage.js:506-524 | A button block is typed `buttonBlock` with the mapped buttons, or `[]` |
| ContentBlocks.ButtonFrame | scripts/importPage.js:506-524 | Lifting a button block leaves every other key alone |
| ContentBlocks.ButtonKeepsWrappers | scripts/importPage.js:506-524 | Lifting a button block leaves the other wrapper keys alone |
| ContentBlocks.LinkShape | scripts/importPage.js:525-531 | A link block gets text and url, defaulting to the empty string |
| ContentBlocks.LinkFrame | scripts/importPage.js:525-531 | Lifting a link block leaves every other key alone |
| ContentBlocks.LinkKeepsWrappers | scripts/importPage.js:525-531 | Lifting a link block leaves the other wrapper keys alone |
| ContentBlocks.ProcessContentBlock | scripts/importPage.js:379-535 | The in-place block processor computes the normalisation function |
| ContentBlocks.NoWrapperUnchanged | scripts/importPage.js:532-534 | A block with no wrapper key is returned as it is |
| ContentBlocks.OnlyImagesFail | scripts/importPage.js:405-431 | Only an image block can be dropped |
| ContentBlocks.NormalizeTagsFirstWrapper | scripts/importPage.js:383-532 | A normalised block is tagged with the first wrapper's type and no longer holds that wrapper |
| ContentBlocks.SingleWrapperStable | scripts/importPage.js:383-532 | Normalising a block with a single wrapper twice gives the same result as once |
| ContentBlocks.TwoWrappersRetagged | scripts/importPage.js:383-532 | With a second wrapper key present, a second pass re-tags the block, so normalisation is not idempotent |
| ContentBlocks.ProcessValue | scripts/importPage.js:869-882 | A value is dropped only when it is an object whose normalisation fails |
| ContentBlocks.Present | scripts/importPage.js:874-886 | The null filter keeps exactly the present values |
| ContentBlocks.RowText | scripts/importPage.js:858-864 | A truthy field of the row data is copied into the block, converted when it is a string; other keys are untouched |
| ContentBlocks.ContentRowShape | scripts/importPage.js:852-878 | A content row is typed `contentRow`, its nested blocks are processed and filtered, and the wrapper is removed |
| ContentBlocks.ContentRowText | scripts/importPage.js:858-864 | A content row takes heading and body from its row data, converting strings |
| ContentBlocks.ContentBlocksNoNull | scripts/importPage.js:848-886 | Processed content blocks are exactly the surviving entries, and every dropped entry was a failed image block |
| ContentBlocks.ImportRow | scripts/importPage.js:837-890 | Object rows stay objects, and other rows pass through unchanged |
| ContentBlocks.ImportRowShape | scripts/importPage.js:838-889 | A row's heading, subheading and body are converted; an array of content blocks is processed; other keys are kept |
| ContentBlocks.ImportRows | scripts/importPage.js:835-891 | Every row is imported and the row count is kept |
| ContentBlocks.ImportSectionMainShape | scripts/importPage.js:822-893 | A main section re-resolves a truthy background image (a failure would remove it) and imports its rows |
| ContentBlocks.ImportSectionMainKeepsResolvedBackground | scripts/importPage.js:630-832 | After the background image is resolved for every section, the `sectionMain` re-resolution keeps it as it is, so the removal never happens |
| ContentBlocks.ImportOtherSectionUnchanged | scripts/importPage.js:822 | Other section types are left as they are by this step |
| NullImages.Clean | scripts/fixNullImages.js:23-55 | Scalars are unchanged, arrays keep their length with each item cleaned, objects stay objects |
| NullImages.RemoveNullImages | scripts/fixNullImages.js:23-55 | The recursive loop computes the cleaning function |
| NullImages.KeptMembers | scripts/fixNullImages.js:30-52 | The kept members are exactly those that are not `image: null` or `backgroundImage: null` |
| NullImages.CleanMembersShape | scripts/fixNullImages.js:30-52 | Cleaning an object keeps its non-null-image members in order, each value cleaned |
| NullImages.CleanRemovesNullImages | scripts/fixNullImages.js:23-55 | The result holds no null `image` or `backgroundImage` field at any depth |
| NullImages.CleanMembersRemoveNullImages | scripts/fixNullImages.js:30-52 | A cleaned member list holds no null image field at any depth |
| NullImages.CleanFixesClean | scripts/fixNullImages.js:23-55 | A document without null images is returned unchanged |
| NullImages.CleanMembersFixClean | scripts/fixNullImages.js:30-52 | A clean member list is returned unchanged |
| NullImages.CleanIdempotent | scripts/fixNullImages.js:23-55 | Cleaning twice equals cleaning once |
| NullImages.CleanChangesExactlyDirty | scripts/fixNullImages.js:77-82 | A page is rewritten exactly when it contains a null image |
| SectionMain.PropOf | components/sections/SectionMain.tsx:50-52 | Optional chaining on a missing layout yields nothing |
| SectionMain.RenderPT | components/sections/SectionMain.tsx:31-35 | Falsy renders nothing; an array renders as is; anything else becomes one block with one span |
| SectionMain.GridClass | components/sections/SectionMain.tsx:54-61 | The grid class is one of the four known classes |
| SectionMain.GridClassOfSplit | components/sections/SectionMain.tsx:50-61 | Each column split picks its grid class, and a missing or unknown split is one column |
| SectionMain.OrderClassesAgree | components/sections/SectionMain.tsx:63-77 | The text column and the left column get the same order class, `md:order-2` exactly when the text column is `right` |
| SectionMain.LeftColumnAlwaysFirst | components/sections/SectionMain.tsx:75-77 | The left column is never ordered after the text column |
| SectionMain.LabelPlacement | components/sections/SectionMain.tsx:52-82 | A truthy label is stacked unless the position is `leftCol`, and shown in the left column exactly when it is |
| SectionMain.LabelStackedByDefault | components/sections/SectionMain.tsx:52 | Without a label position the label is stacked |
| SectionMain.ViewBlock | components/sections/SectionMain.tsx:87-138 | A block has a view exactly when its type is `image`, `listBlock` or `tableBlock` |
| SectionMain.ViewBlocks | components/sections/SectionMain.tsx:86-139 | Content blocks are viewed one for one, and a non-array gives none |
| SectionMain.ListViewDefaults | components/sections/SectionMain.tsx:101-108 | A list block renders with items `[]`, columns 1 and variant `default` when missing |
| SectionMain.BlocksInOneColumn | components/sections/SectionMain.tsx:84-172 | Content blocks appear in the left column exactly when the label position is `leftCol`, and in the text column otherwise |
| SectionMain.RenderSection | components/sections/SectionMain.tsx:42-49 | Every row is rendered, one for one |
| SectionMain.SectionThemeClasses | components/sections/SectionMain.tsx:43-44 | `dark` gives a grey background, any other theme white; `midnight` alone inverts the prose |
| TestimonialsPager.PreviousIndex | components/sections/SectionTestimonials.tsx:38-40 | The previous index is never negative and is one page back or 0 |
| TestimonialsPager.NextIndex | components/sections/SectionTestimonials.tsx:42-44 | The next index is one page on, clamped to `n - pageSize` |
| TestimonialsPager.PageSizeFor | components/sections/SectionTestimonials.tsx:28-30 | Two items per page exactly from 768 pixels wide, otherwise one |
| TestimonialsPager.CeilDiv | components/sections/SectionTestimonials.tsx:36 | The page count is the least number of pages covering all items |
| TestimonialsPager.Pager.constructor | components/sections/SectionTestimonials.tsx:20-24 | A new pager starts at index 0, not dragging, one item per page |
| TestimonialsPager.Pager.Resize | components/sections/SectionTestimonials.tsx:27-34 | A resize sets the page size from the width and changes nothing else |
| TestimonialsPager.Pager.GoToPrevious | components/sections/SectionTestimonials.tsx:38-40 | The index moves one page back, floored at 0 |
| TestimonialsPager.Pager.GoToNext | components/sections/SectionTestimonials.tsx:42-44 | The index moves one page on, clamped |
| TestimonialsPager.Pager.GoToPage | components/sections/SectionTestimonials.tsx:46-48 | A dot sets the index to page times page size |
| TestimonialsPager.Pager.DragStart | components/sections/SectionTestimonials.tsx:51-58 | A drag records its start position and the dragging flag |
| TestimonialsPager.Pager.DragEnd | components/sections/SectionTestimonials.tsx:60-84 | A drag of more than 50 pixels to the left goes next and to the right goes back; otherwise the index stays; a drag end without a start does nothing |
| TestimonialsPager.StepsStayInRange | components/sections/SectionTestimonials.tsx:38-44 | From an index in `[0, n - pageSize]`, both arrows stay in that range |
| TestimonialsPager.NextWithShortList | components/sections/SectionTestimonials.tsx:43 | With fewer items than a page, going next produces a negative index |
| TestimonialsPager.ArrowsDisabledAtEnds | components/sections/SectionTestimonials.tsx:91-113 | An arrow leaves the index unchanged exactly when its button is disabled |
| TestimonialsPager.DotLandsOnItem | components/sections/SectionTestimonials.tsx:190-195 | Each dot's index points at an item, and that dot is then the active one |
| TestimonialsPager.DotsShownIffOverflow | components/sections/SectionTestimonials.tsx:188 | Dots are shown exactly when the items do not fit on one page |
| TestimonialsPager.LastDotPastLastPage | components/sections/SectionTestimonials.tsx:190-193 | With 5 items two per page, the third dot sets an index past `n - pageSize` |
| TestimonialsPager.NextWalk | components/sections/SectionTestimonials.tsx:42-44 | With 5 items two per page, repeated next presses from 0 visit 2, 3, 3 |
| TestimonialsPager.ResizeKeepsIndex | components/sections/SectionTestimonials.tsx:27-34 | After widening with 4 items at index 3, the index stays 3, outside the valid range |
| HeroMain.Advance | components/sections/SectionHeroMain.tsx:50-55 | k ticks always land on a valid slide |
| HeroMain.TickWraps | components/sections/SectionHeroMain.tsx:52 | A tick moves to the next slide, wrapping from the last to the first |
| HeroMain.AdvanceForward | components/sections/SectionHeroMain.tsx:52 | Before the wrap, k ticks advance by exactly k |
| HeroMain.AdvanceCompose | components/sections/SectionHeroMain.tsx:52 | j ticks then k ticks equal j + k ticks |
| HeroMain.FullCycleReturns | components/sections/SectionHeroMain.tsx:52 | As many ticks as slides return to the same slide |
| HeroMain.Periodic | components/sections/SectionHeroMain.tsx:52 | The rotation is periodic in the slide count |
| HeroMain.Rotation.constructor | components/sections/SectionHeroMain.tsx:40-55 | The rotation starts at slide 0 with the interval running |
| HeroMain.Rotation.Tick | components/sections/SectionHeroMain.tsx:51-53 | A running interval advances the slide modulo the count; a cancelled one does nothing |
| HeroMain.Rotation.Cancel | components/sections/SectionHeroMain.tsx:54 | Clearing the interval stops it and keeps the slide |
| HeroMain.Rotation.SlidesChanged | components/sections/SectionHeroMain.tsx:50-55 | A new slide count restarts the interval and keeps the index, which is valid exactly when it is below the new count |
| HeroMain.TickTimes | components/sections/SectionHeroMain.tsx:50-53 | k ticks of a running rotation advance it by k modulo the count |
| HeroMain.SectionBackground | components/sections/SectionHeroMain.tsx:65-74 | `default` gives white, `service` gives `#394FA2`, and other themes give no background |
| HeroMain.BlendMode | components/sections/SectionHeroMain.tsx:77-78 | `multiply` for `default`, `color-dodge` for `service`, otherwise `normal` |
| HeroMain.TextColor | components/sections/SectionHeroMain.tsx:80-81 | Dark text exactly for `default` and `service`, white otherwise |
| HeroMain.DarkTextOnStyledThemes | components/sections/SectionHeroMain.tsx:65-81 | Text is dark exactly when the slide has a background, and the blend is `normal` exactly when it has none |
| HeroMain.BackgroundMedia | components/sections/SectionHeroMain.tsx:107-125 | An image background needs type `image` and a URL, and a video background needs type `video` and a video URL |
| HeroMain.ButtonClass | components/sections/SectionHeroMain.tsx:237 | Only the first button is primary |
| CountUp.KeepNumeric | components/ui/CountUp.tsx:23 | Only digits and dots survive, and the string never grows |
| CountUp.KeepNumericAppend | components/ui/CountUp.tsx:23 | Stripping distributes over concatenation |
| CountUp.ParseCleaned | components/ui/CountUp.tsx:24-25 | The float prefix fails exactly when there is no leading digit and no dot followed by a digit |
| CountUp.ParseValue | components/ui/CountUp.tsx:21-26 | A number is taken as is; a string yields a decimal whose fraction is all digits |
| CountUp.Round | components/ui/CountUp.tsx:36 | Rounding adds one exactly when the first fraction digit is 5 or more |
| CountUp.Group | components/ui/CountUp.tsx:40 | Three digits or fewer are left ungrouped |
| CountUp.GroupRoundTrip | components/ui/CountUp.tsx:40 | Removing the commas from a grouped number gives the digits back |
| CountUp.GroupLength | components/ui/CountUp.tsx:40 | Grouping inserts one comma per complete group of three after the first digit, and only digits and commas appear |
| CountUp.GroupCommaIff | components/ui/CountUp.tsx:40 | A comma appears exactly when there are four or more digits |
| CountUp.FormatValue | components/ui/CountUp.tsx:29-44 | The display is never empty, and a whole numeric original shows the whole part |
| CountUp.ParseRendered | components/ui/CountUp.tsx:21-26 | Parsing the decimal rendering of a number gives it back |
| CountUp.FormatParseRoundTrip | components/ui/CountUp.tsx:21-44 | Parsing a formatted string value gives the rounded number |
| CountUp.WholeRoundTrip | components/ui/CountUp.tsx:21-44 | A whole target survives format then parse |
| CountUp.FormatCommaIff | components/ui/CountUp.tsx:34-41 | The display has a comma exactly when the original had one and the value is at least 1000 |
| CountUp.NumberNeverGrouped | components/ui/CountUp.tsx:30-31 | A numeric original is never comma-grouped |
| CountUp.GroupedExample | components/ui/CountUp.tsx:21-44 | `"1,250"` parses to 1250 and displays as `1,250` |
| CountUp.SuffixDropped | components/ui/CountUp.tsx:21-44 | `"98%"` displays as `98` |
| CountUp.NearWholeTarget | components/ui/CountUp.tsx:63 | For a whole target, the display snaps to it exactly once the value reaches it |
| CountUp.Counter.constructor | components/ui/CountUp.tsx:12-18 | The counter starts out of view, showing `0`, without ghost |
| CountUp.Counter.Observe | components/ui/CountUp.tsx:14-56 | Entering view once resets the display to `0` and starts one animation; later observations change nothing |
| CountUp.Counter.Update | components/ui/CountUp.tsx:61-65 | A frame shows the formatted value, snapping to the target within half a unit |
| CountUp.Counter.Complete | components/ui/CountUp.tsx:66-74 | Completion shows the formatted target and starts the ghost with that value |
| CountUp.Counter.HideGhost | components/ui/CountUp.tsx:76-78 | The timeout hides the ghost and nothing else |
| CountUp.ShownReadsBack | components/ui/CountUp.tsx:61-65 | For a whole-number text, a frame's display reads back as the smaller of the frame and the target, so it never shows more than the target |
| CountUp.CountToEnd | components/ui/CountUp.tsx:50-80 | For a whole-number text, each frame's display reads back as the smaller of the frame and the target, and the final display reads back as the original's value |
| ListRules.ColumnClass | components/ui/List.tsx:55-61 | The class is `cols-` and the column count in decimal, 2 by default |
| ListRules.ColumnClassInjective | components/ui/List.tsx:61 | Different column counts get different classes |
| ListRules.ImageUrl | components/ui/List.tsx:86-90 | On `snapshot` only the first three items have an icon |
| ListRules.UploadThemesExactly | components/ui/List.tsx:70-76 | Uploaded icons are allowed for exactly six themes |
| ListRules.ShowIffSource | components/ui/List.tsx:78-90 | Outside `snapshot`, an image should show exactly when it has a source; on `snapshot` it shows for the first three |
| ListRules.IconSourcesDisjoint | components/ui/List.tsx:86-90 | Upload themes use the item's icon, and default-icon themes use their fixed icon |
| ListRules.PatternHasShape | components/ui/List.tsx:134 | A string matching `^\d+([,.]\d+)*$` is digits separated by single commas or dots |
| ListRules.ShapeMatchesPattern | components/ui/List.tsx:134 | Every such string matches the pattern |
| ListRules.NumberPatternIff | components/ui/List.tsx:134 | The pattern and its characterisation agree |
| ListRules.FigureExamples | components/ui/List.tsx:133-134 | `1,250` counts on `cards-data`; `98%` does not; `1,250` does not count outside `cards-data` |
| ListRules.Animation | components/ui/List.tsx:127 | Every item animates from the left or from the right |
| ListRules.AnimationAlternates | components/ui/List.tsx:127 | Animations alternate, starting from the left |
| ListRules.RenderItem | components/ui/List.tsx:124-262 | The item's animation follows its index, and the flag bar appears exactly on `flags` |
| ListRules.ImageRenderedIff | components/ui/List.tsx:140-203 | Outside `cards-data`, the icon is rendered exactly when the image should show and has a source, with that source and the `Icon ...` alt text |
| ListRules.CardsServiceLayoutIff | components/ui/List.tsx:129-167 | The inline icon layout is used exactly on `cards-service` with an icon shown |
| ListRules.CounterIff | components/ui/List.tsx:134-215 | The heading animates as a counter exactly on `counter` with a heading, or on `cards-data` with a numeric heading, whose trimmed text it counts |
| ListRules.ImageOnlyHasNoText | components/ui/List.tsx:205 | Text content is omitted exactly on `image-only` |
| ListRules.LinkWrapping | components/ui/List.tsx:250-255 | An item with a URL is wrapped in a link labelled by its heading or `Learn more` |
| ListRules.SectionThemeOnlyForCardsData | components/ui/List.tsx:121-245 | The section theme attribute appears exactly on `cards-data` |
| ListRules.AltWithoutHeading | components/ui/List.tsx:175-199 | Without a heading the alt text reads `Icon undefined` |
| ListRules.RenderItems | components/ui/List.tsx:53-127 | Items render one for one, with theme `default` and section theme `light` as defaults |
| PortableText.Merge | lib/portableTextComponents.tsx:35-46 | The merged components always hold a marks table |
| PortableText.TopLevelOverride | lib/portableTextComponents.tsx:38-40 | Outside `marks`, custom entries replace the base ones and nothing else is added |
| PortableText.MarksOverlay | lib/portableTextComponents.tsx:41-44 | A custom mark wins; otherwise the base mark stays |
| PortableText.BaseMarksAlwaysPresent | lib/portableTextComponents.tsx:9-44 | The four base marks are always present after a merge |
| PortableText.NoCustomMarks | lib/portableTextComponents.tsx:41-44 | Without custom marks the base marks are used unchanged |
| PortableText.MergeEmpty | lib/portableTextComponents.tsx:35-46 | Merging nothing gives the base components |
| PortableText.MergeIdempotent | lib/portableTextComponents.tsx:35-46 | Merging twice equals merging once |
| PortableText.LinkHref | lib/portableTextComponents.tsx:15 | The link target is never empty: the given href, or `#` |
| PortableText.LinkMark | lib/portableTextComponents.tsx:14-27 | The anchor's href is the resolved link target |
| PortableText.ExternalIff | lib/portableTextComponents.tsx:16-21 | A new tab and `noopener noreferrer` are set exactly when the href starts with `http` |
| PortableText.MissingHrefIsLocal | lib/portableTextComponents.tsx:15-21 | A missing href links to `#` in the same tab |
| PortableText.PrefixOnly | lib/portableTextComponents.tsx:16 | The test is a case-sensitive prefix test, so `httpdocs/` counts as external and `HTTP://` does not |
| TestimonialsSchema.ValidateSectionId | sanity/schemaTypes/sectionTestimonials.ts:16-25 | An empty id is accepted; otherwise it is accepted exactly when it is URL-safe, and rejected with the fixed message |
| TestimonialsSchema.ValidateIff | sanity/schemaTypes/sectionTestimonials.ts:18-23 | Validation rejects exactly non-empty ids with a character outside `[a-z0-9-]` |
| TestimonialsSchema.RejectedExamples | sanity/schemaTypes/sectionTestimonials.ts:20-23 | `Our Clients` and `client_quotes` are rejected, and `client-quotes-2` is accepted |
| TestimonialsSchema.Truncate | sanity/schemaTypes/sectionTestimonials.ts:67 | Text of 50 characters or fewer is kept; longer text becomes 53 characters |
| TestimonialsSchema.ItemPreview | sanity/schemaTypes/sectionTestimonials.ts:59-69 | The item subtitle is never empty |
| TestimonialsSchema.TitleIsPrefix | sanity/schemaTypes/sectionTestimonials.ts:67 | The title keeps the first 50 characters of the quote and ends in `...` exactly when it was cut |
| TestimonialsSchema.PreviewFallbacks | sanity/schemaTypes/sectionTestimonials.ts:60-68 | A missing quote gives `Testimonial`, and a missing source gives `No source` |
| TestimonialsSchema.SectionPreviewStatesCount | sanity/schemaTypes/sectionTestimonials.ts:82-88 | The section preview is titled `Testimonials Section`; its subtitle starts with the item count (0 when missing) and is plural exactly when the count is not 1 |
| TestimonialsSchema.FallbackAnchorDiffers | sanity/schemaTypes/sectionTestimonials.ts:15 | The page's fallback id is `sectionTestimonials-{index}`, not the described `section-testimonials-{index}`, and the type is not registered on the page |

## Left out

- Generated `_key` values (`generateKey`) and `Math.random` are not modelled. Keys are random, so the model omits them.
- File reading, front-matter parsing and the CMS client (`importPage`'s fetches, uploads, `createOrReplace`, `getLastOrderRank`) are left out, along with `scripts/findPage.js`. These are I/O.
- In `handleImage`, joining the path onto the working directory, the file-existence test and the upload are I/O. They are the resolver parameter, which maps a path to the uploaded asset's id or to nothing. The checks before them are modelled.
- `importPage` converts text for hero slides, details, snapshots, CTA and list sections (lines 540-817), and resolves `section.image` at lines 626-628. These are not modelled. The `sectionMain` branch at lines 822-893 is modelled, and the background resolution at lines 630-632 appears as the premise of `ContentBlocks.ImportSectionMainKeepsResolvedBackground`.
- `fixNullImages`'s fetch of pages, patching, and console output are left out. The write-back decision is modelled as `NullImages.CleanChangesExactlyDirty`.
- JSON objects are ordered member lists and are meant not to repeat keys. Reading a key finds its first occurrence; deleting a key removes every occurrence.
- A JavaScript TypeError from reading a property of `null` is not modelled. For example, `imgItem.image` throws when an entry of `image.images` is `null` (scripts/importPage.js:392), and `block.contentRow` throws when an entry of `contentBlocks` is `null` (line 852). The model reads such a property as missing.
- ContentBlocks.ListItem: the import script is an ES module, so it runs in strict mode. There, `item._key = ...` on a `null`, string, number or boolean list item throws a TypeError and aborts the import (line 453). The model passes such an item through unchanged.
- ContentBlocks.TableRow: likewise, `row._key = ...` on a non-object table row throws (line 483). The model passes the row through.
- ContentBlocks.Button: likewise, `button._key = ...` on a non-object button throws (line 514). The model builds a default `{title, url, style}` button from it.
- ContentBlocks.ProcessValue: likewise, a non-object content block throws: `null` at `block.contentRow` (line 852), and a string, number or boolean at `block._key = ...` (line 380). The model passes the value through.
- ContentBlocks.ImportRow: likewise, `row._key = ...` on a non-object row of a `sectionMain` section throws (line 838). The model passes the row through.
- ContentBlocks.ResolveImageItem: a `null` slideshow item throws at `imgItem.image` (line 392). The model treats it as an item whose image does not resolve.
- `SectionMain` treats a non-array `contentBlocks` as no blocks. The source would throw there.
- Timers and React state updates are not modelled as concurrent events. `setInterval` and `clearInterval` are `Rotation.Tick` and `Rotation.Cancel`. The CountUp timeout is `Counter.HideGhost`. Viewport and touch events are method arguments.
- Floating point in `CountUp` is out of scope: animation values and targets are natural numbers, fractional digits are kept only for rounding, and `toFixed(2)` for non-whole numeric originals, the easing curve and `toString`'s exponent form for huge values are not modelled.
- CountUp.FormatValue: states only the whole-number display for numeric originals, because fractional numeric originals use `toFixed`, which is floating point.
- TestimonialsSchema.Truncate: Dafny strings count Unicode scalar values, while `substring(0, 50)` and `length` count UTF-16 code units. A quote with characters outside the Basic Multilingual Plane, such as emoji, is cut at a different place, and the source can split a surrogate pair, which the model never does.
- TestimonialsSchema.TitleIsPrefix: the 50-character prefix is counted in Unicode scalar values, not UTF-16 code units, for the reason given for Truncate.
- CountUp.Counter.Update: the display of intermediate frames uses whole values only, because frame values are floats in the source.
- `toPlainText`, `urlFor`, Next.js `Image` and the Portable Text renderer are external. Their outputs are parameters or opaque strings.
- The framer-motion animations, class strings beyond those whose selection is modelled, and the static JSX layout are presentation, not logic.
- The declarative schema fields of `sectionTestimonials.ts`, other than its id validation and previews, are configuration with no behaviour.
- The testimonials section component renders items and quotes. Only its paging state and controls are modelled.
