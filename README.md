# Portfolio site components in Dafny

This project models the logic inside a personal portfolio website built with
React. The site is mostly presentation. The parts with behaviour are these:

- **CV export** (`PDFGenerator`). A hidden CV view is rasterised to a canvas.
  The canvas is scaled to a page width of 210, and the whole image is drawn
  onto page after page, moved up by 295 each time. While this runs, the
  download button is disabled and reads "Generating PDF...".
- **List filters** (`ProjectFilter`, `Certificates`, `LinuxCommands`,
  `SystemMonitor`). Each is an order-preserving filter with an "all" choice
  that bypasses it. Around the filters sit the category buttons with their
  counts, the skill tags of a certificate card (at most three, plus a "+n"
  badge), and the list of service choices for the system log. That list is
  'all' followed by the distinct services in the order they first appear.
- **Small UI state machines.** These are the certificate modal (a card click
  opens it; the backdrop or the close button closes it; a click in its body
  stops propagation), the "Copied!" marker of the Linux command list, the
  live/stop toggle and render guard of the system monitor, and the
  network-architecture diagram. The diagram has node anchor positions, the
  shift applied to response edges, endpoint lookup, label midpoints and two
  toggles.

Layout: `seqs.dfy` holds what the components share: `Option`, `Distinct`, the
generic `Filter` and `IsSubsequence`, and lemmas about them. Each component
has its own module and file:

- `pdf_generator.dfy`
- `project_filter.dfy`
- `certificates.dfy`
- `linux_commands.dfy`
- `system_monitor.dfy`
- `network_architecture.dfy`

State that a component changes through React `useState` is a class whose
methods replace fields. Render-time expressions are functions. The page loop
of the export is a `while` loop. It is proved to produce `Layout(h)`, a
specification function whose properties are proved as lemmas.

Lengths in the export are modelled as `real`.

Points where the code behaves differently from what one might expect:

- **Page count.** One might expect ceil(H/295) pages for an image of height
  H. The loop test `heightLeft >= 0` (src/components/PDFGenerator.tsx:53)
  emits `1 + floor(H/295)` pages instead. So an image whose height is an
  exact multiple of 295 gets a trailing page that shows nothing.
  `BlankLastPageIff` and `TwoPageImageGetsThreePages` state this.
- **Shift and page height.** Line 42 labels 295 as the A4 height, but the
  document made at line 39 has A4 pages, which are 297 high. Each page is
  shifted by 295, so a printed page repeats the last 2 rows of the page
  before it. `PrintedPagesOverlap` and `LastPrintedPageIff` state this.
- **Re-entry.** Nothing in `generatePDF` rejects a second call. The only
  guard is the button's `disabled` attribute, set before the capture is
  awaited (lines 21-24) and cleared after it (lines 64-67 and 73-76).
- **Cleanup.** The content node keeps its `hidden` class throughout
  (line 89). `generatePDF` never changes it, so nothing is modelled for it.
- **Failure report.** A failure is only logged with `console.error`
  (line 69). The user sees nothing but the button returning to normal.

## Model

| member | source | states |
|---|---|---|
| `Seqs.Filter` | src/components/ProjectFilter.tsx:45 | `Array.prototype.filter`, as every list view uses it: the result is no longer than the list and holds only elements of the list that satisfy the predicate |
| `Seqs.FilterIsSubsequence` | src/components/ProjectFilter.tsx:45 | the filtered list keeps the original order: it is a subsequence of the input |
| `Seqs.FilterMembership` | src/components/ProjectFilter.tsx:45 | a value is in the result exactly when it is in the list and satisfies the predicate |
| `Seqs.FilterMultiset` | src/components/ProjectFilter.tsx:45 | each value is kept as many times as it occurs in the list when it satisfies the predicate, and never otherwise |
| `Seqs.FilterIdempotent` | src/components/ProjectFilter.tsx:45 | filtering a filtered list again by the same predicate changes nothing |
| `Seqs.FilterKeepsAll` | src/components/ProjectFilter.tsx:45 | when every element satisfies the predicate, the filter returns the list itself |
| `PdfGenerator.ScaledHeight` | src/components/PDFGenerator.tsx:41-43 | the scaled height is non-negative and keeps the canvas aspect ratio: imgHeight · canvas.width = canvas.height · 210 |
| `PdfGenerator.PageCount` | src/components/PDFGenerator.tsx:44-58 | the page count n satisfies (n−1)·295 ≤ imgHeight < n·295, that is n = 1 + floor(imgHeight/295) |
| `PdfGenerator.PageEmittedIff` | src/components/PDFGenerator.tsx:50-58 | page k is emitted exactly when k·295 ≤ imgHeight, which is the `heightLeft >= 0` test before that page |
| `PdfGenerator.PageAt` | src/components/PDFGenerator.tsx:49-56 | page k draws the whole image (width 210, height imgHeight) shifted up so that, when its window starts inside the image, it shows min(295, imgHeight − k·295) of it |
| `PdfGenerator.Layout` | src/components/PDFGenerator.tsx:44-58 | the document has at least one page, and every page's window starts inside the image (0 ≤ −y ≤ imgHeight) |
| `PdfGenerator.Paginate` | src/components/PDFGenerator.tsx:44-58 | the loop terminates and yields `Layout(imgHeight)`: 1 + floor(imgHeight/295) pages, with page k drawn at x 0 and y −k·295 (page 0 at offset 0), width 210 and height imgHeight |
| `PdfGenerator.FullPagesBeforeLast` | src/components/PDFGenerator.tsx:53-57 | every page before the last shows a full 295 of the image |
| `PdfGenerator.PagesCoverImage` | src/components/PDFGenerator.tsx:46-57 | measured in 295-high shift windows (not the printed A4 page), the lengths the pages show add up to exactly imgHeight, so these windows leave no gap and no overlap |
| `PdfGenerator.BlankLastPageIff` | src/components/PDFGenerator.tsx:53 | the last page shows nothing of the image exactly when imgHeight is a whole multiple of 295 |
| `PdfGenerator.TwoPageImageGetsThreePages` | src/components/PDFGenerator.tsx:53-58 | an image 590 high is exported on 3 pages, the third of them blank |
| `PdfGenerator.PrintedPageExtent` | src/components/PDFGenerator.tsx:39-57 | the 297-high printed page k shows image rows from k·295 to min(imgHeight, k·295 + 297) |
| `PdfGenerator.PrintedPagesOverlap` | src/components/PDFGenerator.tsx:39-57 | a printed page runs past the start of the next page by min(2, the image left after that start), so it runs past by exactly 2 iff the image extends at least 2 beyond the next page's start |
| `PdfGenerator.LastPrintedPageIff` | src/components/PDFGenerator.tsx:39-58 | the printed pages reach the end of the image; with two or more pages, the last one prints no new row iff the image ends at most 2 past that page's start |
| `PdfGenerator.SecondPrintedPageRepeatsFirst` | src/components/PDFGenerator.tsx:39-58 | an image 296 high gets 2 pages, and the second prints only the row the first already printed |
| `PdfGenerator.DownloadButton.constructor` | src/components/PDFGenerator.tsx:82-88 | the button starts enabled and reads 'Download CV' |
| `PdfGenerator.DownloadButton.Set` | src/components/PDFGenerator.tsx:22-23 | assigns `disabled` and the text, and records the new state as the latest one shown |
| `PdfGenerator.ExportFilename` | src/components/PDFGenerator.tsx:12 | the `filename` prop when it is given, 'Oleksii_Melnichuk_CV.pdf' when it is absent |
| `PdfGenerator.StartExport` | src/components/PDFGenerator.tsx:15-27 | the export starts iff the content node is set; if not, the button is untouched; if so, the button is disabled and reads 'Generating PDF...' while the capture is awaited |
| `PdfGenerator.FinishExport` | src/components/PDFGenerator.tsx:27-78 | once the capture settles, a failure yields `Failed`, and a success saves `Layout` of the scaled height under the `filename` prop, or 'Oleksii_Melnichuk_CV.pdf' when it is absent; either way the button is enabled again and reads 'Download CV' |
| `PdfGenerator.GeneratePdf` | src/components/PDFGenerator.tsx:12-78 | with no content node nothing happens and the button is untouched; otherwise the button goes through 'Generating PDF...' (disabled) and then back to 'Download CV' (enabled), on success and on a capture failure alike; a failure yields `Failed`, and a success saves `Layout` of the scaled height under the given or default file name |
| `ProjectFilter.Selection` | src/components/ProjectFilter.tsx:42-46 | the list `handleFilter` passes to `onFilter`: never longer than the project list and made of its projects; `SelectionSpec` says which |
| `ProjectFilter.SelectionSpec` | src/components/ProjectFilter.tsx:42-45 | 'All' passes the project list unchanged; any other tag passes exactly the projects whose technologies include it, each as many times as it occurs in the list (no match dropped, nothing else kept), as a subsequence in the original order |
| `ProjectFilter.SelectionIdempotent` | src/components/ProjectFilter.tsx:45 | filtering the result again by the same tag returns it unchanged |
| `ProjectFilter.AllTechsTable` | src/components/ProjectFilter.tsx:19-35 | the tag list starts with 'All' and has no duplicate tag |
| `ProjectFilter.ProjectFilterView.constructor` | src/components/ProjectFilter.tsx:37-38 | the active tag starts as 'All' |
| `ProjectFilter.ProjectFilterView.HandleFilter` | src/components/ProjectFilter.tsx:40-47 | sets `active` to the chosen tag on both branches and emits the selection for that tag |
| `Certificates.CertificateIdsDistinct` | src/components/Certificates.tsx:20-93 | the certificate ids, used as list keys, are pairwise distinct |
| `Certificates.Shown` | src/components/Certificates.tsx:113-115 | the certificates shown for the selected category: never more than the list and all from it; `ShownSpec` says which |
| `Certificates.ShownSpec` | src/components/Certificates.tsx:113-115 | 'all' shows the whole list; a category id shows exactly the certificates of that category, each as many times as it occurs, in original order |
| `Certificates.CategoryButtons` | src/components/Certificates.tsx:117-124 | six buttons, the first 'all' with the full count, and no count above the number of certificates |
| `Certificates.ButtonCountsMatchShown` | src/components/Certificates.tsx:117-124 | there are six buttons, 'all' first and then one per category; each button's count is the length of the list its click shows |
| `Certificates.CategoryCountsSum` | src/components/Certificates.tsx:117-124 | every certificate has one of the five categories, so the five category counts add up to the 'all' count |
| `Certificates.CardSkills` | src/components/Certificates.tsx:210 | a card's tags are a prefix of its skills of length at most 3 |
| `Certificates.MoreBadge` | src/components/Certificates.tsx:218-222 | when present, the badge number is positive and is the number of skills beyond the first three |
| `Certificates.SkillTagsSpec` | src/components/Certificates.tsx:210-221 | a card shows exactly the first min(3, skills.length) skills; the "+n" badge appears iff skills.length > 3, with n = skills.length − 3, so shown tags plus n equal the number of skills |
| `Certificates.HandlerOf` | src/components/Certificates.tsx:175-249 | the modal body is the only element that stops propagation; any other handler selects a certificate exactly when it is a card |
| `Certificates.BubblePath` | src/components/Certificates.tsx:233-249 | a click starts at its target; the ancestors it then reaches are never cards, and a click inside the modal ends at the backdrop |
| `Certificates.Dispatch` | src/components/Certificates.tsx:175-249 | after a bubbling click the selection is the old one or the one set by some handler on the path |
| `Certificates.ClickSpec` | src/components/Certificates.tsx:175-249 | a card click selects that certificate; the backdrop and the close button select none; a click in the modal body stops propagation and leaves the selection unchanged |
| `Certificates.CertificatesView.constructor` | src/components/Certificates.tsx:110-111 | starts on category 'all' with no certificate selected |
| `Certificates.CertificatesView.SelectCategory` | src/components/Certificates.tsx:152 | sets the category and leaves the selected certificate alone |
| `Certificates.CertificatesView.Click` | src/components/Certificates.tsx:175-249 | a click runs the handlers on its bubbling path and keeps the category; a card can be clicked only while no certificate is selected (the backdrop then covers the grid), and the modal's elements only while one is |
| `Certificates.CertificatesView.Grid` | src/components/Certificates.tsx:166 | the cards in the grid are at most the whole list and are all taken from it |
| `LinuxCommands.Shown` | src/components/LinuxCommands.tsx:50-52 | the commands shown for the selected category: never more than the list and all from it; `ShownSpec` says which |
| `LinuxCommands.ShownSpec` | src/components/LinuxCommands.tsx:50-52 | 'All' shows every command; a category shows exactly its commands, each as many times as it occurs, in order |
| `LinuxCommands.CategoryButtonsCoverCategories` | src/components/LinuxCommands.tsx:75 | the buttons are 'All' followed by exactly the four categories, with no duplicate |
| `LinuxCommands.CategoriesPartition` | src/components/LinuxCommands.tsx:10-52 | every command has one of the four categories, so the four category views together are as long as the full list |
| `LinuxCommands.CopyLabel` | src/components/LinuxCommands.tsx:122 | a button reads 'Copied!' or 'Copy', and 'Copied!' exactly when its command is the one copied |
| `LinuxCommands.CommandTextsDistinct` | src/components/LinuxCommands.tsx:13-44 | the command strings are pairwise distinct |
| `LinuxCommands.AtMostOneCopied` | src/components/LinuxCommands.tsx:122 | at most one button of the list reads 'Copied!', and only the one whose command equals `copiedCommand` |
| `LinuxCommands.CommandsView.constructor` | src/components/LinuxCommands.tsx:47-48 | starts on 'All' with nothing copied |
| `LinuxCommands.CommandsView.CopyToClipboard` | src/components/LinuxCommands.tsx:54-58 | sets `copiedCommand` to the command, whose button then reads 'Copied!'; the category is unchanged |
| `LinuxCommands.CommandsView.ClearCopied` | src/components/LinuxCommands.tsx:57 | the timer resets `copiedCommand` to null, so every button reads 'Copy' |
| `LinuxCommands.CommandsView.SelectCategory` | src/components/LinuxCommands.tsx:80 | changes the category and leaves `copiedCommand` alone |
| `SystemMonitor.FilteredLogs` | src/components/SystemMonitor.tsx:108-110 | the logs shown for the selected service: never more than the logs and all from them; `FilteredLogsSpec` says which |
| `SystemMonitor.FilteredLogsSpec` | src/components/SystemMonitor.tsx:108-110 | 'all' shows every log; any other service shows exactly its logs, each as many times as it occurs, in order |
| `SystemMonitor.Unique` | src/components/SystemMonitor.tsx:112 | `Array.from(new Set(..))` has no duplicate and holds exactly the values of its input |
| `SystemMonitor.UniqueFirstOccurrenceOrder` | src/components/SystemMonitor.tsx:112 | the de-duplicated values come in the order of their first occurrence, which is `Set` insertion order |
| `SystemMonitor.Services` | src/components/SystemMonitor.tsx:112 | the choices start with 'all', and a value is a later choice exactly when it is the service of some log |
| `SystemMonitor.ServicesSpec` | src/components/SystemMonitor.tsx:112 | the choices begin with 'all'; after it come no duplicates; every log's service is a choice, and every choice after 'all' is the service of some log |
| `SystemMonitor.ServicesOrder` | src/components/SystemMonitor.tsx:112 | the choices after 'all' follow the order in which the services first occur in the logs |
| `SystemMonitor.SystemMonitorView.constructor` | src/components/SystemMonitor.tsx:84-87 | starts with no metrics, no logs, service 'all' and live on |
| `SystemMonitor.SystemMonitorView.Render` | src/components/SystemMonitor.tsx:104-112 | renders something iff both metrics and logs are set; it then shows the filtered logs and the service choices |
| `SystemMonitor.SystemMonitorView.Mount` | src/components/SystemMonitor.tsx:90-93 | the mount effect sets metrics and logs, after which the component renders |
| `SystemMonitor.SystemMonitorView.Tick` | src/components/SystemMonitor.tsx:95-102 | an interval tick (only while live) replaces metrics and logs and nothing else |
| `SystemMonitor.SystemMonitorView.ToggleLive` | src/components/SystemMonitor.tsx:141 | flips `isLive` and nothing else |
| `SystemMonitor.SystemMonitorView.SelectService` | src/components/SystemMonitor.tsx:251 | sets the selected service and nothing else |
| `NetworkArchitecture.NodePosition` | src/components/NetworkArchitecture.tsx:114-130 | `getNodePosition`: x is 15, 75 or 40 for left, right or top nodes; y is 25 for top nodes, 75 for database and cache, 50 otherwise; a response moves right nodes by x −5, left nodes by x +5 and top nodes by y +5. Its contract: every anchor lies within x 15..75 and y 25..75, and x is 40 exactly for top nodes |
| `NetworkArchitecture.NodePositionSpec` | src/components/NetworkArchitecture.tsx:122-127 | a response anchor moves right nodes by x −5, left nodes by x +5 and top nodes by y +5, so it never coincides with the request anchor |
| `NetworkArchitecture.SharedAnchors` | src/components/NetworkArchitecture.tsx:26-83 | of the seven nodes placed by the anchor rules at lines 114-130, exactly three pairs share an anchor, for requests and responses alike: CDN and load balancer, web and application servers, database and cache |
| `NetworkArchitecture.FindNode` | src/components/NetworkArchitecture.tsx:184-185 | `find` returns the first node of the list with the searched id (no earlier node has it), and returns nothing exactly when no node has that id |
| `NetworkArchitecture.FindNodeById` | src/components/NetworkArchitecture.tsx:184-185 | with distinct ids, searching a node's id returns that node |
| `NetworkArchitecture.Midpoint` | src/components/NetworkArchitecture.tsx:230-231 | the label coordinate is equally far from both endpoint coordinates |
| `NetworkArchitecture.EdgeOf` | src/components/NetworkArchitecture.tsx:184-189 | an edge is dropped (`return null`) exactly when one of its endpoints names no node |
| `NetworkArchitecture.ConnectionIdsAreNodes` | src/components/NetworkArchitecture.tsx:26-100 | every `from`/`to` of a connection is the id of an existing node |
| `NetworkArchitecture.AllEdgesDrawn` | src/components/NetworkArchitecture.tsx:183-186 | so no connection takes the `return null` branch |
| `NetworkArchitecture.ResponsesReverseRequests` | src/components/NetworkArchitecture.tsx:85-100 | the first six connections are requests and the last six responses; response k reverses request 11 − k |
| `NetworkArchitecture.EdgeKeysDistinct` | src/components/NetworkArchitecture.tsx:192 | the `${from}-${to}` key strings of the edges are pairwise distinct (distinct endpoint pairs alone would not give this, since the ids contain '-') |
| `NetworkArchitecture.NodeIdsDistinct` | src/components/NetworkArchitecture.tsx:26-83 | the node ids are pairwise distinct |
| `NetworkArchitecture.ZeroLengthTopEdge` | src/components/NetworkArchitecture.tsx:85-130 | the CDN → load-balancer request starts and ends at the same point, because both top nodes share one anchor |
| `NetworkArchitecture.ZeroLengthServerEdge` | src/components/NetworkArchitecture.tsx:85-130 | the web-servers → app-servers request starts and ends at the same point |
| `NetworkArchitecture.AnimateLabel` | src/components/NetworkArchitecture.tsx:256 | the button reads 'Stop Animation' exactly while animating, and 'Animate Flow' otherwise |
| `NetworkArchitecture.ArchitectureView.constructor` | src/components/NetworkArchitecture.tsx:23-24 | starts not animating and with details hidden |
| `NetworkArchitecture.ArchitectureView.HandleAnimate` | src/components/NetworkArchitecture.tsx:110-112 | flips `isAnimating` and nothing else |
| `NetworkArchitecture.ArchitectureView.ClickNode` | src/components/NetworkArchitecture.tsx:161 | flips `showDetails` and nothing else |

## Left out

- Rasterising with `html2canvas`, `canvas.toDataURL`, the `jsPDF` document and `pdf.save` are library calls. The capture becomes an input: a canvas size, or a failure. Each page is the `(x, y, width, height)` of its `addImage` call, and the saved file is the file name with its page list.
- `document.querySelector('[data-pdf-button]')` is a DOM lookup. The button it finds, or none, is a parameter. The model assumes both lookups (in the `try` and in the `catch`) find the same element.
- `console.error` in the failure path is logging, and is left out.
- `PdfGenerator.GeneratePdf`: requires a canvas with positive width, and so do `FinishExport` and `ScaledHeight`. In JavaScript, a canvas of width 0 and positive height makes the scaled height `Infinity`. Then `heightLeft >= 0` holds forever and `Infinity - 295` stays `Infinity`, so the loop at lines 53-58 never ends. A 0 × 0 canvas makes the height `NaN`, and `NaN >= 0` is false, so exactly one page is drawn. Neither outcome is modelled. The input may be real: the captured node carries the class `hidden` (line 89), which can leave it with no rendered size.
- `PdfGenerator.GeneratePdf`: the `await html2canvas` at line 27 becomes the boundary between `StartExport` and `FinishExport`. Other events that a browser could run during the await are not modelled. `StartExport` only shows that the button is disabled at that point. That a disabled button ignores clicks is browser behaviour outside the model.
- `PdfGenerator.PagesCoverImage`: measures each page by its 295-high shift window, not by the 297-high printed A4 page. Printed pages overlap by 2. `PrintedPagesOverlap` and `LastPrintedPageIff` state what is printed.
- Lengths are exact reals. IEEE rounding in the scaling and in the repeated subtraction of 295 is not modelled.
- The 295 page shift is modelled as written. The 297 height of the printed A4 page is a separate constant, `A4Height`.
- `GitHubRepos` is left out. Its network fetch and JSON parsing are I/O, and its only logic is a loading/error/empty branch.
- The random data generators depend on `Math.random`, `Date` and locale time strings, so they are left out. These are `generateRandomMetrics` and `generateRandomLogs` (including the log sort), the chart and process data in `MonitoringCharts`, and the confetti particles. Metrics and logs enter the model as method parameters.
- Timers and platform APIs:
  - The three-second `setInterval` is a `Tick` event that can happen only while live.
  - The two-second `setTimeout` of `copyToClipboard` is a `ClearCopied` event with no argument. So, as in the code, the timer of an earlier copy can clear the marker of a later one.
  - `navigator.clipboard.writeText` is not modelled. `CommandsView.CopyToClipboard` assumes the call never throws. Where `navigator.clipboard` is undefined, line 55 throws before line 56 runs, so the label stays 'Copy'. The returned promise is not awaited, so a rejected write still shows 'Copied!'.
- Certificates keep id, name, issuer, category, level and skills. The date, description, image and validity are display text and are left out, as are the colour tables and the level captions.
- Node box placement in the diagram (the CSS `left`/`top` percentages), the arrowhead path, colours and all animation properties are presentation, and are left out.
- Components that are pure presentation are left out: the app pages and layout, `CVContent`, `ExperienceTimeline`, `ProjectPageClient`, `TechIcon`, `ScrollNavigation`, `ImageLightbox`, `ScrollRevealSection` and `PageTransition`. The `ProjectCard` tilt and the `SkillsChart` stroke arithmetic are floating-point visuals, and are left out too.
- The theme context and the seven-click easter-egg trigger are not part of this model. The only piece of the easter egg here is `ConfettiEasterEgg`, which takes a `show` flag and contains no logic.
- `SystemMonitor.ServicesSpec`: states that the choices after 'all' have no duplicate, not the whole list. A log whose service is itself 'all' would repeat that choice. The generator never produces such a log.
