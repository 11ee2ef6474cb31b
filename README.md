# PDF import for tldraw in Obsidian: a Dafny model

This project models how the Obsidian tldraw plugin turns a PDF document into canvas content.
It also models how the plugin keeps that content in place afterwards.

- **Rasterising the PDF.** `loadPdf` in `src/utils/file.ts` renders each page of the document on a
  shared canvas. Its sizing policy depends on the window width and the device pixel ratio. The
  canvas side is capped at 2048 or 4096. A sampled block of the canvas decides PNG or JPEG. A page
  that fails is skipped. The survivors are stacked with a 32-unit gap and centred on the widest page.
  The worker source of the PDF library is restored in every case.
- **`openPDF` in `src/main.ts`.** It takes a loaded PDF, a URL or raw bytes, and calls the loader
  declared in the same file. That loader keeps the original scale of 1.5, a 20-unit gap and x = 0,
  and fails as a whole when any page fails. `openPDF` then checks for the editor ten times, pausing
  after each failed check, and reads it once more after the wait. It creates one image asset and one
  locked image shape per page, and applies the PDF behaviour.
- **The PDF behaviour (`applyPdfBehavior`).**
  - A before-change guard that never lets an imported page be unlocked.
  - A z-order repair, run once and on every creation or change, that moves the imported pages below
    every other shape while keeping their order.
  - A camera constraint on the union of the page bounds.
- **The page quality manager (`src/tldraw/PdfViewPortMan.ts`).** It gives every PDF page shape the
  `quality` tier of the current zoom, on each frame and once a second while started.
- **The scrolling PDF viewer shape (`src/tldraw/PdfViewerShape.tsx`).** It models which pages get a
  canvas and a render, the estimated window of visible pages, and the `currentPage` that follows the
  scroll position.
- **The markdown embed of a tldraw file (`src/obsidian/components/tldraw-component.ts`).** It models
  the page it shows, the preview image state and its four subscription slots, the view mode, and
  how new embed values reach the preview.
- **The loadable file view (`src/obsidian/TldrawMixins.ts`).** It models the callbacks run when the
  file unloads, the single "View assets" action and the React root.
- **The embed settings (`src/components/settings/EmbedsSettings.tsx`).** `parseInt` is modelled as
  ECMAScript defines it. A padding the field shows reads back as itself, and negative or non-numeric
  text is ignored.
- **The PDF embed definition (`src/tldraw/embeds/pdf-embed.ts`).**

The canvas library is modelled only as far as the import path observes it (module `Canvas`):

- shape and asset records with fresh identifiers;
- the fractional ordering index, with sorting by it;
- an `Editor` class that holds the children of the current page in paint order.

The PDF library is an oracle. For each page it yields either a failure or the following:

- the page's natural size;
- the bytes read back from the sampled block (or nothing, when that read throws);
- the identity of the encoded raster.

Floating-point numbers are modelled by `real`.

Where the repository's documentation and its code differ, the model follows the code:

- A document in which no page renders imports as an empty page list, not as an error
  (`PdfImport.NoPagesWhenAllFail`).
- `openPDF` uses the loader of `src/main.ts` (line 763 calls the function at line 1069), not the one
  in `src/utils/file.ts`. Both are modelled.

## Model

| member | source | states |
|---|---|---|
| Geometry.Union | src/main.ts:885-888 | The union of two boxes covers both, each of its edges is an edge of one of them, and it is non-negative when both are. |
| Geometry.UnionIsLeast | src/main.ts:885-888 | Every box that covers two boxes covers their union, so the union is the least covering box. |
| Canvas.SortFacts | src/main.ts:853 | Sorting by ordering index yields a sorted permutation of its input. |
| Canvas.SortedUnique | src/main.ts:856 | A sorted permutation of a strictly ordered list of siblings is that list, so the sorted child order is unique. |
| Canvas.OnTopOrdered | src/main.ts:802-815 | Shapes created on top of strictly ordered siblings keep the page in strict paint order. |
| Canvas.Editor.CreateAssets | src/main.ts:784-799 | The asset records grow by exactly the batch. |
| Canvas.Editor.CreateShapes | src/main.ts:802-815 | The new shapes go on top of the page, in the given order, with rising indices above the current top. |
| Canvas.Editor.UpdateShapes | src/main.ts:870-877 | The page's children become the patched records, reported in index order. |
| Canvas.Editor.UpdateShapeProps | src/tldraw/PdfViewPortMan.ts:65-72 | Only the props of the shape with the given id change; order and every other shape stay. |
| Canvas.Editor.SetCameraConstraint | src/main.ts:891-900 | The camera constraint becomes the given one. |
| Canvas.Editor.ResetCamera | src/main.ts:901 | The camera is re-applied under the constraint exactly once. |
| Canvas.Editor.RegisterHandler | src/main.ts:845 | A side-effect registration is appended and nothing else changes. |
| Canvas.Editor.On | src/tldraw/PdfViewPortMan.ts:16 | A frame listener is added under the next handle, which no live listener holds, and every live handle stays below the next one. |
| Canvas.Editor.Off | src/tldraw/PdfViewPortMan.ts:20 | Exactly that frame listener is removed. |
| PdfImport.ScalesFor | src/utils/file.ts:656-659 | The scale is the device pixel ratio. On a window narrower than 1024 the resolution is capped at 1 and the side limit is 2048; otherwise the resolution is kept and the limit is 4096. |
| PdfImport.CanvasScaleBounds | src/utils/file.ts:672-675 | The canvas never exceeds the side limit and never exceeds the viewport. It is shrunk only as far as needed, with the longer side exactly at the limit when shrunk. |
| PdfImport.CanvasScaleFits | src/utils/file.ts:672 | The clamp factor lies in (0, 1] and brings both sides within the limit. |
| PdfImport.CheckForColor | src/utils/file.ts:732-761 | The loop over every 16th byte answers true exactly when more than 5% of the samples are coloured, and false when the read fails. |
| PdfImport.GrayscaleIsNotColor | src/utils/file.ts:746-758 | A block whose pixels have equal red, green and blue never counts as coloured, so it is encoded as PNG. |
| PdfImport.ColoredBlockIsColor | src/utils/file.ts:746-758 | A non-empty block whose every sample is coloured counts as coloured, so it is encoded as JPEG. |
| PdfImport.SurvivorFacts | src/utils/file.ts:666-713 | Exactly the rendered pages survive, in increasing page order. |
| PdfImport.SuccessesConcat | src/utils/file.ts:666-713 | Survival is decided page by page: the survivors of two runs of pages are the survivors of each. |
| PdfImport.StackAppend | src/utils/file.ts:701-702 | One more page raises the stack height by its height plus the gap, widens the widest width to cover it, and is placed at x = 0 at the old height. |
| PdfImport.WidestBound | src/utils/file.ts:702 | The widest width is at least every page's width and is non-negative. When widths are non-negative it is one of them. |
| PdfImport.StackSpacing | src/utils/file.ts:696-701 | Stacked pages keep their sizes at x = 0; the first starts at y = 0 and each next one starts one gap below the previous bottom. |
| PdfImport.ArrangeStacksPages | src/utils/file.ts:661-702 | Arranged pages keep their sizes and the 32-unit vertical spacing. |
| PdfImport.ArrangeCentresPages | src/utils/file.ts:720-723 | Arranged pages share one vertical centre line at half the widest width, none starts left of 0, and the widest starts at 0. |
| PdfImport.RecordsCentred | src/utils/file.ts:720-723 | Moving each record's box horizontally is the centring pass applied to the boxes. |
| PdfImport.DeviceRatioCancels | src/utils/file.ts:691-692 | Dividing the device-pixel viewport by the device pixel ratio gives the page's natural size times the visual scale. |
| PdfImport.RenderPage | src/utils/file.ts:668-699 | One page record holds the image encoded in the format the colour check picks, from the clamped canvas. Its box is at the given height with the natural size times the visual scale. |
| PdfImport.CentrePages | src/utils/file.ts:720-723 | The centring loop moves every page so its middle lies at half the widest width, leaving everything else alone. |
| PdfImport.LoadPages | src/utils/file.ts:661-725 | The page loop with its skip-on-failure and the centring pass yields exactly the layout of the surviving pages. |
| PdfImport.LayoutStacksAndCentres | src/utils/file.ts:661-723 | The imported pages start at y = 0, follow each other 32 units apart, share one vertical centre line and never start left of 0. |
| PdfImport.LayoutFollowsSurvivors | src/utils/file.ts:666-699 | The k-th imported page is the k-th surviving page, at its natural size times the visual scale, with the k-th fresh identifiers. |
| PdfImport.LayoutPage | src/utils/file.ts:694-699 | Each imported page record, spelled out in terms of its surviving page. |
| PdfImport.LayoutWidestIsFlush | src/utils/file.ts:720-723 | When page sizes are non-negative, the widest imported page starts at x = 0. |
| PdfImport.NoPagesWhenAllFail | src/utils/file.ts:711-725 | When no page renders, the document imports as no pages rather than as an error. |
| PdfImport.FailedPageIsSkipped | src/utils/file.ts:711-713 | A failing page leaves the layout exactly as if the document lacked it. |
| PdfImport.LoadPdf | src/utils/file.ts:632-729 | A document that does not open and a missing 2D context are errors; otherwise the result is the layout of the pages. The worker source is restored in every case. |
| PdfBehavior.LockRewrite | src/main.ts:845-849 | Changes to shapes that are not imported pass through. A change that keeps an imported page locked passes through. Any other change to an imported page becomes its previous record, locked. |
| PdfBehavior.LockRewriteIdempotent | src/main.ts:845-849 | Passing the guard's output through the guard again changes nothing. |
| PdfBehavior.ImportedPageStaysLocked | src/main.ts:845-849 | An imported page created locked stays locked through any series of attempted changes. |
| PdfBehavior.IndicesBelow | src/main.ts:869 | The fresh indices are strictly increasing and all below the bound. |
| PdfBehavior.MakeSureShapesAreAtBottom | src/main.ts:852-878 | The page's children become the repaired list. |
| PdfBehavior.BottomCheckIsAtBottom | src/main.ts:853-861 | The condition that the first n children are the n imported pages in order holds exactly when no imported page lies above another shape. |
| PdfBehavior.RepairIssuesNothingIff | src/main.ts:861-864 | The repair issues no update exactly when the pages are already at the bottom or there is no other shape. |
| PdfBehavior.FilterPartition | src/main.ts:853-863 | Splitting the children into imported pages and other shapes loses and adds nothing. |
| PdfBehavior.FilterOrdered | src/main.ts:853-863 | Both parts keep the strict paint order. |
| PdfBehavior.RepairBatchFacts | src/main.ts:866-877 | The update names the imported pages in order, with their own type and lock flag. It gives them strictly increasing indices below the lowest other shape. |
| PdfBehavior.RepairLowersPages | src/main.ts:866-877 | After an update, the children are the imported pages (same order, new indices) followed by every other shape, untouched, in strict paint order. |
| PdfBehavior.RepairedIsAtBottom | src/main.ts:852-882 | After the repair no imported page lies above another shape, the other shapes are unchanged and in order, and the imported pages keep their order. Re-running the repair, as the after-change handler does, issues nothing. |
| PdfBehavior.RepairPassesLockGuard | src/main.ts:845-877 | The repair keeps each page's lock flag, so the lock guard lets its updates through unchanged. |
| PdfBehavior.UnionAll | src/main.ts:885-888 | The running union covers the seed and every box. |
| PdfBehavior.UnionAllIsLeast | src/main.ts:885-888 | Every box covering the seed and all the boxes covers their running union. |
| PdfBehavior.TargetBounds | src/main.ts:885-888 | The camera bounds exist exactly when there are pages, and cover every page. |
| PdfBehavior.TargetBoundsIsLeast | src/main.ts:885-888 | The camera bounds are the least box covering every page. |
| Plugin.FirstFailure | src/main.ts:1087-1115 | The first failing page, if any; none exactly when every page renders. |
| Plugin.FirstFailureAt | src/main.ts:1087-1115 | A failing page preceded only by rendered pages is the first failure. |
| Plugin.LegacyStep | src/main.ts:1087-1114 | One more rendered page adds its record at the current offset and moves the offset down by its height plus 20. |
| Plugin.LegacyLoadPdf | src/main.ts:1069-1127 | The CDN worker source is set only when none is set. The result is the document's pages, or an error for an unopened document or for the first failing page. |
| Plugin.LegacyLayout | src/main.ts:1069-1127 | This loader succeeds exactly when every page renders. It then keeps every page in order at x = 0 and 1.5 times natural size, the first at y = 0 and each next 20 below the previous. Every page is PNG and the identifiers are pairwise distinct. |
| Plugin.WaitForEditor | src/main.ts:827-834 | The editor is found exactly when it appears within the allowed polls. Polling stops at the first poll that finds it and never exceeds the limit. |
| Plugin.MaterialisedPagesJoin | src/main.ts:784-815 | Each page gives one image asset and one locked image shape at the page's position and size, referring to that asset. Distinct pages give distinct shapes, all guarded by the behaviour. |
| Plugin.LastSegment | src/main.ts:752 | The text after the last '/', which contains no '/'. |
| Plugin.FileNameFromUrl | src/main.ts:752 | The file name is never empty. |
| Plugin.FileNameFromUrlIsLastSegment | src/main.ts:752 | A URL's file name is its last path segment, or `document.pdf` when that is empty. |
| Plugin.LeafFileIdInjective | src/main.ts:372-381 | When tab ids contain no '-', distinct tab and file pairs have distinct keys. |
| Plugin.ModeOfAfterSet | src/main.ts:383-396 | A recorded view mode is the one read back. The mode of every other tab, and of the same tab with another file, stays as it was. |
| Plugin.TldrawPlugin.GetLeafFileViewMode | src/main.ts:383-387 | Returns the mode recorded for the tab and file. |
| Plugin.TldrawPlugin.SetLeafFileViewMode | src/main.ts:389-396 | Records the mode under the tab and file key, leaving the other keys alone. |
| Plugin.TldrawPlugin.ApplyPdfBehavior | src/main.ts:837-906 | Without an editor, nothing happens. Otherwise the three handlers are registered, the repair runs once (its resulting shape list is stated for an editor without earlier registrations), and the camera is constrained to the pages' union and reset. With no pages it fails after the handlers are in place. |
| Plugin.ImportedPagesEndAtBottom | src/main.ts:802-877 | When the page shapes are new to a well-formed page, creating them on top and repairing the order leaves the imported pages below every other shape, in page order, with the shapes already there after them unchanged and in their order. |
| Plugin.CreatedPagesSplit | src/main.ts:802-815 | New page shapes created on top keep the page well formed; the shapes already there are all non-pages and the created ones are all pages, in page order. |
| Plugin.TldrawPlugin.PlacePages | src/main.ts:781-822 | One asset and one locked image shape per page are added, the behaviour is registered, and the order is repaired. With pages, the camera is constrained to the union of the page boxes and reset once; without pages the camera is untouched. Camera zoom and frame listeners stay. On an editor without earlier registrations, when the page shapes are new, the pages end up below every other shape in page order. |
| Plugin.TldrawPlugin.ShowPdf | src/main.ts:771-823 | The editor is used when it was already there, or when it appears by the read after the wait: at one of the ten checks, or during the pause after the last one. Without it there is a notice. Otherwise the pages are placed as `PlacePages` states, including the camera constraint and reset, and the tab view modes and an unused view stay unchanged. |
| Plugin.TldrawPlugin.OpenPdf | src/main.ts:725-824 | A PDF that cannot be prepared gives a notice, and the editor, the view and the tab view modes stay unchanged. Otherwise the PDF is shown as `ShowPdf` states, with the camera constrained to the pages and reset, and with the pages below every other shape when the editor has no earlier registrations and their shapes are new. |
| Plugin.PreparePdf | src/main.ts:742-769 | The PDF is taken as given, or loaded from the fetched URL or from the bytes; none when fetching or loading fails. |
| Plugin.WithExtension | src/main.ts:442-446 | The name ends with the extension and starts with the original name, and the extension is added at most once. |
| Plugin.WithExtensionIdempotent | src/main.ts:442-446 | Adding the extension twice is adding it once. |
| ViewportManager.QualityTiers | src/tldraw/PdfViewPortMan.ts:58 | Low below zoom 0.8, high above 1.5, medium in between, and never a lower tier for a larger zoom. |
| ViewportManager.UpdatedIds | src/tldraw/PdfViewPortMan.ts:49-74 | The sweep issues no update exactly when no PDF page has a differing `quality`. |
| ViewportManager.RequalifiedFacts | src/tldraw/PdfViewPortMan.ts:49-74 | Only PDF pages whose `quality` exists and differs change; they get the zoom's tier, and nothing else changes. A second sweep at the same zoom finds nothing. |
| ViewportManager.SweepStep | src/tldraw/PdfViewPortMan.ts:53-73 | Updating one page by id after the earlier ones touches that page only. |
| ViewportManager.Scheduler.SetInterval | src/tldraw/PdfViewPortMan.ts:25-27 | A fresh positive handle becomes live with the given period. |
| ViewportManager.Scheduler.ClearInterval | src/tldraw/PdfViewPortMan.ts:34 | Exactly that handle stops being live. |
| ViewportManager.PdfViewportManager.constructor | src/tldraw/PdfViewPortMan.ts:11-22 | The sweep is registered as a frame listener, and its handle is kept for removal. |
| ViewportManager.PdfViewportManager.UpdateQualityBasedOnZoom | src/tldraw/PdfViewPortMan.ts:44-75 | The page's shapes become the re-qualified shapes for the zoom's tier, and the updated ids are those that needed it, in page order. |
| ViewportManager.PdfViewportManager.UpdateShapeQuality | src/tldraw/PdfViewPortMan.ts:53-73 | The update is issued exactly for a PDF page whose `quality` exists and differs, and the sweep advances by that page. |
| ViewportManager.PdfViewportManager.Start | src/tldraw/PdfViewPortMan.ts:24-30 | An interval with a period of 1000 ms is installed under a fresh handle, and one sweep runs at once. |
| ViewportManager.PdfViewportManager.Stop | src/tldraw/PdfViewPortMan.ts:32-42 | The interval is cleared and the frame listener removed, each only if present, and both are forgotten, so a second stop changes nothing. |
| EmbedComponent.PageIdFor | src/obsidian/components/tldraw-component.ts:30-34 | No page id for a missing or empty name; otherwise `page:` followed by the name. |
| EmbedComponent.SelectedPageName | src/obsidian/components/tldraw-component.ts:270-276 | A page name exactly for ids starting with `page:`; prefixing it gives the id back. |
| EmbedComponent.PageNameRoundTrip | src/obsidian/components/tldraw-component.ts:270-276 | A page name maps to its page id and back to the same name, and an id maps to its name and back. |
| EmbedComponent.SlotDiscipline | src/obsidian/components/tldraw-component.ts:106-137 | Unsubscribing right after subscribing empties the slot. An unsubscribe overtaken by a newer registration keeps the newer one. Other slots are untouched. |
| EmbedComponent.ClampedSize | src/obsidian/components/tldraw-component.ts:359-363 | The width is kept, and the height is the given one, or 0 when that is negative. |
| EmbedComponent.SameViewIsNoChange | src/obsidian/components/tldraw-component.ts:501-514 | The field-by-field comparison skips exactly the refreshes that would not change the preview options. |
| EmbedComponent.RenderChild.constructor | src/obsidian/components/tldraw-component.ts:170-201 | The initial page (if any) becomes the current page with its bounds, and the preview options are built from the initial embed values. |
| EmbedComponent.RenderChild.Subscribe | src/obsidian/components/tldraw-component.ts:106-137 | The callback takes its slot over. |
| EmbedComponent.RenderChild.Unsubscribe | src/obsidian/components/tldraw-component.ts:106-137 | The slot is emptied only while it still holds that callback. |
| EmbedComponent.RenderChild.GetSnapshot | src/obsidian/components/tldraw-component.ts:94-105 | The memoised snapshot, or a fresh one (none before the store loads) that is then memoised and counted. |
| EmbedComponent.RenderChild.TriggerSnapshotCallback | src/obsidian/components/tldraw-component.ts:439-449 | A shown leaf runs the snapshot callback; otherwise the callback is deferred. |
| EmbedComponent.RenderChild.LeafShown | src/obsidian/components/tldraw-component.ts:446 | A deferred snapshot callback runs once the leaf is shown. |
| EmbedComponent.RenderChild.MarkSnapshotStale | src/obsidian/components/tldraw-component.ts:209-213 | The placeholder and snapshot are forgotten, and the snapshot observer is told. |
| EmbedComponent.RenderChild.DataUpdated | src/obsidian/components/tldraw-component.ts:215-218 | New records mark the snapshot stale. |
| EmbedComponent.RenderChild.PreviewImageRendered | src/obsidian/components/tldraw-component.ts:384-392 | The placeholder becomes the rendered image's container. |
| EmbedComponent.RenderChild.SetHeight | src/obsidian/components/tldraw-component.ts:359-370 | A preview resize updates the size and notifies its callback. A committed resize goes to the host. |
| EmbedComponent.RenderChild.RenderRoot | src/obsidian/components/tldraw-component.ts:557-571 | A fresh root when the view content exists, then one render in the current mode. |
| EmbedComponent.RenderChild.SetViewMode | src/obsidian/components/tldraw-component.ts:423-429 | The image mode stops synchronising to the main store. The mode is kept and rendered. |
| EmbedComponent.RenderChild.RefreshPreview | src/obsidian/components/tldraw-component.ts:451-453 | Any pending refresh is replaced by one with the given options. |
| EmbedComponent.RenderChild.RefreshTimeoutElapsed | src/obsidian/components/tldraw-component.ts:453-461 | The scheduled options take effect and their page becomes current. The placeholder is forgotten, and the placeholder and options callbacks run. |
| EmbedComponent.RenderChild.SetPreviewImageOptions | src/obsidian/components/tldraw-component.ts:573-576 | The options are replaced and a refresh is scheduled. |
| EmbedComponent.RenderChild.UpdateBounds | src/obsidian/components/tldraw-component.ts:517-522 | Only the bounds of the options change, and a refresh is scheduled. |
| EmbedComponent.RenderChild.ToggleBackground | src/obsidian/components/tldraw-component.ts:331-336 | Only the background flag flips, and a refresh is scheduled. |
| EmbedComponent.RenderChild.ToggleInteractive | src/obsidian/components/tldraw-component.ts:337-343 | Switches image to interactive and any other mode to image; leaving a non-image mode stops syncing. A fresh root is created when the view content exists, then one render in the new mode. |
| EmbedComponent.RenderChild.EnableEditing | src/obsidian/components/tldraw-component.ts:353-357 | The store synchronises to the main store when there is one. A fresh root is created when the view content exists, then one interactive render. |
| EmbedComponent.RenderChild.BoundsSelected | src/obsidian/components/tldraw-component.ts:270-276 | Page ids are reported to the host by page name; other ids are ignored. |
| EmbedComponent.RenderChild.UpdateEmbedValues | src/obsidian/components/tldraw-component.ts:469-515 | A changed size reaches the preview. A page the document lacks stops the update. Otherwise the page's bounds are remembered and a refresh is scheduled unless nothing changed. |
| EmbedComponent.RenderChild.LazyLoadStoreInstance | src/obsidian/components/tldraw-component.ts:578-589 | The store registers at most once, and a new registration puts its assets into the options. |
| EmbedComponent.RenderChild.UnloadStoreInstance | src/obsidian/components/tldraw-component.ts:464-467 | The store instance is released, and with it its synchronisation to the main store. |
| EmbedComponent.RenderChild.Load | src/obsidian/components/tldraw-component.ts:607-615 | The view content exists and a fresh root renders the current mode. A first load registers a new instance, puts the document's assets into the preview options and schedules a refresh; a later load keeps the instance, the options and the pending refresh. |
| EmbedComponent.RenderChild.Unload | src/obsidian/components/tldraw-component.ts:617-621 | The pending refresh is cancelled, the root is unmounted and the store is released, without synchronisation to the main store. |
| LoadableView.Without | src/obsidian/TldrawMixins.ts:118 | The callback list without the removed callback, and with nothing else dropped. |
| LoadableView.WithoutAbsent | src/obsidian/TldrawMixins.ts:118 | Removing a callback that is not registered leaves the list as it is. |
| LoadableView.RunEffects | src/obsidian/TldrawMixins.ts:58-63 | Running a list of callbacks removes exactly the buttons and closes exactly the modals it names. |
| LoadableView.TldrawView.RegisterOnUnloadFile | src/obsidian/TldrawMixins.ts:65-67 | The callback goes to the end of the list. |
| LoadableView.TldrawView.OnUnloadFile | src/obsidian/TldrawMixins.ts:58-63 | The list is emptied, and each callback that was in it runs once, in registration order. |
| LoadableView.TldrawView.ViewAssetsClicked | src/obsidian/TldrawMixins.ts:106-110 | A new assets modal opens and is registered to close when the file unloads. |
| LoadableView.TldrawView.UpdateViewAssetsAction | src/obsidian/TldrawMixins.ts:101-121 | The previous button is removed, with its removal taken off the list. With store props, one new button is added, with its removal registered. |
| LoadableView.TldrawView.UnmountReactRoot | src/obsidian/TldrawMixins.ts:123-126 | The root, if any, is unmounted and forgotten. |
| LoadableView.TldrawView.RefreshView | src/obsidian/TldrawMixins.ts:128-133 | The current root always goes, and a new one renders the store props, if any. |
| LoadableView.TldrawView.SetStore | src/obsidian/TldrawMixins.ts:91-95 | The root renders the new store props, with exactly one assets button while there are props. The previous button's removal runs and leaves the unload list, the new button's removal is registered, and open modals stay. |
| LoadableView.TldrawView.Unload | src/obsidian/TldrawMixins.ts:51-56 | The React root is unmounted. |
| LoadableView.AtMostOneAssetsAction | src/obsidian/TldrawMixins.ts:101-121 | A view never shows more than one "View assets" button, and that button is the one its unregister callback removes. |
| PdfViewer.CanvasTopsStack | src/tldraw/PdfViewerShape.tsx:135 | Canvases of equally tall pages start at 0 and follow each other with a 20-unit gap, without overlap. |
| PdfViewer.InitialTargetsAreNeighbours | src/tldraw/PdfViewerShape.tsx:160-164 | For a current page in range, the effect asks for exactly the existing pages next to it. |
| PdfViewer.InitialDrawn | src/tldraw/PdfViewerShape.tsx:160-164 | The pages the effect draws are, page by page, those that pass the guard and draw. |
| PdfViewer.InitialPlaced | src/tldraw/PdfViewerShape.tsx:132-164 | The canvases the effect places are, page by page, those of the targets that pass the guard and are fetched, at their top offsets. |
| PdfViewer.PageHeightEstimate | src/tldraw/PdfViewerShape.tsx:178 | The estimated page height is at least the gap. |
| PdfViewer.ScrollWindow | src/tldraw/PdfViewerShape.tsx:178-183 | The visible and rendered ranges lie within the document's pages. |
| PdfViewer.WindowCoversVisiblePages | src/tldraw/PdfViewerShape.tsx:174-183 | Every page overlapping the scrolled view, in estimated heights, lies in the rendered range. |
| PdfViewer.NextCurrentPage | src/tldraw/PdfViewerShape.tsx:188-200 | The shape is updated exactly when the visible page differs from the current one and lies in the document. |
| PdfViewer.CurrentPageSettles | src/tldraw/PdfViewerShape.tsx:188-200 | Once the shape follows the scroll position, the same position updates it no more. |
| PdfViewer.Viewer.RenderPage | src/tldraw/PdfViewerShape.tsx:119-156 | Past the guard, a fetched page gets its canvas at its top offset and a drawn page joins the rendered pages. Rendered pages stay within the document. |
| PdfViewer.Viewer.InitialRender | src/tldraw/PdfViewerShape.tsx:159-164 | The rendered pages grow by exactly the drawn pages among the current page and its neighbours. Each of those pages that passes the guard and is fetched gets its canvas at its top offset, including a page whose drawing fails. |
| PdfViewer.Viewer.RenderRange | src/tldraw/PdfViewerShape.tsx:183-185 | Rendering pages lo..hi in order, each guarded against the pages rendered before, adds exactly the drawn pages of the range and places the canvas of every fetched page of the range at its top offset. |
| PdfViewer.Viewer.HandleScroll | src/tldraw/PdfViewerShape.tsx:167-202 | The rendered pages grow by exactly the drawn pages of the window. Each page of the window that passes the guard and is fetched gets its canvas at its top offset, including a page whose drawing fails. And `currentPage` moves to the page under the middle of the view when that differs and exists. |
| EmbedSettings.TrimStart | src/components/settings/EmbedsSettings.tsx:11 | The trimmed text is a suffix of the input that does not start with white space. |
| EmbedSettings.DigitRun | src/components/settings/EmbedsSettings.tsx:11 | The length of the leading digit run, stopping at the first non-digit. |
| EmbedSettings.Show | src/components/settings/EmbedsSettings.tsx:11 | The decimal text of a number is non-empty and made of digits. |
| EmbedSettings.ShowValue | src/components/settings/EmbedsSettings.tsx:11 | The decimal digits of a number denote that number. |
| EmbedSettings.ParseIntReadsShow | src/components/settings/EmbedsSettings.tsx:11 | `parseInt` reads back a number's decimal text, even when other text follows it. |
| EmbedSettings.ParseIntReadsNegativeShow | src/components/settings/EmbedsSettings.tsx:11 | A minus sign before a number's decimal text reads as the negative number. |
| EmbedSettings.ParseIntDecimal | src/components/settings/EmbedsSettings.tsx:11 | Text starting with a decimal digit and no hexadecimal prefix reads as its leading decimal value. |
| EmbedSettings.ParseIntNaN | src/components/settings/EmbedsSettings.tsx:11-12 | Text with no digit or sign after the white space reads as NaN. |
| EmbedSettings.PaddingInput | src/components/settings/EmbedsSettings.tsx:11-14 | After the leading white space: a decimal digit sets the leading decimal number, a `0x` prefix the base-16 number after it, and a `+` the number after it. A `-` is refused unless the number after it is zero. Anything else is refused. |
| EmbedSettings.PaddingInputAcceptsShown | src/components/settings/EmbedsSettings.tsx:11-14 | The shown padding is accepted as itself, and a negative padding is refused. |
| EmbedSettings.SettingsManager.OnPaddingChange | src/components/settings/EmbedsSettings.tsx:10-17 | Rejected text changes and saves nothing. Accepted text changes only the padding and saves the settings once. |
| EmbedSettings.SettingsManager.OnShowBgChange | src/components/settings/EmbedsSettings.tsx:19-22 | Only the background flag changes, and the settings are saved once. |
| EmbedSettings.SettingsManager.OnShowBgDotsChange | src/components/settings/EmbedsSettings.tsx:24-27 | Only the background-dots flag changes, and the settings are saved once. |
| PdfEmbed.ToEmbedUrl | src/tldraw/embeds/pdf-embed.ts:19-28 | An accepted URL is embedded unchanged. |
| PdfEmbed.EmbeddableUrls | src/tldraw/embeds/pdf-embed.ts:19-28 | Exactly blob URLs, PDF data URLs and paths ending in `.pdf` are accepted, whatever the rest of the URL. |
| PdfEmbed.EmbedRoundTrip | src/tldraw/embeds/pdf-embed.ts:19-30 | Going to an embed URL and back gives the URL that was embedded. |

## Left out

- Decoding and rasterising PDF pages belongs to the PDF library. It is an oracle that gives each page's natural size, the sampled bytes and a raster identity. Encoding a canvas to a data URL is an opaque value.
- Floating-point arithmetic is modelled by `real`. Canvas dimensions are not truncated to integers, and IEEE rounding and `NaN` results of arithmetic are not modelled.
- The sampled block's position and size (`getImageData` at the canvas centre) are part of the oracle. The clearing of the canvas between pages, its reset to zero size and the `window.gc` call are left out: they do not affect the result.
- The `source` buffer is carried through `loadPdf` unchanged and is left out of the `Pdf` record.
- Asset ids of the `src/main.ts` loader (built from the name, the page number and `Date.now()`) are modelled as fresh numbers. `createShapeId` is modelled the same way.
- The fetch in `openPDF` is an input: whether the response was ok, and the bytes. The leaf and location handling, the creation of the untitled file and `updateViewMode` are host plumbing and are left out.
- PdfBehavior.MakeSureShapesAreAtBottom: it assumes every imported page is still a child of the current page; a deleted page (where the source reads `getShape(id)!` as undefined) is not modelled.
- Dispatching the registered side-effect handlers inside the editor is not modelled. The handlers are recorded as registrations, and the lock guard and the repair are proved as functions.
- Timers, `debounce` and the editor's frame events are not modelled: each sweep, scroll handler run or refresh timeout is one method call.
- React rendering, the DOM, the `MutationObserver` and the placeholder-size polling of the embed are not modelled. A render is recorded as the mode it renders.
- `#updateHasShape`, the menu handlers `setCurrentMenu`/`unsetMenu`, `awaitInitialLoad` and `isContentLoaded` are UI state and are left out.
- The font and icon overrides, `targetDocument` and the dark-mode choice in the preview options are inputs.
- EmbedComponent.RenderChild.GetSnapshot: the branches for store props carrying a raw snapshot or a wrapped store are not modelled. The embed's own document store always yields a store snapshot.
- LoadableView.TldrawView.OnUnloadFile: callbacks registered while the list runs are not modelled. The two kinds of callback the view registers do not register others.
- LoadableView.Without removes every occurrence of the callback. The view never registers the same removal twice, so removing one occurrence or all of them gives the same list.
- The window-migration hook, the "View as markdown" action and `getTldrawOptions` of the loadable view are host plumbing and are left out.
- PdfViewer.Viewer.HandleScroll: the `editor &&` guard is taken as true; the viewer shape always has its editor.
- The viewer's render guard reads the rendered pages as they were when the effect or the scroll handler started (the `seen` parameter). This matches the stale closure of `renderedPages` in the source.
- Loading and destroying the viewer's PDF document are left out: the page count is an input.
- `downloadBlob` and the plugin's other file commands dispatch into the host UI and are not part of this model.
- `parseInt` is modelled with unbounded integers. Precision loss above 2^53 is not modelled.
- PdfImport.LoadPdf requires a positive device pixel ratio; the browser never reports zero, and dividing by it would give `NaN` sizes.
- ViewportManager.PdfViewportManager.UpdateQualityBasedOnZoom requires the page's shapes to have distinct ids, as the editor guarantees. It updates shapes by id.
- ViewportManager.PdfViewportManager.UpdateQualityBasedOnZoom sweeps only the direct children of the current page. `getCurrentPageShapes` also returns shapes nested in frames and groups, so a PDF page shape inside a frame is re-qualified by the source but not by the model. The canvas model has no nesting of shapes.
- ViewportManager.PdfViewportManager.Start requires the same distinct-ids condition, because it runs one sweep.
- Plugin.TldrawPlugin.ShowPdf states that the pages end below every other shape only when their shape ids are new to the page (`FreshPages`). Ids made by the loader are fresh; a PDF handed in already parsed could reuse ids, and then only the resulting shape list is stated.
- Plugin.TldrawPlugin.OpenPdf inherits the same condition from `ShowPdf`.
- Plugin.TldrawPlugin.ApplyPdfBehavior states the resulting shape list only for an editor with no earlier side-effect registrations. On an editor that already holds an earlier import's handlers, the repair's update and the creation of shapes fire those handlers too, and the result depends on their dispatch, which is not modelled.
- Plugin.TldrawPlugin.PlacePages states the shape list and the pages at the bottom only for an editor with no earlier side-effect registrations. A second import into the same editor would be re-ordered by the first import's handlers, and the two repairs would keep undoing each other.
- Plugin.TldrawPlugin.ShowPdf inherits this condition from `PlacePages`.
- Plugin.TldrawPlugin.OpenPdf inherits this condition from `ShowPdf`.
