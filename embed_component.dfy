/**
 * The markdown embed of a tldraw file (`TldrawMarkdownRenderChild`,
 * src/obsidian/components/tldraw-component.ts): the page the embed shows, the preview image state
 * (size, options, memoised snapshot, the four subscription slots of the preview store), the view
 * mode, and the way new embed values from the markdown link reach the preview.
 *
 * Callbacks are known by identity only (a `Callback` number); invoking a slot's callback is
 * recorded in `fired`. The refresh timeout is a pending state that `RefreshTimeoutElapsed` runs;
 * the context's `onUpdatedSize` and `onUpdatedBounds` are recorded in `sizeUpdates` and
 * `boundsUpdates`, and each render of the React root in `renders`.
 */
module EmbedComponent {
  import opened Wrappers
  import opened Geometry
  import opened Strings

  const PagePrefix: string := "page:"

  /**
   * `_pageId`: no page for a missing or empty name, otherwise the page record id `page:<name>`
   * (the canvas library's page id validator accepts every id with that prefix).
   */
  function PageIdFor(page: Option<string>): (r: Option<string>)
    ensures r.None? <==> page.None? || page.value == []
    ensures r.Some? ==> StartsWith(r.value, PagePrefix) && r.value[|PagePrefix|..] == page.value
  {
    if page.None? || page.value == [] then None
    else
      StartsWithPrefix(PagePrefix, page.value);
      Some(PagePrefix + page.value)
  }

  /** The bounds selector's callback: the page name of a page id, nothing for any other id. */
  function SelectedPageName(pageId: string): (r: Option<string>)
    ensures r.Some? <==> StartsWith(pageId, PagePrefix)
    ensures r.Some? ==> PagePrefix + r.value == pageId
  {
    if StartsWith(pageId, PagePrefix) then
      assert pageId[..|PagePrefix|] + pageId[|PagePrefix|..] == pageId;
      Some(pageId[|PagePrefix|..])
    else None
  }

  /** The name the bounds selector reports for a page is the name the embed link gave it, and back. */
  lemma PageNameRoundTrip(page: string, pageId: string)
    ensures page != [] ==> SelectedPageName(PageIdFor(Some(page)).value) == Some(page)
    ensures SelectedPageName(pageId).Some? && SelectedPageName(pageId).value != [] ==>
      PageIdFor(SelectedPageName(pageId)).value == pageId
  {
  }

  datatype Slot = SizeSlot | OptionsSlot | SnapshotSlot | PlaceHolderSlot

  /** A callback, known by its identity. */
  type Callback = nat

  /** Registering a callback takes its slot over, whatever was there. */
  function Subscribed(slots: map<Slot, Callback>, slot: Slot, cb: Callback): map<Slot, Callback> {
    slots[slot := cb]
  }

  /** The unsubscribe function of `cb` empties the slot only while the slot still holds `cb`. */
  function Unsubscribed(slots: map<Slot, Callback>, slot: Slot, cb: Callback): map<Slot, Callback> {
    if slot in slots && slots[slot] == cb then slots - {slot} else slots
  }

  /** The callback a slot invokes, if it holds one. */
  function Notified(slots: map<Slot, Callback>, slot: Slot): seq<Callback> {
    if slot in slots then [slots[slot]] else []
  }

  /**
   * Unsubscribing right after subscribing empties the slot; an unsubscribe that was overtaken by a
   * newer registration leaves the newer callback in place; neither touches another slot.
   */
  lemma SlotDiscipline(slots: map<Slot, Callback>, slot: Slot, cb: Callback, newer: Callback, other: Slot)
    ensures slot !in Unsubscribed(Subscribed(slots, slot, cb), slot, cb)
    ensures newer != cb ==> Unsubscribed(Subscribed(slots, slot, newer), slot, cb) == Subscribed(slots, slot, newer)
    ensures other != slot ==> Notified(Unsubscribed(Subscribed(slots, slot, cb), slot, newer), other) == Notified(slots, other)
    ensures Notified(Subscribed(slots, slot, cb), slot) == [cb]
  {
  }

  datatype ViewMode = Image | Interactive

  /** The options of the preview image that the embed link and the component decide. */
  datatype ImageOptions = ImageOptions(
    pageId: Option<string>, background: bool, bounds: Option<Box>, padding: int, darkMode: bool,
    assets: Option<nat>)

  /** The records of the tldraw file as the document store holds them. */
  datatype Document = Document(pages: set<string>, revision: nat, assets: nat)

  /** The state of the preview refresh timeout. */
  datatype Pending = Idle | Scheduled(options: Option<ImageOptions>)

  /** `setHeight`: the current width and the height, negative heights counted as 0. */
  function ClampedSize(size: Size, height: real): (r: Size)
    ensures r.width == size.width && r.height >= 0.0
    ensures r.height == height || (height < 0.0 && r.height == 0.0)
  {
    Size(size.width, Max(height, 0.0))
  }

  /**
   * `updateEmbedValues` leaves the preview alone when the background, each of the bounds' x, y,
   * w and h (absent on both sides counting as equal) and the page id all match the current options.
   */
  predicate SameView(current: ImageOptions, showBg: bool, bounds: Option<Box>, pageId: Option<string>) {
    current.background == showBg &&
    (current.bounds.Some? == bounds.Some?) &&
    (current.bounds.Some? ==>
      (current.bounds.value.h == bounds.value.h && current.bounds.value.w == bounds.value.w &&
       current.bounds.value.x == bounds.value.x && current.bounds.value.y == bounds.value.y)) &&
    current.pageId == pageId
  }

  /** The preview options after new embed values, when they are applied. */
  function Applied(current: ImageOptions, showBg: bool, bounds: Option<Box>, pageId: Option<string>): ImageOptions {
    current.(background := showBg, bounds := bounds, pageId := pageId)
  }

  /** The field-by-field comparison skips exactly the refreshes that would not change the options. */
  lemma SameViewIsNoChange(current: ImageOptions, showBg: bool, bounds: Option<Box>, pageId: Option<string>)
    ensures SameView(current, showBg, bounds, pageId) <==> Applied(current, showBg, bounds, pageId) == current
  {
    if Applied(current, showBg, bounds, pageId) == current {
      assert current.bounds == bounds;
    }
    if SameView(current, showBg, bounds, pageId) && bounds.Some? {
      assert current.bounds.value == bounds.value;
    }
  }

  /** The snapshot of the store as the preview computes it: none before the store is loaded. */
  function StoreSnapshot(storeInstance: Option<nat>, document: Document): Option<Document> {
    if storeInstance.None? then None else Some(document)
  }

  /** Whether `updateEmbedValues` goes on with a page id: no page id, or one the document has. */
  predicate PageFound(pageId: Option<string>, storeInstance: Option<nat>, document: Document) {
    pageId.None? || (storeInstance.Some? && pageId.value in document.pages)
  }

  class RenderChild {
    /** The registration with the document store manager, once loaded. */
    var storeInstance: Option<nat>
    var registrations: nat
    /** The current records of the file, as the store instance sees them. */
    var document: Document
    /** Whether the store instance synchronises edits to the main store. */
    var syncingToMain: bool
    var viewMode: ViewMode
    var currentPage: Option<string>
    var embedPagesOptions: map<string, Option<Box>>

    var options: ImageOptions
    var size: Size
    /** The placeholder element of the last rendered preview. */
    var rendered: Option<nat>
    var snapshot: Option<Document>
    var snapshotsComputed: nat
    var slots: map<Slot, Callback>
    /** A snapshot callback waits for the workspace leaf to be shown. */
    var deferredSnapshot: bool
    var refreshTimeout: Pending

    var hasViewContent: bool
    var root: Option<nat>
    var roots: nat

    var fired: seq<Callback>
    var sizeUpdates: seq<Size>
    var boundsUpdates: seq<(string, Option<Box>)>
    var renders: seq<ViewMode>

    /** The initial embed values: the page (if any) becomes the current page with its bounds. */
    constructor (page: Option<string>, bounds: Option<Box>, showBg: bool, imageSize: Size, padding: int,
                 darkMode: bool, document: Document)
      ensures currentPage == PageIdFor(page)
      ensures embedPagesOptions == if PageIdFor(page).Some? then map[PageIdFor(page).value := bounds] else map[]
      ensures options == ImageOptions(PageIdFor(page), showBg, bounds, padding, darkMode, None)
      ensures size == imageSize && viewMode == Image && storeInstance == None && registrations == 0
      ensures this.document == document && !syncingToMain
      ensures rendered == None && snapshot == None && snapshotsComputed == 0 && slots == map[]
      ensures !deferredSnapshot && refreshTimeout == Idle
      ensures !hasViewContent && root == None && roots == 0
      ensures fired == [] && sizeUpdates == [] && boundsUpdates == [] && renders == []
    {
      var pageId := PageIdFor(page);
      currentPage := pageId;
      embedPagesOptions := if pageId.Some? then map[pageId.value := bounds] else map[];
      options := ImageOptions(pageId, showBg, bounds, padding, darkMode, None);
      size := imageSize;
      viewMode := Image;
      storeInstance := None;
      registrations := 0;
      this.document := document;
      syncingToMain := false;
      rendered := None;
      snapshot := None;
      snapshotsComputed := 0;
      slots := map[];
      deferredSnapshot := false;
      refreshTimeout := Idle;
      hasViewContent := false;
      root := None;
      roots := 0;
      fired := [];
      sizeUpdates := [];
      boundsUpdates := [];
      renders := [];
    }

    /** Invokes the callback a slot holds, if any. */
    method Notify(slot: Slot)
      modifies this`fired
      ensures fired == old(fired) + Notified(slots, slot)
    {
      if slot in slots {
        fired := fired + [slots[slot]];
      }
    }

    /** `onPreviewSize`, `onPreviewOptions`, `onSnapshot` and `syncPlaceHolder`. */
    method Subscribe(slot: Slot, cb: Callback)
      modifies this`slots
      ensures slots == Subscribed(old(slots), slot, cb)
    {
      slots := slots[slot := cb];
    }

    /** The unsubscribe function those four return for `cb`. */
    method Unsubscribe(slot: Slot, cb: Callback)
      modifies this`slots
      ensures slots == Unsubscribed(old(slots), slot, cb)
    {
      if slot in slots && slots[slot] == cb {
        slots := slots - {slot};
      }
    }

    /**
     * `getSnapshot`: the memoised snapshot if there is one; otherwise it is computed from the
     * store (none before the store is loaded) and memoised.
     */
    method GetSnapshot() returns (r: Option<Document>)
      modifies this`snapshot, this`snapshotsComputed
      ensures r == if old(snapshot).Some? then old(snapshot) else StoreSnapshot(storeInstance, document)
      ensures snapshot == r
      ensures snapshotsComputed == old(snapshotsComputed) + if old(snapshot).Some? then 0 else 1
    {
      if snapshot.None? {
        snapshot := StoreSnapshot(storeInstance, document);
        snapshotsComputed := snapshotsComputed + 1;
      }
      r := snapshot;
    }

    /**
     * `triggerSnapshotCallback`: cancels a deferred call; invokes the snapshot callback when the
     * workspace leaf is shown, and otherwise defers it until it is.
     */
    method TriggerSnapshotCallback(leafShown: bool)
      modifies this`deferredSnapshot, this`fired
      ensures deferredSnapshot == !leafShown
      ensures fired == old(fired) + if leafShown then Notified(slots, SnapshotSlot) else []
    {
      deferredSnapshot := false;
      if leafShown {
        Notify(SnapshotSlot);
      } else {
        deferredSnapshot := true;
      }
    }

    /** The workspace leaf is shown again: a deferred snapshot callback runs now. */
    method LeafShown()
      modifies this`deferredSnapshot, this`fired
      ensures !deferredSnapshot
      ensures fired == old(fired) + if old(deferredSnapshot) then Notified(slots, SnapshotSlot) else []
    {
      if deferredSnapshot {
        TriggerSnapshotCallback(true);
      }
    }

    /** `#markSnapshotStale`: forgets the placeholder and the snapshot, and tells the snapshot observer. */
    method MarkSnapshotStale(leafShown: bool)
      modifies this`rendered, this`snapshot, this`deferredSnapshot, this`fired
      ensures rendered == None && snapshot == None
      ensures deferredSnapshot == !leafShown
      ensures fired == old(fired) + if leafShown then Notified(slots, SnapshotSlot) else []
    {
      rendered := None;
      snapshot := None;
      TriggerSnapshotCallback(leafShown);
    }

    /** The store's change callback (`#dataUpdated`): the file's records changed. */
    method DataUpdated(changed: Document, leafShown: bool)
      modifies this`document, this`rendered, this`snapshot, this`deferredSnapshot, this`fired
      ensures document == changed
      ensures rendered == None && snapshot == None
      ensures deferredSnapshot == !leafShown
      ensures fired == old(fired) + if leafShown then Notified(slots, SnapshotSlot) else []
    {
      document := changed;
      MarkSnapshotStale(leafShown);
    }

    /** The preview image observer saw an image with a source inside a canvas container. */
    method PreviewImageRendered(placeHolder: nat)
      modifies this`rendered
      ensures rendered == Some(placeHolder)
    {
      rendered := Some(placeHolder);
    }

    /**
     * `setHeight`: the clamped size goes to the preview (and its size callback) while previewing,
     * and to the context's `onUpdatedSize` when committed.
     */
    method SetHeight(height: real, preview: bool)
      modifies this`size, this`sizeUpdates, this`fired
      ensures preview ==>
        (size == ClampedSize(old(size), height) && sizeUpdates == old(sizeUpdates) &&
         fired == old(fired) + Notified(slots, SizeSlot))
      ensures !preview ==>
        (size == old(size) && sizeUpdates == old(sizeUpdates) + [ClampedSize(old(size), height)] &&
         fired == old(fired))
    {
      var next := Size(size.width, Max(height, 0.0));
      if !preview {
        sizeUpdates := sizeUpdates + [next];
      } else {
        size := next;
        Notify(SizeSlot);
      }
    }

    /** `renderRoot`: a fresh root when the view content exists, then a render in the current mode. */
    method RenderRoot()
      modifies this`root, this`roots, this`renders
      ensures root == if hasViewContent then Some(old(roots)) else old(root)
      ensures roots == old(roots) + if hasViewContent then 1 else 0
      ensures renders == old(renders) + if root.Some? then [viewMode] else []
    {
      if hasViewContent {
        root := Some(roots);
        roots := roots + 1;
      }
      if root.Some? {
        renders := renders + [viewMode];
      }
    }

    /** `setViewMode`: the image mode stops synchronising to the main store; the mode is kept, then rendered. */
    method SetViewMode(mode: ViewMode)
      modifies this`syncingToMain, this`viewMode, this`root, this`roots, this`renders
      ensures syncingToMain == (old(syncingToMain) && !(mode == Image && storeInstance.Some?))
      ensures viewMode == mode
      ensures root == if hasViewContent then Some(old(roots)) else old(root)
      ensures roots == old(roots) + if hasViewContent then 1 else 0
      ensures renders == old(renders) + if root.Some? then [mode] else []
    {
      if mode == Image && storeInstance.Some? && syncingToMain {
        syncingToMain := false;
      }
      viewMode := mode;
      RenderRoot();
    }

    /** `refreshPreview`: replaces any pending refresh by one with these options. */
    method RefreshPreview(next: Option<ImageOptions>)
      modifies this`refreshTimeout
      ensures refreshTimeout == Scheduled(next)
    {
      refreshTimeout := Scheduled(next);
    }

    /**
     * The refresh timeout fires: the scheduled options (if given) become the options, their page
     * the current page, the placeholder is forgotten, and the placeholder and options callbacks run.
     */
    method RefreshTimeoutElapsed()
      modifies this`options, this`currentPage, this`rendered, this`fired, this`refreshTimeout
      ensures refreshTimeout == Idle
      ensures old(refreshTimeout).Idle? ==>
        options == old(options) && currentPage == old(currentPage) && rendered == old(rendered) && fired == old(fired)
      ensures old(refreshTimeout).Scheduled? ==>
        options == (if old(refreshTimeout).options.Some? then old(refreshTimeout).options.value else old(options)) &&
        currentPage == options.pageId && rendered == None &&
        fired == old(fired) + Notified(slots, PlaceHolderSlot) + Notified(slots, OptionsSlot)
    {
      if refreshTimeout.Scheduled? {
        if refreshTimeout.options.Some? {
          options := refreshTimeout.options.value;
        }
        currentPage := options.pageId;
        rendered := None;
        Notify(PlaceHolderSlot);
        Notify(OptionsSlot);
        refreshTimeout := Idle;
      }
    }

    /** `setPreviewImageOptions`: new options now, and a refresh of the preview. */
    method SetPreviewImageOptions(next: ImageOptions)
      modifies this`options, this`refreshTimeout
      ensures options == next && refreshTimeout == Scheduled(None)
    {
      options := next;
      RefreshPreview(None);
    }

    /** `updateBounds`: the preview options with new bounds, and a refresh. */
    method UpdateBounds(bounds: Option<Box>)
      modifies this`options, this`refreshTimeout
      ensures options == old(options).(bounds := bounds) && refreshTimeout == Scheduled(None)
    {
      SetPreviewImageOptions(options.(bounds := bounds));
    }

    /** The menu's background toggle: the preview options with the background flipped, and a refresh. */
    method ToggleBackground()
      modifies this`options, this`refreshTimeout
      ensures options == old(options).(background := !old(options).background) && refreshTimeout == Scheduled(None)
    {
      SetPreviewImageOptions(options.(background := !options.background));
    }

    /** The menu's interactive toggle: back to the image from any other mode, to interactive from the image. */
    method ToggleInteractive()
      modifies this`syncingToMain, this`viewMode, this`root, this`roots, this`renders
      ensures viewMode == if old(viewMode) != Image then Image else Interactive
      ensures syncingToMain == (old(syncingToMain) && !(old(viewMode) != Image && storeInstance.Some?))
      ensures root == if hasViewContent then Some(old(roots)) else old(root)
      ensures roots == old(roots) + if hasViewContent then 1 else 0
      ensures renders == old(renders) + if root.Some? then [viewMode] else []
    {
      if viewMode != Image {
        SetViewMode(Image);
      } else {
        SetViewMode(Interactive);
      }
    }

    /** `enableEditing`: the store starts synchronising to the main store and the embed turns interactive. */
    method EnableEditing()
      modifies this`syncingToMain, this`viewMode, this`root, this`roots, this`renders
      ensures syncingToMain == (old(syncingToMain) || storeInstance.Some?)
      ensures viewMode == Interactive
      ensures root == if hasViewContent then Some(old(roots)) else old(root)
      ensures roots == old(roots) + if hasViewContent then 1 else 0
      ensures renders == old(renders) + if root.Some? then [Interactive] else []
    {
      if storeInstance.Some? {
        syncingToMain := true;
      }
      viewMode := Interactive;
      RenderRoot();
    }

    /** The bounds selector's callback: page ids are reported by page name, other ids ignored. */
    method BoundsSelected(pageId: string, bounds: Option<Box>)
      modifies this`boundsUpdates
      ensures boundsUpdates == old(boundsUpdates) +
        if SelectedPageName(pageId).Some? then [(SelectedPageName(pageId).value, bounds)] else []
    {
      if !StartsWith(pageId, PagePrefix) {
        return;
      }
      boundsUpdates := boundsUpdates + [(pageId[|PagePrefix|..], bounds)];
    }

    /**
     * `updateEmbedValues`: a changed size reaches the preview and its size callback; a page id
     * the document does not have stops here; otherwise the page's bounds are remembered and the
     * preview is refreshed unless background, bounds and page id are all unchanged.
     */
    method UpdateEmbedValues(bounds: Option<Box>, imageSize: Size, showBg: bool, page: Option<string>)
      modifies this`size, this`fired, this`embedPagesOptions, this`refreshTimeout
      ensures size == imageSize
      ensures fired == old(fired) + if imageSize != old(size) then Notified(slots, SizeSlot) else []
      ensures var pageId := PageIdFor(page);
        embedPagesOptions ==
          if pageId.Some? && PageFound(pageId, storeInstance, document) then map[pageId.value := bounds]
          else old(embedPagesOptions)
      ensures var pageId := PageIdFor(page);
        refreshTimeout ==
          if PageFound(pageId, storeInstance, document) && !SameView(options, showBg, bounds, pageId)
          then Scheduled(Some(Applied(options, showBg, bounds, pageId)))
          else old(refreshTimeout)
    {
      var current := options;
      if imageSize.height != size.height || imageSize.width != size.width {
        size := imageSize;
        Notify(SizeSlot);
      }
      var pageId := PageIdFor(page);
      if pageId.Some? {
        if storeInstance.None? || pageId.value !in document.pages {
          return;
        }
        embedPagesOptions := map[pageId.value := bounds];
      }
      if SameView(current, showBg, bounds, pageId) {
        return;
      }
      RefreshPreview(Some(current.(background := showBg, bounds := bounds, pageId := pageId)));
    }

    /**
     * `lazyLoadStoreInstance`: the existing registration when there is one; otherwise a new
     * registration, whose assets go into the preview options with a refresh.
     */
    method LazyLoadStoreInstance() returns (instance: nat)
      modifies this`storeInstance, this`registrations, this`options, this`refreshTimeout
      ensures old(storeInstance).Some? ==>
        instance == old(storeInstance).value && storeInstance == old(storeInstance) &&
        registrations == old(registrations) && options == old(options) && refreshTimeout == old(refreshTimeout)
      ensures old(storeInstance).None? ==>
        instance == old(registrations) && storeInstance == Some(instance) &&
        registrations == old(registrations) + 1 &&
        options == old(options).(assets := Some(document.assets)) && refreshTimeout == Scheduled(None)
    {
      if storeInstance.Some? {
        return storeInstance.value;
      }
      instance := registrations;
      registrations := registrations + 1;
      storeInstance := Some(instance);
      SetPreviewImageOptions(options.(assets := Some(document.assets)));
    }

    /**
     * `unloadStoreInstance`: unregisters and forgets the store instance, and with it the instance's
     * synchronisation to the main store (a later registration starts without it).
     */
    method UnloadStoreInstance()
      modifies this`storeInstance, this`syncingToMain
      ensures storeInstance == None && !syncingToMain
    {
      storeInstance := None;
      syncingToMain := false;
    }

    /**
     * `onload`: the view content element is created, the store is loaded (once) and a root
     * renders the current view mode.
     */
    method Load()
      modifies this`hasViewContent, this`storeInstance, this`registrations, this`options, this`refreshTimeout,
        this`root, this`roots, this`renders
      ensures hasViewContent && storeInstance.Some?
      ensures registrations == old(registrations) + if old(storeInstance).None? then 1 else 0
      ensures old(storeInstance).Some? ==>
        storeInstance == old(storeInstance) && options == old(options) && refreshTimeout == old(refreshTimeout)
      ensures old(storeInstance).None? ==>
        storeInstance == Some(old(registrations)) &&
        options == old(options).(assets := Some(document.assets)) && refreshTimeout == Scheduled(None)
      ensures root == Some(old(roots)) && roots == old(roots) + 1
      ensures renders == old(renders) + [viewMode]
    {
      hasViewContent := true;
      var _ := LazyLoadStoreInstance();
      RenderRoot();
    }

    /** `onunload`: the pending refresh is cancelled, the root unmounted and the store released. */
    method Unload()
      modifies this`refreshTimeout, this`root, this`storeInstance, this`syncingToMain
      ensures refreshTimeout == Idle && root == None && storeInstance == None && !syncingToMain
    {
      refreshTimeout := Idle;
      root := None;
      UnloadStoreInstance();
    }
  }
}
