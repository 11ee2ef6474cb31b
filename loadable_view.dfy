/**
 * The loadable tldraw file view (`TldrawLoadableMixin`, src/obsidian/TldrawMixins.ts): the list of
 * callbacks to run when the file is unloaded, the "View assets" header action that registers one
 * of them, and the React root that renders the view's store.
 *
 * The two kinds of callback the view registers are values: closing an assets modal and removing
 * the "View assets" action button. Running one is recorded in `ran` and has its effect on the
 * open modals or the action buttons.
 */
module LoadableView {
  import opened Wrappers

  datatype UnloadCallback = CloseModal(modal: nat) | RemoveAction(action: nat)

  /** Obsidian's `Array.remove`: the list without `cb`, in the same order. */
  function Without(cbs: seq<UnloadCallback>, cb: UnloadCallback): (r: seq<UnloadCallback>)
    ensures |r| <= |cbs|
    ensures forall c :: c in r <==> c in cbs && c != cb
  {
    if cbs == [] then []
    else (if cbs[0] == cb then [] else [cbs[0]]) + Without(cbs[1..], cb)
  }

  /** Removing a callback that is not in the list leaves the list as it is. */
  lemma {:induction false} WithoutAbsent(cbs: seq<UnloadCallback>, cb: UnloadCallback)
    requires cb !in cbs
    ensures Without(cbs, cb) == cbs
  {
    if cbs != [] {
      assert cbs[1..] + [] == cbs[1..];
      WithoutAbsent(cbs[1..], cb);
      assert [cbs[0]] + cbs[1..] == cbs;
    }
  }

  /** The action buttons that running `cbs` removes. */
  function RemovedActions(cbs: seq<UnloadCallback>): set<nat>
    decreases |cbs|
  {
    if cbs == [] then {}
    else
      var last := cbs[|cbs| - 1];
      RemovedActions(cbs[..|cbs| - 1]) + if last.RemoveAction? then {last.action} else {}
  }

  /** The modals that running `cbs` closes. */
  function ClosedModals(cbs: seq<UnloadCallback>): set<nat>
    decreases |cbs|
  {
    if cbs == [] then {}
    else
      var last := cbs[|cbs| - 1];
      ClosedModals(cbs[..|cbs| - 1]) + if last.CloseModal? then {last.modal} else {}
  }

  /** Running a list removes exactly the buttons and closes exactly the modals that it names. */
  lemma {:induction false} RunEffects(cbs: seq<UnloadCallback>)
    ensures forall a :: a in RemovedActions(cbs) <==> RemoveAction(a) in cbs
    ensures forall m :: m in ClosedModals(cbs) <==> CloseModal(m) in cbs
    decreases |cbs|
  {
    if cbs != [] {
      var init := cbs[..|cbs| - 1];
      RunEffects(init);
      assert cbs == init + [cbs[|cbs| - 1]];
      forall c ensures c in cbs <==> c in init || c == cbs[|cbs| - 1] {
        if c in cbs {
          var k :| 0 <= k < |cbs| && cbs[k] == c;
          if k < |cbs| - 1 {
            assert init[k] == c;
          }
        }
      }
    }
  }

  class TldrawView {
    var onUnloadCallbacks: seq<UnloadCallback>
    /** The store the view shows, once set. */
    var storeProps: Option<nat>
    /** The store the mounted React root renders, while one is mounted. */
    var reactRoot: Option<nat>
    var mounts: nat
    var unmounts: nat
    /** The button whose removal the unregister callback of the "View assets" action undoes. */
    var unregisterViewAssets: Option<nat>
    /** The "View assets" action buttons in the view header. */
    var actions: set<nat>
    var nextAction: nat
    var openModals: set<nat>
    var nextModal: nat
    /** The unload callbacks run so far, in order. */
    var ran: seq<UnloadCallback>

    /** Every "View assets" button is the one the unregister callback removes. */
    predicate Valid()
      reads this
    {
      forall a :: a in actions ==> unregisterViewAssets == Some(a)
    }

    constructor ()
      ensures Valid()
      ensures onUnloadCallbacks == [] && storeProps == None && reactRoot == None && mounts == 0 && unmounts == 0
      ensures unregisterViewAssets == None && actions == {} && nextAction == 0
      ensures openModals == {} && nextModal == 0 && ran == []
    {
      onUnloadCallbacks := [];
      storeProps := None;
      reactRoot := None;
      mounts := 0;
      unmounts := 0;
      unregisterViewAssets := None;
      actions := {};
      nextAction := 0;
      openModals := {};
      nextModal := 0;
      ran := [];
    }

    /** Runs one callback. */
    method Run(cb: UnloadCallback)
      modifies this`ran, this`actions, this`openModals
      ensures ran == old(ran) + [cb]
      ensures actions == old(actions) - if cb.RemoveAction? then {cb.action} else {}
      ensures openModals == old(openModals) - if cb.CloseModal? then {cb.modal} else {}
    {
      ran := ran + [cb];
      match cb
      case CloseModal(m) => openModals := openModals - {m};
      case RemoveAction(a) => actions := actions - {a};
    }

    /** `registerOnUnloadFile`: the callback goes to the end of the list. */
    method RegisterOnUnloadFile(cb: UnloadCallback)
      modifies this`onUnloadCallbacks
      ensures onUnloadCallbacks == old(onUnloadCallbacks) + [cb]
    {
      onUnloadCallbacks := onUnloadCallbacks + [cb];
    }

    /**
     * `onUnloadFile`: the list is emptied first, then each callback that was in it runs once, in
     * the order of registration.
     */
    method OnUnloadFile()
      requires Valid()
      modifies this`onUnloadCallbacks, this`ran, this`actions, this`openModals
      ensures Valid()
      ensures onUnloadCallbacks == []
      ensures ran == old(ran) + old(onUnloadCallbacks)
      ensures actions == old(actions) - RemovedActions(old(onUnloadCallbacks))
      ensures openModals == old(openModals) - ClosedModals(old(onUnloadCallbacks))
    {
      var callbacks := onUnloadCallbacks;
      onUnloadCallbacks := [];
      var i := 0;
      while i < |callbacks|
        invariant 0 <= i <= |callbacks|
        invariant onUnloadCallbacks == []
        invariant ran == old(ran) + callbacks[..i]
        invariant actions == old(actions) - RemovedActions(callbacks[..i])
        invariant openModals == old(openModals) - ClosedModals(callbacks[..i])
      {
        Run(callbacks[i]);
        assert callbacks[..i + 1][..i] == callbacks[..i];
        assert callbacks[..i + 1] == callbacks[..i] + [callbacks[i]];
        i := i + 1;
      }
      assert callbacks[..i] == callbacks;
    }

    /** The "View assets" action: opens an assets modal and has it closed when the file unloads. */
    method ViewAssetsClicked() returns (modal: nat)
      modifies this`openModals, this`nextModal, this`onUnloadCallbacks
      ensures modal == old(nextModal) && nextModal == modal + 1
      ensures openModals == old(openModals) + {modal}
      ensures onUnloadCallbacks == old(onUnloadCallbacks) + [CloseModal(modal)]
    {
      modal := nextModal;
      nextModal := nextModal + 1;
      openModals := openModals + {modal};
      RegisterOnUnloadFile(CloseModal(modal));
    }

    /**
     * `updateViewAssetsAction`: the previous action is unregistered (its removal taken off the
     * list and run); with store props a new button is added whose removal is registered for
     * unload and becomes the new unregister callback.
     */
    method UpdateViewAssetsAction()
      requires Valid()
      modifies this`onUnloadCallbacks, this`ran, this`actions, this`openModals, this`unregisterViewAssets,
        this`nextAction
      ensures Valid()
      ensures var previous := if old(unregisterViewAssets).Some? then [RemoveAction(old(unregisterViewAssets).value)] else [];
        var kept := if previous == [] then old(onUnloadCallbacks) else Without(old(onUnloadCallbacks), previous[0]);
        ran == old(ran) + previous && openModals == old(openModals) &&
        (storeProps.None? ==>
          (onUnloadCallbacks == kept && actions == {} && unregisterViewAssets == old(unregisterViewAssets) &&
           nextAction == old(nextAction))) &&
        (storeProps.Some? ==>
          (onUnloadCallbacks == kept + [RemoveAction(old(nextAction))] && actions == {old(nextAction)} &&
           unregisterViewAssets == Some(old(nextAction)) && nextAction == old(nextAction) + 1))
    {
      if unregisterViewAssets.Some? {
        var removeCb := RemoveAction(unregisterViewAssets.value);
        onUnloadCallbacks := Without(onUnloadCallbacks, removeCb);
        Run(removeCb);
      }
      assert actions == {};
      if storeProps.None? {
        return;
      }
      var action := nextAction;
      nextAction := nextAction + 1;
      actions := actions + {action};
      var removeCb := RemoveAction(action);
      RegisterOnUnloadFile(removeCb);
      unregisterViewAssets := Some(action);
    }

    /** `unmountReactRoot`. */
    method UnmountReactRoot()
      modifies this`reactRoot, this`unmounts
      ensures reactRoot == None
      ensures unmounts == old(unmounts) + if old(reactRoot).Some? then 1 else 0
    {
      if reactRoot.Some? {
        unmounts := unmounts + 1;
      }
      reactRoot := None;
    }

    /** `refreshView`: the current root always goes; a new one renders the store props, if any. */
    method RefreshView()
      modifies this`reactRoot, this`mounts, this`unmounts
      ensures reactRoot == storeProps
      ensures unmounts == old(unmounts) + if old(reactRoot).Some? then 1 else 0
      ensures mounts == old(mounts) + if storeProps.Some? then 1 else 0
    {
      UnmountReactRoot();
      if storeProps.None? {
        return;
      }
      reactRoot := storeProps;
      mounts := mounts + 1;
    }

    /** `setStore`: new store props, then the assets action and the root follow them. */
    method SetStore(props: Option<nat>)
      requires Valid()
      modifies this`storeProps, this`onUnloadCallbacks, this`ran, this`actions, this`openModals,
        this`unregisterViewAssets, this`nextAction, this`reactRoot, this`mounts, this`unmounts
      ensures Valid()
      ensures storeProps == props && reactRoot == props
      ensures |actions| == if props.Some? then 1 else 0
      ensures mounts == old(mounts) + if props.Some? then 1 else 0
      ensures unmounts == old(unmounts) + if old(reactRoot).Some? then 1 else 0
      ensures var previous := if old(unregisterViewAssets).Some? then [RemoveAction(old(unregisterViewAssets).value)] else [];
        var kept := if previous == [] then old(onUnloadCallbacks) else Without(old(onUnloadCallbacks), previous[0]);
        ran == old(ran) + previous && openModals == old(openModals) &&
        (props.None? ==>
          (onUnloadCallbacks == kept && actions == {} && unregisterViewAssets == old(unregisterViewAssets) &&
           nextAction == old(nextAction))) &&
        (props.Some? ==>
          (onUnloadCallbacks == kept + [RemoveAction(old(nextAction))] && actions == {old(nextAction)} &&
           unregisterViewAssets == Some(old(nextAction)) && nextAction == old(nextAction) + 1))
    {
      storeProps := props;
      UpdateViewAssetsAction();
      RefreshView();
    }

    /** `onunload`: the React root is unmounted. */
    method Unload()
      modifies this`reactRoot, this`unmounts
      ensures reactRoot == None
      ensures unmounts == old(unmounts) + if old(reactRoot).Some? then 1 else 0
    {
      UnmountReactRoot();
    }
  }

  /** A valid view never shows more than one "View assets" button. */
  lemma AtMostOneAssetsAction(view: TldrawView)
    requires view.Valid()
    ensures |view.actions| <= 1
    ensures view.actions != {} ==> view.actions == {view.unregisterViewAssets.value}
  {
    if view.actions != {} {
      var a :| a in view.actions;
      assert view.actions == {view.unregisterViewAssets.value};
    }
  }
}
