/**
 * The view-provider proxy bound to an object's view: it supplies the icon
 * and saves and restores a back-reference to its document object.
 */
module ViewProviders {
  import opened Wrappers
  import opened Strings
  import opened HostDocument

  /** A Python attribute that may be missing (`hasattr` is false) or set. */
  datatype Attr<+T> = Unset | Set(value: T)

  /** The persisted payload: None, or a dict of string keys and values. */
  type State = Option<map<string, string>>

  /** What `loads`/`__setstate__` can raise. */
  datatype LoadError =
    | NoActiveDocument   // AttributeError: `FreeCAD.ActiveDocument` is None
    | MissingObjectName  // KeyError: the payload has no "ObjectName"

  const DefaultIconFile: string := "FreeGrid.svg"
  const ObjectNameKey: string := "ObjectName"

  /** `os.path.join(ICONPATH, "FreeGrid.svg")`. */
  function DefaultIcon(iconPath: string): (r: string)
    ensures |r| >= |DefaultIconFile| && r[|r| - |DefaultIconFile|..] == DefaultIconFile
    ensures |iconPath| <= |r| && r[..|iconPath|] == iconPath
  {
    PathJoin(iconPath, DefaultIconFile)
  }

  /** `icon_fn or default`: None and the empty string are both falsy. */
  function ChosenIcon(iconFn: Option<string>, iconPath: string): (r: string)
    ensures r == DefaultIcon(iconPath) || (iconFn.Some? && r == iconFn.value)
    ensures iconFn.Some? && iconFn.value != "" ==> r == iconFn.value
    ensures iconFn.None? || iconFn.value == "" ==> r == DefaultIcon(iconPath)
  {
    if iconFn.Some? && iconFn.value != "" then iconFn.value else DefaultIcon(iconPath)
  }

  /** The error a restore raises, if any. The attribute lookup on the active
      document happens before the payload is indexed. */
  function RestoreError(state: State, activeDoc: Option<seq<FeatureObject>>): (r: Option<LoadError>)
    ensures r.Some? <==> state.Some? && (activeDoc.None? || ObjectNameKey !in state.value)
    ensures r == Some(MissingObjectName) ==> activeDoc.Some?
  {
    if state.None? then None
    else if activeDoc.None? then Some(NoActiveDocument)
    else if ObjectNameKey !in state.value then Some(MissingObjectName)
    else None
  }

  /** The back-reference after a restore from `state`, starting from `current`. */
  function RestoredObject(current: Attr<Option<FeatureObject>>, state: State,
                          activeDoc: Option<seq<FeatureObject>>): (r: Attr<Option<FeatureObject>>)
    ensures RestoreError(state, activeDoc).Some? || state.None? ==> r == current
    ensures RestoreError(state, activeDoc).None? && state.Some? ==>
      r.Set? &&
      (r.value.None? <==> forall o :: o in activeDoc.value ==> o.name != state.value[ObjectNameKey]) &&
      (r.value.Some? ==> r.value.value in activeDoc.value && r.value.value.name == state.value[ObjectNameKey])
  {
    if RestoreError(state, activeDoc).Some? || state.None? then current
    else
      var found := GetObject(activeDoc.value, state.value[ObjectNameKey]);
      assert found.Some? ==> found.value in activeDoc.value;
      Set(found)
  }

  /** When names in the document are unique, restoring a payload that names an
      object gives back exactly that object, whatever the proxy held before. */
  lemma {:induction false} RestoreFindsNamedObject(current: Attr<Option<FeatureObject>>,
                                                   doc: seq<FeatureObject>, o: FeatureObject)
    requires o in doc
    requires forall i, j :: 0 <= i < |doc| && 0 <= j < |doc| && doc[i].name == doc[j].name ==> i == j
    ensures RestoredObject(current, Some(map[ObjectNameKey := o.name]), Some(doc)) == Set(Some(o))
  {
    var r := GetObject(doc, o.name);
    assert r.Some?;
    var i :| 0 <= i < |doc| && doc[i] == r.value && r.value.name == o.name;
    var j :| 0 <= j < |doc| && doc[j] == o;
  }

  /** Saving stores nothing, so restoring what was saved keeps the back-reference. */
  lemma SaveThenRestoreKeepsObject(current: Attr<Option<FeatureObject>>, doc: Option<seq<FeatureObject>>)
    ensures RestoredObject(current, None, doc) == current
    ensures RestoreError(None, doc) == None
  {
  }

  /** The host view object; its `Proxy` is the view provider bound to it. */
  class ViewObject {
    var proxy: ViewProvider?

    constructor ()
      ensures proxy == null
    {
      proxy := null;
    }
  }

  class ViewProvider {
    /** `icon_fn` */
    var iconFn: Attr<string>
    /** `vobj`, set by `attach` */
    var vobj: Attr<ViewObject>
    /** `Object`, the back-reference set by a restore */
    var featureObject: Attr<Option<FeatureObject>>

    /** `ViewProvider(obj, icon_fn)`; `iconPath` stands for the package's ICONPATH. */
    constructor (obj: ViewObject, iconFn: Option<string>, iconPath: string)
      modifies obj
      ensures obj.proxy == this
      ensures this.iconFn == Set(ChosenIcon(iconFn, iconPath))
      ensures vobj == Unset && featureObject == Unset
    {
      this.iconFn := Unset;
      vobj := Unset;
      featureObject := Unset;
      new;
      obj.proxy := this;
      CheckAttr(iconPath);
      this.iconFn := Set(ChosenIcon(iconFn, iconPath));
    }

    /** A proxy as the host rebuilds it when a document is loaded: `__init__`
        is not run, so no attribute is set. */
    constructor Restored()
      ensures iconFn == Unset && vobj == Unset && featureObject == Unset
    {
      iconFn := Unset;
      vobj := Unset;
      featureObject := Unset;
    }

    /** `_check_attr`: set the default icon only when `icon_fn` is missing. */
    method CheckAttr(iconPath: string)
      modifies this`iconFn
      ensures old(iconFn).Set? ==> iconFn == old(iconFn)
      ensures old(iconFn).Unset? ==> iconFn == Set(DefaultIcon(iconPath))
    {
      if iconFn.Unset? {
        iconFn := Set(DefaultIcon(iconPath));
      }
    }

    /** `attach(vobj)`: rebinding replaces the handle. */
    method Attach(v: ViewObject)
      modifies this`vobj
      ensures vobj == Set(v)
    {
      vobj := Set(v);
    }

    /** `getIcon()`: the icon, after supplying the default if it was missing. */
    method GetIcon(iconPath: string) returns (r: string)
      modifies this`iconFn
      ensures iconFn.Set? && r == iconFn.value
      ensures old(iconFn).Set? ==> iconFn == old(iconFn)
      ensures old(iconFn).Unset? ==> r == DefaultIcon(iconPath)
    {
      CheckAttr(iconPath);
      r := iconFn.value;
    }

    /** `dumps()` of the modern protocol: the proxy persists nothing. */
    method Dumps() returns (r: State)
      ensures r == None
    {
      r := None;
    }

    /** `loads(state)` of the modern protocol. */
    method Loads(state: State, activeDoc: Option<seq<FeatureObject>>) returns (err: Option<LoadError>)
      modifies this`featureObject
      ensures featureObject == RestoredObject(old(featureObject), state, activeDoc)
      ensures err == RestoreError(state, activeDoc)
    {
      err := None;
      if state.Some? {
        if activeDoc.None? {
          err := Some(NoActiveDocument);
        } else if ObjectNameKey !in state.value {
          err := Some(MissingObjectName);
        } else {
          featureObject := Set(GetObject(activeDoc.value, state.value[ObjectNameKey]));
        }
      }
    }

    /** `__getstate__()` of the legacy protocol: the proxy persists nothing. */
    method GetState() returns (r: State)
      ensures r == None
    {
      r := None;
    }

    /** `__setstate__(state)` of the legacy protocol; behaves as `Loads`. */
    method SetState(state: State, activeDoc: Option<seq<FeatureObject>>) returns (err: Option<LoadError>)
      modifies this`featureObject
      ensures featureObject == RestoredObject(old(featureObject), state, activeDoc)
      ensures err == RestoreError(state, activeDoc)
    {
      err := None;
      if state.Some? {
        if activeDoc.None? {
          err := Some(NoActiveDocument);
        } else if ObjectNameKey !in state.value {
          err := Some(MissingObjectName);
        } else {
          featureObject := Set(GetObject(activeDoc.value, state.value[ObjectNameKey]));
        }
      }
    }
  }
}
