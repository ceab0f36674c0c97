/** The view state of the page: the module-level `currentMode` and
    `currentMapType`, the handlers that assign them (setMode, updateMapType)
    and the decision updateDisplay takes on what to render. */
module View {

  datatype Option<T> = None | Some(value: T)

  /** The mode in which one map is shown; every other mode value compares two maps. */
  const SingleMode: string := "single"

  /** The only map type on offer. */
  const AfrMapType: string := "AFR"

  /** The render-target value that selects the 3D surface. */
  const Surface3DView: string := "3d"

  /** The render target used when the control is missing or empty. */
  const TableView: string := "table"

  /** The value of a control that may be absent, falling back when it is
      absent or empty, as `element?.value || fallback` does. */
  function ValueOr(control: Option<string>, fallback: string): (r: string)
    ensures control.Some? && control.value != "" ==> r == control.value
    ensures control.None? || control.value == "" ==> r == fallback
  {
    match control
    case None => fallback
    case Some(v) => if v == "" then fallback else v
  }

  /** The values of the page's selection controls when the display is updated. */
  datatype Controls = Controls(viewMode: Option<string>, singleVersion: string, versionA: string, versionB: string)

  /** What updateDisplay renders: the 3D surface or the table of one variant,
      or the delta table of two. */
  datatype Render =
    | Surface3D(version: string)
    | SingleTable(version: string)
    | DeltaTable(versionA: string, versionB: string)

  /** `target` is what updateDisplay renders in `mode` for controls `c`. */
  ghost predicate Displays(mode: string, c: Controls, target: Render) {
    if mode != SingleMode then target == DeltaTable(c.versionA, c.versionB)
    else if ValueOr(c.viewMode, TableView) == Surface3DView then target == Surface3D(c.singleVersion)
    else target == SingleTable(c.singleVersion)
  }

  /** Compare mode renders the delta table whatever the render-target control says. */
  lemma CompareIgnoresViewMode(mode: string, c: Controls, viewMode: Option<string>, t1: Render, t2: Render)
    requires mode != SingleMode
    requires Displays(mode, c, t1) && Displays(mode, c.(viewMode := viewMode), t2)
    ensures t1 == t2 && t1.DeltaTable?
  {
  }

  class ViewState {
    var mode: string
    var mapType: string

    /** The map type is always the one on offer. */
    ghost predicate Valid()
      reads this
    {
      mapType == AfrMapType
    }

    /** The state at load: one map, as AFR. */
    constructor ()
      ensures Valid() && mode == SingleMode
    {
      mode := SingleMode;
      mapType := AfrMapType;
    }

    /** updateDisplay: the 3D view only in single mode with "3d" selected;
        compare mode always renders the delta table. */
    method UpdateDisplay(c: Controls) returns (target: Render)
      ensures Displays(mode, c, target)
      ensures target.Surface3D? <==> mode == SingleMode && ValueOr(c.viewMode, TableView) == Surface3DView
      ensures mode != SingleMode ==> target == DeltaTable(c.versionA, c.versionB)
      ensures mode == SingleMode ==> !target.DeltaTable? && target.version == c.singleVersion
    {
      var viewMode := ValueOr(c.viewMode, TableView);
      if mode == SingleMode {
        if viewMode == Surface3DView {
          target := Surface3D(c.singleVersion);
        } else {
          target := SingleTable(c.singleVersion);
        }
      } else {
        target := DeltaTable(c.versionA, c.versionB);
      }
    }

    /** setMode: take the mode control's value, show the controls of that
        mode, and update the display. */
    method SetMode(selected: string, c: Controls) returns (singleControlsShown: bool, target: Render)
      requires Valid()
      modifies this
      ensures Valid()
      ensures mode == selected && mapType == old(mapType)
      ensures singleControlsShown <==> selected == SingleMode
      ensures Displays(selected, c, target)
      ensures selected != SingleMode ==> target == DeltaTable(c.versionA, c.versionB)
    {
      mode := selected;
      singleControlsShown := mode == SingleMode;
      target := UpdateDisplay(c);
    }

    /** updateMapType: any selection other than AFR is reset to AFR, both in
        the control and in the state; then the display is updated. */
    method UpdateMapType(selected: string, c: Controls) returns (shownType: string, target: Render)
      modifies this
      ensures Valid()
      ensures mapType == AfrMapType && shownType == AfrMapType
      ensures mode == old(mode)
      ensures Displays(mode, c, target)
    {
      shownType := selected;
      if selected != AfrMapType {
        shownType := AfrMapType;
        mapType := AfrMapType;
      } else {
        mapType := selected;
      }
      target := UpdateDisplay(c);
    }
  }
}
