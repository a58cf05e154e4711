/**
 * Memento: a rectangle saves its height and width into an immutable memento
 * and later restores both from it.
 */
module Memento {

  datatype Option<T> = None | Some(value: T)

  /** The object getState returns. A dimension the rectangle never set is
      still null, which is None here. */
  datatype Dimensions = Dimensions(height: Option<int>, width: Option<int>)

  /** A saved rectangle state. Its two fields are set by its constructor and
      it has no mutators, so a memento never changes once made. */
  datatype RectangleMemento = RectangleMemento(height: Option<int>, width: Option<int>)
  {
    /** Exactly the height and width given to the constructor. */
    function GetState(): (s: Dimensions)
      ensures s.height == height && s.width == width
    {
      Dimensions(height, width)
    }
  }

  /** One call of a rectangle setter, used to speak of edit sequences. */
  datatype Edit = SetHeight(newHeight: int) | SetWidth(newWidth: int)

  /** The dimensions after the setter calls of `edits`, in order. */
  function Edited(d: Dimensions, edits: seq<Edit>): (r: Dimensions)
    decreases |edits|
  {
    if edits == [] then d
    else
      match edits[0]
      case SetHeight(h) => Edited(d.(height := Some(h)), edits[1..])
      case SetWidth(w) => Edited(d.(width := Some(w)), edits[1..])
  }

  /** The height setter calls of `edits`, in order. */
  function HeightEdits(edits: seq<Edit>): (r: seq<Edit>)
    ensures |r| <= |edits|
    ensures forall i :: 0 <= i < |r| ==> r[i].SetHeight?
    decreases |edits|
  {
    if edits == [] then []
    else (if edits[0].SetHeight? then [edits[0]] else []) + HeightEdits(edits[1..])
  }

  /** The width setter calls of `edits`, in order. */
  function WidthEdits(edits: seq<Edit>): (r: seq<Edit>)
    ensures |r| <= |edits|
    ensures forall i :: 0 <= i < |r| ==> r[i].SetWidth?
    decreases |edits|
  {
    if edits == [] then []
    else (if edits[0].SetWidth? then [edits[0]] else []) + WidthEdits(edits[1..])
  }

  /** The width after a sequence of setter calls depends on the starting
      dimensions only through the starting width, and likewise the height. */
  lemma {:induction false} EditedDependsOnlyOnOwnDimension(d1: Dimensions, d2: Dimensions, edits: seq<Edit>)
    ensures d1.width == d2.width ==> Edited(d1, edits).width == Edited(d2, edits).width
    ensures d1.height == d2.height ==> Edited(d1, edits).height == Edited(d2, edits).height
    decreases |edits|
  {
    if edits != [] {
      match edits[0]
      case SetHeight(h) => EditedDependsOnlyOnOwnDimension(d1.(height := Some(h)), d2.(height := Some(h)), edits[1..]);
      case SetWidth(w) => EditedDependsOnlyOnOwnDimension(d1.(width := Some(w)), d2.(width := Some(w)), edits[1..]);
    }
  }

  /** Height setters never touch the width, and width setters never touch the
      height: over any mix of setter calls, the width is what the width calls
      alone make of it, and the height is what the height calls alone make of it.
      In particular a dimension no edit sets keeps its value. */
  lemma {:induction false} EditsTouchOnlyTheirDimension(d: Dimensions, edits: seq<Edit>)
    ensures Edited(d, edits).width == Edited(d, WidthEdits(edits)).width
    ensures Edited(d, edits).height == Edited(d, HeightEdits(edits)).height
    ensures (forall i :: 0 <= i < |edits| ==> edits[i].SetHeight?) ==> Edited(d, edits).width == d.width
    ensures (forall i :: 0 <= i < |edits| ==> edits[i].SetWidth?) ==> Edited(d, edits).height == d.height
    decreases |edits|
  {
    if edits != [] {
      var rest := edits[1..];
      match edits[0]
      case SetHeight(h) =>
        var d' := d.(height := Some(h));
        EditsTouchOnlyTheirDimension(d', rest);
        EditedDependsOnlyOnOwnDimension(d', d, WidthEdits(rest));
        assert WidthEdits(edits) == WidthEdits(rest);
        assert HeightEdits(edits) == [edits[0]] + HeightEdits(rest);
        assert ([edits[0]] + HeightEdits(rest))[1..] == HeightEdits(rest);
      case SetWidth(w) =>
        var d' := d.(width := Some(w));
        EditsTouchOnlyTheirDimension(d', rest);
        EditedDependsOnlyOnOwnDimension(d', d, HeightEdits(rest));
        assert HeightEdits(edits) == HeightEdits(rest);
        assert WidthEdits(edits) == [edits[0]] + WidthEdits(rest);
        assert ([edits[0]] + WidthEdits(rest))[1..] == WidthEdits(rest);
    }
  }

  class Rectangle {
    var height: Option<int>
    var width: Option<int>

    /** A new rectangle has neither dimension set. */
    constructor ()
      ensures height == None && width == None
    {
      height := None;
      width := None;
    }

    /** The rectangle's current dimensions. */
    function Current(): (d: Dimensions)
      reads this
    {
      Dimensions(height, width)
    }

    /** Set the height; the width is untouched. */
    method SetHeight(newHeight: int)
      modifies this
      ensures height == Some(newHeight) && width == old(width)
    {
      height := Some(newHeight);
    }

    /** Set the width; the height is untouched. */
    method SetWidth(newWidth: int)
      modifies this
      ensures width == Some(newWidth) && height == old(height)
    {
      width := Some(newWidth);
    }

    /** A memento of the current height and width; the rectangle is unchanged. */
    method SaveState() returns (m: RectangleMemento)
      ensures m.GetState() == Current()
    {
      m := RectangleMemento(height, width);
    }

    /** Set both dimensions to the memento's. */
    method RestoreState(m: RectangleMemento)
      modifies this
      ensures Current() == m.GetState()
    {
      var oldState := m.GetState();
      height := oldState.height;
      width := oldState.width;
    }

    /** Perform the setter calls of `edits` in order. */
    method ApplyEdits(edits: seq<Edit>)
      modifies this
      ensures Current() == Edited(old(Current()), edits)
      decreases |edits|
    {
      if edits != [] {
        match edits[0] {
          case SetHeight(h) => SetHeight(h);
          case SetWidth(w) => SetWidth(w);
        }
        ApplyEdits(edits[1..]);
      }
    }

    /** Round trip: save, make any sequence of setter calls, restore; the
        rectangle is back at the saved dimensions and the memento is intact. */
    method SaveEditRestore(edits: seq<Edit>) returns (m: RectangleMemento)
      modifies this
      ensures Current() == old(Current())
      ensures m.GetState() == old(Current())
    {
      m := SaveState();
      ApplyEdits(edits);
      RestoreState(m);
    }
  }

  /** The demonstration: a 10 by 10 rectangle is saved, its height set to 100,
      then restored; the memento still holds 10 by 10 after the edit, and the
      restored rectangle is 10 by 10 again. */
  method UndoScenario() returns (saved: Dimensions, edited: Dimensions, restored: Dimensions)
    ensures saved == Dimensions(Some(10), Some(10))
    ensures edited == Dimensions(Some(100), Some(10))
    ensures restored == Dimensions(Some(10), Some(10))
  {
    var rect := new Rectangle();
    rect.SetHeight(10);
    rect.SetWidth(10);
    var memento := rect.SaveState();
    rect.SetHeight(100);
    var afterEdit := rect.SaveState();
    rect.RestoreState(memento);
    var afterRestore := rect.SaveState();
    saved, edited, restored := memento.GetState(), afterEdit.GetState(), afterRestore.GetState();
  }
}
