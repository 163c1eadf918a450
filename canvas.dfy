/** The drawing surface: an ordered collection of shapes with snapshot
    capture and restore. */
module Drawing {
  import opened Shapes
  import opened History

  class Canvas {
    var shapes: seq<Shape>

    /** The values the canvas's shapes hold now, in order. */
    function Contents(): seq<ShapeValue>
      reads this, shapes
    {
      Values(shapes)
    }

    constructor ()
      ensures shapes == []
    {
      shapes := [];
    }

    /** Appends a non-null shape (the canvas then holds that very object);
        a null shape is ignored. */
    method AddShape(shape: Shape?)
      modifies this
      ensures shape == null ==> shapes == old(shapes)
      ensures shape != null ==> shapes == old(shapes) + [shape]
    {
      if shape != null {
        shapes := shapes + [shape];
      }
    }

    /** The canvas's own shapes, not copies: updating one of them updates the
        canvas. */
    method GetShapes() returns (r: seq<Shape>)
      ensures r == shapes
    {
      r := shapes;
    }

    /** A new memento holding fresh clones of the canvas's shapes, one per
        shape and in order. The canvas itself is not changed. */
    method CaptureCurrent() returns (m: Memento)
      ensures fresh(m)
      ensures |m.snapshot| == |shapes|
      ensures forall i :: 0 <= i < |shapes| ==>
        fresh(m.snapshot[i]) && m.snapshot[i].Value() == shapes[i].Value()
      ensures forall k, l :: 0 <= k < l < |m.snapshot| ==> m.snapshot[k] != m.snapshot[l]
    {
      PresentOfNonNull(shapes);
      m := new Memento(shapes);
    }

    /** Restores the canvas from `prev`: its previous shapes are dropped and it
        is refilled with fresh clones of the memento's non-null shapes, in
        order; the memento is not changed. A null memento changes nothing. */
    method UndoAction(prev: Memento?)
      modifies this
      ensures prev == null ==> shapes == old(shapes)
      ensures prev != null ==> |shapes| == |prev.snapshot|
      ensures prev != null ==> forall i :: 0 <= i < |shapes| ==>
        fresh(shapes[i]) && shapes[i].Value() == prev.snapshot[i].Value()
      ensures prev != null ==> forall k, l :: 0 <= k < l < |shapes| ==> shapes[k] != shapes[l]
    {
      if prev == null {
        return;
      }
      shapes := [];
      var savedShapes := prev.GetSavedState();
      for i := 0 to |savedShapes|
        invariant |shapes| == |Present(savedShapes[..i])|
        invariant forall k :: 0 <= k < |shapes| ==> fresh(shapes[k])
        invariant forall k :: 0 <= k < |shapes| ==> shapes[k].Value() == Present(savedShapes[..i])[k].Value()
        invariant forall k, l :: 0 <= k < l < |shapes| ==> shapes[k] != shapes[l]
      {
        var shape := savedShapes[i];
        assert savedShapes[..i + 1][..i] == savedShapes[..i];
        if shape != null {
          var copy := shape.Clone();
          shapes := shapes + [copy];
        }
      }
      assert savedShapes[..|savedShapes|] == savedShapes;
      PresentOfNonNull(prev.snapshot);
    }
  }
}
