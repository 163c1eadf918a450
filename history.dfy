/** Snapshots of a shape collection (`Memento`) and the undo stack that keeps
    them (`CareTaker`). */
module History {
  import opened Shapes

  /** A deep copy of a shape collection, taken at construction. The snapshot
      sequence is fixed from then on; its shapes are the memento's own clones,
      distinct from each other, but `GetSavedState` hands them out, so a
      caller can still update them. */
  class Memento {
    const snapshot: seq<Shape>

    /** Clones every non-null element of `elements`, in order, skipping the
        null ones. */
    constructor (elements: seq<Shape?>)
      ensures |snapshot| == |Present(elements)|
      ensures forall i :: 0 <= i < |snapshot| ==>
        fresh(snapshot[i]) && snapshot[i].Value() == Present(elements)[i].Value()
      ensures forall k, l :: 0 <= k < l < |snapshot| ==> snapshot[k] != snapshot[l]
    {
      var saved: seq<Shape> := [];
      for i := 0 to |elements|
        invariant |saved| == |Present(elements[..i])|
        invariant forall k :: 0 <= k < |saved| ==> fresh(saved[k])
        invariant forall k :: 0 <= k < |saved| ==> saved[k].Value() == Present(elements[..i])[k].Value()
        invariant forall k, l :: 0 <= k < l < |saved| ==> saved[k] != saved[l]
      {
        var shape := elements[i];
        assert elements[..i + 1][..i] == elements[..i];
        if shape != null {
          var copy := shape.Clone();
          saved := saved + [copy];
        }
      }
      assert elements[..|elements|] == elements;
      snapshot := saved;
    }

    /** The snapshot, returned without changing it (as a vector that may in
        principle hold null); every call returns the same sequence. */
    method GetSavedState() returns (r: seq<Shape?>)
      ensures r == snapshot
    {
      r := snapshot;
    }
  }

  /** A last-in-first-out stack of mementos. */
  class CareTaker {
    var history: seq<Memento>

    constructor ()
      ensures history == []
    {
      history := [];
    }

    /** Pushes a non-null memento on top of the stack; a null one is ignored. */
    method AddMemento(m: Memento?)
      modifies this
      ensures m == null ==> history == old(history)
      ensures m != null ==> history == old(history) + [m]
    {
      if m != null {
        history := history + [m];
      }
    }

    /** Pops the memento pushed last and returns it, or null when the stack is
        empty (which then stays empty). */
    method GetLastMemento() returns (m: Memento?)
      modifies this
      ensures old(history) == [] ==> m == null && history == []
      ensures old(history) != [] ==>
        m == old(history)[|old(history)| - 1] && history == old(history)[..|old(history)| - 1]
    {
      if history != [] {
        m := history[|history| - 1];
        history := history[..|history| - 1];
        return;
      }
      m := null;
    }
  }
}
