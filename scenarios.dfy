/** Clients of the drawing model: the round trip of capture and restore, and
    the scenarios the repository's test harness walks through, each returning
    what the harness reads back. */
module Scenarios {
  import opened Shapes
  import opened History
  import opened Drawing

  /** Restoring a canvas from a capture of itself gives back the same values,
      in the same order, held by new shapes. */
  method CaptureRestoreRoundTrip(canvas: Canvas)
    modifies canvas
    ensures canvas.Contents() == old(canvas.Contents())
    ensures forall i :: 0 <= i < |canvas.shapes| ==> fresh(canvas.shapes[i])
  {
    var m := canvas.CaptureCurrent();
    canvas.UndoAction(m);
  }

  /** The shapes a restore creates are independent of each other and of the
      memento: updating the first restored shape changes neither the other
      restored shapes nor the memento. */
  method RestoredShapesIndependent(canvas: Canvas, prev: Memento, newLength: int32)
      returns (edited: ShapeValue, others: seq<ShapeValue>)
    requires |prev.snapshot| > 0
    modifies canvas
    ensures edited == prev.snapshot[0].Value().(length := newLength)
    ensures |others| == |prev.snapshot| - 1
    ensures forall i :: 0 <= i < |others| ==> others[i] == prev.snapshot[i + 1].Value()
  {
    canvas.UndoAction(prev);
    var live := canvas.GetShapes();
    live[0].SetLength(newLength);
    edited := live[0].Value();
    others := Values(live[1..]);
  }

  /** Cloning an object copies every attribute, whatever its value, and
      updating the clone leaves the prototype as it was. */
  method PrototypeIndependence(original: Shape, newLength: int32, newWidth: int32)
      returns (before: ShapeValue, copied: ShapeValue, after: ShapeValue, changed: ShapeValue)
    ensures copied == before
    ensures after == before
    ensures changed == before.(length := newLength, width := newWidth)
  {
    before := original.Value();
    var c := original.Clone();
    copied := c.Value();
    c.SetLength(newLength);
    c.SetWidth(newWidth);
    after := original.Value();
    changed := c.Value();
  }

  /** The prototype test: clones match their prototypes, and setting the
      length of a rectangle clone or the text of a textbox clone changes only
      the clone. The sizes read before the edits are (original length,
      original width, clone length, clone width); each pair of texts and
      lengths is (original, clone). */
  method PrototypeScenario()
      returns (rectSizes: (int32, int32, int32, int32), squareSizes: (int32, int32, int32, int32),
               texts: (string, string), lengthsAfter: (int32, int32), textsAfter: (string, string))
    ensures rectSizes == (10, 20, 10, 20)
    ensures squareSizes == (15, 15, 15, 15)
    ensures texts == ("Hello World", "Hello World")
    ensures lengthsAfter == (10, 100)
    ensures textsAfter == ("Hello World", "Modified text")
  {
    var originalRect := new Shape.Rectangle(10, 20, "blue", 5, 5);
    var originalSquare := new Shape.Square(15, "red", 10, 10);
    var originalTextbox := new Shape.Textbox(30, 10, "green", 0, 0, "Hello World");
    var rectClone := originalRect.Clone();
    var squareClone := originalSquare.Clone();
    var textboxClone := originalTextbox.Clone();
    rectSizes := (originalRect.GetLength(), originalRect.GetWidth(), rectClone.GetLength(), rectClone.GetWidth());
    squareSizes := (originalSquare.GetLength(), originalSquare.GetWidth(), squareClone.GetLength(), squareClone.GetWidth());
    texts := (originalTextbox.GetText(), textboxClone.GetText());
    rectClone.SetLength(100);
    textboxClone.SetText("Modified text");
    lengthsAfter := (originalRect.GetLength(), rectClone.GetLength());
    textsAfter := (originalTextbox.GetText(), textboxClone.GetText());
  }

  /** Clone performs no validation: negative and zero extents, an empty colour
      and negative positions are copied as they are, and so is empty text. */
  method CloneEdgeCases() returns (rect: ShapeValue, textbox: ShapeValue)
    ensures rect == ShapeValue(Kind.Rectangle, -10, 0, "", -100, -100, "")
    ensures textbox == ShapeValue(Kind.Textbox, 0, 0, "", 0, 0, "")
  {
    var extremeRect := new Shape.Rectangle(-10, 0, "", -100, -100);
    var clonedExtreme := extremeRect.Clone();
    rect := clonedExtreme.Value();
    var emptyTextbox := new Shape.Textbox(0, 0, "", 0, 0, "");
    var clonedEmpty := emptyTextbox.Clone();
    textbox := clonedEmpty.Value();
  }

  /** The setter test: each setter replaces its own attribute, whatever the
      rectangle held before, and each getter then reads back the value set. */
  method SettersScenario(length: int32, width: int32, colour: string, posX: int32, posY: int32)
      returns (final: ShapeValue, readBack: (int32, int32, string, int32, int32))
    ensures final == ShapeValue(Kind.Rectangle, 100, 50, "purple", 10, 20, "")
    ensures readBack == (100, 50, "purple", 10, 20)
  {
    var rect := new Shape.Rectangle(length, width, colour, posX, posY);
    rect.SetLength(100);
    rect.SetWidth(50);
    rect.SetColour("purple");
    rect.SetPositionX(10);
    rect.SetPositionY(20);
    final := rect.Value();
    readBack := (rect.GetLength(), rect.GetWidth(), rect.GetColour(), rect.GetPositionX(), rect.GetPositionY());
  }

  /** The textbox test: the text given to the constructor is read back, and
      after `SetText` the new text is. */
  method TextboxTextScenario() returns (initial: string, updated: string)
    ensures initial == "Initial text" && updated == "Updated text"
  {
    var tb := new Shape.Textbox(100, 50, "blue", 0, 0, "Initial text");
    initial := tb.GetText();
    tb.SetText("Updated text");
    updated := tb.GetText();
  }

  /** Adding a null shape leaves the canvas's size as it was. */
  method AddShapeNullScenario() returns (afterRectangle: nat, afterNull: nat)
    ensures afterRectangle == 1 && afterNull == 1
  {
    var canvas := new Canvas();
    var r := new Shape.Rectangle(10, 20, "blue", 0, 0);
    canvas.AddShape(r);
    var shapes := canvas.GetShapes();
    afterRectangle := |shapes|;
    canvas.AddShape(null);
    shapes := canvas.GetShapes();
    afterNull := |shapes|;
  }

  /** An empty canvas yields an empty snapshot, and restoring that snapshot
      empties a canvas that held a shape. */
  method EmptyMementoScenario() returns (emptySnapshot: nat, before: nat, after: nat)
    ensures emptySnapshot == 0 && before == 1 && after == 0
  {
    var emptyCanvas := new Canvas();
    var emptyMemento := emptyCanvas.CaptureCurrent();
    var saved := emptyMemento.GetSavedState();
    emptySnapshot := |saved|;
    var canvas := new Canvas();
    var r := new Shape.Rectangle(10, 20, "blue", 0, 0);
    canvas.AddShape(r);
    before := |canvas.shapes|;
    canvas.UndoAction(emptyMemento);
    after := |canvas.shapes|;
  }

  /** Null inputs degrade gracefully: a null shape and a null memento change
      nothing, and an empty history yields null. */
  method NullCasesScenario() returns (size: nat, popped: Memento?)
    ensures size == 0 && popped == null
  {
    var canvas := new Canvas();
    canvas.AddShape(null);
    canvas.UndoAction(null);
    size := |canvas.shapes|;
    var ct := new CareTaker();
    popped := ct.GetLastMemento();
  }

  /** Adds `shape` to the canvas, then captures the canvas and pushes the
      capture, as the caretaker test does three times. */
  method AddAndCapture(canvas: Canvas, caretaker: CareTaker, shape: Shape)
    modifies canvas, caretaker
    ensures |canvas.shapes| == |old(canvas.shapes)| + 1
    ensures |caretaker.history| == |old(caretaker.history)| + 1
    ensures caretaker.history[..|old(caretaker.history)|] == old(caretaker.history)
    ensures |caretaker.history[|old(caretaker.history)|].snapshot| == |canvas.shapes|
  {
    canvas.AddShape(shape);
    var m := canvas.CaptureCurrent();
    caretaker.AddMemento(m);
  }

  /** The caretaker test's set-up: captures of a canvas holding one, two and
      three shapes, pushed in that order. */
  method ThreeCaptures() returns (caretaker: CareTaker)
    ensures fresh(caretaker)
    ensures |caretaker.history| == 3
    ensures |caretaker.history[0].snapshot| == 1
    ensures |caretaker.history[1].snapshot| == 2
    ensures |caretaker.history[2].snapshot| == 3
  {
    caretaker := new CareTaker();
    var canvas := new Canvas();
    var r := new Shape.Rectangle(10, 20, "blue", 0, 0);
    AddAndCapture(canvas, caretaker, r);
    var s := new Shape.Square(15, "red", 5, 5);
    AddAndCapture(canvas, caretaker, s);
    var t := new Shape.Textbox(30, 10, "green", 10, 10, "test");
    AddAndCapture(canvas, caretaker, t);
  }

  /** The snapshot sizes of `ms`, newest (last) first. */
  function Sizes(ms: seq<Memento>): (r: seq<nat>)
    ensures |r| == |ms|
    ensures forall i :: 0 <= i < |ms| ==> r[i] == |ms[|ms| - 1 - i].snapshot|
  {
    if ms == [] then [] else Sizes(ms[1..]) + [|ms[0].snapshot|]
  }

  /** Pops mementos until the caretaker answers null, collecting the size of
      each one popped: the stack comes back newest first and ends empty. */
  method Drain(caretaker: CareTaker) returns (sizes: seq<nat>)
    modifies caretaker
    ensures sizes == Sizes(old(caretaker.history))
    ensures caretaker.history == []
  {
    ghost var pending := caretaker.history;
    sizes := [];
    while true
      invariant caretaker.history == pending[..|caretaker.history|]
      invariant sizes == Sizes(pending[|caretaker.history|..])
      decreases |caretaker.history|
    {
      ghost var k := |caretaker.history|;
      var m := caretaker.GetLastMemento();
      if m == null {
        break;
      }
      assert pending[k - 1..][1..] == pending[k..];
      var saved := m.GetSavedState();
      sizes := sizes + [|saved|];
    }
  }

  /** Three captures of a growing canvas come back newest first, and once the
      stack is drained it keeps answering null. */
  method CareTakerDrainScenario() returns (sizes: seq<nat>, afterDrain: Memento?)
    ensures sizes == [3, 2, 1]
    ensures afterDrain == null
  {
    var caretaker := ThreeCaptures();
    sizes := Drain(caretaker);
    afterDrain := caretaker.GetLastMemento();
  }

  /** Captures the canvas and pushes the memento on the history, as the undo
      test does before each further edit. */
  method Checkpoint(canvas: Canvas, caretaker: CareTaker) returns (m: Memento)
    modifies caretaker
    ensures fresh(m) && |m.snapshot| == |canvas.shapes|
    ensures forall i :: 0 <= i < |canvas.shapes| ==>
      fresh(m.snapshot[i]) && m.snapshot[i].Value() == canvas.shapes[i].Value()
    ensures caretaker.history == old(caretaker.history) + [m]
  {
    m := canvas.CaptureCurrent();
    caretaker.AddMemento(m);
  }

  const BlueRectangle := ShapeValue(Kind.Rectangle, 10, 20, "blue", 0, 0, "")
  const RedSquare := ShapeValue(Kind.Square, 15, 15, "red", 5, 5, "")
  const GreenTextbox := ShapeValue(Kind.Textbox, 30, 10, "green", 10, 10, "First text")

  /** A new canvas holding `a` and then `b`. */
  method TwoOnCanvas(a: Shape, b: Shape) returns (canvas: Canvas)
    ensures fresh(canvas)
    ensures canvas.shapes == [a, b]
  {
    canvas := new Canvas();
    canvas.AddShape(a);
    canvas.AddShape(b);
  }

  /** The undo test's opening: a canvas holding a rectangle and a square. */
  method TwoShapes() returns (canvas: Canvas)
    ensures fresh(canvas)
    ensures Holds(canvas.shapes, [BlueRectangle, RedSquare])
  {
    var r := new Shape.Rectangle(10, 20, "blue", 0, 0);
    var s := new Shape.Square(15, "red", 5, 5);
    canvas := TwoOnCanvas(r, s);
  }

  /** The undo test, first part: the two shapes, then a capture. */
  method FirstCapture() returns (canvas: Canvas, caretaker: CareTaker)
    ensures fresh(canvas) && fresh(caretaker)
    ensures Holds(canvas.shapes, [BlueRectangle, RedSquare])
    ensures |caretaker.history| == 1
    ensures Holds(caretaker.history[0].snapshot, [BlueRectangle, RedSquare])
  {
    canvas := TwoShapes();
    caretaker := new CareTaker();
    var m1 := Checkpoint(canvas, caretaker);
  }

  /** The undo test, second part: a textbox, a second capture, then one more
      rectangle. Returns the textbox, which the canvas holds at index 2. */
  method SecondCapture(canvas: Canvas, caretaker: CareTaker) returns (t: Shape)
    requires Holds(canvas.shapes, [BlueRectangle, RedSquare])
    modifies canvas, caretaker
    ensures fresh(t) && t.kind == Kind.Textbox
    ensures |canvas.shapes| == 4 && canvas.shapes[2] == t
    ensures |caretaker.history| == |old(caretaker.history)| + 1
    ensures caretaker.history[..|caretaker.history| - 1] == old(caretaker.history)
    ensures Holds(caretaker.history[|caretaker.history| - 1].snapshot, [BlueRectangle, RedSquare, GreenTextbox])
    ensures t !in caretaker.history[|caretaker.history| - 1].snapshot
  {
    t := new Shape.Textbox(30, 10, "green", 10, 10, "First text");
    canvas.AddShape(t);
    var m2 := Checkpoint(canvas, caretaker);
    var r2 := new Shape.Rectangle(50, 30, "yellow", 20, 20);
    canvas.AddShape(r2);
  }

  /** A new canvas holding `a`, `b` and `c`, in that order. */
  method ThreeOnCanvas(a: Shape, b: Shape, c: Shape) returns (canvas: Canvas)
    ensures fresh(canvas)
    ensures canvas.shapes == [a, b, c]
  {
    canvas := new Canvas();
    canvas.AddShape(a);
    canvas.AddShape(b);
    canvas.AddShape(c);
  }

  /** The integration test's set-up, with the factories' products as
      parameters: a canvas holding `a`, `b` and `c`, captured once. */
  method CaptureThree(a: Shape, b: Shape, c: Shape) returns (canvas: Canvas, caretaker: CareTaker)
    ensures fresh(canvas) && fresh(caretaker)
    ensures canvas.shapes == [a, b, c]
    ensures |caretaker.history| == 1
    ensures Holds(caretaker.history[0].snapshot, [a.Value(), b.Value(), c.Value()])
  {
    canvas := ThreeOnCanvas(a, b, c);
    caretaker := new CareTaker();
    var m := Checkpoint(canvas, caretaker);
  }

  /** The integration test: a clone of the first shape is added after the
      capture, and the undo gives back the three captured values. */
  method IntegrationScenario(a: Shape, b: Shape, c: Shape) returns (afterClone: nat, afterUndo: seq<ShapeValue>)
    ensures afterClone == 4
    ensures afterUndo == [a.Value(), b.Value(), c.Value()]
  {
    var canvas, caretaker := CaptureThree(a, b, c);
    var shapes := canvas.GetShapes();
    var clone := shapes[0].Clone();
    canvas.AddShape(clone);
    afterClone := |canvas.shapes|;
    afterUndo := UndoTo(canvas, caretaker, [a.Value(), b.Value(), c.Value()]);
  }

  /** Pops the last memento and restores the canvas from it, as the undo test
      does twice. When the memento holds `vs`, so does the canvas afterwards,
      and `restored` is what it then holds. */
  method UndoTo(canvas: Canvas, caretaker: CareTaker, vs: seq<ShapeValue>) returns (restored: seq<ShapeValue>)
    requires caretaker.history != []
    requires Holds(caretaker.history[|caretaker.history| - 1].snapshot, vs)
    modifies canvas, caretaker
    ensures caretaker.history == old(caretaker.history)[..|old(caretaker.history)| - 1]
    ensures Holds(canvas.shapes, vs)
    ensures restored == vs
  {
    var lastState := caretaker.GetLastMemento();
    canvas.UndoAction(lastState);
    restored := canvas.Contents();
  }

  /** The undo test, last part: the textbox at index 2 is changed through the
      canvas's live shapes, then the first undo restores the second capture and
      the textbox's text is read back. */
  method EditThenUndo(canvas: Canvas, caretaker: CareTaker, t: Shape)
      returns (afterFirstUndo: seq<ShapeValue>, text: string)
    requires |caretaker.history| == 2
    requires Holds(caretaker.history[1].snapshot, [BlueRectangle, RedSquare, GreenTextbox])
    requires |canvas.shapes| > 2 && canvas.shapes[2] == t && t.kind == Kind.Textbox
    requires t !in caretaker.history[1].snapshot
    modifies canvas, caretaker, t
    ensures caretaker.history == old(caretaker.history)[..1]
    ensures afterFirstUndo == [BlueRectangle, RedSquare, GreenTextbox]
    ensures text == GreenTextbox.text
  {
    var live := canvas.GetShapes();
    live[2].SetText("Updated text");
    afterFirstUndo := UndoTo(canvas, caretaker, [BlueRectangle, RedSquare, GreenTextbox]);
    live := canvas.GetShapes();
    text := live[2].GetText();
  }

  /** The undo test: after both captures the textbox's text is changed; two
      undos then give back the second and the first capture, so the text is
      back to its first value. */
  method MementoScenario()
      returns (afterFirstUndo: seq<ShapeValue>, text: string, afterSecondUndo: seq<ShapeValue>)
    ensures afterFirstUndo == [BlueRectangle, RedSquare, GreenTextbox]
    ensures text == "First text"
    ensures afterSecondUndo == [BlueRectangle, RedSquare]
  {
    var canvas, caretaker := FirstCapture();
    ghost var m1 := caretaker.history[0];
    var t := SecondCapture(canvas, caretaker);
    assert t !in m1.snapshot;
    afterFirstUndo, text := EditThenUndo(canvas, caretaker, t);
    afterSecondUndo := UndoTo(canvas, caretaker, [BlueRectangle, RedSquare]);
  }
}
