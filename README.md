# Drawing model: shapes, snapshots and undo

A Dafny model of the state-management core of a small in-memory drawing
program written in C++ (`OpenCanvas.h`, `OpemCanvas.cpp`), with proofs of what
that core promises.

- **Shapes** (`shapes.dfy`, module `Shapes`). The C++ `Shape` base class and its
  three subclasses `Rectangle`, `Square` and `Textbox` become one class `Shape`.
  - A constant `kind` records the subclass the object was built as.
  - Its fields (`length`, `width`, `colour`, `positionX`, `positionY`, and
    `text` for a textbox) are updated in place by the setters.
  - `Value()` is the `ShapeValue` record a shape holds at one moment.
  - `Clone` is the prototype operation. It returns a *fresh* object with the
    same kind and the same value, so later updates to either object never
    reach the other.
  - `Present` models the "skip null" filter over a `vector<Shape*>`.
- **History** (`history.dfy`, module `History`).
  - `Memento` is built once from a sequence of possibly-null shapes by cloning
    every non-null one, in order.
  - `CareTaker` is a last-in-first-out stack of mementos. It ignores a null
    push and answers null when popped empty.
- **Canvas** (`canvas.dfy`, module `Drawing`). An ordered sequence of shapes.
  - `AddShape` appends a shape and ignores null.
  - `CaptureCurrent` creates a memento holding clones of the shapes.
  - `UndoAction` throws the current shapes away and refills the canvas with
    fresh clones of a memento's shapes. A null memento changes nothing.
- **Scenarios** (`scenarios.dfy`, module `Scenarios`). The test functions in
  `TestingMain.cpp` that exercise this core, each as a method returning what
  the test prints, with the printed values proved (the tests left out are
  named under "Left out"). The longer tests are split into
  phase methods so that each phase states what the next one needs. There is
  also a general capture/restore round trip and a prototype-independence
  property for arbitrary shapes.

C++ pointers map onto Dafny references.
- A `Shape*` that may be null is `Shape?`.
- The canvas's vector only ever holds non-null pointers (`addShape` filters
  them out), so it is `seq<Shape>`.
- `Memento::getSavedState` returns `seq<Shape?>`, as its `vector<Shape*>`
  type allows.
- `Memento::shapesSnapshot` is written only by the constructor, so it is a
  `const` field.

## Model

| member | source | states |
|---|---|---|
| `Shapes.Shape.Rectangle` | OpenCanvas.h:57 | a rectangle holds exactly the length, width, colour and position it was given, with no text |
| `Shapes.Shape.Square` | OpenCanvas.h:64 | a square built from one size has that size as both length and width; no invariant ties the two afterwards |
| `Shapes.Shape.Textbox` | OpenCanvas.h:73 | a textbox holds the five shape attributes and the text it was given |
| `Shapes.Shape.Copy` | OpenCanvas.h:28 | the member-wise copy behind `clone` holds the same value as its argument, including the kind |
| `Shapes.Shape.Clone` | OpenCanvas.h:54-74 | every variant's `clone` returns a new object (fresh, hence independent) of the same kind holding the same value; the receiver is unchanged |
| `Shapes.Shape.GetLength` | OpenCanvas.h:31 | reads the length the shape holds now |
| `Shapes.Shape.GetWidth` | OpenCanvas.h:32 | reads the width the shape holds now |
| `Shapes.Shape.GetColour` | OpenCanvas.h:33 | reads the colour the shape holds now |
| `Shapes.Shape.GetPositionX` | OpenCanvas.h:34 | reads the x position the shape holds now |
| `Shapes.Shape.GetPositionY` | OpenCanvas.h:35 | reads the y position the shape holds now |
| `Shapes.Shape.GetText` | OpenCanvas.h:76 | on a textbox, reads the text it holds now |
| `Shapes.Shape.SetLength` | OpenCanvas.h:37 | `getLength` returns the new length and every other attribute is unchanged |
| `Shapes.Shape.SetWidth` | OpenCanvas.h:38 | `getWidth` returns the new width and every other attribute is unchanged |
| `Shapes.Shape.SetColour` | OpenCanvas.h:39 | `getColour` returns the new colour and every other attribute is unchanged |
| `Shapes.Shape.SetPositionX` | OpenCanvas.h:40 | `getPositionX` returns the new x position and every other attribute is unchanged |
| `Shapes.Shape.SetPositionY` | OpenCanvas.h:41 | `getPositionY` returns the new y position and every other attribute is unchanged |
| `Shapes.Shape.SetText` | OpenCanvas.h:76-77 | on a textbox, `getText` then returns the new text and every other attribute is unchanged |
| `Shapes.Present` | OpemCanvas.cpp:10-15 | the null-skipping filter yields no more elements than its input, each one drawn from the input |
| `Shapes.PresentContains` | OpemCanvas.cpp:10-15 | a shape survives the filter if and only if it is in the input |
| `Shapes.PresentAppend` | OpemCanvas.cpp:10-15 | the filter distributes over concatenation, so input order is kept |
| `Shapes.PresentOfNonNull` | OpemCanvas.cpp:94-99 | a sequence without null loses nothing to the filter, so capturing a canvas keeps every shape |
| `History.Memento.constructor` | OpemCanvas.cpp:6-19 | the snapshot has one entry per non-null input element, in input order; each entry is a fresh clone holding the value of that element, and no two entries are the same object |
| `History.Memento.GetSavedState` | OpemCanvas.cpp:21-25 | returns the snapshot itself and changes nothing, so repeated reads agree |
| `History.CareTaker.constructor` | OpenCanvas.h:124-132 | a new caretaker has an empty history |
| `History.CareTaker.AddMemento` | OpemCanvas.cpp:46-54 | a non-null memento goes on top of the history and earlier entries stay as they were; null leaves the history unchanged |
| `History.CareTaker.GetLastMemento` | OpemCanvas.cpp:56-68 | on a non-empty history, returns the most recent memento and removes exactly that one; on an empty history, returns null and the history stays empty |
| `Drawing.Canvas.constructor` | OpenCanvas.h:137-150 | a new canvas holds no shapes |
| `Drawing.Canvas.AddShape` | OpemCanvas.cpp:81-88 | a non-null shape is appended (that very object, after the earlier ones); null leaves the canvas unchanged |
| `Drawing.Canvas.GetShapes` | OpemCanvas.cpp:90-92 | returns the live shapes themselves, not copies |
| `Drawing.Canvas.CaptureCurrent` | OpemCanvas.cpp:94-101 | the canvas is unchanged; the new memento's snapshot matches the canvas shape by shape in value and order, each entry a fresh clone distinct from the others; an empty canvas gives an empty snapshot |
| `Drawing.Canvas.UndoAction` | OpemCanvas.cpp:103-128 | null changes nothing; otherwise the previous shapes are all gone and the canvas holds fresh, pairwise distinct clones matching the memento's shapes in value and order, while the memento and its shapes are untouched |
| `Scenarios.CaptureRestoreRoundTrip` | OpemCanvas.cpp:94-128 | capturing a canvas and restoring from that capture gives back the same values in the same order, held by fresh shapes |
| `Scenarios.RestoredShapesIndependent` | OpemCanvas.cpp:119-125 | after a restore, updating the first restored shape changes only it: the other restored shapes and the memento keep their values |
| `Scenarios.PrototypeIndependence` | TestingMain.cpp:243-264 | for any shape, a clone holds the same value, and changing its length and width changes only the clone |
| `Scenarios.PrototypeScenario` | TestingMain.cpp:234-270 | before the edits the prototype test reads 10x20 from the rectangle and its clone, 15x15 from the square and its clone, and "Hello World" from the textbox and its clone; after them it reads 10 from the original rectangle and 100 from its clone, "Hello World" from the original textbox and "Modified text" from its clone |
| `Scenarios.CloneEdgeCases` | TestingMain.cpp:148-165 | negative and zero extents, an empty colour, negative positions and empty text are cloned unchanged |
| `Scenarios.SettersScenario` | TestingMain.cpp:168-181 | whatever a rectangle held before, after the five setters it holds 100, 50, "purple", 10 and 20, and the getters read those back |
| `Scenarios.TextboxTextScenario` | TestingMain.cpp:184-190 | a textbox reads back its constructor text, then the text set |
| `Scenarios.AddShapeNullScenario` | TestingMain.cpp:78-90 | the canvas has one shape after adding a rectangle and still one after adding null |
| `Scenarios.EmptyMementoScenario` | TestingMain.cpp:93-110 | an empty canvas gives an empty snapshot, and restoring it empties a canvas of one shape |
| `Scenarios.NullCasesScenario` | TestingMain.cpp:193-208 | a null shape and a null memento change nothing, and an empty caretaker gives null |
| `Scenarios.AddAndCapture` | TestingMain.cpp:120-127 | adding a shape grows the canvas by one; the capture pushed on top has as many shapes as the canvas, below it the history is unchanged |
| `Scenarios.ThreeCaptures` | TestingMain.cpp:116-127 | the caretaker test's history holds three captures, of one, two and three shapes, oldest first |
| `Scenarios.Sizes` | TestingMain.cpp:130-138 | the sizes of a sequence of mementos, newest first: one per memento, the i-th from the end |
| `Scenarios.Drain` | TestingMain.cpp:130-138 | popping until null visits the whole history newest first and leaves it empty |
| `Scenarios.CareTakerDrainScenario` | TestingMain.cpp:113-145 | the caretaker test retrieves mementos of 3, 2 and 1 shapes, then null, and null again |
| `Scenarios.Checkpoint` | TestingMain.cpp:283-284 | a capture matching the canvas shape by shape is pushed on top of the history |
| `Scenarios.TwoOnCanvas` | TestingMain.cpp:275-280 | a new canvas holds the two shapes added, in order |
| `Scenarios.TwoShapes` | TestingMain.cpp:275-280 | the undo test's canvas holds the blue rectangle and then the red square |
| `Scenarios.FirstCapture` | TestingMain.cpp:275-284 | after the first capture the history holds one memento with the rectangle's and the square's values |
| `Scenarios.SecondCapture` | TestingMain.cpp:288-297 | after the textbox, the second capture and the yellow rectangle: the canvas has four shapes with the textbox at index 2; the new top memento holds the three earlier values and not the live textbox |
| `Scenarios.UndoTo` | TestingMain.cpp:302-315 | popping a memento that holds some values and restoring from it leaves the canvas holding those values, with one memento fewer in the history |
| `Scenarios.EditThenUndo` | TestingMain.cpp:298-308 | changing the live textbox's text does not reach the second capture, so the first undo restores three shapes and the text "First text" |
| `Scenarios.MementoScenario` | TestingMain.cpp:272-317 | the undo test: the first undo gives the rectangle, square and textbox (text "First text"), the second gives the rectangle and square |
| `Scenarios.ThreeOnCanvas` | TestingMain.cpp:351-353 | a new canvas holds the three shapes added, in order |
| `Scenarios.CaptureThree` | TestingMain.cpp:342-356 | after the capture the history holds one memento with the values of the three shapes |
| `Scenarios.IntegrationScenario` | TestingMain.cpp:338-374 | after a clone of the first shape is added the canvas has four shapes; the undo restores the three captured values |

## Left out

- Console output (`std::cout`) throughout is not modelled. Only the outcome of
  each operation is, including the "nothing happens" outcome for null inputs.
- Manual memory management has no counterpart in Dafny's garbage-collected heap:
  - the destructors `Canvas::~Canvas` (OpemCanvas.cpp:73-79) and
    `CareTaker::~CareTaker` (OpemCanvas.cpp:27-43);
  - the `delete` loop in `undoAction` (OpemCanvas.cpp:113-115), which becomes
    dropping the old shapes;
  - the tests' `delete lastState`. `Memento` declares no destructor
    (OpenCanvas.h:115-122), so deleting a popped memento leaks its clones.
    This is not captured.
  - For the same reason the destructor test `testDestructors`
    (TestingMain.cpp:30-55) is not modelled: all it does is delete a
    caretaker and a canvas.
- Single ownership of shape and memento pointers is not enforced. The source
  relies on each shape being owned by exactly one canvas or memento, and each
  memento being held once: adding the same shape twice, adding a shape
  obtained through `getSavedState`, or pushing the same memento twice makes
  the deletes in `undoAction` (OpemCanvas.cpp:113-115), `~Canvas`
  (OpemCanvas.cpp:74-76) or `~CareTaker` (OpemCanvas.cpp:30-39) free an
  object twice, or free a memento's shape before line 123 clones it. The model
  gives such inputs a defined result (for example, "the memento is untouched"
  in `Drawing.Canvas.UndoAction`) where the source's behaviour is undefined.
- The exporters (`ExportCanvas`, `PNGExporter`, `PDFExporter`,
  OpemCanvas.cpp:133-199) are not modelled. They only print. `PDFExporter::saveToFile`
  is defined twice, which does not compile.
  - For the same reason the template-method test, the null-canvas export test
    `testExportCanvasNull` (TestingMain.cpp:19-27) and the export step of the
    integration test are not modelled.
- The factories (`RectangleFactory`, `SquareFactory`, `TextboxFactory`,
  OpenCanvas.h:83-110) are not modelled: OpenCanvas.h declares them, but
  OpemCanvas.cpp does not define them, so what they build is unknown. The
  factory tests are left out as well.
  `Scenarios.IntegrationScenario` takes the three shapes the factories would
  create as parameters.
- The default constructors `Shape()`, `Rectangle()`, `Square()` and `Textbox()`
  are not modelled, and nor is the default-constructor test: OpenCanvas.h
  declares them, but OpemCanvas.cpp does not define them, so their default
  values are unknown. `Scenarios.SettersScenario` starts from
  a rectangle with arbitrary attributes instead.
- The bodies of the getters, setters, constructors and `clone` overrides are
  declared in OpenCanvas.h but not defined in OpemCanvas.cpp. They are modelled as the plain field reads, field writes
  and member-wise copies that the declarations and tests show.
- `Shapes.Shape.GetText` and `Shapes.Shape.SetText` require a textbox. The tests
  reach them through `dynamic_cast<Textbox*>`, and on any other shape that cast
  yields null, whose use is undefined behaviour.
- Attributes are 32-bit `int`s (`int32`). They are only stored and copied,
  never computed with, so wrap-around does not arise.
- Test.cpp repeats tests that TestingMain.cpp also has, and it is modelled
  only through those.
