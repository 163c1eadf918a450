/** The shape hierarchy: a shape record with three variants and a prototype
    `Clone`. Shapes are heap objects because their setters update them in
    place; `ShapeValue` is the value a shape holds at one moment. */
module Shapes {

  /** The source's `int`, a 32-bit signed integer. Attributes are only
      stored and copied, never computed with, so no wrap-around arises. */
  newtype int32 = x: int | -0x8000_0000 <= x < 0x8000_0000

  /** The runtime type of a shape: which subclass of `Shape` it is. */
  datatype Kind = Rectangle | Square | Textbox

  /** Everything a shape holds. `text` belongs to textboxes only: a rectangle
      or square is built with it empty, and no method of `Shape` sets it on a
      rectangle or square. */
  datatype ShapeValue = ShapeValue(
    kind: Kind,
    length: int32,
    width: int32,
    colour: string,
    positionX: int32,
    positionY: int32,
    text: string)

  class Shape {
    const kind: Kind
    var length: int32
    var width: int32
    var colour: string
    var positionX: int32
    var positionY: int32
    var text: string

    /** The attributes the shape holds now. */
    function Value(): ShapeValue
      reads this
    {
      ShapeValue(kind, length, width, colour, positionX, positionY, text)
    }

    constructor Rectangle(length: int32, width: int32, colour: string, posX: int32, posY: int32)
      ensures Value() == ShapeValue(Kind.Rectangle, length, width, colour, posX, posY, "")
    {
      this.kind := Kind.Rectangle;
      this.length, this.width, this.colour := length, width, colour;
      this.positionX, this.positionY := posX, posY;
      this.text := "";
    }

    /** A square is built from one size, used as both length and width. */
    constructor Square(size: int32, colour: string, posX: int32, posY: int32)
      ensures Value() == ShapeValue(Kind.Square, size, size, colour, posX, posY, "")
    {
      this.kind := Kind.Square;
      this.length, this.width, this.colour := size, size, colour;
      this.positionX, this.positionY := posX, posY;
      this.text := "";
    }

    constructor Textbox(length: int32, width: int32, colour: string, posX: int32, posY: int32, text: string)
      ensures Value() == ShapeValue(Kind.Textbox, length, width, colour, posX, posY, text)
    {
      this.kind := Kind.Textbox;
      this.length, this.width, this.colour := length, width, colour;
      this.positionX, this.positionY := posX, posY;
      this.text := text;
    }

    /** The member-wise copy each variant's `clone` makes of its receiver. */
    constructor Copy(other: Shape)
      ensures Value() == other.Value()
    {
      this.kind := other.kind;
      this.length, this.width, this.colour := other.length, other.width, other.colour;
      this.positionX, this.positionY := other.positionX, other.positionY;
      this.text := other.text;
    }

    /** Prototype: a new shape of the same variant holding the same
        attributes, with no validation of their values. Because the result is
        fresh, later updates to either shape never reach the other. */
    method Clone() returns (c: Shape)
      ensures fresh(c)
      ensures c.Value() == Value()
    {
      c := new Shape.Copy(this);
    }

    function GetLength(): (r: int32)
      reads this
      ensures r == Value().length
    {
      length
    }

    function GetWidth(): (r: int32)
      reads this
      ensures r == Value().width
    {
      width
    }

    function GetColour(): (r: string)
      reads this
      ensures r == Value().colour
    {
      colour
    }

    function GetPositionX(): (r: int32)
      reads this
      ensures r == Value().positionX
    {
      positionX
    }

    function GetPositionY(): (r: int32)
      reads this
      ensures r == Value().positionY
    {
      positionY
    }

    /** Only a textbox has text; callers reach it through a cast to `Textbox`. */
    function GetText(): (r: string)
      reads this
      requires kind == Kind.Textbox
      ensures r == Value().text
    {
      text
    }

    method SetLength(l: int32)
      modifies this
      ensures GetLength() == l
      ensures Value() == old(Value()).(length := l)
    {
      length := l;
    }

    method SetWidth(w: int32)
      modifies this
      ensures GetWidth() == w
      ensures Value() == old(Value()).(width := w)
    {
      width := w;
    }

    method SetColour(c: string)
      modifies this
      ensures GetColour() == c
      ensures Value() == old(Value()).(colour := c)
    {
      colour := c;
    }

    method SetPositionX(x: int32)
      modifies this
      ensures GetPositionX() == x
      ensures Value() == old(Value()).(positionX := x)
    {
      positionX := x;
    }

    method SetPositionY(y: int32)
      modifies this
      ensures GetPositionY() == y
      ensures Value() == old(Value()).(positionY := y)
    {
      positionY := y;
    }

    method SetText(t: string)
      requires kind == Kind.Textbox
      modifies this
      ensures GetText() == t
      ensures Value() == old(Value()).(text := t)
    {
      text := t;
    }
  }

  /** The shapes of `s` that are not null, in their order in `s`. */
  function Present(s: seq<Shape?>): (r: seq<Shape>)
    ensures |r| <= |s|
    ensures forall i :: 0 <= i < |r| ==> r[i] in s
  {
    if s == [] then []
    else if s[|s| - 1] == null then Present(s[..|s| - 1])
    else Present(s[..|s| - 1]) + [s[|s| - 1]]
  }

  /** The values the shapes of `s` hold now, element by element. */
  function Values(s: seq<Shape>): (r: seq<ShapeValue>)
    reads s
    ensures |r| == |s|
    ensures forall i {:trigger r[i]} :: 0 <= i < |s| ==> r[i] == s[i].Value()
  {
    if s == [] then [] else Values(s[..|s| - 1]) + [s[|s| - 1].Value()]
  }

  /** The shapes of `s` hold the values `vs` now, element by element: the
      pointwise form of `Values(s) == vs`, kept so that contracts spanning
      several heaps need not unfold the recursive `Values`. */
  predicate Holds(s: seq<Shape>, vs: seq<ShapeValue>)
    reads s
  {
    |s| == |vs| && forall i :: 0 <= i < |s| ==> s[i].Value() == vs[i]
  }

  /** A sequence with no null entry loses nothing to `Present`. */
  lemma {:induction false} PresentOfNonNull(s: seq<Shape>)
    ensures Present(s) == s
  {
    if s != [] {
      PresentOfNonNull(s[..|s| - 1]);
    }
  }

  /** `Present` distributes over concatenation. */
  lemma {:induction false} PresentAppend(s: seq<Shape?>, t: seq<Shape?>)
    ensures Present(s + t) == Present(s) + Present(t)
  {
    if t == [] {
      assert s + t == s;
    } else {
      assert (s + t)[..|s + t| - 1] == s + t[..|t| - 1];
      PresentAppend(s, t[..|t| - 1]);
    }
  }

  /** `Present` keeps exactly the non-null shapes: a shape is in the result
      if and only if it is in the input. */
  lemma {:induction false} PresentContains(s: seq<Shape?>, x: Shape)
    ensures x in Present(s) <==> x in s
  {
    if s != [] {
      PresentContains(s[..|s| - 1], x);
      assert s == s[..|s| - 1] + [s[|s| - 1]];
    }
  }
}
