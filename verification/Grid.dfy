/** Board cells and canvas points: `wheelToCanvas` and `canvasToWheel`, one axis at a time. Numbers are
    reals; the scale is not zero. */
module Grid {

  /** `Math.round`: to the nearest integer, halves up. */
  function Round(x: real): int {
    (x + 0.5).Floor
  }

  function WheelToCanvas(cell: int, scale: real, offset: real): int {
    Round(cell as real * scale + offset)
  }

  function CanvasToWheel(point: real, scale: real, offset: real): int
    requires scale != 0.0
  {
    Round((point - offset) / scale)
  }

  datatype Position<T> = Position(x: T, y: T)

  function CellToPoint(p: Position<int>, scale: real, offsetX: real, offsetY: real): Position<int> {
    Position(WheelToCanvas(p.x, scale, offsetX), WheelToCanvas(p.y, scale, offsetY))
  }

  function PointToCell(p: Position<real>, scale: real, offsetX: real, offsetY: real): Position<int>
    requires scale != 0.0
  {
    Position(CanvasToWheel(p.x, scale, offsetX), CanvasToWheel(p.y, scale, offsetY))
  }

  lemma RoundBounds(x: real)
    ensures -0.5 < Round(x) as real - x <= 0.5
  {
  }

  lemma RoundIs(x: real, n: int)
    requires -0.5 <= x - n as real < 0.5
    ensures Round(x) == n
  {
  }

  /** Comparing a quotient with a bound is comparing the dividend with the multiplied bound. */
  lemma QuotientBelow(e: real, scale: real, bound: real)
    requires scale > 0.0
    ensures e / scale < bound <==> e < bound * scale
    ensures e / scale <= bound <==> e <= bound * scale
  {
  }

  lemma NegateBoth(e: real, scale: real)
    requires scale != 0.0
    ensures e / scale == (-e) / (-scale)
  {
  }

  /** Dividing a rounding error by a scale of at least one in size leaves less than half a cell. */
  lemma ErrorShrinks(e: real, scale: real)
    requires scale > 1.0 || scale <= -1.0
    requires -0.5 < e <= 0.5
    ensures -0.5 <= e / scale < 0.5
  {
  }

  lemma DivideShifted(cell: int, scale: real, e: real)
    requires scale != 0.0
    ensures (cell as real * scale + e) / scale == cell as real + e / scale
  {
  }

  /** A cell is drawn within half a pixel of its place, on each axis with that axis' offset. */
  lemma PointIsNear(p: Position<int>, scale: real, offsetX: real, offsetY: real)
    ensures
      var q := CellToPoint(p, scale, offsetX, offsetY);
      && -0.5 < q.x as real - (p.x as real * scale + offsetX) <= 0.5
      && -0.5 < q.y as real - (p.y as real * scale + offsetY) <= 0.5
  {
  }

  /** A point belongs to the cell whose place is within half a cell of it, on each axis. */
  lemma CellIsNearest(p: Position<real>, scale: real, offsetX: real, offsetY: real)
    requires scale != 0.0
    ensures
      var q, half := PointToCell(p, scale, offsetX, offsetY), Size(scale) / 2.0;
      && -half <= q.x as real * scale + offsetX - p.x <= half
      && -half <= q.y as real * scale + offsetY - p.y <= half
  {
    CellIsNear(p.x - offsetX, scale, CanvasToWheel(p.x, scale, offsetX));
    CellIsNear(p.y - offsetY, scale, CanvasToWheel(p.y, scale, offsetY));
  }

  lemma RoundTrip(cell: int, scale: real, offset: real)
    requires scale > 1.0 || scale <= -1.0
    ensures CanvasToWheel(WheelToCanvas(cell, scale, offset) as real, scale, offset) == cell
  {
    var exact := cell as real * scale + offset;
    var e := Round(exact) as real - exact;
    RoundBounds(exact);
    ErrorShrinks(e, scale);
    DivideShifted(cell, scale, e);
    assert Round(exact) as real - offset == cell as real * scale + e;
    RoundIs(cell as real + e / scale, cell);
  }

  /** A scale that is too small in size: cell 0 at offset one half does not come back. */
  lemma TooSmall(scale: real)
    requires scale != 0.0 && -1.0 < scale <= 1.0
    ensures CanvasToWheel(WheelToCanvas(0, scale, 0.5) as real, scale, 0.5) != 0
  {
    assert 0 as real * scale + 0.5 == 0.5;
    assert WheelToCanvas(0, scale, 0.5) == 1;
    if scale > 0.0 {
      QuotientBelow(0.5, scale, 0.5);
    } else {
      NegateBoth(0.5, scale);
      QuotientBelow(-0.5, -scale, -0.5);
    }
  }

  /** Every cell comes back from the canvas at every offset exactly for these scales. */
  lemma RoundTripIff(scale: real)
    requires scale != 0.0
    ensures (forall p, ox: real, oy: real :: PointToCell(AsReal(CellToPoint(p, scale, ox, oy)), scale, ox, oy) == p)
            <==> scale > 1.0 || scale <= -1.0
  {
    if scale > 1.0 || scale <= -1.0 {
      forall p, ox: real, oy: real
        ensures PointToCell(AsReal(CellToPoint(p, scale, ox, oy)), scale, ox, oy) == p
      {
        RoundTrip(p.x, scale, ox);
        RoundTrip(p.y, scale, oy);
      }
    } else {
      TooSmall(scale);
      assert PointToCell(AsReal(CellToPoint(Position(0, 0), scale, 0.5, 0.5)), scale, 0.5, 0.5).x != 0;
    }
  }

  function AsReal(p: Position<int>): Position<real> {
    Position(p.x as real, p.y as real)
  }

  /** Where a pane dropped at a point ends up. */
  function Snap(point: real, scale: real, offset: real): int
    requires scale != 0.0
  {
    WheelToCanvas(CanvasToWheel(point, scale, offset), scale, offset)
  }

  /** What the two roundings of a snap do to a point: it moves by at most half a cell and half a pixel. */
  lemma SnapIsNear(point: real, scale: real, offset: real)
    requires scale != 0.0
    ensures -(Size(scale) / 2.0 + 0.5) <= Snap(point, scale, offset) as real - point <= Size(scale) / 2.0 + 0.5
  {
    var cell := CanvasToWheel(point, scale, offset);
    RoundBounds((point - offset) / scale);
    RoundBounds(cell as real * scale + offset);
    CellIsNear(point - offset, scale, cell);
  }

  function Size(scale: real): real {
    if scale < 0.0 then -scale else scale
  }

  /** The corner of the nearest cell is at most half a cell away. */
  lemma CellIsNear(d: real, scale: real, cell: int)
    requires scale != 0.0 && -0.5 < cell as real - d / scale <= 0.5
    ensures -(Size(scale) / 2.0) <= cell as real * scale - d <= Size(scale) / 2.0
  {
    var size, e := Size(scale), if scale < 0.0 then -d else d;
    if scale < 0.0 {
      NegateBoth(d, scale);
    }
    QuotientBelow(e, size, cell as real + 0.5);
    QuotientBelow(e, size, cell as real - 0.5);
    assert (cell as real + 0.5) * size == cell as real * size + size / 2.0;
    assert (cell as real - 0.5) * size == cell as real * size - size / 2.0;
  }

  /** Cells smaller than a pixel: a point that is a whole number of pixels stays where it is. */
  lemma SmallCellsStay(point: int, scale: real, offset: real)
    requires scale != 0.0 && -1.0 < scale < 1.0
    ensures Snap(point as real, scale, offset) == point
  {
    var cell := CanvasToWheel(point as real, scale, offset);
    RoundBounds((point as real - offset) / scale);
    CellIsNear(point as real - offset, scale, cell);
    RoundIs(cell as real * scale + offset, point);
  }

  lemma SnapIdempotent(point: real, scale: real, offset: real)
    requires scale != 0.0 && scale != 1.0
    ensures Snap(Snap(point, scale, offset) as real, scale, offset) == Snap(point, scale, offset)
  {
    if -1.0 < scale < 1.0 {
      SmallCellsStay(Snap(point, scale, offset), scale, offset);
    } else {
      RoundTrip(CanvasToWheel(point, scale, offset), scale, offset);
    }
  }

  /** At scale 1 and half a pixel off, every snap moves a point one pixel further. */
  lemma UnitScaleDrifts()
    ensures Snap(0.0, 1.0, 0.5) == 1 && Snap(1.0, 1.0, 0.5) == 2
  {
  }

  /** Snapping twice is snapping once, for every point and offset, exactly when the scale is not 1. */
  lemma SnapIdempotentIff(scale: real)
    requires scale != 0.0
    ensures (forall p: real, o: real :: Snap(Snap(p, scale, o) as real, scale, o) == Snap(p, scale, o))
            <==> scale != 1.0
  {
    if scale != 1.0 {
      forall p: real, o: real
        ensures Snap(Snap(p, scale, o) as real, scale, o) == Snap(p, scale, o)
      {
        SnapIdempotent(p, scale, o);
      }
    } else {
      UnitScaleDrifts();
    }
  }
}
