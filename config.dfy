/** The shared configuration of the 2D demos: canvas size, the control-point
    lattice, the circle of sample points, and the spline degree. */
module Config {
  import opened Common

  const CanvasWidth: real := 800.0
  const CanvasHeight: real := 600.0

  /** Control points per lattice row and column, and in total. */
  const CtrlLen: nat := 9
  const CtrlTotal: nat := 81
  /** Pixel position of control point (0, 0) and the spacing of the lattice. */
  const CtrlStart: Vec2 := Vec2(200.0, 100.0)
  const CtrlGap: real := 50.0
  /** Sprite sizes, already halved and rounded down: `floor(9/2)` and `floor(5/2)`. */
  const CtrlSize: int := 4
  const CircleSize: int := 2

  const CircleTotal: nat := 100

  /** Two triangles of three vertices per sprite. */
  const VertNum: nat := 6

  const Degree: nat := 3
}
