/** The board the player sprite moves on: its bounds, the step a key press
    takes, and the pure specification of one key press (step, then clamp). */
module Board {

  /** Horizontal and vertical step of one key press, in pixels. */
  const XStep: int := 100
  const YStep: int := 85

  /** The bounds the player position is clamped to after every key press. */
  const MinX: int := 0
  const MaxX: int := 400
  const MinY: int := -45
  const MaxY: int := 380

  /** A direction handed to the player. `None` stands for any value that is
      not one of the four direction strings (an unmapped key gives `undefined`). */
  datatype Move = Left | Up | Right | Down | None

  datatype Pos = Pos(x: int, y: int)

  /** Where a new player is placed. */
  const Start: Pos := Pos(0, 380)

  predicate InBounds(p: Pos) {
    MinX <= p.x <= MaxX && MinY <= p.y <= MaxY
  }

  /** The cells the player can stand on: five columns and six rows. */
  predicate OnGrid(p: Pos) {
    p.x in {0, 100, 200, 300, 400} && p.y in {380, 295, 210, 125, 40, -45}
  }

  /** The move that undoes `m` when no clamping is involved. */
  function Opposite(m: Move): (r: Move)
    ensures m == Right <==> r == Left
    ensures m == Left <==> r == Right
    ensures m == Up <==> r == Down
    ensures m == Down <==> r == Up
    ensures r == None <==> m == None
  {
    match m
    case Left => Right
    case Right => Left
    case Up => Down
    case Down => Up
    case None => None
  }

  /** The position after the step of `m` and before any clamping. */
  function Step(p: Pos, m: Move): (r: Pos)
    ensures r == p <==> m == None
    ensures r.y == p.y <==> m in {Left, Right, None}
    ensures r.x == p.x <==> m in {Up, Down, None}
    ensures m == Right ==> r.x == p.x + XStep
    ensures m == Left ==> r.x == p.x - XStep
    ensures m == Up ==> r.y == p.y - YStep
    ensures m == Down ==> r.y == p.y + YStep
  {
    match m
    case Right => Pos(p.x + XStep, p.y)
    case Up => Pos(p.x, p.y - YStep)
    case Left => Pos(p.x - XStep, p.y)
    case Down => Pos(p.x, p.y + YStep)
    case None => p
  }

  /** The nearest in-bounds position, coordinate by coordinate. */
  function Clamp(q: Pos): (r: Pos)
    ensures InBounds(r)
    ensures MinX <= q.x <= MaxX ==> r.x == q.x
    ensures MinY <= q.y <= MaxY ==> r.y == q.y
    ensures q.x < MinX ==> r.x == MinX
    ensures q.x > MaxX ==> r.x == MaxX
    ensures q.y < MinY ==> r.y == MinY
    ensures q.y > MaxY ==> r.y == MaxY
  {
    var x := if q.x < MinX then MinX else if q.x > MaxX then MaxX else q.x;
    var y := if q.y > MaxY then MaxY else if q.y < MinY then MinY else q.y;
    Pos(x, y)
  }

  /** The position after one key press: the step, then the four clamps. */
  function Apply(p: Pos, m: Move): (r: Pos)
    ensures InBounds(r)
    ensures InBounds(Step(p, m)) ==> r == Step(p, m)
  {
    Clamp(Step(p, m))
  }

  /** The win signal: the stepped position went above the top row. */
  predicate Wins(p: Pos, m: Move)
    ensures Wins(p, m) ==> m == Up || p.y < MinY
    ensures Wins(p, m) ==> Apply(p, m).y == MinY
    ensures InBounds(p) ==> (Wins(p, m) <==> m == Up && p.y - YStep < MinY)
  {
    Step(p, m).y < MinY
  }

  /** The position after a sequence of key presses. */
  function Run(p: Pos, ms: seq<Move>): Pos
    decreases |ms|
  {
    if ms == [] then p else Run(Apply(p, ms[0]), ms[1..])
  }

  /** `n` copies of the move `m`. */
  function Repeat(m: Move, n: nat): (r: seq<Move>)
    ensures |r| == n
    ensures forall i :: 0 <= i < n ==> r[i] == m
  {
    if n == 0 then [] else [m] + Repeat(m, n - 1)
  }

  /** The positions some sequence of key presses leads to from the start. */
  ghost predicate Reachable(p: Pos) {
    exists ms :: Run(Start, ms) == p
  }

  // ---------------------------------------------------------------------
  // Properties of a single key press

  /** Left and right change only x, by one step unless a wall stops it;
      up and down change only y in the same way. */
  lemma OneAxis(p: Pos, m: Move)
    requires InBounds(p)
    ensures m == Right ==> Apply(p, m) == Pos(if p.x + XStep > MaxX then MaxX else p.x + XStep, p.y)
    ensures m == Left ==> Apply(p, m) == Pos(if p.x - XStep < MinX then MinX else p.x - XStep, p.y)
    ensures m == Up ==> Apply(p, m) == Pos(p.x, if p.y - YStep < MinY then MinY else p.y - YStep)
    ensures m == Down ==> Apply(p, m) == Pos(p.x, if p.y + YStep > MaxY then MaxY else p.y + YStep)
  {
  }

  /** A value that is not a direction leaves an in-bounds position where it is;
      out of bounds, it only clamps. */
  lemma NoMoveKeepsPosition(p: Pos)
    ensures Apply(p, None) == Clamp(p)
    ensures InBounds(p) <==> Apply(p, None) == p
  {
  }

  /** Pushing against a wall does nothing. */
  lemma AgainstWall(p: Pos)
    requires InBounds(p)
    ensures p.x == MinX ==> Apply(p, Left) == p
    ensures p.x == MaxX ==> Apply(p, Right) == p
    ensures p.y == MaxY ==> Apply(p, Down) == p
    ensures p.y == MinY ==> Apply(p, Up) == p
  {
  }

  /** Opposite is its own inverse. */
  lemma OppositeInvolutive(m: Move)
    ensures Opposite(Opposite(m)) == m
  {
  }

  /** When neither press is clamped, the opposite move undoes a move. */
  lemma OppositeUndoes(p: Pos, m: Move)
    requires InBounds(p) && InBounds(Step(p, m))
    ensures Apply(Apply(p, m), Opposite(m)) == p
  {
  }

  /** A key press keeps the player on the grid. */
  lemma ApplyOnGrid(p: Pos, m: Move)
    requires OnGrid(p)
    ensures OnGrid(Apply(p, m))
  {
  }

  /** The win signal fires exactly when the stepped y is above the top row;
      on the grid that is an up press from the top row, so reaching the top
      row from the row below does not fire it. */
  lemma WinCondition(p: Pos, m: Move)
    requires OnGrid(p)
    ensures Wins(p, m) <==> m == Up && p.y == MinY
    ensures Wins(p, m) ==> Apply(p, m) == p
  {
  }

  // ---------------------------------------------------------------------
  // Reachable positions

  lemma {:induction false} RunAppend(p: Pos, a: seq<Move>, b: seq<Move>)
    ensures Run(p, a + b) == Run(Run(p, a), b)
    decreases |a|
  {
    if a == [] {
      assert a + b == b;
    } else {
      assert (a + b)[0] == a[0];
      assert (a + b)[1..] == a[1..] + b;
      RunAppend(Apply(p, a[0]), a[1..], b);
    }
  }

  lemma {:induction false} RunOnGrid(p: Pos, ms: seq<Move>)
    requires OnGrid(p)
    ensures OnGrid(Run(p, ms))
    decreases |ms|
  {
    if ms != [] {
      ApplyOnGrid(p, ms[0]);
      RunOnGrid(Apply(p, ms[0]), ms[1..]);
    }
  }

  /** `n` right presses walk `n` columns when no wall is hit. */
  lemma {:induction false} RunRights(p: Pos, n: nat)
    requires InBounds(p) && p.x + n * XStep <= MaxX
    ensures Run(p, Repeat(Right, n)) == Pos(p.x + n * XStep, p.y)
    decreases n
  {
    if n > 0 {
      var q := Apply(p, Right);
      assert q == Pos(p.x + XStep, p.y);
      RunRights(q, n - 1);
    }
  }

  /** `n` up presses climb `n` rows when the top is not passed. */
  lemma {:induction false} RunUps(p: Pos, n: nat)
    requires InBounds(p) && p.y - n * YStep >= MinY
    ensures Run(p, Repeat(Up, n)) == Pos(p.x, p.y - n * YStep)
    decreases n
  {
    if n > 0 {
      var q := Apply(p, Up);
      assert q == Pos(p.x, p.y - YStep);
      RunUps(q, n - 1);
    }
  }

  /** The presses that lead from the start to a grid cell: first right, then up. */
  function PathTo(p: Pos): (ms: seq<Move>)
    requires OnGrid(p)
    ensures Run(Start, ms) == p
  {
    var c := p.x / XStep;
    var r := (MaxY - p.y) / YStep;
    RunRights(Start, c);
    RunUps(Pos(p.x, MaxY), r);
    RunAppend(Start, Repeat(Right, c), Repeat(Up, r));
    Repeat(Right, c) + Repeat(Up, r)
  }

  /** From the start, the reachable positions are exactly the grid cells. */
  lemma ReachableIsGrid(p: Pos)
    ensures Reachable(p) <==> OnGrid(p)
  {
    if Reachable(p) {
      var ms :| Run(Start, ms) == p;
      RunOnGrid(Start, ms);
    }
    if OnGrid(p) {
      assert Run(Start, PathTo(p)) == p;
    }
  }
}
