/** The player entity and the key-code table of the arcade game. */
module App {
  import opened Board

  /** The player sprite; its position is updated in place by each key press. */
  class Player {
    var x: int
    var y: int

    function At(): Pos
      reads this
    {
      Pos(x, y)
    }

    /** A new player stands on the bottom-left cell. */
    constructor ()
      ensures At() == Start
      ensures InBounds(At()) && OnGrid(At())
    {
      x := 0;
      y := 380;
    }

    /** One key press: the step of `move`, then the four clamps. The result
        stands for the win message printed when the top clamp fires. */
    method HandleInput(move: Move) returns (win: bool)
      modifies this
      ensures At() == Apply(old(At()), move)
      ensures win <==> Wins(old(At()), move)
      ensures InBounds(At())
      ensures old(OnGrid(At())) ==> OnGrid(At())
    {
      ghost var before := At();
      if move == Right {
        x := x + XStep;
      } else if move == Up {
        y := y - YStep;
      } else if move == Left {
        x := x - XStep;
      } else if move == Down {
        y := y + YStep;
      }
      if x < MinX {
        x := MinX;
      }
      if x > MaxX {
        x := MaxX;
      }
      if y > MaxY {
        y := MaxY;
      }
      win := false;
      if y < MinY {
        y := MinY;
        win := true;
      }
      if OnGrid(before) {
        ApplyOnGrid(before, move);
      }
    }
  }

  /** The arrow keys and the directions they send. */
  const AllowedKeys: map<int, Move> := map[37 := Left, 38 := Up, 39 := Right, 40 := Down]

  /** The direction a key code sends; a code outside the table sends no move. */
  function KeyMove(keyCode: int): (m: Move)
    ensures m == Left <==> keyCode == 37
    ensures m == Up <==> keyCode == 38
    ensures m == Right <==> keyCode == 39
    ensures m == Down <==> keyCode == 40
    ensures m == None <==> keyCode !in AllowedKeys
  {
    if keyCode in AllowedKeys then AllowedKeys[keyCode] else None
  }

  /** A key that is not an arrow leaves an in-bounds player where it is. */
  lemma UnmappedKeyIsNoOp(p: Pos, keyCode: int)
    requires InBounds(p) && keyCode !in AllowedKeys
    ensures Apply(p, KeyMove(keyCode)) == p
  {
  }

  /** A key release hands the decoded direction to the player. */
  method KeyUp(player: Player, keyCode: int) returns (win: bool)
    modifies player
    ensures player.At() == Apply(old(player.At()), KeyMove(keyCode))
    ensures win <==> Wins(old(player.At()), KeyMove(keyCode))
  {
    win := player.HandleInput(KeyMove(keyCode));
  }
}
