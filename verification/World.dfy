/** The simulated world shared by server and client. */
module World {
  import opened Bitwise

  /** Positions are in millimetres; leaving the range of i32 is outside this model. */
  datatype FixedVec3 = FixedVec3(x: int, y: int, z: int)

  datatype WorldState = WorldState(positions: seq<FixedVec3>)

  const ORIGIN := WorldState([FixedVec3(0, 0, 0)])

  /** A word of input bits, as a number. */
  datatype InputMask = InputMask(bits: nat)

  const NO_INPUT := InputMask(0)

  function Or(a: InputMask, b: InputMask): InputMask {
    InputMask(BitOr(a.bits, b.bits))
  }

  /** Is the lowest bit set? */
  predicate Moves(input: InputMask) {
    BitAnd(input.bits, 1) != 0
  }

  function StepPhysics(w: WorldState, input: InputMask): (after: WorldState)
    requires w.positions != []
    ensures |after.positions| == |w.positions|
  {
    if Moves(input) then
      WorldState(w.positions[0 := w.positions[0].(x := w.positions[0].x + 10)])
    else
      w
  }

  /** The world after stepping through `inputs` in order. */
  function Simulate(w: WorldState, inputs: seq<InputMask>): (after: WorldState)
    requires w.positions != []
    ensures |after.positions| == |w.positions|
  {
    if inputs == [] then w
    else StepPhysics(Simulate(w, inputs[..|inputs| - 1]), inputs[|inputs| - 1])
  }

  function Moving(inputs: seq<InputMask>): nat {
    if inputs == [] then 0
    else Moving(inputs[..|inputs| - 1]) + if Moves(inputs[|inputs| - 1]) then 1 else 0
  }

  /** Only the number of moving inputs matters to where the world ends up. */
  lemma {:induction false} SimulateCountsMoves(w: WorldState, inputs: seq<InputMask>)
    requires w.positions != []
    ensures Simulate(w, inputs) ==
            WorldState(w.positions[0 := w.positions[0].(x := w.positions[0].x + 10 * Moving(inputs))])
  {
    if inputs != [] {
      SimulateCountsMoves(w, inputs[..|inputs| - 1]);
    }
  }

  /** An input moves the world exactly when it is odd, and then by 10 mm along the first axis. */
  lemma OddInputsMove(w: WorldState, input: InputMask)
    requires w.positions != []
    ensures Moves(input) <==> input.bits % 2 == 1
    ensures var p, after := w.positions[0], StepPhysics(w, input).positions;
            && after[0] == FixedVec3(p.x + (if input.bits % 2 == 1 then 10 else 0), p.y, p.z)
            && after[1..] == w.positions[1..]
  {
    LowestBit(input.bits);
  }

  lemma MovesOfOr(a: InputMask, b: InputMask)
    ensures Moves(Or(a, b)) <==> Moves(a) || Moves(b)
    ensures !Moves(NO_INPUT)
  {
    LowestBit(a.bits);
    LowestBit(b.bits);
    LowestBit(BitOr(a.bits, b.bits));
  }

  lemma BitsOfOr(a: InputMask, b: InputMask, k: nat)
    ensures HasBit(Or(a, b).bits, k) <==> HasBit(a.bits, k) || HasBit(b.bits, k)
  {
    BitOrExactly(a.bits, b.bits, k);
  }

  lemma OrAlgebra(x: InputMask, y: InputMask, z: InputMask)
    ensures Or(x, Or(y, z)) == Or(y, Or(x, z))
    ensures Or(x, y) == Or(y, x)
    ensures Or(x, Or(x, z)) == Or(x, z)
    ensures Or(x, NO_INPUT) == x
  {
    BitOrAlgebra(x.bits, y.bits, z.bits);
  }
}
