/** Stock definitions shared by the components. */
module Basics {

  datatype Option<T> = None | Some(value: T)

  /** Truth as a number, for counting. */
  function Bit(b: bool): nat { if b then 1 else 0 }

  /** The first free slot of a table, or -1. */
  function FreePos<T>(slots: seq<Option<T>>): (pos: int)
    ensures -1 <= pos < |slots|
    ensures pos >= 0 ==> slots[pos] == None && forall i :: 0 <= i < pos ==> slots[i].Some?
    ensures pos < 0 ==> forall i :: 0 <= i < |slots| ==> slots[i].Some?
  {
    if slots == [] then -1
    else if slots[0].None? then 0
    else var rest := FreePos(slots[1..]);
      assert forall i :: 1 <= i < |slots| ==> slots[i] == slots[1..][i - 1];
      if rest < 0 then -1 else rest + 1
  }

  lemma Distribute(x: int, y: int, z: int)
    ensures (x - y) * z == x * z - y * z
  {
  }
}
