/** Small types shared by every component. */
module Common {
  datatype Option<+T> = None | Some(value: T) {
    function GetOr(default: T): T {
      if Some? then value else default
    }
  }

  /** The two sides of a battle: slot a and slot b. */
  datatype Slot = A | B {
    function Other(): Slot {
      if A? then B else A
    }
  }

  function Min(x: int, y: int): int {
    if x <= y then x else y
  }

  function Max(x: int, y: int): int {
    if x <= y then y else x
  }

  lemma Associative<T>(x: seq<T>, y: seq<T>, z: seq<T>)
    ensures x + y + z == x + (y + z)
  {}

  lemma Uncons<T>(x: seq<T>, y: seq<T>)
    requires x != []
    ensures (x + y)[0] == x[0] && (x + y)[1..] == x[1..] + y
  {}

  lemma PrefixOfConcat<T>(x: seq<T>, y: seq<T>, i: nat)
    requires i <= |y|
    ensures (x + y)[..|x| + i] == x + y[..i]
  {}
}
