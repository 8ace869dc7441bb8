/** Small facts about sequence concatenation that the string and list
    proofs share. */
module Sequences {

  lemma AppendAssociative<T>(a: seq<T>, b: seq<T>, c: seq<T>)
    ensures a + (b + c) == (a + b) + c
  {
  }

  /** The three pieces of `x + y + z` can be cut back out of it. */
  lemma ThreeParts<T>(x: seq<T>, y: seq<T>, z: seq<T>)
    ensures var s := x + y + z;
            s[..|x|] == x && s[|s| - |z|..] == z && s[|x|..|s| - |z|] == y
  {
    var s := x + y + z;
    assert s[..|x|] == x;
    assert s[|s| - |z|..] == z;
    assert s[|x|..|s| - |z|] == y;
  }
}
