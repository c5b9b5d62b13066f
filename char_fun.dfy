/** `CharFun.kt`: repeating one character. */
module CharFun {

  /** `n` copies of `c`, and the empty string for `n <= 0`. */
  function Copies(c: char, n: int): (r: string)
    ensures |r| == if n > 0 then n else 0
    ensures forall i :: 0 <= i < |r| ==> r[i] == c
  {
    if n <= 0 then "" else seq(n, _ => c)
  }

  /**
   * `Char.replicate(n)`: one character for `n == 1`, a builder filled in a
   * `for (i in 1..n)` loop for `n >= 2`, and the empty string otherwise (no
   * error for a negative count).
   */
  method Replicate(c: char, n: int) returns (r: string)
    ensures |r| == if n > 0 then n else 0
    ensures forall i :: 0 <= i < |r| ==> r[i] == c
    ensures r == Copies(c, n)
  {
    if n == 1 {
      r := [c];
    } else if n >= 2 {
      r := "";
      for i := 1 to n + 1
        invariant |r| == i - 1
        invariant forall k :: 0 <= k < |r| ==> r[k] == c
      {
        r := r + [c];
      }
    } else {
      r := "";
    }
  }
}
