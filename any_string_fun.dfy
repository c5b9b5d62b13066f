/**
 * `any/StringFun.kt`: joining optional parts into a phrase, taking the left
 * or right end of a string, and cutting a string at a marker.
 */
module AnyStringFun {
  import opened Wrappers

  // ---------------------------------------------------------------------
  // phraseOf
  // ---------------------------------------------------------------------

  /** The non-null parts, in their order. */
  function NonNull(parts: seq<Option<string>>): (r: seq<string>)
    ensures |r| <= |parts|
  {
    if parts == [] then []
    else
      var last := parts[|parts| - 1];
      NonNull(parts[..|parts| - 1]) + (if last.Some? then [last.value] else [])
  }

  /** `items` separated by `delimiter`: no delimiter before the first item or after the last. */
  function Join(items: seq<string>, delimiter: string): string
  {
    if items == [] then ""
    else if |items| == 1 then items[0]
    else Join(items[..|items| - 1], delimiter) + delimiter + items[|items| - 1]
  }

  /**
   * What `phraseOf` promises: `emptyText` alone when there is no non-null
   * part, otherwise `prefix`, the non-null parts joined by `delimiter`, and
   * `suffix`.
   */
  function Phrase(parts: seq<Option<string>>, delimiter: string, prefix: string, suffix: string,
                  emptyText: string): string
  {
    var kept := NonNull(parts);
    if kept == [] then emptyText else prefix + Join(kept, delimiter) + suffix
  }

  /**
   * `phraseOf(parts: Iterable<CharSequence?>, ...)`: one pass over the parts
   * with a flag `was` that tells whether a non-null part has been written.
   */
  method PhraseOf(parts: seq<Option<string>>, delimiter: string := " ", prefix: string := "",
                  suffix: string := "", emptyText: string := "") returns (r: string)
    ensures NonNull(parts) == [] ==> r == emptyText
    ensures NonNull(parts) != [] ==> r == prefix + Join(NonNull(parts), delimiter) + suffix
    ensures r == Phrase(parts, delimiter, prefix, suffix, emptyText)
  {
    var b := "";
    var was := false;
    for i := 0 to |parts|
      invariant was <==> NonNull(parts[..i]) != []
      invariant !was ==> b == ""
      invariant was ==> b == prefix + Join(NonNull(parts[..i]), delimiter)
    {
      assert parts[..i + 1][..i] == parts[..i];
      ghost var before := NonNull(parts[..i]);
      var part := parts[i];
      if part.Some? {
        assert NonNull(parts[..i + 1]) == before + [part.value];
        assert was ==> (before + [part.value])[..|before|] == before;
        b := b + (if was then delimiter else prefix);
        b := b + part.value;
        was := true;
      } else {
        assert NonNull(parts[..i + 1]) == before;
      }
    }
    assert parts[..|parts|] == parts;
    if was {
      b := b + suffix;
    }
    r := if was then b else emptyText;
  }

  /** `phraseOf(vararg parts, ...)`: the same phrase, over the argument array. */
  method PhraseOfVararg(parts: array<Option<string>>, delimiter: string := " ", prefix: string := "",
                        suffix: string := "", emptyText: string := "") returns (r: string)
    ensures r == Phrase(parts[..], delimiter, prefix, suffix, emptyText)
  {
    r := PhraseOf(parts[..], delimiter, prefix, suffix, emptyText);
  }

  lemma {:induction false} NonNullConcat(a: seq<Option<string>>, b: seq<Option<string>>)
    ensures NonNull(a + b) == NonNull(a) + NonNull(b)
    decreases |b|
  {
    if b == [] {
      assert a + b == a;
    } else {
      assert (a + b)[..|a + b| - 1] == a + b[..|b| - 1];
      NonNullConcat(a, b[..|b| - 1]);
    }
  }

  /** A null part, wherever it stands, changes nothing: no doubled delimiter. */
  lemma NullPartIsSkipped(parts: seq<Option<string>>, k: nat, delimiter: string, prefix: string,
                          suffix: string, emptyText: string)
    requires k <= |parts|
    ensures Phrase(parts[..k] + [None] + parts[k..], delimiter, prefix, suffix, emptyText)
         == Phrase(parts, delimiter, prefix, suffix, emptyText)
  {
    NonNullConcat(parts[..k] + [None], parts[k..]);
    NonNullConcat(parts[..k], [None]);
    var nothing: seq<Option<string>> := [None];
    assert nothing[..0] == [];
    assert NonNull(nothing) == [];
    NonNullConcat(parts[..k], parts[k..]);
    assert parts[..k] + parts[k..] == parts;
    assert NonNull(parts[..k] + [None] + parts[k..]) == NonNull(parts);
  }

  /** A single non-null part is wrapped by prefix and suffix, with no delimiter. */
  lemma SinglePartPhrase(parts: seq<Option<string>>, p: string, delimiter: string, prefix: string,
                         suffix: string, emptyText: string)
    requires NonNull(parts) == [p]
    ensures Phrase(parts, delimiter, prefix, suffix, emptyText) == prefix + p + suffix
  {
  }

  /** Joining two non-empty runs puts exactly one delimiter between them. */
  lemma {:induction false} JoinConcat(a: seq<string>, b: seq<string>, delimiter: string)
    requires a != [] && b != []
    ensures Join(a + b, delimiter) == Join(a, delimiter) + delimiter + Join(b, delimiter)
    decreases |b|
  {
    if |b| == 1 {
      assert (a + b)[..|a + b| - 1] == a;
    } else {
      var b' := b[..|b| - 1];
      assert (a + b)[..|a + b| - 1] == a + b';
      JoinConcat(a, b', delimiter);
    }
  }

  /** The length of a join: the parts plus one delimiter between each two. */
  lemma {:induction false} JoinLength(items: seq<string>, delimiter: string)
    requires items != []
    ensures |Join(items, delimiter)| == TotalLength(items) + (|items| - 1) * |delimiter|
  {
    if |items| > 1 {
      var init, last := items[..|items| - 1], items[|items| - 1];
      JoinLength(init, delimiter);
      assert Join(items, delimiter) == Join(init, delimiter) + delimiter + last;
      assert TotalLength(items) == TotalLength(init) + |last|;
      var n, d := |init|, |delimiter|;
      assert (n + 1 - 1) * d == (n - 1) * d + d;
    }
  }

  function TotalLength(items: seq<string>): nat
  {
    if items == [] then 0 else TotalLength(items[..|items| - 1]) + |items[|items| - 1]|
  }

  // ---------------------------------------------------------------------
  // left, right
  // ---------------------------------------------------------------------

  /**
   * `String.left(n)`: the first `n` characters of a longer string, the string
   * itself otherwise. A negative `n` makes `substring(0, n)` throw.
   */
  function Left(s: string, n: int): (r: Result<string>)
    ensures r.Err? <==> n < 0
    ensures r.Err? ==> r.failure == IndexOutOfBounds
    ensures r.Ok? ==> |r.value| == (if |s| < n then |s| else n) && r.value == s[..|r.value|]
  {
    if |s| > n then
      if n < 0 then Err(IndexOutOfBounds) else Ok(s[..n])
    else Ok(s)
  }

  /**
   * `String.right(n)`: the last `n` characters of a longer string, the string
   * itself otherwise. A negative `n` makes `substring(len - n, len)` throw.
   */
  function Right(s: string, n: int): (r: Result<string>)
    ensures r.Err? <==> n < 0
    ensures r.Err? ==> r.failure == IndexOutOfBounds
    ensures r.Ok? ==> |r.value| == (if |s| < n then |s| else n) && r.value == s[|s| - |r.value|..]
  {
    var len := |s|;
    if len <= n then Ok(s)
    else if len - n > len then Err(IndexOutOfBounds)
    else Ok(s[len - n..len])
  }

  /** Left and right ends of the same length put together give the whole string back. */
  lemma LeftRightSplit(s: string, n: nat)
    requires n <= |s|
    ensures Left(s, n).value + Right(s, |s| - n).value == s
  {
    assert s[..n] + s[n..] == s;
  }

  // ---------------------------------------------------------------------
  // removeSuffixStartingWith
  // ---------------------------------------------------------------------

  /** `marker` occurs in `s` at index `j`. */
  predicate OccursAt(s: string, marker: string, j: int)
  {
    0 <= j && j + |marker| <= |s| && s[j..j + |marker|] == marker
  }

  /** `String.indexOf(String)`: the first occurrence at or after `from`, or -1. */
  function IndexOf(s: string, marker: string, from: nat := 0): (r: int)
    requires from <= |s| + 1
    ensures r == -1 || from <= r
    ensures r >= 0 ==> OccursAt(s, marker, r)
    ensures r >= 0 ==> forall j :: from <= j < r ==> !OccursAt(s, marker, j)
    ensures r == -1 ==> forall j :: from <= j ==> !OccursAt(s, marker, j)
    decreases |s| + 1 - from
  {
    if from + |marker| > |s| then -1
    else if s[from..from + |marker|] == marker then from
    else IndexOf(s, marker, from + 1)
  }

  /**
   * `String.removeSuffixStartingWith(suffixMarker, trimSpaces)`: the part
   * before the first occurrence of the marker, or the string itself when the
   * marker is absent. With `trimSpaces` the run of whitespace right before the
   * marker goes too. `isWhitespace` stands for `Char.isWhitespace`.
   */
  method RemoveSuffixStartingWith(s: string, suffixMarker: string, trimSpaces: bool,
                                  isWhitespace: char -> bool) returns (r: string)
    ensures IndexOf(s, suffixMarker) < 0 ==> r == s
    ensures IndexOf(s, suffixMarker) >= 0 ==>
              && |r| <= IndexOf(s, suffixMarker)
              && r == s[..|r|]
              && (!trimSpaces ==> |r| == IndexOf(s, suffixMarker))
              && (trimSpaces ==> forall k :: |r| <= k < IndexOf(s, suffixMarker) ==> isWhitespace(s[k]))
              && (trimSpaces && |r| > 0 ==> !isWhitespace(s[|r| - 1]))
  {
    var p := IndexOf(s, suffixMarker);
    if p < 0 {
      return s;
    }
    ghost var at := p;
    if trimSpaces {
      while p > 0 && isWhitespace(s[p - 1])
        invariant 0 <= p <= at
        invariant forall k :: p <= k < at ==> isWhitespace(s[k])
      {
        p := p - 1;
      }
    }
    r := s[..p];
  }
}
