/**
 * `text/StringFun.kt`: the `text` package carries its own `phraseOf`, whose
 * body is the same loop as the one in the `any` package. It is modelled by
 * delegating to `AnyStringFun.PhraseOf`, so the two agree on every input.
 */
module TextStringFun {
  import opened Wrappers
  import AnyStringFun

  /** `phraseOf(parts: Iterable<CharSequence?>, ...)` of the `text` package. */
  method PhraseOf(parts: seq<Option<string>>, delimiter: string := " ", prefix: string := "",
                  suffix: string := "", emptyText: string := "") returns (r: string)
    ensures AnyStringFun.NonNull(parts) == [] ==> r == emptyText
    ensures AnyStringFun.NonNull(parts) != [] ==>
              r == prefix + AnyStringFun.Join(AnyStringFun.NonNull(parts), delimiter) + suffix
    ensures r == AnyStringFun.Phrase(parts, delimiter, prefix, suffix, emptyText)
  {
    r := AnyStringFun.PhraseOf(parts, delimiter, prefix, suffix, emptyText);
  }

  /** `phraseOf(vararg parts, ...)` of the `text` package: the iterable overload on the array. */
  method PhraseOfVararg(parts: array<Option<string>>, delimiter: string := " ", prefix: string := "",
                        suffix: string := "", emptyText: string := "") returns (r: string)
    ensures r == AnyStringFun.Phrase(parts[..], delimiter, prefix, suffix, emptyText)
  {
    r := PhraseOf(parts[..], delimiter, prefix, suffix, emptyText);
  }

  /** A single non-null part never brings the delimiter into the output. */
  lemma SinglePartHasNoDelimiter(parts: seq<Option<string>>, p: string, delimiter: string,
                                 prefix: string, suffix: string, emptyText: string)
    requires AnyStringFun.NonNull(parts) == [p]
    ensures AnyStringFun.Phrase(parts, delimiter, prefix, suffix, emptyText) == prefix + p + suffix
  {
    AnyStringFun.SinglePartPhrase(parts, p, delimiter, prefix, suffix, emptyText);
  }
}
