/**
 * `AtomicIncrementalValueCache`: one cached value with a stale/ready flag.
 * Reading the content while stale recomputes it from the old content; an
 * invalidation only flips the flag, a reset also drops the content back to
 * the empty value. The single-threaded behaviour is modelled: the atomic
 * reference becomes a plain field that each operation replaces.
 */
module IncrementalValueCache {

  /** The immutable pair the atomic reference holds. */
  datatype Wrap<X> = Wrap(content: X, ready: bool) {

    /** The `updateAndGet` step of `obtainActualWrap`. */
    function Actual(recompute: X -> X): (w: Wrap<X>)
      ensures w.ready
      ensures ready ==> w == this
      ensures !ready ==> w.content == recompute(content)
    {
      if ready then this else Wrap(recompute(content), true)
    }

    /** The `updateAndGet` step of `invalidate`. */
    function Invalidated(): (w: Wrap<X>)
      ensures !w.ready && w.content == content
    {
      if ready then Wrap(content, false) else this
    }

    /** `Wrap.toString()`, with `show` standing for the content's `toString()`. */
    function ToString(show: X -> string): (s: string)
      ensures |s| == 6 + |show(content)|
      ensures s[..6] == (if ready then "ready " else "stale ")
      ensures s[6..] == show(content)
    {
      (if ready then "ready " else "stale ") + show(content)
    }
  }

  /** Bringing a wrap up to date twice costs no second recomputation. */
  lemma ActualIsIdempotent<X>(w: Wrap<X>, recompute: X -> X)
    ensures w.Actual(recompute).Actual(recompute) == w.Actual(recompute)
  {
  }

  /** Several invalidations in a row are worth one: the next read recomputes once. */
  lemma InvalidateIsIdempotent<X>(w: Wrap<X>, recompute: X -> X)
    ensures w.Invalidated().Invalidated() == w.Invalidated()
    ensures w.Invalidated().Invalidated().Actual(recompute).content == recompute(w.content)
  {
  }

  class AtomicIncrementalValueCache<X> {
    const emptyValue: X
    const recompute: X -> X
    var ref: Wrap<X>
    /** How many times `recompute` has been called. */
    ghost var recomputations: nat

    constructor (emptyValue: X, recompute: X -> X)
      ensures this.emptyValue == emptyValue && this.recompute == recompute
      ensures ref == Wrap(emptyValue, false)
      ensures recomputations == 0
    {
      this.emptyValue := emptyValue;
      this.recompute := recompute;
      ref := Wrap(emptyValue, false);
      recomputations := 0;
    }

    /**
     * `content`: when stale, the content becomes `recompute(old content)` and
     * the state ready; when ready, the held content is returned and
     * `recompute` is not called.
     */
    method Content() returns (x: X)
      modifies this
      ensures ref.ready
      ensures old(ref.ready) ==> ref == old(ref) && recomputations == old(recomputations)
      ensures !old(ref.ready) ==>
                ref.content == recompute(old(ref.content)) && recomputations == old(recomputations) + 1
      ensures x == ref.content
    {
      if !ref.ready {
        recomputations := recomputations + 1;
      }
      ref := ref.Actual(recompute);
      x := ref.content;
    }

    /** `ready`: reports the flag, with no recomputation. */
    method Ready() returns (b: bool)
      ensures b == ref.ready
    {
      b := ref.ready;
    }

    /** `invalidate()`: ready becomes stale with the content kept; stale stays as it is. */
    method Invalidate()
      modifies this
      ensures !ref.ready && ref.content == old(ref.content)
      ensures !old(ref.ready) ==> ref == old(ref)
      ensures recomputations == old(recomputations)
    {
      ref := ref.Invalidated();
    }

    /** `reset()`: unconditionally back to the empty value, stale. */
    method Reset()
      modifies this
      ensures ref == Wrap(emptyValue, false)
      ensures recomputations == old(recomputations)
    {
      ref := Wrap(emptyValue, false);
    }

    /** `toString()`: "ready " or "stale ", then the content as `show` renders it. */
    method ToString(show: X -> string) returns (s: string)
      ensures s == ref.ToString(show)
      ensures s[..6] == (if ref.ready then "ready " else "stale ")
      ensures s[6..] == show(ref.content)
    {
      s := ref.ToString(show);
    }
  }

  /**
   * A session like the source's own tests: a fresh cache, then reads,
   * repeated invalidations and a reset. Each read recomputes exactly when the
   * cache was stale, and the read after a reset starts from the empty value.
   */
  method Session<X>(emptyValue: X, recompute: X -> X) returns (first: X, second: X, third: X)
    ensures first == recompute(emptyValue)
    ensures second == recompute(first)
    ensures third == recompute(emptyValue)
  {
    var cache := new AtomicIncrementalValueCache(emptyValue, recompute);
    first := cache.Content();
    var again := cache.Content();
    assert again == first && cache.recomputations == 1;
    cache.Invalidate();
    cache.Invalidate();
    cache.Invalidate();
    second := cache.Content();
    assert cache.recomputations == 2;
    cache.Reset();
    third := cache.Content();
  }
}
