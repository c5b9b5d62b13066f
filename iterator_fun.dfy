/** `IteratorFun.kt`: draining an iterator into a list. */
module IteratorFun {
  import opened Wrappers

  /**
   * A Kotlin `Iterator<T>` over a finite run of elements: `elements[pos..]`
   * are the ones still to come. `nextCalls` counts the calls of `next()`.
   */
  class SeqIterator<T> {
    const elements: seq<T>
    var pos: nat
    ghost var nextCalls: nat

    ghost predicate Valid()
      reads this
    {
      pos <= |elements|
    }

    /** The elements that `next()` will still return, in order. */
    ghost function Remaining(): seq<T>
      reads this
      requires Valid()
    {
      elements[pos..]
    }

    constructor (elements: seq<T>)
      ensures Valid() && Remaining() == elements && nextCalls == 0
    {
      this.elements := elements;
      pos := 0;
      nextCalls := 0;
    }

    method HasNext() returns (b: bool)
      requires Valid()
      ensures b <==> Remaining() != []
    {
      b := pos < |elements|;
    }

    /** `next()`: the first remaining element, or `NoSuchElementException`. */
    method Next() returns (r: Result<T>)
      requires Valid()
      modifies this
      ensures Valid() && nextCalls == old(nextCalls) + 1
      ensures old(Remaining()) == [] ==> r == Err(NoSuchElement) && Remaining() == []
      ensures old(Remaining()) != [] ==> r == Ok(old(Remaining())[0]) && Remaining() == old(Remaining())[1..]
    {
      nextCalls := nextCalls + 1;
      if pos < |elements| {
        r := Ok(elements[pos]);
        pos := pos + 1;
      } else {
        r := Err(NoSuchElement);
      }
    }
  }

  /**
   * `Iterator.toList()`: calls `next()` while `hasNext()` holds and collects
   * what it returns. Afterwards the iterator is exhausted, and `next()` was
   * called once per element returned.
   */
  method ToList<T>(it: SeqIterator<T>) returns (list: seq<T>)
    requires it.Valid()
    modifies it
    ensures it.Valid()
    ensures list == old(it.Remaining())
    ensures it.Remaining() == []
    ensures it.nextCalls == old(it.nextCalls) + |list|
  {
    list := [];
    var more := it.HasNext();
    while more
      invariant it.Valid()
      invariant list + it.Remaining() == old(it.Remaining())
      invariant more <==> it.Remaining() != []
      invariant it.nextCalls == old(it.nextCalls) + |list|
      decreases |it.Remaining()|
    {
      var x := it.Next();
      list := list + [x.value];
      more := it.HasNext();
    }
  }
}
