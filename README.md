# kutil commons, modelled in Dafny

A Dafny model of the core of the Kotlin library `lb.kutil.commons`, with the
properties its code and tests promise proved about the model. It covers ten
components:

- **Tree traversal** (`AbstractTree`). A tree is a root plus a parent function
  and a children function. `withParent` and `withChildren` build new views of
  it.
  - The depth-first iterator keeps the node to return next, the child iterator
    that node came from, and a stack of suspended child iterators. The model
    proves that it returns the subtree in pre-order.
  - The breadth-first iterator keeps a queue. The model proves that it returns
    the subtree level by level.
  - Both return every node of a tree exactly once. On a chain they agree.
- **Text table rendering** (`TextTable.processContent`). It computes the column
  widths, repeats the rules to the table's width, pads or cuts every cell to
  its column and writes the lines.
  - The rendered text is proved equal to an independent line-by-line layout.
  - The layout is proved to have the right number of lines and to indent every
    line. Every data line has the table's width. A rule does too, unless its
    pattern alone is longer. With the computed widths no cell is cut.
- **`StringBuilder` helpers** (`StringBuilderFun.kt`). These are conditional
  appends on a minimal `StringBuilder` class.
- **String helpers.** `phraseOf` exists in two packages; both are proved equal
  to a join of the non-null parts. Also `left`, `right`,
  `removeSuffixStartingWith` and `Char.replicate`.
- **Collection helpers.** `Iterator.toList` and `Array.forEachReversed`.
- **Duration statistics** (`TimeMeter`).
  - Each entry keeps count, min, max and sum, and has a rounded average and a
    lexicographic `compareTo`.
  - The registry gives each new name the next order number.
  - `getMetrics` sorts the entries into registration order.
- **Incremental value cache** (`AtomicIncrementalValueCache`). A stale/ready
  state machine over an immutable `Wrap` value.

Modelling conventions:

- Kotlin's `null` is `Option.None`.
- An exception thrown by an iterator or by `left`/`right` is `Result.Err` with
  `NoSuchElement` or `IndexOutOfBounds`. The range checks of the
  `StringBuilder` calls are preconditions instead (see "Left out").
- Strings are `seq<char>`, a sequence of Unicode scalar values, not of UTF-16
  code units (see "Left out").
- Integers are unbounded.
- An object whose fields the source updates is a Dafny `class`. Immutable
  records are datatypes.
- The children function of a tree is `N -> seq<N>`. A Kotlin child iterator is
  a `Cursor(items, pos)` value.
- Termination of the traversals is argued with a ghost rank function. Every
  child ranks strictly below its parent (`Ranked`). This makes every subtree
  finite (see "Left out" for what this excludes).

## Model

| member | source | states |
|---|---|---|
| AbstractTree.NewTree | commons/src/tree/AbstractTree.kt:51-55 | the tree holds the given root, parent function and children function; by default no parent and no children |
| AbstractTree.RootOnlyTree | commons/src/tree/AbstractTree.kt:51 | a tree built from a root alone keeps that root and has no parent links and no children |
| AbstractTree.Tree.WithParent | commons/src/tree/AbstractTree.kt:58-59 | the new view keeps the root and the children function and answers with the new parent function everywhere |
| AbstractTree.Tree.WithChildren | commons/src/tree/AbstractTree.kt:61-62 | the new view keeps the root and the parent function and answers with the new children function everywhere |
| AbstractTree.Preorder | commons/src/tree/AbstractTree.kt:104-131 | the pre-order listing of a subtree is never empty and starts with the subtree's top node |
| AbstractTree.BfsOrder | commons/src/tree/AbstractTree.kt:166-170 | draining a queue returns nothing exactly when the queue is empty, and otherwise starts with the queue's head |
| AbstractTree.BfsConcat | commons/src/tree/AbstractTree.kt:166-170 | draining a queue `q + r` returns `q` first, then drains `r` followed by the children of `q` |
| AbstractTree.BfsIsLevelOrder | commons/src/tree/AbstractTree.kt:166-170 | the queue discipline returns exactly the level order: a whole level, then all of the next level down |
| AbstractTree.BfsSameNodesAsPreorder | commons/src/tree/AbstractTree.kt:166-170 | a breadth-first drain and the pre-order listing of the same subtrees hold the same nodes, each as often |
| AbstractTree.SameNodesBothWays | commons/src/tree/AbstractTree.kt:104-131 | from one start node, the depth-first and the breadth-first orders are permutations of each other |
| AbstractTree.PreorderEachOnce | commons/src/tree/AbstractTree.kt:104-131 | in a tree (each child's parent is that node, no child listed twice) the pre-order listing names every node once |
| AbstractTree.ChildrenEachOnce | commons/src/tree/AbstractTree.kt:104-131 | the subtrees under the children of a node, from any position on, together name every node once |
| AbstractTree.SiblingsDisjoint | commons/src/tree/AbstractTree.kt:104-131 | the subtrees under two different children of a node share no node |
| AbstractTree.BfsEachOnce | commons/src/tree/AbstractTree.kt:166-170 | in a tree the breadth-first order names every node of the subtree once |
| AbstractTree.ChainOrdersAgree | commons/src/tree/AbstractTree.kt:104-131 | when no node has more than one child, depth-first and breadth-first return the same sequence |
| AbstractTree.LeafAlone | commons/src/tree/AbstractTree.kt:51 | with the default children function both traversals return exactly the start node |
| AbstractTree.RestStep | commons/src/tree/AbstractTree.kt:117 | taking the next sibling from a child iterator splits off that sibling's subtree from what the iterator still covers |
| AbstractTree.EnterStep | commons/src/tree/AbstractTree.kt:109-114 | entering the first child, after pushing the current iterator when there is one, leaves exactly the rest of the pending pre-order |
| AbstractTree.PushRest | commons/src/tree/AbstractTree.kt:111 | pushing the current iterator puts what it still covers in front of what the stack covers |
| AbstractTree.SiblingStep | commons/src/tree/AbstractTree.kt:115-118 | moving on to the next sibling of a leaf leaves exactly the rest of the pending pre-order |
| AbstractTree.LeaveStep | commons/src/tree/AbstractTree.kt:119-121 | at a leaf whose iterator is exhausted, what is still pending is what the stack covers |
| AbstractTree.PopStep | commons/src/tree/AbstractTree.kt:122-129 | popping an exhausted iterator drops nothing pending; popping a live one resumes with its next node |
| AbstractTree.DepthFirstIterator.constructor | commons/src/tree/AbstractTree.kt:81-99 | a new iterator has the start node as current node, no current iterator and an empty stack; it will return the start node's subtree in pre-order |
| AbstractTree.DepthFirstIterator.ProcessNext | commons/src/tree/AbstractTree.kt:104-131 | with no current node nothing changes; otherwise exactly the returned node is dropped from the pending pre-order |
| AbstractTree.DepthFirstIterator.HasNext | commons/src/tree/AbstractTree.kt:133 | true exactly when some node is still to be returned |
| AbstractTree.DepthFirstIterator.Next | commons/src/tree/AbstractTree.kt:135-139 | an exhausted iterator fails with `NoSuchElement` and stays exhausted; otherwise it returns the next node in pre-order and drops it |
| AbstractTree.BreadthFirstIterator.constructor | commons/src/tree/AbstractTree.kt:153-162 | the queue holds the start node alone |
| AbstractTree.BreadthFirstIterator.HasNext | commons/src/tree/AbstractTree.kt:164 | true exactly when the queue is not empty, which is when some node is still to be returned |
| AbstractTree.BreadthFirstIterator.Next | commons/src/tree/AbstractTree.kt:166-170 | on an empty queue it fails with `NoSuchElement`; otherwise it returns the head and the queue becomes its tail followed by the head's children in order |
| AbstractTree.TraverseDepthFirst | commons/src/tree/AbstractTree.kt:71-73 | from the root in pre-order; with no root, an iterator that returns nothing |
| AbstractTree.TraverseDepthFirstFrom | commons/src/tree/AbstractTree.kt:75-76 | the subtree under the given node in pre-order, and nothing outside it |
| AbstractTree.TraverseBreadthFirst | commons/src/tree/AbstractTree.kt:143-145 | from the root level by level; with no root, an iterator that returns nothing |
| AbstractTree.TraverseBreadthFirstFrom | commons/src/tree/AbstractTree.kt:147-148 | the subtree under the given node, level by level |
| AbstractTree.DepthFirstList | commons/src/tree/AbstractTree.kt:71-76 | calling `next()` while `hasNext()` collects exactly the pre-order listing of the tree |
| AbstractTree.BreadthFirstList | commons/src/tree/AbstractTree.kt:143-148 | calling `next()` while `hasNext()` collects exactly the level order of the tree |
| TextTable.Column.constructor | commons/src/text/TextTable.kt:34-36 | a column starts as wide as its title, 0 for no title, and is left-aligned by default |
| TextTable.TextTable.constructor | commons/src/text/TextTable.kt:20-39 | a new table has the default grid (`==`, `--`, `--`, two-space gap, no side lines) and no indent |
| TextTable.StartWidths | commons/src/text/TextTable.kt:52 | the widths before any row is seen are the columns' own widths |
| TextTable.ColumnWidth | commons/src/text/TextTable.kt:52-62 | a column's width is at least its start width and every cell's length, and equals one of them |
| TextTable.WidenByRow | commons/src/text/TextTable.kt:55-61 | one row widens each column to the length of its non-null cell when that is wider, and leaves the others |
| TextTable.TextTable.ComputeWidths | commons/src/text/TextTable.kt:50-62 | each computed width is the column's width taken over all rows, and the row count is the number of rows |
| TextTable.Longest | commons/src/text/TextTable.kt:66 | the longest width is at least every width and is one of them |
| TextTable.TillWidth | commons/src/text/TextTable.kt:148-157 | a pattern at least as long as the width comes back whole; a shorter one is repeated to exactly the width |
| TextTable.ReplicateTillWidth | commons/src/text/TextTable.kt:148-157 | the append-then-delete loop computes exactly that repetition |
| TextTable.DrawRule | commons/src/text/TextTable.kt:73-75 | a missing rule stays missing; a present one is repeated to the table's width |
| TextTable.RulesSpanTable | commons/src/text/TextTable.kt:72-99 | a top or bottom rule line, and the line under the header, is the indent plus the table's width, or plus the whole pattern when that is longer |
| TextTable.Spaces | commons/src/text/TextTable.kt:77 | `n` characters, all spaces |
| TextTable.PadShape | commons/src/text/TextTable.kt:90-95 | a left-aligned title gets trailing spaces and a right-aligned one leading spaces, up to the width; a longer title is kept whole |
| TextTable.CellShape | commons/src/text/TextTable.kt:106-122 | every data cell is exactly the column's width: a null cell is spaces, a fitting text is padded on the side away from its alignment, a longer text is cut to its first `width` characters |
| TextTable.AppendCell | commons/src/text/TextTable.kt:107-122 | the three cell branches and the null branch append exactly that cell |
| TextTable.HasHeader | commons/src/text/TextTable.kt:70 | true exactly when some column has a title |
| TextTable.HeaderBodyLength | commons/src/text/TextTable.kt:87-96 | when no header text is wider than its column, the titles and gaps take the widths plus one gap between neighbours |
| TextTable.HeaderLineWidth | commons/src/text/TextTable.kt:84-98 | under the same condition the header line is the indent plus the table's width |
| TextTable.RowBodyLength | commons/src/text/TextTable.kt:106-123 | a data row's cells and gaps take the widths plus one gap between neighbours |
| TextTable.RowLineWidth | commons/src/text/TextTable.kt:65-67 | every data line is the indent plus exactly the table's width: the widths, the gaps and the side lines |
| TextTable.RowBodyPadded | commons/src/text/TextTable.kt:110-118 | when no cell is wider than its column, the row is every cell padded and none cut |
| TextTable.NoCellIsCut | commons/src/text/TextTable.kt:108-118 | with the widths computed from the rows, no cell of those rows is ever cut |
| TextTable.DataLines | commons/src/text/TextTable.kt:103-126 | one line per row |
| TextTable.DataLineAt | commons/src/text/TextTable.kt:103-126 | the k-th data line is the line of the k-th row, in row order |
| TextTable.LineCount | commons/src/text/TextTable.kt:79-131 | one line per rule present, two for a header and one per row; with the default grid and a titled column, the row count plus four |
| TextTable.EveryLineIndented | commons/src/text/TextTable.kt:143-146 | every line of the table begins with the table's indent |
| TextTable.RuleIndented | commons/src/text/TextTable.kt:81-83 | a rule line begins with the indent |
| TextTable.DataIndented | commons/src/text/TextTable.kt:103-105 | every data line begins with the indent |
| TextTable.TextTable.Indent | commons/src/text/TextTable.kt:143-146 | appends the indent when there is one, nothing otherwise |
| TextTable.TextTable.AppendRule | commons/src/text/TextTable.kt:81-83 | a present rule appends one indented line; a missing one appends nothing |
| TextTable.TextTable.AppendTitles | commons/src/text/TextTable.kt:85-98 | appends the header line: the padded titles between the side lines, gaps between neighbours, and a line feed |
| TextTable.TextTable.AppendUnderLine | commons/src/text/TextTable.kt:99 | appends the indent, the head rule when there is one, and a line feed |
| TextTable.TextTable.AppendHeader | commons/src/text/TextTable.kt:84-100 | appends the header line and the line under it |
| TextTable.TextTable.AppendRow | commons/src/text/TextTable.kt:104-125 | appends the row's line and a line feed |
| TextTable.TextTable.AppendRows | commons/src/text/TextTable.kt:103-126 | appends the data lines of all rows, in order |
| TextTable.TextTable.Draw | commons/src/text/TextTable.kt:64-134 | from given widths, the text is the layout's lines, each followed by a line feed |
| TextTable.TextTable.ProcessContent | commons/src/text/TextTable.kt:45-135 | the rendered text is exactly the top rule, the header and its rule when some column has a title, one line per row and the bottom rule, over the widths computed from the rows |
| StringBuilderFun.StringBuilder.constructor | commons/src/text/TextTable.kt:80 | a new builder is empty |
| StringBuilderFun.StringBuilder.Append | commons/src/text/StringBuilderFun.kt:7 | appends the text and returns the same builder |
| StringBuilderFun.StringBuilder.AppendChar | commons/src/text/StringBuilderFun.kt:18 | appends the character and returns the same builder |
| StringBuilderFun.StringBuilder.AppendRange | commons/src/text/StringBuilderFun.kt:38 | appends the characters from `start` up to `end` |
| StringBuilderFun.StringBuilder.AppendLine | commons/src/text/TextTable.kt:98 | appends a line feed |
| StringBuilderFun.StringBuilder.Delete | commons/src/text/TextTable.kt:155 | removes the characters from `start` up to `end`, or to the end of the content |
| StringBuilderFun.StringBuilder.IsNotEmpty | commons/src/text/StringBuilderFun.kt:18 | true exactly when the content is not empty |
| StringBuilderFun.AppendIfNotNull | commons/src/text/StringBuilderFun.kt:6-9 | null leaves the builder unchanged, a text is appended; the same builder is returned |
| StringBuilderFun.AppendCharIfNotEmpty | commons/src/text/StringBuilderFun.kt:17-20 | an empty builder stays empty, a non-empty one gets the character |
| StringBuilderFun.AppendIfNotEmpty | commons/src/text/StringBuilderFun.kt:22-25 | an empty builder stays empty, a non-empty one gets the text |
| StringBuilderFun.AppendCharIf | commons/src/text/StringBuilderFun.kt:27-30 | appends the character exactly when the condition holds |
| StringBuilderFun.AppendIf | commons/src/text/StringBuilderFun.kt:32-35 | appends the text exactly when the condition holds |
| StringBuilderFun.AppendRangeIf | commons/src/text/StringBuilderFun.kt:37-40 | appends the range exactly when the condition holds |
| AnyStringFun.PhraseOf | commons/src/any/StringFun.kt:26-38 | with no non-null part, `emptyText` alone; otherwise prefix, the non-null parts joined by the delimiter, and suffix |
| AnyStringFun.PhraseOfVararg | commons/src/any/StringFun.kt:13-14 | the array overload gives what the iterable overload gives on the same parts |
| AnyStringFun.NonNullConcat | commons/src/any/StringFun.kt:29-30 | the non-null parts of two runs are the non-null parts of each, in order |
| AnyStringFun.NullPartIsSkipped | commons/src/any/StringFun.kt:29-35 | inserting a null part anywhere changes nothing, so no delimiter is ever doubled |
| AnyStringFun.SinglePartPhrase | commons/src/any/StringFun.kt:31 | a single non-null part gives prefix, part and suffix, with no delimiter |
| AnyStringFun.JoinConcat | commons/src/any/StringFun.kt:31-32 | joining two non-empty runs puts exactly one delimiter between their joins |
| AnyStringFun.JoinLength | commons/src/any/StringFun.kt:31-32 | a join is as long as its parts plus one delimiter between each two |
| AnyStringFun.Left | commons/src/any/StringFun.kt:67-69 | the first `min(length, n)` characters; a negative `n` fails as `substring` does |
| AnyStringFun.Right | commons/src/any/StringFun.kt:76-80 | the last `min(length, n)` characters; a negative `n` fails as `substring` does |
| AnyStringFun.LeftRightSplit | commons/src/any/StringFun.kt:67-80 | the left `n` and the right `length - n` characters put back together give the string |
| AnyStringFun.IndexOf | commons/src/any/StringFun.kt:91 | the first position where the marker occurs, or -1 when it occurs nowhere |
| AnyStringFun.RemoveSuffixStartingWith | commons/src/any/StringFun.kt:90-97 | unchanged without the marker; otherwise the prefix before its first occurrence, with `trimSpaces` also without the whitespace run just before it; always a prefix of the input |
| TextStringFun.PhraseOf | commons/src/text/StringFun.kt:26-38 | the same phrase as the `any` package's `phraseOf`, on every input |
| TextStringFun.PhraseOfVararg | commons/src/text/StringFun.kt:13-14 | the array overload gives what the iterable overload gives |
| TextStringFun.SinglePartHasNoDelimiter | commons/src/text/StringFun.kt:31 | a single non-null part never brings the delimiter in |
| CharFun.Copies | commons/src/any/CharFun.kt:5-10 | `n` copies of the character for positive `n`, the empty string otherwise |
| CharFun.Replicate | commons/src/any/CharFun.kt:5-10 | the one-character, builder-loop and empty branches give exactly those copies |
| IteratorFun.SeqIterator.constructor | commons/src/any/IteratorFun.kt:6 | an iterator over the given elements, none returned yet |
| IteratorFun.SeqIterator.HasNext | commons/src/any/IteratorFun.kt:8 | true exactly when elements remain |
| IteratorFun.SeqIterator.Next | commons/src/any/IteratorFun.kt:8 | returns and drops the first remaining element; fails with `NoSuchElement` when none is left |
| IteratorFun.ToList | commons/src/any/IteratorFun.kt:6-10 | the remaining elements in iteration order, one `next()` call each, and the iterator is left exhausted |
| ArrayFun.ReverseIndex | commons/src/any/ArrayFun.kt:10 | the k-th element of the reversal is the k-th from the end |
| ArrayFun.ReverseLength | commons/src/any/ArrayFun.kt:10 | the reversal is as long as the array |
| ArrayFun.ReverseTwice | commons/src/any/ArrayFun.kt:10 | reversing twice gives the original |
| ArrayFun.ForEachReversed | commons/src/any/ArrayFun.kt:9-11 | the action sees exactly `size` elements, from the last index down to 0, and the array is not changed |
| IncrementalValueCache.Wrap.Actual | commons/src/hold/AtomicIncrementalValueCache.kt:40-44 | a ready wrap is kept as it is; a stale one becomes ready with the recomputed content |
| IncrementalValueCache.Wrap.Invalidated | commons/src/hold/AtomicIncrementalValueCache.kt:49-54 | the wrap becomes stale with its content kept |
| IncrementalValueCache.Wrap.ToString | commons/src/hold/AtomicIncrementalValueCache.kt:69-71 | "ready " or "stale ", then the content |
| IncrementalValueCache.ActualIsIdempotent | commons/src/hold/AtomicIncrementalValueCache.kt:40-44 | reading twice recomputes only once |
| IncrementalValueCache.InvalidateIsIdempotent | commons/src/hold/AtomicIncrementalValueCache.kt:49-54 | invalidating twice is invalidating once, and the next read recomputes from the kept content |
| IncrementalValueCache.AtomicIncrementalValueCache.constructor | commons/src/hold/AtomicIncrementalValueCache.kt:26-28 | a new cache is stale and holds the empty value |
| IncrementalValueCache.AtomicIncrementalValueCache.Content | commons/src/hold/AtomicIncrementalValueCache.kt:33-44 | while ready, the held content with no recomputation; while stale, the recomputed content, which is now held as ready |
| IncrementalValueCache.AtomicIncrementalValueCache.Ready | commons/src/hold/AtomicIncrementalValueCache.kt:36-37 | the flag, with no recomputation |
| IncrementalValueCache.AtomicIncrementalValueCache.Invalidate | commons/src/hold/AtomicIncrementalValueCache.kt:49-54 | stale afterwards with the content kept; a stale cache is left as it is |
| IncrementalValueCache.AtomicIncrementalValueCache.Reset | commons/src/hold/AtomicIncrementalValueCache.kt:60-62 | stale with the empty value, whatever the state was |
| IncrementalValueCache.AtomicIncrementalValueCache.ToString | commons/src/hold/AtomicIncrementalValueCache.kt:64 | the current wrap's text |
| IncrementalValueCache.Session | commons/tests/hold/AtomicIncrementalValueCacheTest.kt:56-80 | repeated invalidations cause one recomputation from the kept content; after a reset the next read recomputes from the empty value |
| TimeMeter.MinMaxBounds | commons/src/operations/TimeMeter.kt:123-138 | the smallest and largest durations are among the durations and bound all of them |
| TimeMeter.KotlinDiv | commons/src/operations/TimeMeter.kt:119 | Kotlin's truncating division, which agrees with Euclidean division for a non-negative dividend |
| TimeMeter.CompareNumbers | commons/src/operations/TimeMeter.kt:145 | `compareTo` on numbers: -1, 0 or 1, zero exactly on equality, negative exactly when smaller |
| TimeMeter.CompareStringsZero | commons/src/operations/TimeMeter.kt:143 | string `compareTo` is zero exactly on equal strings |
| TimeMeter.CompareStringsAntisymmetric | commons/src/operations/TimeMeter.kt:143 | swapping the strings negates the comparison |
| TimeMeter.CompareStringsTransitive | commons/src/operations/TimeMeter.kt:143 | the string order is transitive |
| TimeMeter.Compare | commons/src/operations/TimeMeter.kt:140-153 | the order number decides first |
| TimeMeter.CompareAntisymmetric | commons/src/operations/TimeMeter.kt:140-153 | `compareTo` is zero exactly on equal statistics, and swapping the entries negates it |
| TimeMeter.CompareTransitive | commons/src/operations/TimeMeter.kt:140-153 | the entry order is transitive |
| TimeMeter.OperationEntry.constructor | commons/src/operations/TimeMeter.kt:98-112 | a new entry has its order and name, no durations, and all statistics 0 |
| TimeMeter.OperationEntry.ConsiderDuration | commons/src/operations/TimeMeter.kt:123-138 | the duration joins the entry's durations, and count, min, max and sum stay their count, smallest, largest and total |
| TimeMeter.OperationEntry.Avg | commons/src/operations/TimeMeter.kt:114-121 | 0 without durations; otherwise the mean rounded to the nearest integer (halves up) for a non-negative sum |
| TimeMeter.RoundedDivision | commons/src/operations/TimeMeter.kt:119 | `(sum + count/2) / count` is within half a unit of the exact mean |
| TimeMeter.OperationEntry.CompareTo | commons/src/operations/TimeMeter.kt:140-153 | an entry registered earlier compares below one registered later |
| TimeMeter.EntryBounds | commons/src/operations/TimeMeter.kt:123-138 | after at least one duration, count is their number and min <= every duration <= max |
| TimeMeter.TimeMeter.constructor | commons/src/operations/TimeMeter.kt:21-22 | no entries and the counter at 0 |
| TimeMeter.TimeMeter.InstantiateOperationEntry | commons/src/operations/TimeMeter.kt:24-25 | a fresh empty entry with the name and the next counter value |
| TimeMeter.TimeMeter.ObtainOperationEntry | commons/src/operations/TimeMeter.kt:27-29 | a known name gives its entry and changes nothing; a new name gets a fresh entry with the next order number; all other entries are kept |
| TimeMeter.TimeMeter.RegisterOperationEntry | commons/src/operations/TimeMeter.kt:28 | the missing-key branch of `getOrPut`: adds a fresh entry with the next order number under the name |
| TimeMeter.TimeMeter.ConsiderDuration | commons/src/operations/TimeMeter.kt:34-37 | the duration goes to the named entry, which is created first when the name is new; every other entry keeps its durations |
| TimeMeter.TimeMeter.Values | commons/src/operations/TimeMeter.kt:57 | every entry once, with pairwise different order numbers |
| TimeMeter.TimeMeter.SortEntries | commons/src/operations/TimeMeter.kt:67-69 | the entries end up in increasing order and are a permutation of the input |
| TimeMeter.TimeMeter.MinOrderFrom | commons/src/operations/TimeMeter.kt:68 | the position of the smallest order number from a given index on |
| TimeMeter.SelectionStep | commons/src/operations/TimeMeter.kt:68 | swapping the smallest remaining entry into place extends the sorted prefix and keeps the entries |
| TimeMeter.ConsecutiveOrders | commons/src/operations/TimeMeter.kt:56-69 | sorted entries whose orders lie in 1..n are numbered 1, 2, ..., n, and each compares below the next |
| TimeMeter.OrderAtLeast | commons/src/operations/TimeMeter.kt:56-60 | in a strictly increasing list of orders starting from at least 1, the i-th order is at least i+1 |
| TimeMeter.OrderAtMost | commons/src/operations/TimeMeter.kt:56-60 | in a strictly increasing list of orders bounded by its length, the i-th order is at most i+1 |
| TimeMeter.TimeMeter.GetMetrics | commons/src/operations/TimeMeter.kt:56-60 | every entry once, in first-registration order (orders 1, 2, ...), each comparing below the next |

## Left out

- The tree functions `pathToRoot`, `pathFromRoot`, `commonAncestor`, `commonPathFromRoot` and `filterTopNodes` are called by the tests but not defined in `AbstractTree.kt`. They are not part of this model.
- The regular-expression helpers `match` and `extract` are thin wrappers over Kotlin's `Regex` and are not modelled.
- `TimeMeter.measure` reads the system clock. Its recording half is `considerDuration`, which is modelled.
- `TimeMeter.produceReport` only feeds the entries to `TextTable` with six fixed columns. Printing numbers as text is not modelled, so the report is left out.
- Concurrency is not modelled.
  - `ConcurrentHashMap`, `AtomicInteger`, `synchronized` and `AtomicReference.updateAndGet` are modelled as a plain map, a counter and sequential updates.
  - A retried update that recomputes twice under contention is not modelled.
- `TimeMeter.OperationEntry.ConsiderDuration`: Kotlin `Long` and `Int` overflow is not modelled. Integers are unbounded.
- `TimeMeter.OperationEntry.Avg`: the rounding is proved for a non-negative sum only. For a negative sum Kotlin's truncating division is still computed (`KotlinDiv`), but no rounding property is claimed.
- `TimeMeter.TimeMeter.SortEntries`: it sorts by order number, not by the whole `compareTo`. Order numbers are distinct in a valid registry, so both give the same order (`ConsecutiveOrders`). An override of `sortEntries` by a subclass is not modelled.
- `Holder.kt` and `SequenceFun.kt` hold no logic beyond a field and a library call and are not modelled.
- `appendIfNotNull(x: Any?)` depends on an arbitrary `toString()` and is not modelled.
- `TextTable.CellWidth`, `TextTable.Pad`, `AnyStringFun.Left`, `AnyStringFun.Right` and `TimeMeter.CompareStrings` count lengths, cut points and order in Unicode scalar values, not UTF-16 code units as Kotlin's `length`, `padEnd`/`padStart`, `substring` and `String.compareTo` do.
  - On text outside the Basic Multilingual Plane (an emoji, for example) the model and the source differ. Such a character is 1 wide in the model and 2 in Kotlin.
  - `left` can cut such a character in half in Kotlin, leaving a lone surrogate; the model keeps it whole.
  - The two orderings of strings can differ.
- `StringBuilderFun.StringBuilder.AppendRange`, `StringBuilderFun.StringBuilder.Delete` and `StringBuilderFun.AppendRangeIf` require their range to lie within the string. The JDK throws `IndexOutOfBoundsException` for a range outside it; the model does not model that exception.
- `Char.isWhitespace` is a parameter of `RemoveSuffixStartingWith`. The Unicode whitespace table is not modelled.
- The builder capacity hints in `processContent` and `replicate` (`tableSize`, `StringBuilder(n)`) do not change any result and are not modelled.
- Kotlin's `Iterator` and `Iterable` are modelled as sequences and cursors over them.
  - The empty iterator of a rootless tree is the model's iterator started with no node. It behaves the same: `hasNext` is false and `next` fails.
  - A children function that returns a different sequence on each call is not modelled.
- The ghost `rank` parameter of the tree members stands for finiteness. `Ranked` is demanded of every value of the node type, not only of the nodes reachable from the start.
  - It excludes a cycle in the children function, even one that cannot be reached from the start. On a reachable cycle each `next()` of the source still returns, but draining the iterator never ends.
  - It also excludes trees of unbounded depth, which the source iterates lazily one node at a time.
- `TextTable.TillWidth` and `TextTable.ReplicateTillWidth` require a non-empty pattern or a width of 0. With an empty pattern and a positive width, the source's `while` loop never ends.
- `TextTable.TextTable.ProcessContent` requires at least one column, as the source's `assert` does. `reduce` on an empty array throws.
- `TextTable.TextTable.ProcessContent` also requires every present rule to be drawable at the table's width (`AllDrawable`). That is the same empty-pattern restriction.
- `TextTable.Column.constructor`: a column's width is a `nat`. A caller who sets a negative width would make `padEnd` throw; that is not modelled.
- The fetchers of the columns are pure functions. The source calls each fetcher twice per row, once to measure and once to print, so a fetcher whose answer changes between calls is not modelled.
- `TextTable.HeaderLineWidth`: the header line is proved as wide as the table only when every column is at least as wide as its header text.
  - A column with no title whose cells are all null or empty is 0 wide, but its header cell is a single space, so the header line is then one character wider per such column.
  - The model keeps this behaviour of the source.
- `TextTable.RulesSpanTable`: a rule pattern longer than the table is kept whole, as the source's `substring(0, pl)` does, so such a rule is wider than the table.
