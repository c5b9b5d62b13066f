/**
 * The conditional-append helpers of `StringBuilderFun.kt`, written as
 * methods that take the receiver builder as their first argument, on top of
 * a minimal model of the JDK's `StringBuilder`.
 *
 * Every helper only ever extends the buffer: the old content stays an
 * unchanged prefix of the new content, and the receiver itself is returned.
 */
module StringBuilderFun {
  import opened Wrappers

  /** `java.lang.StringBuilder`, reduced to the operations the library uses. */
  class StringBuilder {
    var content: string

    constructor ()
      ensures content == ""
    {
      content := "";
    }

    /** `append(CharSequence)`. */
    method Append(s: string) returns (self: StringBuilder)
      modifies this
      ensures self == this
      ensures content == old(content) + s
    {
      content := content + s;
      self := this;
    }

    /** `append(char)`. */
    method AppendChar(c: char) returns (self: StringBuilder)
      modifies this
      ensures self == this
      ensures content == old(content) + [c]
    {
      content := content + [c];
      self := this;
    }

    /** `append(CharSequence, start, end)`: the characters `s[start..end)`. */
    method AppendRange(s: string, start: int, end: int) returns (self: StringBuilder)
      requires 0 <= start <= end <= |s|
      modifies this
      ensures self == this
      ensures content == old(content) + s[start..end]
    {
      content := content + s[start..end];
      self := this;
    }

    /** Kotlin's `appendLine()`: a line feed. */
    method AppendLine() returns (self: StringBuilder)
      modifies this
      ensures self == this
      ensures content == old(content) + "\n"
    {
      content := content + "\n";
      self := this;
    }

    /**
     * `delete(start, end)`: removes the characters from `start` up to `end`,
     * or up to the end of the content when `end` lies beyond it.
     */
    method Delete(start: int, end: int) returns (self: StringBuilder)
      requires 0 <= start <= |content| && start <= end
      modifies this
      ensures self == this
      ensures content == old(content)[..start] + old(content)[if end < |old(content)| then end else |old(content)|..]
    {
      var stop := if end < |content| then end else |content|;
      content := content[..start] + content[stop..];
      self := this;
    }

    /** `isNotEmpty()`. */
    method IsNotEmpty() returns (r: bool)
      ensures r <==> |content| > 0
    {
      r := |content| > 0;
    }
  }

  /** `appendIfNotNull(s: CharSequence?)`: appends `s` unless it is null. */
  method AppendIfNotNull(b: StringBuilder, s: Option<string>) returns (r: StringBuilder)
    modifies b
    ensures r == b
    ensures s.None? ==> b.content == old(b.content)
    ensures s.Some? ==> b.content == old(b.content) + s.value
  {
    if s.Some? {
      var _ := b.Append(s.value);
    }
    r := b;
  }

  /** `appendIfNotEmpty(c: Char)`: appends `c` only to a builder that already has content. */
  method AppendCharIfNotEmpty(b: StringBuilder, c: char) returns (r: StringBuilder)
    modifies b
    ensures r == b
    ensures old(b.content) == "" ==> b.content == ""
    ensures old(b.content) != "" ==> b.content == old(b.content) + [c]
  {
    var notEmpty := b.IsNotEmpty();
    if notEmpty {
      var _ := b.AppendChar(c);
    }
    r := b;
  }

  /** `appendIfNotEmpty(s: String)`: appends `s` only to a builder that already has content. */
  method AppendIfNotEmpty(b: StringBuilder, s: string) returns (r: StringBuilder)
    modifies b
    ensures r == b
    ensures old(b.content) == "" ==> b.content == ""
    ensures old(b.content) != "" ==> b.content == old(b.content) + s
  {
    var notEmpty := b.IsNotEmpty();
    if notEmpty {
      var _ := b.Append(s);
    }
    r := b;
  }

  /** `appendIf(condition, c: Char)`. */
  method AppendCharIf(b: StringBuilder, condition: bool, c: char) returns (r: StringBuilder)
    modifies b
    ensures r == b
    ensures !condition ==> b.content == old(b.content)
    ensures condition ==> b.content == old(b.content) + [c]
  {
    if condition {
      var _ := b.AppendChar(c);
    }
    r := b;
  }

  /** `appendIf(condition, str: CharSequence)`. */
  method AppendIf(b: StringBuilder, condition: bool, str: string) returns (r: StringBuilder)
    modifies b
    ensures r == b
    ensures !condition ==> b.content == old(b.content)
    ensures condition ==> b.content == old(b.content) + str
  {
    if condition {
      var _ := b.Append(str);
    }
    r := b;
  }

  /**
   * `appendIf(condition, str, start, end)`: appends `str[start..end)` when
   * `condition` holds. The range is only looked at when it is used.
   */
  method AppendRangeIf(b: StringBuilder, condition: bool, str: string, start: int, end: int)
    returns (r: StringBuilder)
    requires condition ==> 0 <= start <= end <= |str|
    modifies b
    ensures r == b
    ensures !condition ==> b.content == old(b.content)
    ensures condition ==> b.content == old(b.content) + str[start..end]
  {
    if condition {
      var _ := b.AppendRange(str, start, end);
    }
    r := b;
  }
}
