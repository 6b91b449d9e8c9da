/** String helpers: repetition, joining, .NET white space and re-indentation. */
module Text {

  /** `new string(c, n)`: the character `c` repeated `n` times. */
  function Repeat(c: char, n: nat): (r: string)
    ensures |r| == n
    ensures forall i :: 0 <= i < n ==> r[i] == c
  {
    if n == 0 then "" else [c] + Repeat(c, n - 1)
  }

  lemma RepeatAdd(c: char, m: nat, n: nat)
    ensures Repeat(c, m + n) == Repeat(c, m) + Repeat(c, n)
  {
    var a, b := Repeat(c, m + n), Repeat(c, m) + Repeat(c, n);
    assert forall i :: 0 <= i < m + n ==> a[i] == b[i];
  }

  /** The total length of a list of strings. */
  function TotalLength(items: seq<string>): nat
  {
    if |items| == 0 then 0 else |items[0]| + TotalLength(items[1..])
  }

  /**
   * `string.Join(sep, items)`: the items with `sep` between neighbours. It
   * starts with the first item and is as long as the items and the n - 1
   * separators together.
   */
  function Join(items: seq<string>, sep: string): (r: string)
    ensures |items| == 0 ==> r == ""
    ensures |items| > 0 ==> |r| == TotalLength(items) + (|items| - 1) * |sep|
    ensures |items| > 0 ==> |items[0]| <= |r| && r[..|items[0]|] == items[0]
  {
    if |items| == 0 then ""
    else if |items| == 1 then items[0]
    else items[0] + sep + Join(items[1..], sep)
  }

  /** A non-empty join ends with its last item. */
  lemma {:induction false} JoinEndsWithLast(items: seq<string>, sep: string)
    requires |items| > 0
    ensures |items[|items| - 1]| <= |Join(items, sep)|
    ensures Join(items, sep)[|Join(items, sep)| - |items[|items| - 1]|..] == items[|items| - 1]
  {
    if |items| > 1 {
      JoinEndsWithLast(items[1..], sep);
    }
  }

  /** `s` is not empty and its last character is neither white space nor a comma. */
  predicate EndsInMark(s: string) {
    |s| > 0 && !IsWhiteSpace(s[|s| - 1]) && s[|s| - 1] != ','
  }

  /** Text that ends in a mark is not blank. */
  lemma MarkNotBlank(s: string)
    requires EndsInMark(s)
    ensures !IsBlank(s)
  {
  }

  lemma PrefixOfConcat(a: string, b: string)
    ensures (a + b)[..|a|] == a
    ensures forall i :: 0 <= i < |a| ==> (a + b)[i] == a[i]
  {
  }

  lemma LastOfConcat(a: string, b: string)
    requires |b| > 0
    ensures (a + b)[|a + b| - 1] == b[|b| - 1]
  {
  }

  lemma MarkConcat(a: string, b: string)
    requires EndsInMark(b)
    ensures EndsInMark(a + b)
  {
    assert (a + b)[|a + b| - 1] == b[|b| - 1];
  }

  /** A join ends in a mark when its last item does. */
  lemma MarkJoin(items: seq<string>, sep: string)
    requires |items| > 0 && EndsInMark(items[|items| - 1])
    ensures EndsInMark(Join(items, sep))
  {
    var j, last := Join(items, sep), items[|items| - 1];
    JoinEndsWithLast(items, sep);
    assert j[|j| - 1] == j[|j| - |last|..][|last| - 1];
  }

  /** `x + y` split back at the length of `x`. */
  lemma SplitAt(x: string, y: string)
    ensures |x + y| - |y| == |x|
    ensures (x + y)[|x|..] == y
    ensures |x| > 0 ==> (x + y)[|x| - 1] == x[|x| - 1]
  {
  }

  /** `char.IsWhiteSpace`: the Unicode space separators, line and paragraph separators, U+0009..U+000D and U+0085. */
  predicate IsWhiteSpace(c: char) {
    || c == ' '
    || ('\t' <= c <= '\r')
    || c == '\U{0085}'
    || c == '\U{00A0}'
    || c == '\U{1680}'
    || ('\U{2000}' <= c <= '\U{200A}')
    || c == '\U{2028}'
    || c == '\U{2029}'
    || c == '\U{202F}'
    || c == '\U{205F}'
    || c == '\U{3000}'
  }

  /** `string.IsNullOrWhiteSpace` on a non-null string. */
  predicate IsBlank(s: string) {
    forall i :: 0 <= i < |s| ==> IsWhiteSpace(s[i])
  }

  /**
   * The white-space characters of .NET listed by Unicode category: the space
   * separators (Zs), the line separator (Zl), the paragraph separator (Zp),
   * and the control characters tab, line feed, vertical tab, form feed,
   * carriage return and next line.
   */
  const SpaceSeparators: set<char> :=
    {' ', '\U{00A0}', '\U{1680}', '\U{2000}', '\U{2001}', '\U{2002}', '\U{2003}', '\U{2004}', '\U{2005}',
     '\U{2006}', '\U{2007}', '\U{2008}', '\U{2009}', '\U{200A}', '\U{202F}', '\U{205F}', '\U{3000}'}
  const WhiteSpaceControls: set<char> := {'\t', '\n', '\U{000B}', '\U{000C}', '\r', '\U{0085}'}

  /** `IsWhiteSpace` is exactly membership in the categories above. */
  lemma WhiteSpaceCategories(c: char)
    ensures IsWhiteSpace(c) <==> c in SpaceSeparators + {'\U{2028}', '\U{2029}'} + WhiteSpaceControls
  {
    if '\t' <= c <= '\r' {
      assert c == '\t' || c == '\n' || c == '\U{000B}' || c == '\U{000C}' || c == '\r';
    }
    if '\U{2000}' <= c <= '\U{200A}' {
      assert c in SpaceSeparators;
    }
  }

  /** Text is blank exactly when both of its parts are. */
  lemma {:induction false} BlankConcat(a: string, b: string)
    ensures IsBlank(a + b) <==> IsBlank(a) && IsBlank(b)
  {
    var ab := a + b;
    assert forall i :: 0 <= i < |a| ==> ab[i] == a[i];
    assert forall i :: 0 <= i < |b| ==> ab[|a| + i] == b[i];
    if IsBlank(a) && IsBlank(b) {
      forall i | 0 <= i < |ab|
        ensures IsWhiteSpace(ab[i])
      {
        if i >= |a| {
          assert ab[i] == b[i - |a|];
        }
      }
    }
  }

  /** `s` with `pad` inserted after every line feed: the same text indented further. */
  function Shift(s: string, pad: string): (r: string)
    ensures '\n' !in s ==> r == s
  {
    if s == [] then []
    else (if s[0] == '\n' then "\n" + pad else [s[0]]) + Shift(s[1..], pad)
  }

  lemma {:induction false} ShiftConcat(a: string, b: string, pad: string)
    ensures Shift(a + b, pad) == Shift(a, pad) + Shift(b, pad)
  {
    if a != [] {
      assert (a + b)[1..] == a[1..] + b;
      ShiftConcat(a[1..], b, pad);
    } else {
      assert a + b == b;
    }
  }

  /** Every line indented by `pad`, keeping the lines' own inner line breaks indented too. */
  function IndentLines(lines: seq<string>, pad: string): (r: seq<string>)
    ensures |r| == |lines|
    ensures forall i :: 0 <= i < |lines| ==> r[i] == pad + Shift(lines[i], pad)
  {
    if lines == [] then [] else [pad + Shift(lines[0], pad)] + IndentLines(lines[1..], pad)
  }

  lemma ShiftSeparator(pad: string)
    ensures Shift(",\n", pad) == ",\n" + pad
  {
    var sep: string := ",\n";
    assert sep[1..] == "\n";
    assert Shift("\n", pad) == "\n" + pad by {
      assert "\n"[1..] == "";
    }
    assert Shift(sep, pad) == [','] + Shift("\n", pad);
  }

  lemma Assoc(a: string, b: string, c: string)
    ensures (a + b) + c == a + (b + c)
  {
  }

  lemma Regroup(pad: string, a: string, sep: string, b: string)
    ensures pad + (a + (sep + pad + b)) == (pad + a) + sep + (pad + b)
  {
  }

  /**
   * Joining lines with ",\n" and then indenting every line by `pad` is the same
   * as indenting each line first and joining the results.
   */
  lemma {:induction false} ShiftJoinLines(lines: seq<string>, pad: string)
    requires |lines| > 0
    ensures pad + Shift(Join(lines, ",\n"), pad) == Join(IndentLines(lines, pad), ",\n")
  {
    if |lines| > 1 {
      var sep: string := ",\n";
      var tail := Join(lines[1..], sep);
      var shifted := IndentLines(lines, pad);
      ShiftJoinLines(lines[1..], pad);
      assert shifted[1..] == IndentLines(lines[1..], pad);
      assert Join(lines, sep) == lines[0] + (sep + tail);
      ShiftConcat(lines[0], sep + tail, pad);
      ShiftConcat(sep, tail, pad);
      ShiftSeparator(pad);
      var a, b := Shift(lines[0], pad), Shift(tail, pad);
      assert pad + Shift(Join(lines, sep), pad) == pad + (a + (sep + pad + b));
      Regroup(pad, a, sep, b);
      assert Join(shifted, sep) == shifted[0] + sep + Join(shifted[1..], sep);
    }
  }
}
