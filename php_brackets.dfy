/**
 * Bracket balance: every object and every array contributes exactly one
 * "[" and one "]" to the literal, provided no key, string or number holds a
 * bracket of its own (such text is copied unescaped and would add more).
 */
module PhpBrackets {
  import opened Json
  import opened Text
  import opened PhpConfig
  import opened PhpEmitter
  import opened PhpLayout

  /** How many times `c` occurs in `s`. */
  function Occurrences(s: string, c: char): nat
  {
    if s == [] then 0 else (if s[0] == c then 1 else 0) + Occurrences(s[1..], c)
  }

  lemma {:induction false} OccurrencesConcat(a: string, b: string, c: char)
    ensures Occurrences(a + b, c) == Occurrences(a, c) + Occurrences(b, c)
  {
    if a == [] {
      assert a + b == b;
    } else {
      assert (a + b)[1..] == a[1..] + b;
      OccurrencesConcat(a[1..], b, c);
    }
  }

  lemma {:induction false} OccurrencesAbsent(s: string, c: char)
    requires c !in s
    ensures Occurrences(s, c) == 0
  {
    if s != [] {
      assert c !in s[1..] by {
        assert forall i :: 0 <= i < |s[1..]| ==> s[1..][i] == s[i + 1];
      }
      OccurrencesAbsent(s[1..], c);
    }
  }

  /** A prefix without `c` adds no occurrence of it. */
  lemma AbsentHead(head: string, s: string, c: char)
    requires c !in head
    ensures Occurrences(head + s, c) == Occurrences(s, c)
  {
    OccurrencesConcat(head, s, c);
    OccurrencesAbsent(head, c);
  }

  /** The occurrences of `c` in a list of strings, added up. */
  function OccurrencesIn(items: seq<string>, c: char): nat
  {
    if items == [] then 0 else Occurrences(items[0], c) + OccurrencesIn(items[1..], c)
  }

  /** Joining with a separator free of `c` keeps the occurrences of `c` of the items. */
  lemma {:induction false} JoinOccurrences(items: seq<string>, sep: string, c: char)
    requires c !in sep
    ensures Occurrences(Join(items, sep), c) == OccurrencesIn(items, c)
  {
    if |items| == 1 {
      assert OccurrencesIn(items[1..], c) == 0;
    } else if |items| > 1 {
      var tail := Join(items[1..], sep);
      JoinOccurrences(items[1..], sep, c);
      OccurrencesConcat(items[0] + sep, tail, c);
      OccurrencesConcat(items[0], sep, c);
      OccurrencesAbsent(sep, c);
    }
  }

  /** No object key, string value or number token in the tree holds '[' or ']'. */
  predicate BracketFreeText(v: JsonValue)
    decreases v
  {
    match v
    case Object(members) =>
      forall i :: 0 <= i < |members| ==>
        '[' !in members[i].0 && ']' !in members[i].0 && BracketFreeText(members[i].1)
    case Array(elements) => forall i :: 0 <= i < |elements| ==> BracketFreeText(elements[i])
    case Str(text) => '[' !in text && ']' !in text
    case Num(raw) => '[' !in raw && ']' !in raw
    case _ => true
  }

  /** The number of objects and arrays in the tree, the root included. */
  function Containers(v: JsonValue): nat
    decreases v, 1
  {
    if v.Object? || v.Array? then 1 + ChildContainers(v, 0) else 0
  }

  /** The number of objects and arrays inside the children of `v` from the k-th on. */
  function ChildContainers(v: JsonValue, k: nat): nat
    requires k <= v.Arity()
    decreases v, 0, v.Arity() - k
  {
    if k == v.Arity() then 0
    else if v.Object? then Containers(v.members[k].1) + ChildContainers(v, k + 1)
    else Containers(v.elements[k]) + ChildContainers(v, k + 1)
  }

  /** No indent and no quote holds a bracket. */
  lemma LayoutBracketFree(cfg: PhpConversionConfig, depth: nat, c: char)
    requires c == '[' || c == ']'
    ensures c !in cfg.GetIndent(depth) && c !in cfg.Quote() && c !in cfg.TrailingComma()
  {
  }

  /**
   * The literal holds exactly as many '[' and exactly as many ']' as the tree
   * holds objects and arrays: each container opens and closes once, empty or not.
   */
  lemma {:induction false} BracketCount(v: JsonValue, cfg: PhpConversionConfig, depth: nat, c: char)
    requires BracketFreeText(v) && (c == '[' || c == ']')
    ensures Occurrences(PhpLiteral(v, cfg, depth), c) == Containers(v)
    decreases v, 2
  {
    match v {
      case Object(_) => ContainerBracketCount(v, cfg, depth, c);
      case Array(_) => ContainerBracketCount(v, cfg, depth, c);
      case Str(text) =>
        LayoutBracketFree(cfg, depth, c);
        OccurrencesAbsent(cfg.Quote() + text + cfg.Quote(), c);
      case Num(raw) =>
        OccurrencesAbsent(raw, c);
      case True =>
        OccurrencesAbsent("true", c);
      case False =>
        OccurrencesAbsent("false", c);
      case Null =>
        OccurrencesAbsent("null", c);
    }
  }

  /** "[]" holds one bracket of each kind. */
  lemma EmptyBrackets(c: char)
    requires c == '[' || c == ']'
    ensures Occurrences("[]", c) == 1
  {
    assert "[]"[1..] == "]";
    assert "]"[1..] == "";
  }

  /** The frame of a non-empty container adds one bracket of each kind to its items. */
  lemma FrameBrackets(j: string, comma: string, indent: string, c: char)
    requires c == '[' || c == ']'
    requires c !in comma && c !in indent
    ensures Occurrences(("[\n" + j + comma) + ("\n" + indent + "]"), c) == Occurrences(j, c) + 1
  {
    OccurrencesConcat("[\n" + j + comma, "\n" + indent + "]", c);
    OccurrencesConcat("[\n" + j, comma, c);
    OccurrencesAbsent(comma, c);
    OccurrencesConcat("[\n", j, c);
    assert Occurrences("[\n", c) == if c == '[' then 1 else 0 by {
      assert "[\n"[1..] == "\n";
      assert "\n"[1..] == "";
    }
    OccurrencesConcat("\n" + indent, "]", c);
    OccurrencesAbsent("\n" + indent, c);
    assert Occurrences("]", c) == if c == ']' then 1 else 0 by {
      assert "]"[1..] == "";
    }
  }

  /** BracketCount for an object or an array. */
  lemma {:induction false} ContainerBracketCount(v: JsonValue, cfg: PhpConversionConfig, depth: nat, c: char)
    requires (v.Object? || v.Array?) && BracketFreeText(v) && (c == '[' || c == ']')
    ensures Occurrences(PhpLiteral(v, cfg, depth), c) == Containers(v)
    decreases v, 1, v.Arity() + 1
  {
    var items := ItemLines(v, cfg, depth);
    ItemsBracketCount(v, cfg, depth, c, 0);
    assert items[0..] == items;
    if v.Arity() == 0 {
      EmptyBrackets(c);
    } else {
      ContainerSplit(items, cfg, depth);
      JoinOccurrences(items, ",\n", c);
      LayoutBracketFree(cfg, depth, c);
      FrameBrackets(Join(items, ",\n"), cfg.TrailingComma(), cfg.GetIndent(depth), c);
    }
  }

  /** The sum over the items from the k-th on is the k-th item plus the sum from the next on. */
  lemma OccurrencesInStep(items: seq<string>, k: nat, c: char)
    requires k < |items|
    ensures OccurrencesIn(items[k..], c) == Occurrences(items[k], c) + OccurrencesIn(items[k + 1..], c)
  {
    assert items[k..][1..] == items[k + 1..];
  }

  /** The k-th item line holds one bracket of each kind per container in the k-th child. */
  lemma {:induction false} LineBracketCount(v: JsonValue, cfg: PhpConversionConfig, depth: nat, c: char, k: nat)
    requires (v.Object? || v.Array?) && BracketFreeText(v) && (c == '[' || c == ']') && k < v.Arity()
    ensures Occurrences(ItemLines(v, cfg, depth)[k], c)
         == Containers(if v.Object? then v.members[k].1 else v.elements[k])
    decreases v, 0
  {
    LayoutBracketFree(cfg, depth + 1, c);
    if v.Object? {
      var key, child := v.members[k].0, v.members[k].1;
      MemberLine(v, cfg, depth, k);
      BracketCount(child, cfg, depth + 1, c);
      AbsentHead(cfg.GetIndent(depth + 1) + cfg.Quote() + key + cfg.Quote() + " => ", PhpLiteral(child, cfg, depth + 1), c);
    } else {
      var child := v.elements[k];
      ElementLine(v, cfg, depth, k);
      BracketCount(child, cfg, depth + 1, c);
      AbsentHead(cfg.GetIndent(depth + 1), PhpLiteral(child, cfg, depth + 1), c);
    }
  }

  /** The item lines from the k-th on hold one bracket of each kind per container inside those items. */
  lemma {:induction false} ItemsBracketCount(v: JsonValue, cfg: PhpConversionConfig, depth: nat, c: char, k: nat)
    requires (v.Object? || v.Array?) && BracketFreeText(v) && (c == '[' || c == ']') && k <= v.Arity()
    ensures OccurrencesIn(ItemLines(v, cfg, depth)[k..], c) == ChildContainers(v, k)
    decreases v, 1, v.Arity() - k
  {
    var items := ItemLines(v, cfg, depth);
    if k < v.Arity() {
      OccurrencesInStep(items, k, c);
      LineBracketCount(v, cfg, depth, c, k);
      ItemsBracketCount(v, cfg, depth, c, k + 1);
    } else {
      assert items[k..] == [];
    }
  }
}
