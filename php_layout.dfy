/**
 * Properties of the emitted layout: the empty-container shorthand, where the
 * trailing comma goes, that output is never blank, and that nesting only
 * shifts text right by the indent of the extra depth.
 */
module PhpLayout {
  import opened Json
  import opened Text
  import opened PhpConfig
  import opened PhpEmitter

  /**
   * Scalars ignore depth, indentation and the trailing-comma choice. A
   * string is its content between two quote characters, copied without
   * escaping; a number is its raw token.
   */
  lemma ScalarRendering(v: JsonValue, cfg: PhpConversionConfig, depth: nat, other: PhpConversionConfig, otherDepth: nat)
    requires !v.Object? && !v.Array?
    requires other.singleQuote == cfg.singleQuote
    ensures PhpLiteral(v, cfg, depth) == PhpLiteral(v, other, otherDepth)
    ensures v.Str? ==>
      var r := PhpLiteral(v, cfg, depth);
      && |r| == |v.text| + 2
      && r[0] == r[|r| - 1] == (if cfg.singleQuote then '\'' else '"')
      && r[1..|r| - 1] == v.text
    ensures v.Num? ==> PhpLiteral(v, cfg, depth) == v.raw
    ensures v.True? ==> PhpLiteral(v, cfg, depth) == "true"
    ensures v.False? ==> PhpLiteral(v, cfg, depth) == "false"
    ensures v.Null? ==> PhpLiteral(v, cfg, depth) == "null"
  {
    if v.Str? {
      var r := PhpLiteral(v, cfg, depth);
      assert r == cfg.Quote() + v.text + cfg.Quote();
      assert r[1..|r| - 1] == v.text;
    }
  }

  /**
   * A quote character inside a string value is not escaped: it appears in
   * the literal before the closing quote, so PHP would end the literal there.
   */
  lemma EmbeddedQuoteUnescaped(text: string, cfg: PhpConversionConfig, depth: nat, k: nat)
    requires k < |text| && text[k] == cfg.Quote()[0]
    ensures
      var r := PhpLiteral(Str(text), cfg, depth);
      0 < k + 1 < |r| - 1 && r[k + 1] == r[0] == r[|r| - 1]
  {
    var r := PhpLiteral(Str(text), cfg, depth);
    assert r == cfg.Quote() + text + cfg.Quote();
    assert r[k + 1] == text[k];
  }

  /**
   * A container renders as "[]" exactly when it has no items, whatever the
   * configuration; otherwise it opens with "[\n".
   */
  lemma EmptyContainerShorthand(v: JsonValue, cfg: PhpConversionConfig, depth: nat)
    requires v.Object? || v.Array?
    ensures PhpLiteral(v, cfg, depth) == "[]" <==> v.Arity() == 0
    ensures v.Arity() > 0 ==>
      var r := PhpLiteral(v, cfg, depth);
      |r| > 2 && r[0] == '[' && r[1] == '\n'
  {
    if v.Arity() > 0 {
      var open: string := "[\n";
      var r := PhpLiteral(v, cfg, depth);
      var rest := Join(ItemLines(v, cfg, depth), ",\n") + cfg.TrailingComma() + "\n" + cfg.GetIndent(depth) + "]";
      PrefixOfConcat(open, rest);
      Assoc(open, Join(ItemLines(v, cfg, depth), ",\n"), cfg.TrailingComma());
      assert r == open + rest;
    }
  }

  /**
   * The literal of a well-formed value is never empty, and its last
   * character is neither white space nor a comma (it is a closing bracket,
   * a quote, a digit or the end of true, false or null).
   */
  lemma RenderingEnd(v: JsonValue, cfg: PhpConversionConfig, depth: nat)
    requires WellFormed(v)
    ensures EndsInMark(PhpLiteral(v, cfg, depth))
  {
    var r := PhpLiteral(v, cfg, depth);
    match v
    case Object(_) =>
      assert r[|r| - 1] == ']';
    case Array(_) =>
      assert r[|r| - 1] == ']';
    case Str(text) =>
      assert r[|r| - 1] == cfg.Quote()[0];
    case Num(raw) =>
      assert '0' <= r[|r| - 1] <= '9';
    case True =>
    case False =>
    case Null =>
  }

  /** The emitter never produces blank text for a well-formed tree. */
  lemma NeverBlank(v: JsonValue, cfg: PhpConversionConfig, depth: nat)
    requires WellFormed(v)
    ensures !IsBlank(PhpLiteral(v, cfg, depth))
  {
    RenderingEnd(v, cfg, depth);
    MarkNotBlank(PhpLiteral(v, cfg, depth));
  }

  /** A non-empty container's text is its opening part followed by the closing line. */
  lemma ContainerSplit(items: seq<string>, cfg: PhpConversionConfig, depth: nat)
    requires |items| > 0
    ensures Container(items, cfg, depth)
         == ("[\n" + Join(items, ",\n") + cfg.TrailingComma()) + ("\n" + cfg.GetIndent(depth) + "]")
  {
    var x := "[\n" + Join(items, ",\n") + cfg.TrailingComma();
    var indent := cfg.GetIndent(depth);
    Assoc(x + "\n", indent, "]");
    Assoc(x, "\n", indent + "]");
    Assoc("\n", indent, "]");
  }

  /** The item text of a non-empty container ends like its last item's value. */
  lemma LastItemEnd(v: JsonValue, cfg: PhpConversionConfig, depth: nat)
    requires WellFormed(v) && v.Arity() > 0
    ensures EndsInMark(Join(ItemLines(v, cfg, depth), ",\n"))
  {
    var items := ItemLines(v, cfg, depth);
    var n := |items| - 1;
    if v.Object? {
      MemberLine(v, cfg, depth, n);
      RenderingEnd(v.members[n].1, cfg, depth + 1);
      MarkConcat(cfg.GetIndent(depth + 1) + cfg.Quote() + v.members[n].0 + cfg.Quote() + " => ",
                 PhpLiteral(v.members[n].1, cfg, depth + 1));
    } else {
      ElementLine(v, cfg, depth, n);
      RenderingEnd(v.elements[n], cfg, depth + 1);
      MarkConcat(cfg.GetIndent(depth + 1), PhpLiteral(v.elements[n], cfg, depth + 1));
    }
    MarkJoin(items, ",\n");
  }

  /**
   * A non-empty container ends with a line feed, its own indent and "]",
   * and the character before that is a comma exactly when trailing commas
   * are on: items are separated by ",\n" and only the last gets the
   * trailing comma.
   */
  lemma TrailingCommaPlacement(v: JsonValue, cfg: PhpConversionConfig, depth: nat)
    requires WellFormed(v) && v.Arity() > 0
    ensures
      var r := PhpLiteral(v, cfg, depth);
      var close := "\n" + cfg.GetIndent(depth) + "]";
      && |close| < |r|
      && r[|r| - |close|..] == close
      && (r[|r| - |close| - 1] == ',' <==> cfg.trailingCommas)
  {
    var items := ItemLines(v, cfg, depth);
    var j := Join(items, ",\n");
    var x := "[\n" + j + cfg.TrailingComma();
    var close := "\n" + cfg.GetIndent(depth) + "]";
    ContainerSplit(items, cfg, depth);
    assert PhpLiteral(v, cfg, depth) == x + close;
    SplitAt(x, close);
    if cfg.trailingCommas {
      LastOfConcat("[\n" + j, ",");
    } else {
      LastItemEnd(v, cfg, depth);
      assert x == "[\n" + j;
      MarkConcat("[\n", j);
    }
  }

  /** Indenting a line whose head holds no line feed only indents its body. */
  lemma ShiftLine(head: string, body: string, pad: string)
    requires '\n' !in head
    ensures pad + Shift(head + body, pad) == (pad + head) + Shift(body, pad)
  {
    ShiftConcat(head, body, pad);
  }

  /** Shifting a multi-line container text only indents what follows its line feeds. */
  lemma ShiftBrackets(j: string, comma: string, indent: string, pad: string)
    requires '\n' !in comma && '\n' !in indent
    ensures Shift("[\n" + j + comma + "\n" + indent + "]", pad)
         == "[\n" + (pad + Shift(j, pad)) + comma + "\n" + (pad + indent) + "]"
  {
    var open: string, nl: string, close: string := "[\n", "\n", "]";
    assert Shift(nl, pad) == nl + pad by {
      assert nl[1..] == "";
    }
    assert Shift(open, pad) == open + pad by {
      assert open[1..] == nl;
    }
    assert Shift(close, pad) == close by {
      assert close[1..] == "";
    }
    ShiftConcat(open, j, pad);
    var s1 := open + j;
    var t1 := open + pad + Shift(j, pad);
    assert Shift(s1, pad) == t1;
    ShiftConcat(s1, comma, pad);
    var s2 := s1 + comma;
    var t2 := t1 + comma;
    assert Shift(s2, pad) == t2;
    ShiftConcat(s2, nl, pad);
    var s3 := s2 + nl;
    var t3 := t2 + nl + pad;
    assert Shift(s3, pad) == t3;
    ShiftConcat(s3, indent, pad);
    var s4 := s3 + indent;
    var t4 := t3 + indent;
    assert Shift(s4, pad) == t4;
    ShiftConcat(s4, close, pad);
    assert Shift(s4 + close, pad) == t4 + close;
    Assoc(open, pad, Shift(j, pad));
    Assoc(open + (pad + Shift(j, pad)) + comma + nl, pad, indent);
  }

  /** One more level of depth for a container is the same as shifting its text. */
  lemma ShiftContainer(shallow: seq<string>, deep: seq<string>, cfg: PhpConversionConfig, d: nat, e: nat, de: nat)
    requires |shallow| > 0 && de == d + e
    requires deep == IndentLines(shallow, cfg.GetIndent(d))
    ensures Container(deep, cfg, de) == Shift(Container(shallow, cfg, e), cfg.GetIndent(d))
  {
    var pad := cfg.GetIndent(d);
    ShiftJoinLines(shallow, pad);
    IndentSplit(cfg, d, e, de);
    IndentSingleLine(cfg, e);
    assert '\n' !in cfg.TrailingComma();
    ShiftBrackets(Join(shallow, ",\n"), cfg.TrailingComma(), cfg.GetIndent(e), pad);
  }

  /** Prefixing a member line's head by `pad` prefixes its indent. */
  lemma PrefixHead(pad: string, indent: string, quote: string, key: string)
    ensures pad + (indent + quote + key + quote + " => ") == (pad + indent) + quote + key + quote + " => "
  {
    Assoc(pad, indent + quote + key + quote, " => ");
    Assoc(pad, indent + quote + key, quote);
    Assoc(pad, indent + quote, key);
    Assoc(pad, indent, quote);
  }

  /** Indenting a member line by `pad` gives the member line with the deeper indent and the shifted value. */
  lemma ShiftMemberLine(pad: string, indent: string, deepIndent: string, quote: string, key: string, shallow: string, deep: string)
    requires deepIndent == pad + indent
    requires '\n' !in indent && '\n' !in quote && '\n' !in key
    requires deep == Shift(shallow, pad)
    ensures deepIndent + quote + key + quote + " => " + deep
         == pad + Shift(indent + quote + key + quote + " => " + shallow, pad)
  {
    var head := indent + quote + key + quote + " => ";
    assert '\n' !in head;
    ShiftLine(head, shallow, pad);
    PrefixHead(pad, indent, quote, key);
  }

  /** Indenting an element line by `pad` gives the element line with the deeper indent and the shifted value. */
  lemma ShiftElementLine(pad: string, indent: string, deepIndent: string, shallow: string, deep: string)
    requires deepIndent == pad + indent && '\n' !in indent
    requires deep == Shift(shallow, pad)
    ensures deepIndent + deep == pad + Shift(indent + shallow, pad)
  {
    ShiftLine(indent, shallow, pad);
  }

  /**
   * Depth only shifts text: the literal of `v` at depth de = d + e is its
   * literal at depth e with the indent of depth d inserted after every line
   * feed, provided no key, string value or number holds a line feed of its
   * own (such text is copied unescaped and is not re-indented).
   */
  lemma {:induction false} DepthShift(v: JsonValue, cfg: PhpConversionConfig, d: nat, e: nat, de: nat)
    requires SingleLineText(v) && de == d + e
    ensures PhpLiteral(v, cfg, de) == Shift(PhpLiteral(v, cfg, e), cfg.GetIndent(d))
    decreases v, 2
  {
    match v {
      case Object(_) =>
        if v.Arity() > 0 {
          ShiftItems(v, cfg, d, e, de);
          ShiftContainer(ItemLines(v, cfg, e), ItemLines(v, cfg, de), cfg, d, e, de);
        }
      case Array(_) =>
        if v.Arity() > 0 {
          ShiftItems(v, cfg, d, e, de);
          ShiftContainer(ItemLines(v, cfg, e), ItemLines(v, cfg, de), cfg, d, e, de);
        }
      case Str(text) =>
        assert '\n' !in cfg.Quote() + text + cfg.Quote();
      case Num(raw) =>
      case True =>
      case False =>
      case Null =>
    }
  }

  /** The item lines one level deeper are the item lines indented by the extra depth. */
  lemma {:induction false} ShiftItems(v: JsonValue, cfg: PhpConversionConfig, d: nat, e: nat, de: nat)
    requires SingleLineText(v) && de == d + e
    ensures ItemLines(v, cfg, de) == IndentLines(ItemLines(v, cfg, e), cfg.GetIndent(d))
    decreases v, 1
  {
    var pad := cfg.GetIndent(d);
    var shallow, deep := ItemLines(v, cfg, e), ItemLines(v, cfg, de);
    assert |deep| == |shallow|;
    forall i | 0 <= i < |shallow|
      ensures deep[i] == pad + Shift(shallow[i], pad)
    {
      if v.Object? {
        ShiftMemberItem(v, cfg, d, e, de, i);
      } else {
        ShiftElementItem(v, cfg, d, e, de, i);
      }
    }
  }

  /** The i-th line of an object: indent, quoted key, " => " and the value one level deeper. */
  lemma MemberLine(v: JsonValue, cfg: PhpConversionConfig, depth: nat, i: nat)
    requires v.Object? && i < |v.members|
    ensures ItemLines(v, cfg, depth)[i]
         == cfg.GetIndent(depth + 1) + cfg.Quote() + v.members[i].0 + cfg.Quote() + " => "
            + PhpLiteral(v.members[i].1, cfg, depth + 1)
  {
  }

  /** The i-th line of an array: indent and the element one level deeper. */
  lemma ElementLine(v: JsonValue, cfg: PhpConversionConfig, depth: nat, i: nat)
    requires v.Array? && i < |v.elements|
    ensures ItemLines(v, cfg, depth)[i] == cfg.GetIndent(depth + 1) + PhpLiteral(v.elements[i], cfg, depth + 1)
  {
  }

  /** One member line, one level deeper, is that line indented by the extra depth. */
  lemma {:induction false} ShiftMemberItem(v: JsonValue, cfg: PhpConversionConfig, d: nat, e: nat, de: nat, i: nat)
    requires v.Object? && SingleLineText(v) && de == d + e && i < |v.members|
    ensures ItemLines(v, cfg, de)[i] == cfg.GetIndent(d) + Shift(ItemLines(v, cfg, e)[i], cfg.GetIndent(d))
    decreases v, 0
  {
    var key, child := v.members[i].0, v.members[i].1;
    DepthShift(child, cfg, d, e + 1, de + 1);
    MemberLine(v, cfg, e, i);
    MemberLine(v, cfg, de, i);
    IndentSplit(cfg, d, e + 1, de + 1);
    IndentSingleLine(cfg, e + 1);
    QuoteSingleLine(cfg);
    ShiftMemberLine(cfg.GetIndent(d), cfg.GetIndent(e + 1), cfg.GetIndent(de + 1), cfg.Quote(), key,
                    PhpLiteral(child, cfg, e + 1), PhpLiteral(child, cfg, de + 1));
  }

  /** One element line, one level deeper, is that line indented by the extra depth. */
  lemma {:induction false} ShiftElementItem(v: JsonValue, cfg: PhpConversionConfig, d: nat, e: nat, de: nat, i: nat)
    requires v.Array? && SingleLineText(v) && de == d + e && i < |v.elements|
    ensures ItemLines(v, cfg, de)[i] == cfg.GetIndent(d) + Shift(ItemLines(v, cfg, e)[i], cfg.GetIndent(d))
    decreases v, 0
  {
    var child := v.elements[i];
    DepthShift(child, cfg, d, e + 1, de + 1);
    ElementLine(v, cfg, e, i);
    ElementLine(v, cfg, de, i);
    IndentSplit(cfg, d, e + 1, de + 1);
    IndentSingleLine(cfg, e + 1);
    ShiftElementLine(cfg.GetIndent(d), cfg.GetIndent(e + 1), cfg.GetIndent(de + 1),
                     PhpLiteral(child, cfg, e + 1), PhpLiteral(child, cfg, de + 1));
  }

  /** Corollary: the literal at any depth is the top-level literal shifted right by that depth's indent. */
  lemma NestedIsShiftedTopLevel(v: JsonValue, cfg: PhpConversionConfig, depth: nat)
    requires SingleLineText(v)
    ensures PhpLiteral(v, cfg, depth) == Shift(PhpLiteral(v, cfg, 0), cfg.GetIndent(depth))
  {
    DepthShift(v, cfg, depth, 0, depth);
  }
}
