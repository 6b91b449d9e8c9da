/**
 * The emitter: the PHP short-array literal of a JSON value tree, as a
 * specification function and as the looping method that computes it.
 */
module PhpEmitter {
  import opened Json
  import opened Text
  import opened PhpConfig

  /** A container's text given the text of its items, one per line. */
  function Container(items: seq<string>, cfg: PhpConversionConfig, depth: nat): string
  {
    if |items| == 0 then "[]"
    else "[\n" + Join(items, ",\n") + cfg.TrailingComma() + "\n" + cfg.GetIndent(depth) + "]"
  }

  /**
   * The item lines of a container at depth `depth`: each member as
   * indent, quoted key, " => " and its value, each element as indent and
   * its value, in order. A scalar has none.
   */
  function ItemLines(v: JsonValue, cfg: PhpConversionConfig, depth: nat): seq<string>
    decreases v, 0
  {
    match v
    case Object(members) =>
      seq(|members|, i requires 0 <= i < |members| =>
        cfg.GetIndent(depth + 1) + cfg.Quote() + members[i].0 + cfg.Quote() + " => "
        + PhpLiteral(members[i].1, cfg, depth + 1))
    case Array(elements) =>
      seq(|elements|, i requires 0 <= i < |elements| =>
        cfg.GetIndent(depth + 1) + PhpLiteral(elements[i], cfg, depth + 1))
    case _ => []
  }

  /** The PHP literal for `v` when it sits at nesting depth `depth`. */
  function PhpLiteral(v: JsonValue, cfg: PhpConversionConfig, depth: nat): string
    decreases v, 1
  {
    match v
    case Object(_) => Container(ItemLines(v, cfg, depth), cfg, depth)
    case Array(_) => Container(ItemLines(v, cfg, depth), cfg, depth)
    case Str(text) => cfg.Quote() + text + cfg.Quote()
    case Num(raw) => raw
    case True => "true"
    case False => "false"
    case Null => "null"
  }

  /**
   * The emitter: walks the tree, collecting each container's item lines in a
   * list and joining them, and produces the literal `PhpLiteral` describes.
   */
  method ConvertToPhp(v: JsonValue, cfg: PhpConversionConfig, depth: nat) returns (r: string)
    ensures r == PhpLiteral(v, cfg, depth)
    decreases v, 1
  {
    var indent := cfg.GetIndent(depth);
    var comma := cfg.TrailingComma();
    var quote := cfg.Quote();
    match v {
      case Object(members) =>
        var items := CollectMembers(v, cfg, depth);
        if |items| == 0 {
          return "[]";
        }
        r := "[\n" + Join(items, ",\n") + comma + "\n" + indent + "]";
      case Array(elements) =>
        var items := CollectElements(v, cfg, depth);
        if |items| == 0 {
          return "[]";
        }
        r := "[\n" + Join(items, ",\n") + comma + "\n" + indent + "]";
      case Str(text) =>
        r := quote + text + quote;
      case Num(raw) =>
        r := raw;
      case True =>
        r := "true";
      case False =>
        r := "false";
      case Null =>
        r := "null";
    }
  }

  /** The loop over an object's members, adding one line per member to a list. */
  method CollectMembers(v: JsonValue, cfg: PhpConversionConfig, depth: nat) returns (items: seq<string>)
    requires v.Object?
    ensures items == ItemLines(v, cfg, depth)
    decreases v, 0
  {
    var innerIndent := cfg.GetIndent(depth + 1);
    var quote := cfg.Quote();
    items := [];
    for i := 0 to |v.members|
      invariant items == ItemLines(v, cfg, depth)[..i]
    {
      var value := ConvertToPhp(v.members[i].1, cfg, depth + 1);
      items := items + [innerIndent + quote + v.members[i].0 + quote + " => " + value];
    }
    assert items == ItemLines(v, cfg, depth);
  }

  /** The loop over an array's elements, adding one line per element to a list. */
  method CollectElements(v: JsonValue, cfg: PhpConversionConfig, depth: nat) returns (items: seq<string>)
    requires v.Array?
    ensures items == ItemLines(v, cfg, depth)
    decreases v, 0
  {
    var innerIndent := cfg.GetIndent(depth + 1);
    items := [];
    for i := 0 to |v.elements|
      invariant items == ItemLines(v, cfg, depth)[..i]
    {
      var value := ConvertToPhp(v.elements[i], cfg, depth + 1);
      items := items + [innerIndent + value];
    }
    assert items == ItemLines(v, cfg, depth);
  }
}
