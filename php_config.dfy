/** The formatting options of the converter and the indentation they give each depth. */
module PhpConfig {
  import opened Wrappers
  import opened Text

  /** The indentation the user picks. */
  datatype Indentation = TwoSpaces | FourSpaces | Tabs

  /** The quote character the user picks. */
  datatype Quote = SingleQuote | DoubleQuote

  /**
   * Formatting options. `indentation` is a width in spaces per level, or
   * None for one tab per level.
   */
  datatype PhpConversionConfig = PhpConversionConfig(indentation: Option<nat>, trailingCommas: bool, singleQuote: bool)
  {
    /** The indent of a line at nesting depth `depth`. */
    function GetIndent(depth: nat): (r: string)
      ensures indentation.Some? ==> |r| == indentation.value * depth
      ensures indentation.None? ==> |r| == depth
      ensures forall i :: 0 <= i < |r| ==> r[i] == if indentation.Some? then ' ' else '\t'
    {
      match indentation
      case Some(indent) => Repeat(' ', indent * depth)
      case None => Repeat('\t', depth)
    }

    /** What follows the last item of a non-empty container. */
    function TrailingComma(): (r: string)
      ensures r == "," <==> trailingCommas
      ensures r == "" <==> !trailingCommas
    {
      if trailingCommas then "," else ""
    }

    /** The delimiter around keys and string values. */
    function Quote(): (r: string)
      ensures |r| == 1
      ensures r[0] == '\'' <==> singleQuote
      ensures r[0] == '"' <==> !singleQuote
    {
      if singleQuote then "'" else "\""
    }
  }

  /** The width the indentation choice stands for: 2, 4, or None for tabs. */
  function IndentWidth(indentation: Indentation): Option<nat>
  {
    match indentation
    case TwoSpaces => Some(2)
    case FourSpaces => Some(4)
    case Tabs => None
  }

  /** The configuration built from the user's three choices. */
  function MakeConfig(indentation: Indentation, quote: Quote, trailingCommas: bool): (cfg: PhpConversionConfig)
    ensures indentation == TwoSpaces ==> forall depth: nat :: cfg.GetIndent(depth) == Repeat(' ', 2 * depth)
    ensures indentation == FourSpaces ==> forall depth: nat :: cfg.GetIndent(depth) == Repeat(' ', 4 * depth)
    ensures indentation == Tabs ==> forall depth: nat :: cfg.GetIndent(depth) == Repeat('\t', depth)
    ensures cfg.Quote() == (if quote == SingleQuote then "'" else "\"")
    ensures cfg.TrailingComma() == (if trailingCommas then "," else "")
  {
    PhpConversionConfig(IndentWidth(indentation), trailingCommas, quote == SingleQuote)
  }

  /** Indentation is additive: the indent of depth d + e is that of d followed by that of e. */
  lemma IndentAdd(cfg: PhpConversionConfig, d: nat, e: nat)
    ensures cfg.GetIndent(d + e) == cfg.GetIndent(d) + cfg.GetIndent(e)
  {
    match cfg.indentation
    case Some(w) =>
      assert w * (d + e) == w * d + w * e;
      RepeatAdd(' ', w * d, w * e);
    case None =>
      RepeatAdd('\t', d, e);
  }

  /** IndentAdd with the sum named. */
  lemma IndentSplit(cfg: PhpConversionConfig, d: nat, e: nat, total: nat)
    requires total == d + e
    ensures cfg.GetIndent(total) == cfg.GetIndent(d) + cfg.GetIndent(e)
  {
    IndentAdd(cfg, d, e);
  }

  /** The quote is a single character other than a line feed. */
  lemma QuoteSingleLine(cfg: PhpConversionConfig)
    ensures '\n' !in cfg.Quote()
  {
  }

  /** No indent contains a line feed. */
  lemma IndentSingleLine(cfg: PhpConversionConfig, depth: nat)
    ensures '\n' !in cfg.GetIndent(depth)
  {
  }
}
