/**
 * The converter's entry points: the blank-input short cut, the mapping of the
 * user's choices to a configuration, the script preamble and the failure cases.
 */
module PhpHelper {
  import opened Json
  import opened Text
  import opened PhpConfig
  import opened PhpEmitter
  import opened PhpLayout

  /** What the converter hands back: the text and whether conversion succeeded. */
  datatype ResultInfo = ResultInfo(data: string, hasSucceeded: bool)

  /** What the external JSON parser made of the input text. */
  datatype ParseOutcome =
    | Parsed(root: JsonValue)     // a document was parsed
    | Rejected(message: string)   // the parser reported a syntax error with this message
    | NoDocument                  // the parser returned no document
    | Faulted                     // any other exception was raised, by the parser or while reading a key or string

  /** The script text that opens every non-empty result. */
  const Preamble: string := "<?php\n\n$json = "

  /** The emitted literal placed in a PHP script assigning it to `$json`. */
  function Wrap(code: string): (script: string)
    ensures |script| == |Preamble| + |code| + 2
    ensures script[..|Preamble|] == Preamble
    ensures script[|Preamble|..|Preamble| + |code|] == code
    ensures script[|Preamble| + |code|..] == ";\n"
  {
    Preamble + code + ";\n"
  }

  /**
   * Converts `input`, which the parser turned into `parsed`: blank input
   * gives an empty successful result, a parsed document gives the wrapped
   * literal, a parser error gives its message as a failure.
   */
  method ConvertFromJson(input: string, parsed: ParseOutcome, indentation: Indentation, quote: Quote, trailingCommas: bool)
    returns (result: ResultInfo)
    ensures IsBlank(input) ==> result == ResultInfo("", true)
    ensures !IsBlank(input) && parsed.Rejected? ==> result == ResultInfo(parsed.message, false)
    ensures !IsBlank(input) && (parsed.NoDocument? || parsed.Faulted?) ==> result == ResultInfo("", false)
    ensures !IsBlank(input) && parsed.Parsed? ==>
      var code := PhpLiteral(parsed.root, MakeConfig(indentation, quote, trailingCommas), 0);
      result == if IsBlank(code) then ResultInfo("", false) else ResultInfo(Wrap(code), true)
    ensures !IsBlank(input) && parsed.Parsed? && WellFormed(parsed.root) ==>
      result == ResultInfo(Wrap(PhpLiteral(parsed.root, MakeConfig(indentation, quote, trailingCommas), 0)), true)
  {
    if IsBlank(input) {
      return ResultInfo("", true);
    }
    match parsed {
      case Rejected(message) =>
        result := ResultInfo(message, false);
      case NoDocument =>
        result := ResultInfo("", false);
      case Faulted =>
        result := ResultInfo("", false);
      case Parsed(root) =>
        var config := MakeConfig(indentation, quote, trailingCommas);
        var phpCode := ConvertToPhp(root, config, 0);
        if WellFormed(root) {
          NeverBlank(root, config, 0);
        }
        if IsBlank(phpCode) {
          return ResultInfo("", false);
        }
        result := ResultInfo(Wrap(phpCode), true);
    }
  }

  /**
   * The entry point: a failure without a message is replaced by the
   * localized "invalid JSON" text `invalidJson`.
   */
  method ConvertAsync(input: string, parsed: ParseOutcome, indentation: Indentation, quote: Quote, trailingCommas: bool, invalidJson: string)
    returns (result: ResultInfo)
    ensures IsBlank(input) ==> result == ResultInfo("", true)
    ensures !IsBlank(input) && parsed.Parsed? && !IsBlank(PhpLiteral(parsed.root, MakeConfig(indentation, quote, trailingCommas), 0)) ==>
      result == ResultInfo(Wrap(PhpLiteral(parsed.root, MakeConfig(indentation, quote, trailingCommas), 0)), true)
    ensures !IsBlank(input) && parsed.Parsed? && WellFormed(parsed.root) ==>
      result == ResultInfo(Wrap(PhpLiteral(parsed.root, MakeConfig(indentation, quote, trailingCommas), 0)), true)
    ensures !IsBlank(input) && parsed.Rejected? && !IsBlank(parsed.message) ==> result == ResultInfo(parsed.message, false)
    ensures !IsBlank(input)
            && (|| parsed.NoDocument?
                || parsed.Faulted?
                || (parsed.Rejected? && IsBlank(parsed.message))
                || (parsed.Parsed? && IsBlank(PhpLiteral(parsed.root, MakeConfig(indentation, quote, trailingCommas), 0))))
            ==> result == ResultInfo(invalidJson, false)
    ensures !result.hasSucceeded && !(parsed.Rejected? && !IsBlank(parsed.message)) ==> result == ResultInfo(invalidJson, false)
    ensures !IsBlank(invalidJson) && !result.hasSucceeded ==> !IsBlank(result.data)
  {
    var conversionResult := ConvertFromJson(input, parsed, indentation, quote, trailingCommas);
    if !conversionResult.hasSucceeded && IsBlank(conversionResult.data) {
      return ResultInfo(invalidJson, false);
    }
    result := conversionResult;
  }
}
