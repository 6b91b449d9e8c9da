/**
 * The value tree the external JSON parser hands to the emitter.
 * Object members keep their encounter order and duplicates; strings are
 * already unescaped; a number keeps the raw text of its token.
 */
module Json {

  datatype JsonValue =
    | Object(members: seq<(string, JsonValue)>)
    | Array(elements: seq<JsonValue>)
    | Str(text: string)
    | Num(raw: string)
    | True
    | False
    | Null
  {
    /** Number of members of an object or elements of an array; 0 for a scalar. */
    function Arity(): nat {
      match this
      case Object(members) => |members|
      case Array(elements) => |elements|
      case _ => 0
    }
  }

  /** Characters that can occur in a JSON number token. */
  predicate IsNumberChar(c: char) {
    ('0' <= c <= '9') || c == '-' || c == '+' || c == '.' || c == 'e' || c == 'E'
  }

  /**
   * What every number token of the JSON grammar satisfies: it is not empty,
   * uses only number characters and ends in a digit.
   */
  predicate NumberToken(raw: string) {
    && |raw| > 0
    && (forall i :: 0 <= i < |raw| ==> IsNumberChar(raw[i]))
    && '0' <= raw[|raw| - 1] <= '9'
  }

  /** A tree the parser can produce: every number leaf holds a real number token. */
  predicate WellFormed(v: JsonValue)
    decreases v
  {
    match v
    case Object(members) => forall i :: 0 <= i < |members| ==> WellFormed(members[i].1)
    case Array(elements) => forall i :: 0 <= i < |elements| ==> WellFormed(elements[i])
    case Num(raw) => NumberToken(raw)
    case _ => true
  }

  /** No object key and no string value in the tree contains a line feed. */
  predicate SingleLineText(v: JsonValue)
    decreases v
  {
    match v
    case Object(members) =>
      forall i :: 0 <= i < |members| ==> '\n' !in members[i].0 && SingleLineText(members[i].1)
    case Array(elements) => forall i :: 0 <= i < |elements| ==> SingleLineText(elements[i])
    case Str(text) => '\n' !in text
    case Num(raw) => '\n' !in raw
    case _ => true
  }
}
