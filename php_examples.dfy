/** Worked conversions under each of the three indentation choices. */
module PhpExamples {
  import opened Json
  import opened PhpConfig
  import opened PhpEmitter
  import opened PhpHelper
  import Text

  /** Tabs give one tab per level; depth 0 gives nothing whatever the choice. */
  lemma IndentExamples(quote: Quote, trailingCommas: bool)
    ensures MakeConfig(Tabs, quote, trailingCommas).GetIndent(3) == "\t\t\t"
    ensures MakeConfig(TwoSpaces, quote, trailingCommas).GetIndent(0) == ""
    ensures MakeConfig(FourSpaces, quote, trailingCommas).GetIndent(0) == ""
    ensures MakeConfig(Tabs, quote, trailingCommas).GetIndent(0) == ""
    ensures MakeConfig(FourSpaces, quote, trailingCommas).GetIndent(1) == "    "
  {
    var tabs := MakeConfig(Tabs, quote, trailingCommas).GetIndent(3);
    assert tabs[0] == tabs[1] == tabs[2] == '\t';
    var four := MakeConfig(FourSpaces, quote, trailingCommas).GetIndent(1);
    assert four[0] == four[1] == four[2] == four[3] == ' ';
  }

  /** The item lines of the object example. */
  lemma ObjectExampleLines()
    ensures ItemLines(Object([("a", Num("1")), ("b", Str("x"))]), MakeConfig(FourSpaces, DoubleQuote, false), 0)
         == ["    \"a\" => 1", "    \"b\" => \"x\""]
  {
    var cfg := MakeConfig(FourSpaces, DoubleQuote, false);
    var v := Object([("a", Num("1")), ("b", Str("x"))]);
    IndentExamples(DoubleQuote, false);
    var lines := ItemLines(v, cfg, 0);
    assert cfg.Quote() == "\"";
    assert PhpLiteral(Num("1"), cfg, 1) == "1";
    assert PhpLiteral(Str("x"), cfg, 1) == "\"x\"";
    assert lines[0] == "    " + "\"" + "a" + "\"" + " => " + "1" == "    \"a\" => 1";
    assert lines[1] == "    " + "\"" + "b" + "\"" + " => " + "\"x\"" == "    \"b\" => \"x\"";
  }

  /** The joined item lines of the object example. */
  lemma ObjectExampleBody()
    ensures Text.Join(["    \"a\" => 1", "    \"b\" => \"x\""], ",\n") == "    \"a\" => 1" + ",\n" + "    \"b\" => \"x\""
  {
    var lines := ["    \"a\" => 1", "    \"b\" => \"x\""];
    assert lines[1..] == ["    \"b\" => \"x\""];
  }

  /**
   * An object with four-space indent, double quotes and no trailing comma,
   * the expected text written in its pieces: "[\n    \"a\" => 1,\n    \"b\" => \"x\"\n]".
   */
  lemma ObjectExample()
    ensures PhpLiteral(Object([("a", Num("1")), ("b", Str("x"))]), MakeConfig(FourSpaces, DoubleQuote, false), 0)
         == "[\n" + "    \"a\" => 1" + ",\n" + "    \"b\" => \"x\"" + "\n]"
  {
    var cfg := MakeConfig(FourSpaces, DoubleQuote, false);
    var lines := ["    \"a\" => 1", "    \"b\" => \"x\""];
    ObjectExampleLines();
    ObjectExampleBody();
    assert PhpLiteral(Object([("a", Num("1")), ("b", Str("x"))]), cfg, 0) == Container(lines, cfg, 0);
    var j := "    \"a\" => 1" + ",\n" + "    \"b\" => \"x\"";
    assert cfg.GetIndent(0) == "" && cfg.TrailingComma() == "";
    assert Container(lines, cfg, 0) == "[\n" + j + "" + "\n" + "" + "]";
    Text.Assoc("[\n", "    \"a\" => 1" + ",\n", "    \"b\" => \"x\"");
  }

  /** The item lines of the array example. */
  lemma ArrayExampleLines()
    ensures ItemLines(Array([Num("1"), Num("2"), Num("3")]), MakeConfig(TwoSpaces, SingleQuote, true), 0)
         == ["  1", "  2", "  3"]
  {
    var cfg := MakeConfig(TwoSpaces, SingleQuote, true);
    var v := Array([Num("1"), Num("2"), Num("3")]);
    var two := cfg.GetIndent(1);
    assert two[0] == two[1] == ' ';
    assert two == "  ";
    var lines := ItemLines(v, cfg, 0);
    assert lines[0] == "  " + "1" == "  1";
    assert lines[1] == "  " + "2" == "  2";
    assert lines[2] == "  " + "3" == "  3";
  }

  /**
   * An array with two-space indent, single quotes and a trailing comma. The
   * expected text is written in its pieces (opening, joined lines, comma,
   * line feed, the empty indent of depth 0, bracket): it is the string
   * "[\n  1,\n  2,\n  3,\n]".
   */
  lemma ArrayExample()
    ensures PhpLiteral(Array([Num("1"), Num("2"), Num("3")]), MakeConfig(TwoSpaces, SingleQuote, true), 0)
         == "[\n" + ("  1" + ",\n" + ("  2" + ",\n" + "  3")) + "," + "\n" + "" + "]"
  {
    var lines := ["  1", "  2", "  3"];
    ArrayExampleLines();
    assert lines[1..] == ["  2", "  3"];
    assert lines[1..][1..] == ["  3"];
    assert Text.Join(lines, ",\n") == "  1" + ",\n" + ("  2" + ",\n" + "  3");
    assert MakeConfig(TwoSpaces, SingleQuote, true).GetIndent(0) == "";
  }

  /** Empty containers and null at the top level, and the script around null. */
  lemma ScalarAndEmptyExamples(cfg: PhpConversionConfig)
    ensures PhpLiteral(Object([]), cfg, 0) == "[]"
    ensures PhpLiteral(Array([]), cfg, 0) == "[]"
    ensures Wrap(PhpLiteral(Null, cfg, 0)) == "<?php\n\n$json = null;\n"
  {
  }
}
