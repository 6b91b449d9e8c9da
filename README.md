# JSON to PHP array literal converter — Dafny model

This project models the converter that turns a JSON document into a PHP
script. The script assigns the document to `$json` as a PHP short-array
literal. The model covers:

- The emitter `ConvertToPhp`. It walks the parsed value tree and renders:
  - objects as `[ 'key' => value, … ]`;
  - arrays as `[ value, … ]`;
  - strings between the chosen quote character;
  - numbers as their raw token;
  - `true`, `false` and `null` as themselves.
- Its formatting options (`PhpConversionConfig`):
  - the indent of each nesting depth, which is a fixed number of spaces per level or one tab per level;
  - the optional trailing comma after the last item of a container;
  - single or double quotes.
- The entry points `ConvertFromJson` and `ConvertAsync`. They handle:
  - the blank-input short cut;
  - the mapping of the user's indentation choice (two spaces, four spaces, tabs) to a configuration;
  - the `<?php\n\n$json = …;\n` preamble;
  - the failure cases, including the substitution of the localized "invalid JSON" text.

Modules:

- `Json`: the value tree the parser delivers. It also defines:
  - `WellFormed`: every number leaf is a real JSON number token;
  - `SingleLineText`: no key, string or number holds a line feed.
- `Text`: the string operations, written out:
  - `new string(c, n)` as `Repeat`;
  - `string.Join` as `Join`;
  - `.NET` white space and `string.IsNullOrWhiteSpace` as `IsWhiteSpace` and `IsBlank`;
  - `Shift`, which re-indents text by inserting a pad after every line feed.
- `PhpConfig`: the configuration record, the user's choices and their mapping.
- `PhpEmitter`:
  - `PhpLiteral` and `ItemLines`, the specification functions of the rendered text;
  - `ConvertToPhp`, the emitter as a method, with its two loops `CollectMembers` and `CollectElements`. Like the source, it builds each container by looping over the items and appending one line per item to a list, then joins the list. It is proved to produce `PhpLiteral`.
- `PhpLayout`: what the rendering promises:
  - the `[]` shorthand for empty containers;
  - the opening and closing lines;
  - where the trailing comma goes;
  - unescaped string content;
  - non-blank output;
  - nesting only shifts text right by the indent of the extra depth.
- `PhpBrackets`: bracket balance. The literal holds one "[" and one "]" per object or array in the tree.
- `PhpHelper`: the two entry points, with the parser's outcome as an input.
- `PhpExamples`: concrete conversions under each indentation choice.

Two facts behind the layout lemmas come from the JSON grammar rather than from the emitter:

- The output is never blank, and no comma precedes the closing line when trailing commas are off. Both rest on every number token ending in a digit, which the parser guarantees and the emitter never checks (`WellFormed`).
- Indentation is consistent across depths only when no key or string contains a line feed (`SingleLineText`). String content is copied unescaped, so a line feed inside it is not re-indented.

## Model

| member | source | states |
|---|---|---|
| Text.Repeat | src/Helpers/PhpHelper.cs:101-102 | `new string(c, n)` has length exactly n and every character is c |
| Text.Join | src/Helpers/PhpHelper.cs:132 | `string.Join` of no items is ""; of n > 0 items it starts with the first item and its length is the items' total length plus n - 1 separators (`Text.JoinEndsWithLast` gives its end) |
| Text.WhiteSpaceCategories | src/Helpers/PhpHelper.cs:73 | `IsWhiteSpace`, the `char.IsWhiteSpace` behind `string.IsNullOrWhiteSpace`, holds exactly for the Unicode space separators, U+2028, U+2029, and the controls U+0009 to U+000D and U+0085 |
| Text.BlankConcat | src/Helpers/PhpHelper.cs:39 | text is blank (`string.IsNullOrWhiteSpace` on a non-null string) exactly when both of its parts are blank |
| PhpConfig.PhpConversionConfig.GetIndent | src/Helpers/PhpHelper.cs:98-103 | the indent of depth d is width×d spaces when a width is set, and d tabs otherwise; so depth 0 is empty |
| PhpConfig.PhpConversionConfig.TrailingComma | src/Helpers/PhpHelper.cs:105 | the comma string is "," exactly when trailing commas are on, and "" exactly when they are off |
| PhpConfig.PhpConversionConfig.Quote | src/Helpers/PhpHelper.cs:107 | the quote is one character: `'` exactly when single quotes are chosen, `"` exactly otherwise |
| PhpConfig.MakeConfig | src/Helpers/PhpHelper.cs:57-70 | two spaces gives 2·d spaces at every depth d, four spaces gives 4·d spaces, tabs gives d tabs; the quote and comma strings follow the user's choices |
| PhpConfig.IndentAdd | src/Helpers/PhpHelper.cs:98-103 | the indent of depth d+e is the indent of d followed by the indent of e |
| PhpEmitter.ConvertToPhp | src/Helpers/PhpHelper.cs:110-169 | the looping emitter returns exactly the specified literal `PhpLiteral` of the tree at the given depth; the lemmas below prove that literal's properties |
| PhpEmitter.CollectMembers | src/Helpers/PhpHelper.cs:121-125 | the loop over an object's members builds exactly the list of its member lines, in order |
| PhpEmitter.CollectElements | src/Helpers/PhpHelper.cs:137-141 | the loop over an array's elements builds exactly the list of its element lines, in order |
| PhpLayout.MemberLine | src/Helpers/PhpHelper.cs:121-125 | the i-th line of an object is the indent of depth d+1, the quoted i-th key, " => " and the i-th value rendered at depth d+1: members keep their order and duplicates |
| PhpLayout.ElementLine | src/Helpers/PhpHelper.cs:137-141 | the i-th line of an array is the indent of depth d+1 and the i-th element rendered at depth d+1, in order |
| PhpLayout.EmptyContainerShorthand | src/Helpers/PhpHelper.cs:127-146 | under every configuration and depth, an object or array renders as "[]" if and only if it has no items; a non-empty one opens with "[" and a line feed |
| PhpLayout.ContainerSplit | src/Helpers/PhpHelper.cs:132 | a non-empty container is "[\n", the items joined by ",\n" and the comma string, followed by the closing line "\n" + indent of its own depth + "]" |
| PhpLayout.TrailingCommaPlacement | src/Helpers/PhpHelper.cs:148 | a non-empty well-formed container ends with "\n", its own indent and "]", and the character before that is a comma if and only if trailing commas are on |
| PhpLayout.ScalarRendering | src/Helpers/PhpHelper.cs:151-164 | scalars do not depend on depth, indentation or trailing commas; a string is its content unchanged between two quote characters; a number is its raw token; true, false and null render as "true", "false" and "null" |
| PhpLayout.EmbeddedQuoteUnescaped | src/Helpers/PhpHelper.cs:151-152 | a quote character inside a string value is copied as is, so it appears inside the literal before the closing quote |
| PhpLayout.RenderingEnd | src/Helpers/PhpHelper.cs:151-164 | the literal of a well-formed tree is non-empty and its last character is neither white space nor a comma |
| PhpLayout.NeverBlank | src/Helpers/PhpHelper.cs:72-76 | the emitter never returns blank text for a well-formed tree, so the blank-output failure branch cannot be taken |
| PhpLayout.ShiftItems | src/Helpers/PhpHelper.cs:121-141 | when no key, string or number holds a line feed, the item lines of a container at depth d+e are its item lines at depth e, each indented by the indent of depth d |
| PhpLayout.DepthShift | src/Helpers/PhpHelper.cs:110-113 | rendering at depth d+e is rendering at depth e with the indent of depth d inserted after every line feed, when no text holds a line feed |
| PhpLayout.NestedIsShiftedTopLevel | src/Helpers/PhpHelper.cs:110-113 | when no key, string or number holds a line feed, the literal at any depth is the top-level literal re-indented by that depth's indent |
| PhpBrackets.BracketCount | src/Helpers/PhpHelper.cs:127-148 | when no key, string or number holds a bracket, the literal holds exactly as many "[" and exactly as many "]" as the tree holds objects and arrays |
| Text.JoinEndsWithLast | src/Helpers/PhpHelper.cs:132 | a non-empty `string.Join` ends with its last item |
| PhpHelper.Wrap | src/Helpers/PhpHelper.cs:79 | the script is the preamble `<?php\n\n$json = `, then the literal, then ";\n", with nothing else |
| PhpHelper.ConvertFromJson | src/Helpers/PhpHelper.cs:31-90 | blank input gives ("", success); a parse error gives its message as a failure; no document or any other fault gives ("", failure); a parsed tree gives the wrapped literal under the configuration built from the user's choices, or ("", failure) if that literal is blank, which a well-formed tree never triggers |
| PhpHelper.ConvertAsync | src/Helpers/PhpHelper.cs:10-29 | for non-blank input, no document, any other fault, a parse error with a blank message and a blank literal each give ("invalid JSON" text, failure); a failure with blank text becomes that text, every other result passes through; so with a non-blank "invalid JSON" text every failure carries non-blank text |
| PhpExamples.IndentExamples | src/Helpers/PhpHelper.cs:98-103 | tabs at depth 3 give three tabs, each of the three choices at depth 0 gives "", four spaces at depth 1 give four spaces |
| PhpExamples.ObjectExample | src/Helpers/PhpHelper.cs:119-132 | {"a":1,"b":"x"} with four spaces, double quotes and no trailing comma renders as two member lines between "[" and "]" |
| PhpExamples.ArrayExample | src/Helpers/PhpHelper.cs:135-148 | [1,2,3] with two spaces, single quotes and trailing commas renders as three element lines, a comma after the last, then "]" |
| PhpExamples.ScalarAndEmptyExamples | src/Helpers/PhpHelper.cs:143-164 | empty object and empty array render as "[]" under every configuration; null at top level wraps to `<?php\n\n$json = null;\n` |

## Left out

- Parsing: `JsonDocument.Parse` with its comment-skipping and trailing-comma options (src/Helpers/PhpHelper.cs:46-50) is a foreign library. Its outcome is an input (`ParseOutcome`): a tree, a syntax error with its message, no document, or another exception.
- Logging of unexpected exceptions, cancellation checks, the switch off the main thread and the asynchronous `ValueTask` wrapper carry no logic and are not modelled.
- The localized "invalid JSON" resource text is a parameter of `ConvertAsync`.
- The GUI tool (src/JsonPhpConverterGuiTool.cs) and the resource registration (src/Resources/ResourceAssemblyIdentifier.cs) are not part of this model.
- The `NotSupportedException` default branches (src/Helpers/PhpHelper.cs:62, 166-167) cannot be reached. The indentation choice and the JSON value kinds are closed datatypes, and each `match` covers every case.
- A `null` input string is not modelled. The input is always a string, and `IsBlank` plays `string.IsNullOrWhiteSpace` on it.
- PhpConfig.PhpConversionConfig.GetIndent: the width×depth product is unbounded. The source's 32-bit `int` would overflow only at depths far beyond the parser's nesting limit.
- PhpLayout.NeverBlank: holds only for well-formed trees, where every number token ends in a digit. The emitter copies whatever raw text the parser gives it.
- PhpLayout.TrailingCommaPlacement: the "no comma when trailing commas are off" half likewise needs well-formed number tokens.
- PhpLayout.DepthShift: holds only when no key, string or number holds a line feed. The source copies string content unescaped, so a multi-line string is not re-indented.
- Escaping: the source does not escape quotes, backslashes or line feeds in keys and strings. The model copies them as the source does and does not claim the result is valid PHP for such input (see `PhpLayout.EmbeddedQuoteUnescaped`).
- Strings are sequences of Unicode scalar values, not UTF-16 code units. A key or string holding an escaped lone surrogate such as `"\uD800"` cannot be represented. The exception the source raises while reading such a key or string is an outcome of the parse input (`Faulted`), which ends as ("", failure) and then as the "invalid JSON" text.
- PhpBrackets.BracketCount: counts the brackets but does not prove that they nest in the order of the tree or that the output's bracket depth equals the tree's depth. It also needs bracket-free keys, strings and numbers, since the source copies them unescaped.
