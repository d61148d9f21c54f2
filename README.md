# Excel formula parser, modelled in Dafny

This project models the core of ExcelFormulaParser, a Python library that
turns spreadsheet formula text such as `=SUM(A1, MAX(B1, C1))` into a tree of
dictionaries and prints such a tree back as text. The library has two
generations of the same pieces, and both are modelled:

- `src/Models` (modules `Columns`, `ModelsReference`, `ModelsRange`,
  `ModelsExpression`, `ModelsFunction`, `ModelsParser`,
  `ModelsFormulaParser`):
  - the column codec (A=1, Z=26, AA=27);
  - the cell reference recogniser and the `Reference` object, whose column
    letter and column number are kept in step by their setters;
  - ranges with their row, column and cell lists;
  - the character scanner that splits an expression into operands,
    operators and parenthesised groups;
  - the comma splitter for function arguments;
  - the parser that classifies text in a fixed order, prints a tree back
    with every expression in parentheses, counts the keys of a tree and
    moves every reference of a formula by a column and row offset.
- `src/Objects` (modules `ObjectsCellReference`, `ObjectsCellRange`,
  `ObjectsExpression`, `ObjectsExcelFunction`, `ObjectsConstant`,
  `ObjectsFormulaParser`, `ObjectsExcelFormula`): the earlier version, with
  its own reference, range, expression, function and constant objects, and
  two formula classes.
- Shared support: `Results` (the Python exceptions as a `Result` error),
  `Text` (Python's `strip`, `isdigit`, `isalpha`, `upper`, `join`, `count`,
  `int` and `str` on ASCII text, and `repr` on text below U+0100), `Nodes` (the dictionary tree of
  the `Models` parser as a datatype) and `DictKeys` (dictionaries as nested
  values, and the key-counting traversal both parsers share).

Modelling choices:

- Regular expressions are written out as small matching functions. Each
  matcher is proved sound and complete against a description of the text it
  accepts (for example `ModelsReference.MatchBodySound` and
  `ModelsReference.MatchBodyComplete`).
- The scanners that loop over characters are `method`s with `while` or
  `for` loops. Each one is proved equal to a recursive function of the
  input, and the properties are proved about that function.
- Objects whose fields are overwritten (`Reference`, `CellReference`, the
  parsers and formula objects) are classes. Their methods state the whole
  new state and keep a validity invariant.
- Python dictionaries become closed datatypes, one constructor per kind of
  node. Where the code looks up a key that a node does not have, the model
  returns `KeyError`.
- Raised exceptions become `Err(...)` values of `Results.Result`.

Where the code and its tests disagree, the model follows the code:

- `src/Tests/test_parser.py:116` expects the moved function to print as
  `SUM(C3, D4)`. `Function.from_dict` applies `str()` to dictionary
  arguments, so the display text is built from dictionaries instead (see
  Findings).
- `src/Tests/test_excel_function.py:16` expects nested `ExcelFunction`
  objects. The code keeps every argument as text
  (`ObjectsExcelFunction.Arguments`).
- `src/Tests/test_excel_function.py:33` expects `SUM((1, 2))` to be
  rejected. The code does not count brackets after the split and accepts
  it (`ObjectsExcelFunction.NestedParenthesesAccepted`).
- `src/Tests/test_excel_formula.py:23-76` expects nested structures that
  `ExcelFormula.parse_expression` does not build. The model follows
  `parse_operators` (`ObjectsExcelFormula.AddFormula`).
- `Constant.is_valid_constant` in `src/Objects/constant.py` never answers
  False: it raises ValueError instead (`ObjectsConstant.IsValidConstant`).
- `FormulaParser.parse_expression` in `src/Objects/formula_parser.py` calls
  `parse_arguments()` without its argument, so every function text raises
  TypeError there (`ObjectsFormulaParser.ParseExpression`).
- The expression, operator and "Unknown Value" branches of that method
  cannot be reached from text: every text that reaches them has already
  been taken as a constant or has raised.
- `FormulaParser.reconstruct` in `src/Objects/formula_parser.py` has no case
  for ranges, so every parsed range raises KeyError there
  (`ObjectsFormulaParser.RangeKeyError`).
- `ExcelFormula._reconstruct` joins dictionaries with `" ".join`, so every
  expression that `parse_expression` builds raises TypeError
  (`ObjectsExcelFormula.ParsedExpressionFails`). A tree that is not an
  expression is printed as `=` followed by its dictionary repr
  (`ObjectsExcelFormula.ReferenceReconstructed`).
- `src/Models/parser.py:4` imports `Range` from `src/Models/range.py`, which
  defines only `CellRange`, and `src/Models/parser.py:6` imports
  `Models.constant`, which is not part of this model. The model reads `Range`
  as `CellRange` and stands in for the constant check with non-empty ASCII
  digits (`ModelsParser.IsConstant`).

## Model

| member | source | states |
|---|---|---|
| Columns.ColumnIndex | src/Models/reference.py:55 | column_index_from_string: a non-empty name of upper-case letters is column 1 or higher |
| Columns.ColumnLetters | src/Models/reference.py:102 | get_column_letter: every column from 1 on has a non-empty upper-case name |
| Columns.ColumnOfName | src/Models/reference.py:113 | the setter's conversion accepts any alphabetic text, upper-casing it first, and gives column 1 or higher |
| Columns.IndexOfLetters | src/Models/reference.py:97-102 | naming a column and reading the name back gives the same column number |
| Columns.LettersOfIndex | src/Models/reference.py:108-113 | reading an upper-case name and naming that column gives the same name |
| Columns.ColumnIndexInjective | src/Models/reference.py:108-113 | two different upper-case names never denote the same column |
| Columns.ColumnExamples | src/Tests/test_reference.py:28-38 | A=1, B=2, Z=26, AA=27, AB=28, and 3, 27 and 28 are named C, AA and AB |
| ModelsReference.UpperRunSpec | src/Models/reference.py:5 | the `[A-Z]+` run is all upper-case letters and stops at the first other character |
| ModelsReference.QuoteIndexSpec | src/Models/reference.py:5 | the sheet group `[^']+` ends at the first quote |
| ModelsReference.MatchCellComplete | src/Models/reference.py:5 | letters followed by digits always match as exactly those two groups |
| ModelsReference.MatchBodySound | src/Models/reference.py:5 | every match of the pattern is well formed (sheet without quotes, upper-case letters, digits) and spells the text it was made from (also line 31) |
| ModelsReference.MatchBodyComplete | src/Models/reference.py:5 | every well-formed sheet, letters and digits triple is matched back from its text (also line 31) |
| ModelsReference.ParseReference | src/Models/reference.py:19-40 | Reference(s) succeeds exactly for the texts the pattern matches with a non-zero row; the result has a row of at least 1 and upper-case letters (also lines 67-79) |
| ModelsReference.IsValidReference | src/Models/reference.py:19-40 | no contract of its own (a predicate): the text is not empty, the pattern matches and the row is not zero; `ParseReference` succeeds exactly when it holds, and `MatchBodySound`/`MatchBodyComplete` say which texts match |
| ModelsReference.ParsePrinted | src/Models/reference.py:126-128 | printing a reference and parsing the text gives the same reference (also lines 67-79) |
| ModelsReference.PrintParsed | src/Models/reference.py:74-79 | parsing a valid text and printing it gives the text back, unless the row has leading zeros or the text ends in a newline (also lines 126-128) |
| ModelsReference.FromDict | src/Models/reference.py:7-16 | from_dict raises TypeError for an expression dictionary (its components are a list) and for None, and KeyError for a function, range, operator or constant dictionary, whose components have no 'column_letter' |
| ModelsReference.FromDictToDict | src/Models/reference.py:7-16 | from_dict of to_dict gives the same reference back, whatever the column number field says (also lines 81-91) |
| ModelsReference.Reference.constructor | src/Models/reference.py:67-79 | the object holds the parsed reference, with the column number naming the column letters |
| ModelsReference.Reference.New | src/Models/reference.py:67-72 | ValueError exactly for an invalid text; otherwise a fresh valid object holding the parsed reference |
| ModelsReference.Reference.SetColumnNumber | src/Models/reference.py:97-102 | ValueError below 1 with nothing changed; otherwise the number is stored and the letters become its name, the row and sheet unchanged |
| ModelsReference.Reference.SetColumnLetter | src/Models/reference.py:108-113 | ValueError unless the text is alphabetic, with nothing changed; otherwise the letters are stored and the number follows them |
| ModelsReference.Reference.UpdateColumnLetter | src/Models/reference.py:115-116 | the same as the letter setter |
| ModelsReference.Reference.UpdateColumnNumber | src/Models/reference.py:118-119 | the same as the number setter |
| ModelsReference.Reference.UpdateRowNumber | src/Models/reference.py:121-124 | ValueError unless the row is positive, with nothing changed; otherwise only the row changes |
| ModelsReference.Reference.ToDict | src/Models/reference.py:81-91 | to_dict is the dictionary of the reference the object holds |
| ModelsReference.Reference.Str | src/Models/reference.py:126-128 | no contract of its own: 'Sheet'!CR with a sheet name, CR without, of the fields held; `ParsePrinted` proves the text reads back as the reference held |
| ModelsRange.ParseRange | src/Models/range.py:10-28 | ValueError when the pattern does not match at the start; a parsed range has two sheet-less corners the parser can produce |
| ModelsRange.IsValidRange | src/Models/range.py:9-12 | no contract of its own (a predicate): the pattern matches at the start; `ParseRange` fails with ValueError when it does not hold, and `MatchRangeAt`/`MatchPrintedRange` say which texts match |
| ModelsRange.FromReferences | src/Models/range.py:14-20 | the two-text form succeeds exactly when both texts are valid references, and stores both as given |
| ModelsRange.Span | src/Models/range.py:32 | list(range(lo, hi + 1)): hi - lo + 1 numbers from lo upwards, none when hi < lo (also line 39) |
| ModelsRange.Rows | src/Models/range.py:30-32 | get_rows_in_range: every row from the start row to the end row, in order; none when the end row is above the start row |
| ModelsRange.ColumnNumbers | src/Models/range.py:34-39 | get_columns_in_range(as_numbers=True): every column number from the start corner's column to the end corner's, in order; none when the end is left of the start |
| ModelsRange.ColumnNames | src/Models/range.py:34-41 | one upper-case name per column number, each naming its number |
| ModelsRange.Cells | src/Models/range.py:43-51 | one list per row, each with one entry per column |
| ModelsRange.CellsAreReferences | src/Models/range.py:47 | the cell at row i and column j is the reference text of the start column plus j and the start row plus i, so the grid is row-major |
| ModelsRange.FirstCell | src/Models/range.py:45-47 | the first cell of a non-empty grid is the start corner |
| ModelsRange.ToDict | src/Models/range.py:53-65 | the display text of the dictionary is start + ":" + end |
| ModelsRange.Str | src/Models/range.py:63-65 | no contract of its own: start + ":" + end; `ParsePrintedRange` proves the text parses back as the range, and `ToDict` uses it as the display text |
| ModelsRange.CellPrefixOf | src/Models/range.py:7 | `[A-Z]+\d+` followed by text that does not start with a digit matches exactly the letters and digits |
| ModelsRange.MatchPrintedRange | src/Models/range.py:7 | a printed range followed by anything that does not start with a digit matches as its two corners (also line 24) |
| ModelsRange.ParsePrintedRange | src/Models/range.py:22-28 | printing a range and parsing the text, with or without trailing text that does not start with a digit, gives the range back (also lines 63-65) |
| ModelsRange.ParseRangeOf | src/Models/range.py:22-28 | a text whose two matched corners are valid references parses to those two references |
| DictKeys.FlatKeys | src/Models/parser.py:144-156 | the keys met in a flat dictionary are its own keys |
| DictKeys.KeyCountsAdds | src/Models/parser.py:144-159 | KeyCounts is the one map that adds each acceptable key found, as often as it is found, and changes nothing else |
| DictKeys.KeyCountsNone | src/Models/parser.py:140-141 | meeting no key changes no count |
| DictKeys.KeyCountsKey | src/Models/parser.py:146-147 | keys_count[key] = keys_count.get(key, 0) + 1 for an acceptable key, and no change otherwise |
| DictKeys.KeyCountsThen | src/Models/parser.py:145-156 | counting two parts one after the other counts their union |
| DictKeys.CountKeys | src/Models/parser.py:144-156 | count_keys adds every acceptable key met in the dictionary, its dictionary values and the dictionaries in its list values |
| DictKeys.CountEntry | src/Models/parser.py:145-156 | one entry counts its key and then the keys met in its value |
| DictKeys.CountItems | src/Models/parser.py:153-156 | a list value counts only its dictionary items |
| DictKeys.CountAll | src/Models/parser.py:124-159 | a missing keys_count starts empty, a non-dictionary raises AttributeError, and a dictionary gives the counts of every key met in it |
| DictKeys.OneLabel | src/Models/parser.py:138-139 | with one acceptable label, the result holds that label alone with its number of occurrences, or nothing |
| DictKeys.FromNothing | src/Models/parser.py:124-159 | starting from no counts, a key is in the result exactly when it is acceptable and occurs, mapped to its number of occurrences |
| ModelsExpression.HasBalancedParentheses | src/Models/expression.py:46-54 | the loop answers true exactly when the text has as many "(" as ")" |
| ModelsExpression.IsValidExpression | src/Models/expression.py:56-74 | no contract of its own (a predicate): not empty, an operator, as many "(" as ")", and no blank part between operators; `FromText` succeeds exactly when it holds of the stripped text, and `ValidBinary`, `AdjacentOperatorsInvalid`, `TwoCharacterOperatorsRejected` and `ValidIsLong` state its consequences |
| ModelsExpression.BalancedWithoutPrefixCheck | src/Models/expression.py:46-54 | there is no prefix check: ")(" counts as balanced |
| ModelsExpression.SplitOps | src/Models/expression.py:6-7 | re.split on the operator alternation always gives at least one part (also line 70) |
| ModelsExpression.SplitOpsPrefix | src/Models/expression.py:70 | the finished parts of a prefix are parts of the whole text |
| ModelsExpression.AdjacentOperatorsInvalid | src/Models/expression.py:70-72 | two operator characters side by side leave an empty part, so the text is invalid |
| ModelsExpression.TwoCharacterOperatorsRejected | src/Models/expression.py:6-7 | no text containing ">=", "<=" or "<>" is a valid expression (also lines 70-72) |
| ModelsExpression.ValidIsLong | src/Models/expression.py:57-74 | a valid expression has at least two characters |
| ModelsExpression.SplitBinary | src/Models/expression.py:70 | one operator between two operator-free texts splits into exactly those two texts |
| ModelsExpression.ValidBinary | src/Models/expression.py:57-74 | an operator between two non-blank, balanced, operator-free operands is a valid expression |
| ModelsExpression.RunFromConcat | src/Models/expression.py:84-119 | scanning a + b is scanning a, then b from the state a left |
| ModelsExpression.RunDepth | src/Models/expression.py:87-106 | the depth counter is the number of "(" minus the number of ")" read so far |
| ModelsExpression.RunLengths | src/Models/expression.py:84-119 | the pending buffer and every group are no longer than the text read, and shorter inside a group |
| ModelsExpression.PiecesShorter | src/Models/expression.py:101 | every group handed to the recursive call is shorter than the text, so the recursion ends |
| ModelsExpression.Components | src/Models/expression.py:101 | one component per piece, each group scanned in turn (also line 127) |
| ModelsExpression.ParseRecursive | src/Models/expression.py:78-127 | the while loop over the characters returns the components of the reference scanner Scan, and i is the length of the input |
| ModelsExpression.StepGrows | src/Models/expression.py:84-119 | one character only appends components |
| ModelsExpression.StepWeight | src/Models/expression.py:84-119 | one character adds at most one character to what the state holds, and "(" adds nothing |
| ModelsExpression.RunWeight | src/Models/expression.py:84-125 | every character read is kept at most once (in a word, a group, or the buffer) unless it is "(", and words are never empty |
| ModelsExpression.RunUnit | src/Models/expression.py:107-114 | without parentheses every operator is read at depth 0 and becomes a component of its own |
| ModelsExpression.ValidWordsShorter | src/Models/expression.py:40-44 | every word of a valid expression is shorter than the expression (also lines 84-125) |
| ModelsExpression.ValidTokensShorter | src/Models/expression.py:40-44 | every text component of a valid expression is shorter than the expression (also lines 129-130) |
| ModelsExpression.RenderAll | src/Models/expression.py:133-141 | one printed text per component |
| ModelsExpression.ExprString | src/Models/expression.py:132-143 | no contract of its own: the printed components joined by single spaces, groups in parentheses; `ScanPrinted` proves it scans back to canonical components, and `DespaceExprString` gives it without spaces |
| ModelsExpression.DespaceConcat | src/Models/expression.py:115 | dropping spaces distributes over concatenation |
| ModelsExpression.RunFromDespace | src/Models/expression.py:115-117 | the scanner never keeps a space: a text and the text without spaces scan to the same state |
| ModelsExpression.ScanDespace | src/Models/expression.py:78-130 | a text and the text without its spaces give the same components |
| ModelsExpression.DespaceRender | src/Models/expression.py:133-141 | a canonical component printed and stripped of spaces is its compact text |
| ModelsExpression.DespaceExprString | src/Models/expression.py:132-143 | __str__ of canonical components, without spaces, is their compact text |
| ModelsExpression.ReadPlain | src/Models/expression.py:115-117 | plain characters that are not operators at depth 0 only extend the buffer |
| ModelsExpression.FlushExpected | src/Models/expression.py:121-125 | flushing the buffer completes the components read so far |
| ModelsExpression.CompactFlat | src/Models/expression.py:138 | a non-empty group of operands and operators prints to a non-empty plain text |
| ModelsExpression.ReadOpen | src/Models/expression.py:87-94 | "(" at depth 0 flushes the buffer and opens depth 1 |
| ModelsExpression.ReadGroup | src/Models/expression.py:87-106 | a flat group read at depth 0 becomes one group component and the depth returns to 0 |
| ModelsExpression.ReadOperator | src/Models/expression.py:107-114 | an operator at depth 0 flushes the buffer and is appended as its own component |
| ModelsExpression.ReadNext | src/Models/expression.py:84-119 | reading the next canonical component from the state after the ones before it |
| ModelsExpression.ReadPrefix | src/Models/expression.py:84-119 | reading the compact text of the first k canonical components leaves the expected state |
| ModelsExpression.ScanCompact | src/Models/expression.py:78-130 | scanning the compact text of canonical components gives them back |
| ModelsExpression.ScanPrinted | src/Models/expression.py:129-143 | printing canonical components with __str__ and scanning the text gives them back |
| ModelsExpression.InnerPieces | src/Models/expression.py:104-106 | inside a group the closing parenthesis of a nested group stays in the last word: "A+B*C)" ends with "C)" |
| ModelsExpression.OuterPieces | src/Models/expression.py:87-103 | "(A+(B*C))" is one group whose text is "A+B*C)": the inner "(" is never kept |
| ModelsExpression.NestedGroupFlattened | src/Models/expression.py:87-106 | a group inside a group is not kept as a group: "(A+(B*C))" scans to one flat group ending in "C)" |
| ModelsExpression.ScanBinary | src/Tests/test_expression.py:57-61 | two operands around an operator print as "x o y" and scan back to the same three components |
| ModelsExpression.FromText | src/Models/expression.py:40-44 | Expression(text) succeeds exactly when the stripped text is valid, keeps the stripped text, and raises ValueError otherwise |
| ModelsExpression.NewExpression | src/Models/expression.py:40-44 | the constructor running the scanner loop gives the same result as FromText (also lines 76-130) |
| ModelsExpression.ToDict | src/Models/expression.py:145-147 | to_dict keeps the components, and its display text scans back to them whenever they are canonical |
| ModelsFunction.NameRunSpec | src/Models/function.py:5 | the `[a-zA-Z_]+` run holds only name characters and stops at the first other character |
| ModelsFunction.MatchCallSpec | src/Models/function.py:5 | a match is the name, "(", argument text without a newline, and ")" (also line 29) |
| ModelsFunction.MatchCall | src/Models/function.py:5 | a match has a non-empty name and, with "(" and ")", fits in the text; `MatchCallSpec` and `MatchCallOf` state that a match is exactly name(body) with no newline in the body (also line 39) |
| ModelsFunction.IsFunctionString | src/Models/function.py:27-29 | no contract of its own (a predicate): the stripped text matches the pattern; `FunctionStringShape` and `FunctionStringHasParen` state what it implies |
| ModelsFunction.MatchCallOf | src/Models/function.py:5 | a name, "(", text without a newline and ")" always match as exactly that name and text (also line 29) |
| ModelsFunction.FunctionStringShape | src/Models/function.py:27-39 | a function string, stripped, is name(body), and the body is balanced when the whole text is |
| ModelsFunction.FunctionStringHasParen | src/Models/function.py:27-29 | every function string holds a "(" |
| ModelsFunction.ArgumentPieces | src/Models/function.py:42-57 | no more argument texts than comma pieces plus the last |
| ModelsFunction.SplitFromConcat | src/Models/function.py:44-54 | splitting a + b is splitting a, then b from the state a left |
| ModelsFunction.SplitRunJoin | src/Models/function.py:44-54 | the split loses nothing: the pieces and the pending text, joined with commas, give the text back |
| ModelsFunction.SplitRunBalance | src/Models/function.py:44-54 | the counter is the text's bracket balance, and every finished piece is balanced |
| ModelsFunction.SplitRunLengths | src/Models/function.py:44-54 | no piece is longer than the text read |
| ModelsFunction.ArgumentPiecesShorter | src/Models/function.py:42-57 | no argument text is longer than the argument list |
| ModelsFunction.ArgumentPiecesBalanced | src/Models/function.py:42-57 | every argument text of a balanced list is balanced |
| ModelsFunction.ParseArgsPrefixErr | src/Models/function.py:62 | the first failing argument decides the error of the whole list |
| ModelsFunction.ParseArgsAllOk | src/Models/function.py:62 | the list succeeds when every argument does |
| ModelsFunction.ParseOk | src/Models/function.py:31-69 | building and parsing a function fails exactly when the constructor rejects the text; the later bracket check and the nested constructors never fail |
| ModelsFunction.Parse | src/Models/function.py:31-69 | no contract of its own: Function(s) followed by parse_arguments(); `ParseOk` states exactly when it fails, and `ParseFormatted` that it reads a printed call back |
| ModelsFunction.ArgsOf | src/Models/function.py:42-62 | no contract of its own: parse_arguments on an argument text; `ArgsOfOk` proves it never fails on balanced text, and `Function.ParseArguments` is proved to store it |
| ModelsFunction.ArgsOfOk | src/Models/function.py:42-62 | parse_arguments never raises on a balanced argument text |
| ModelsFunction.ParseArgOk | src/Models/function.py:64-69 | parse_arg never raises on a balanced argument |
| ModelsFunction.SplitPlain | src/Models/function.py:53-54 | text without commas and parentheses only extends the pending argument |
| ModelsFunction.SplitCommaArg | src/Models/function.py:50-52 | ", x" at depth 0 finishes the pending argument and starts " x" |
| ModelsFunction.SplitJoined | src/Models/function.py:42-57 | splitting "t1, t2, ..., tn" gives one finished piece per comma, each stripping to its argument, and the last pending |
| ModelsFunction.ArgumentTextsJoined | src/Models/function.py:42-60 | parse_arguments' split of plain arguments joined by ", " gives them back in order |
| ModelsFunction.ParseArgsPlain | src/Models/function.py:62-69 | plain arguments stay text |
| ModelsFunction.FormattedShape | src/Models/function.py:81-96 | name(body) printed by __str__ is its own strip, matches as that name and body, and is balanced (also lines 27-39) |
| ModelsFunction.ParseFormatted | src/Models/function.py:81-96 | printing a function with plain arguments and parsing the text gives the same name and arguments, in order (also lines 31-62) |
| ModelsFunction.FormatPair | src/Models/function.py:95-96 | two arguments print separated by ", " |
| ModelsFunction.Format | src/Models/function.py:81-96 | no contract of its own: name(arguments joined by ", "); `FormattedShape`, `ParseFormatted` and `FormatPair` state its shape and that it parses back |
| ModelsFunction.GreedyMatch | src/Models/function.py:5 | the pattern is greedy: "SUM(A1)+MAX(B1)" is a function string with argument text "A1)+MAX(B1" (also lines 27-29) |
| ModelsFunction.RejectedShapes | src/Tests/test_function.py:25-34 | "INVALID(1, 2, 3", "(1, 2, 3)" and "MISSINGPARENTHESIS" are not function strings |
| ModelsFunction.FromDict | src/Models/function.py:8-25 | from_dict fails on any dictionary that is not a function dictionary, and a rebuilt function has a valid name |
| ModelsFunction.ArgTexts | src/Models/function.py:14-23 | one text per argument |
| ModelsFunction.ArgTextsFlat | src/Models/function.py:14-23 | an argument that is not a function dictionary reaches the rebuilt text as its Python dict display |
| ModelsFunction.FromDictFlat | src/Models/function.py:8-25 | a function dictionary whose arguments are not functions comes back with their dict displays as text arguments: their structure is lost |
| ModelsFunction.ConstantArgumentBecomesText | src/Models/function.py:23 | a constant argument comes back as the text of its dictionary, such as "{'constant': 5}" |
| ModelsFunction.Function.Matched | src/Models/function.py:39-40 | the constructor stores the name and argument text of the match and no arguments |
| ModelsFunction.Function.New | src/Models/function.py:31-40 | ValueError exactly unless the stripped text is a function string with as many "(" as ")"; otherwise a fresh object with no parsed arguments |
| ModelsFunction.Function.ParseArguments | src/Models/function.py:42-62 | the arguments become ArgsOf of the argument text; on an error they are left as they were; name and argument text never change |
| ModelsFunction.Function.SplitArguments | src/Models/function.py:43-60 | the splitting loop gives the stripped argument texts, or ValueError when the brackets do not close |
| ModelsFunction.Function.ParseEach | src/Models/function.py:62 | the comprehension parses each argument in order, and the first error propagates |
| ModelsFunction.Function.ParseArgument | src/Models/function.py:64-69 | a function string becomes a nested parsed function's dictionary, anything else stays text |
| ModelsFunction.Function.Str | src/Models/function.py:81-96 | name(arguments joined by ", "), parsing the arguments first when none are stored |
| ModelsFunction.Function.ToDict | src/Models/function.py:71-79 | the function dictionary of str(self), the name and the arguments, parsing first when none are stored |
| ModelsParser.ParseText | src/Models/parser.py:38-76 | parse_expression on text fails only in the function, range and expression branches; text no check accepts gives None |
| ModelsParser.IsConstant | src/Models/parser.py:62 | no contract of its own (a predicate): non-empty ASCII digits stand for Constant.is_valid_constant, whose file src/Models/constant.py is not part of this model; `ConstantKindOf` and `ConstantRoundTrip` give the constant branch |
| ModelsParser.Classify | src/Models/parser.py:38-76 | no contract of its own: the first check that accepts the stripped text, in the order function, range, reference, constant, expression, one-character operator; `FunctionKindOf` to `NoKindOf` give the result for each kind, and `BinaryClassify` shows "x o y" reaching the expression check |
| ModelsParser.FunctionKindOf | src/Models/parser.py:42-50 | text the function pattern accepts first becomes a function node, unless Function or an argument fails |
| ModelsParser.RangeKindOf | src/Models/parser.py:53-55 | text the range pattern accepts first becomes the range's to_dict, or the error of CellRange |
| ModelsParser.ReferenceKindOf | src/Models/parser.py:57-59 | a reference that is no function and no range becomes the reference's to_dict |
| ModelsParser.ConstantKindOf | src/Models/parser.py:62-64 | digits that are no reference become a constant holding their value |
| ModelsParser.ExpressionKindOf | src/Models/parser.py:68-73 | text only the expression check accepts becomes an expression node, unless a component fails |
| ModelsParser.OperatorKindOf | src/Models/parser.py:75-76 | a lone operator character becomes an operator node |
| ModelsParser.NoKindOf | src/Models/parser.py:38-76 | text no check accepts gives None, not an error |
| ModelsParser.FunctionText | src/Models/parser.py:42-50 | the function branch only builds function nodes |
| ModelsParser.ExpressionText | src/Models/parser.py:68-73 | the expression branch only builds expression nodes |
| ModelsParser.ParseComponents | src/Models/parser.py:72 | every component of a successful parse is a text; a group dictionary is re-parsed through its missing "components" key and raises KeyError (also lines 34-36) |
| ModelsParser.ReparseArgs | src/Models/parser.py:49 | one parsed node per argument (also lines 31-33) |
| ModelsParser.ParseBelow | src/Models/parser.py:42-50 | every text inside a parsed function's arguments is shorter than the function text, so the re-parse terminates |
| ModelsParser.JsonToString | src/Models/parser.py:87-122 | json_to_string succeeds exactly on trees without a None in them, and raises TypeError otherwise |
| ModelsParser.PrintAll | src/Models/parser.py:91 | the parts are printed in order, one text per node (also line 108) |
| ModelsParser.ReferenceRoundTrip | src/Models/parser.py:57-59 | a reference prints as its text, and the text parses back to the same dictionary (also lines 94-100) |
| ModelsParser.RangeRoundTrip | src/Models/parser.py:53-55 | a range without sheets prints as start:end, and that text parses back to the same dictionary (also lines 102-104) |
| ModelsParser.ConstantRoundTrip | src/Models/parser.py:62-64 | a natural number prints in decimal and parses back to the same constant (also lines 121-122) |
| ModelsParser.OperatorRoundTrip | src/Models/parser.py:75-76 | a one-character operator prints as itself and parses back to an operator (also lines 118-119) |
| ModelsParser.CellRoundTrip | src/Models/parser.py:57-59 | a reference without a sheet prints as letters and row and parses back to the same dictionary (also lines 94-98) |
| ModelsParser.ReconstructPart | src/Models/expression.py:12-31 | only a function, reference or range component can fail, and a range always raises ImportError, since the class "Range" it looks up does not exist |
| ModelsParser.ReconstructAll | src/Models/expression.py:12-31 | one text per component in order; a failure comes from some component |
| ModelsParser.ExpressionFromDict | src/Models/expression.py:9-38 | from_dict succeeds only with Expression of the parts joined by spaces |
| ModelsParser.Shift | src/Models/parser.py:188-190 | update_column_number then update_row_number: ValueError exactly when the column falls below 1 or the row below 1; otherwise column and row move by the shift and the sheet stays |
| ModelsParser.ShiftZero | src/Models/parser.py:188-191 | a zero shift leaves a reference unchanged |
| ModelsParser.ShiftBack | src/Models/parser.py:188-191 | shifting back undoes a shift |
| ModelsParser.ShiftTwice | src/Models/parser.py:188-191 | two shifts in a row are one shift by the sums |
| ModelsParser.MoveReference | src/Models/parser.py:187-191 | moving a reference gives a reference node or ValueError |
| ModelsParser.TranslateNode | src/Models/parser.py:174-211 | recurse_translate keeps every node's kind, returns operators and constants unchanged, and fails on a range with AttributeError, because it calls update on strings |
| ModelsParser.TranslateAll | src/Models/parser.py:176 | each item is translated in order; a failure comes from some item (also lines 197, 203) |
| ModelsParser.RecurseTranslate | src/Models/parser.py:174-211 | the method walking the tree gives TranslateNode |
| ModelsParser.TranslateFunction | src/Models/parser.py:196-201 | the function branch gives TranslateNode of the function |
| ModelsParser.TranslateExpression | src/Models/parser.py:202-206 | the expression branch gives TranslateNode of the expression |
| ModelsParser.TranslateEach | src/Models/parser.py:176 | the list comprehension gives TranslateAll |
| ModelsParser.TranslateAllStops | src/Models/parser.py:176 | the first failing item decides the error of the whole list |
| ModelsParser.ParseCall | src/Models/parser.py:42-50 | a call of plain arguments becomes a function node displayed as the call, whose arguments are the parses of the argument texts, in order |
| ModelsParser.CallText | src/Models/function.py:27-40 | a printed call of plain arguments is classified as a function and parsed back to the same name and arguments |
| ModelsParser.TranslateFixed | src/Models/parser.py:196-201 | the corrected translation keeps every node's kind, and a moved function with arguments displays as json_to_string prints it |
| ModelsParser.TranslateAllFixed | src/Models/parser.py:197 | the corrected translation of each item in order |
| ModelsParser.TranslateOne | src/Models/parser.py:176 | a list of one item translates to the list of its translation |
| ModelsParser.TranslateConstantArgument | src/Models/function.py:23 | as written, a function with a constant argument displays the argument's dictionary after any move; the corrected translation displays the number; the two texts differ |
| ModelsParser.ParsePair | src/Models/parser.py:42-50 | a call of two plain arguments parses to a function node of the two parsed arguments, in order |
| ModelsParser.ParseSum | src/Tests/test_parser.py:110-141 | "SUM(A1, B2)" parses to SUM of the references A1 (column 1, row 1) and B2 (column 2, row 2) |
| ModelsParser.MoveCell | src/Models/parser.py:187-191 | a reference without a sheet moves to the named column and row, in both translations |
| ModelsParser.TranslatePairFixed | src/Models/parser.py:196-201 | the corrected translation of a two-argument call moves both arguments and prints the call from them |
| ModelsParser.TranslateSumFixed | src/Tests/test_parser.py:110-141 | moving "SUM(A1, B2)" by two columns and two rows gives SUM(C3, D4) with C3 (3, 3) and D4 (4, 4) |
| ModelsParser.RangeText | src/Models/range.py:22-28 | a printed range without sheets is trimmed, is classified as a range and parses back to the same range (also lines 63-65) |
| ModelsParser.MoveCellText | src/Models/parser.py:187-191 | moving a sheet-less cell text gives the reference node of the moved column letters, row and column |
| ModelsParser.TranslateAllPair | src/Models/parser.py:197 | two arguments translate to the list of their two translations |
| ModelsParser.PrintPair | src/Models/parser.py:91 | two printable arguments print as the list of their two texts |
| ModelsParser.ReparseTexts | src/Models/parser.py:49 | arguments that are texts are re-parsed, without error, into the nodes their texts parse to, in order |
| ModelsParser.ReparseAll | src/Models/parser.py:49 | when every argument re-parses to its node, the argument list re-parses to those nodes in order |
| ModelsParser.ToValue | src/Models/parser.py:45-50 | every node but None is a dictionary (also lines 70-76) |
| ModelsParser.Acceptable | src/Models/parser.py:135-139 | a label replaces the acceptable keys; without one "arguments" counts and "components" does not |
| ModelsParser.GetAllKeysWithCounts | src/Models/parser.py:124-159 | None raises AttributeError; otherwise each acceptable key found in the tree is added to the given counts as often as it occurs |
| ModelsParser.ArgumentsPerFunction | src/Models/parser.py:45-50 | every tree holds as many "arguments" keys as "function" keys (also lines 124-159) |
| ModelsParser.ArgumentsPerFunctionAll | src/Models/parser.py:45-50 | in any list of trees the "arguments" keys are as many as the "function" keys (also lines 154-157) |
| ModelsParser.OperatorKeys | src/Models/parser.py:75-76 | an operator dictionary holds no "function" and no "arguments" key |
| ModelsParser.ConstantKeys | src/Models/parser.py:62-64 | a constant dictionary holds no "function" and no "arguments" key |
| ModelsParser.DefaultCounts | src/Models/parser.py:136-159 | the default keys count two function dictionaries and three reference dictionaries as {'function': 2, 'arguments': 2, 'reference': 3} |
| ModelsParser.ReduceFunctionKeys | src/Models/parser.py:45-50 | a function dictionary holds the keys function, components, name and arguments, plus those of its arguments |
| ModelsParser.ReduceExpressionKeys | src/Models/parser.py:70-73 | an expression dictionary holds expression and components, plus the keys of its components |
| ModelsParser.LeafKeys | src/Models/parser.py:53-76 | a leaf holds no "function" and no "arguments" key |
| ModelsParser.ReferenceKeys | src/Models/reference.py:81-91 | a reference dictionary holds reference, components and the four component keys |
| ModelsParser.RangeKeys | src/Models/range.py:53-61 | a range dictionary holds range, components, start and end |
| ModelsParser.CallOfTwoKeys | src/Models/parser.py:45-50 | the keys of a two-argument call are its own four keys plus those of both arguments |
| ModelsParser.SumMaxKeys | src/Tests/test_parser.py:92-108 | SUM(A1, MAX(B1, C1)) holds two function dictionaries with their four keys each and three reference dictionaries |
| ModelsParser.SumMaxKeyCounts | src/Tests/test_parser.py:92-108 | the counts for SUM(A1, MAX(B1, C1)) are {'function': 2, 'arguments': 2, 'reference': 3} |
| ModelsParser.CountsOfFound | src/Models/parser.py:135-159 | keys found twice, twice and three times and no other kind give exactly those three counts |
| ModelsParser.BinaryClassify | src/Models/parser.py:42-68 | only the expression check accepts "x o y" for two references |
| ModelsParser.BinaryNoRange | src/Models/range.py:7 | a reference followed by a space is no range (also lines 10-12) |
| ModelsParser.BinaryNoReference | src/Models/reference.py:5 | a reference followed by a space is no reference, because of the end anchor (also lines 19-40) |
| ModelsParser.BinaryValid | src/Models/expression.py:57-74 | "x o y" with letter-and-digit operands is a valid expression |
| ModelsParser.ParseBinary | src/Models/parser.py:68-73 | "x o y" parses to an expression displayed as the text, with the two reference nodes around the operator node |
| ModelsParser.ExpressionParse | src/Models/parser.py:68-73 | text only the expression check accepts is parsed by the expression branch |
| ModelsParser.ExpressionTextOf | src/Models/parser.py:69-73 | the expression branch on a valid text whose components all parse gives the printed components and their parses |
| ModelsParser.PrintBinary | src/Models/parser.py:106-116 | the parsed "x o y" prints as "(x o y)" |
| ModelsParser.PrintThree | src/Models/parser.py:106-116 | an expression of three printable parts prints as the three texts joined by spaces inside parentheses |
| ModelsParser.PrintExpressionOf | src/Models/parser.py:106-116 | an expression prints as its printed parts joined by spaces inside parentheses |
| ModelsParser.ReconstructBinary | src/Models/parser.py:20-23 | reconstructed_formula of "=x o y" is "=(x o y)", which is the formula once every parenthesis is removed |
| ModelsParser.ReconstructedOf | src/Models/parser.py:20-23 | reconstructed_formula is "=" followed by the printed parse |
| ModelsParser.AddExample | src/Tests/test_parser.py:6-26 | "A1 + B1" parses to [A1 (column 1), +, B1 (column 2)] displayed as "A1 + B1", and reconstructs as "=(A1 + B1)" (also lines 85-90) |
| ModelsParser.TranslateReferenceBack | src/Models/parser.py:187-191 | a reference moves by the shift, and moving it back restores it |
| ModelsParser.TranslateText | src/Models/parser.py:163-172 | ValueError when either cell is not a reference; a result is a fresh parse of the formula with its kind kept |
| ModelsParser.CellShift | src/Models/parser.py:164-169 | the shift exists exactly when both cells are references, and is otherwise ValueError |
| ModelsParser.CellShiftOf | src/Models/parser.py:168-169 | the shift is the differences of column numbers and row numbers |
| ModelsParser.MoveParsed | src/Models/parser.py:172 | the moved fresh parse keeps the parse's kind |
| ModelsParser.TranslateTextSteps | src/Models/parser.py:163-172 | translate is the shift of the two cells applied to a fresh parse |
| ModelsParser.TranslateFormula | src/Models/parser.py:163-172 | the method's result is TranslateText |
| ModelsParser.CellShiftOfCells | src/Models/parser.py:164-169 | building the two Reference objects and subtracting their column and row numbers gives CellShift, including its ValueError |
| ModelsParser.TranslateParsed | src/Models/parser.py:172 | the method's result is MoveParsed |
| ModelsParser.TranslateReferenceInPlace | src/Models/parser.py:163-191 | moving a reference formula from a cell to the same cell leaves it unchanged |
| ModelsParser.Parser.constructor | src/Models/parser.py:11-18 | the object keeps the text, the text after "=" and its parse |
| ModelsParser.Parser.New | src/Models/parser.py:11-18 | ValueError without a leading "=" or with unequal counts of "(" and ")"; a parse error propagates; otherwise a fresh valid parser holding the parse |
| ModelsParser.Parser.ReconstructedFormula | src/Models/parser.py:20-23 | succeeds exactly when the fresh parse succeeds and prints, and is "=" followed by the printed parse |
| ModelsParser.Parser.Translate | src/Models/parser.py:163-172 | the stored tree becomes TranslateText of the formula; on an error it keeps its old value; the formula never changes, so calls do not accumulate |
| ModelsFormulaParser.JsonToString | src/Models/formula_parser.py:86-114 | json_to_string succeeds exactly on trees without a None and without a function node; a function node raises KeyError, because it reads "arguments" from the outer dictionary; where it succeeds it prints as the later parser does |
| ModelsFormulaParser.PrintAll | src/Models/formula_parser.py:90 | the parts print in order exactly when every part prints; errors are KeyError or TypeError (also line 107) |
| ModelsFormulaParser.CallKeyError | src/Models/formula_parser.py:88-91 | a printable tree with a function node anywhere inside raises KeyError |
| ModelsFormulaParser.CallKeyErrorAll | src/Models/formula_parser.py:90 | printable parts with a function node in one of them raise KeyError (also line 107) |
| ModelsFormulaParser.Reconstructed | src/Models/formula_parser.py:19-24 | reconstructed_formula succeeds exactly when the parse succeeds and its tree prints, with the same text as the later parser |
| ModelsFormulaParser.CallFormulaKeyError | src/Models/formula_parser.py:19-24 | a formula that is a function call is never reconstructed, and raises KeyError when it parses (also lines 40-48, 88-91) |
| ModelsFormulaParser.ReconstructedCall | src/Models/formula_parser.py:19-24 | a formula parsed to a function node raises KeyError (also lines 88-91) |
| ModelsFormulaParser.ReconstructedFails | src/Models/formula_parser.py:19-24 | a parse error reaches reconstructed_formula |
| ModelsFormulaParser.ReconstructBinary | src/Models/formula_parser.py:19-24 | "=x o y" is reconstructed as "=(x o y)", which is the formula once every parenthesis is removed (also lines 105-108) |
| ModelsFormulaParser.BinaryCallFree | src/Models/formula_parser.py:88-114 | an expression of two references around an operator contains no function node and prints |
| ModelsFormulaParser.ReconstructedOf | src/Models/formula_parser.py:19-24 | a parse without a function node is reconstructed as the later parser does |
| ModelsFormulaParser.AddRoundTrip | src/Tests/test_formula_parser.py:85-90 | "A1 + B1" is reconstructed as "=(A1 + B1)", equal to "=A1 + B1" once parentheses are removed |
| ModelsFormulaParser.GetAllKeysWithCounts | src/Models/formula_parser.py:116-150 | None raises AttributeError; otherwise each of the seven acceptable keys found in the tree is added to the given counts as often as it occurs |
| ModelsFormulaParser.SumMaxKeyCounts | src/Tests/test_formula_parser.py:92-101 | the counts for a SUM of a reference and a MAX of two references are {'function': 2, 'arguments': 2, 'reference': 3} |
| ModelsFormulaParser.FormulaParser.constructor | src/Models/formula_parser.py:11-17 | the object keeps the text and the text after "=", and does not parse |
| ModelsFormulaParser.FormulaParser.New | src/Models/formula_parser.py:11-17 | ValueError exactly when the text does not start with "=" or its counts of "(" and ")" differ; otherwise a fresh valid parser holding the text |
| ModelsFormulaParser.FormulaParser.ReconstructedFormula | src/Models/formula_parser.py:19-21 | succeeds exactly when the formula parses to a printable tree without a function node, with the later parser's text |
| ObjectsCellReference.ParseCellRef | src/Objects/cell_reference.py:5-29 | parse_cell_ref succeeds exactly when the text is not empty, the pattern matches from the start and the row is at least 1; every failure is ValueError; a result is a well-formed cell |
| ObjectsCellReference.IsValidReference | src/Objects/cell_reference.py:7-13 | no contract of its own (a predicate): non-empty text the pattern matches from the start, with any row; `ParseCellRef` succeeds exactly when it holds and the row is 1 or more, and `SameAsModels` relates it to the Models check |
| ObjectsCellReference.CellColumn | src/Objects/cell_reference.py:31-34 | column_number is column 1 or higher, and the column the letters name |
| ObjectsCellReference.CellDict | src/Objects/cell_reference.py:36-45 | to_dict holds the sheet, the letters, the row and the column number of the cell |
| ObjectsCellReference.CellText | src/Objects/cell_reference.py:59-61 | no contract of its own: 'Sheet'!CR with a sheet name, CR without; `PrintedParses` and `ParsedPrints` prove that printing and parsing are inverse |
| ObjectsCellReference.SameAsModels | src/Objects/cell_reference.py:5-29 | the Objects parser accepts exactly the texts the Models parser accepts, with the same sheet, letters, row and column |
| ObjectsCellReference.PrintedParses | src/Objects/cell_reference.py:19-29 | printing a well-formed cell and parsing the text gives the cell back (also lines 59-61) |
| ObjectsCellReference.ParsedPrints | src/Objects/cell_reference.py:19-29 | a parsed text without a final newline and without leading zeros in the row prints back as itself (also lines 59-61) |
| ObjectsCellReference.Examples | src/Tests/test_cell_reference.py:5-12 | "A1", "Z999", "'Sheet1'!A1" and "'Sheet1'!Z999" parse and print back as themselves; "B10" and "'Sheet1'!A100" have rows 10 and 100 (also lines 33-43) |
| ObjectsCellReference.ColumnNumberExamples | src/Tests/test_cell_reference.py:21-31 | A, B, AA and AB are columns 1, 2, 27 and 28 |
| ObjectsCellReference.RejectedReferences | src/Tests/test_cell_reference.py:14-19 | "1A", "AA", "A0", "ZZZ", "'SheetOne'!A-1" and "" raise ValueError |
| ObjectsCellReference.CellReference.constructor | src/Objects/cell_reference.py:15-17 | the object holds the parsed cell |
| ObjectsCellReference.CellReference.New | src/Objects/cell_reference.py:15-29 | construction succeeds exactly when the text parses, raises ValueError otherwise, and holds the parsed cell |
| ObjectsCellReference.CellReference.ColumnNumber | src/Objects/cell_reference.py:31-34 | the column number of the letters held |
| ObjectsCellReference.CellReference.UpdateColumnLetter | src/Objects/cell_reference.py:47-51 | any alphabetic text replaces the letters, and the column number follows; otherwise ValueError and nothing changes |
| ObjectsCellReference.CellReference.UpdateRowNumber | src/Objects/cell_reference.py:53-57 | a row of 1 or more replaces the row; otherwise ValueError and nothing changes |
| ObjectsCellReference.CellReference.ToDict | src/Objects/cell_reference.py:36-45 | the dictionary of the cell held |
| ObjectsCellReference.CellReference.Str | src/Objects/cell_reference.py:59-61 | no contract of its own: `CellText` of the cell held, which `PrintedParses` reads back |
| ObjectsCellReference.UpdateExample | src/Tests/test_cell_reference.py:46-51 | C3 with its column set to D and its row to 4 prints as "D4" |
| ObjectsCellRange.ParseRange | src/Objects/cell_range.py:18-23 | ValueError when the pattern does not match at the start; otherwise it succeeds exactly when both matched texts parse as cells (so a corner with row 0 raises ValueError), and the corners are those two parses, sheet-less and well formed (also line 6) |
| ObjectsCellRange.IsValidRange | src/Objects/cell_range.py:8-9 | no contract of its own (a predicate): the pattern matches at the start; `ParseRange` fails with ValueError when it does not hold, and `SameAsModelsRange` relates it to the Models range |
| ObjectsCellRange.FromReferences | src/Objects/cell_range.py:11-16 | the two-text form succeeds exactly when both texts parse as cells, and holds those cells |
| ObjectsCellRange.New | src/Objects/cell_range.py:11-16 | one text is parsed as a range, two texts as its corners |
| ObjectsCellRange.AsValue | src/Objects/cell_range.py:17-22 | a well-formed cell stands for a well-formed Models reference value |
| ObjectsCellRange.Str | src/Objects/cell_range.py:25-26 | no contract of its own: start + ":" + end of the two cells; `PrintedRangeParses` reads it back, and `ObjectsExcelFormula.RangeKept` shows it stored as a range node's text |
| ObjectsCellRange.SameAsModelsRange | src/Objects/cell_range.py:17-22 | the Objects range parser accepts exactly the texts the Models one accepts, with the same corners |
| ObjectsCellRange.PrintedRangeParses | src/Objects/cell_range.py:17-25 | a printed range, followed by anything that does not start with a digit, parses back to the same range |
| ObjectsCellRange.Examples | src/Tests/test_cell_range.py:5-14 | "A1:C3" and the pair A1, C3 give the same range; the pair A1, B2 prints as "A1:B2" (also lines 29-32) |
| ObjectsCellRange.RejectedRanges | src/Tests/test_cell_range.py:16-27 | "A1C3", "A1:", ":A1", "1A:C3" and "A1:3C" raise ValueError |
| ObjectsExpression.HasBalancedParentheses | src/Objects/expression.py:7-17 | True exactly when no prefix closes more parentheses than it opens and the counts end equal |
| ObjectsExpression.StricterThanCounting | src/Objects/expression.py:7-17 | ")(" has equal counts and is still rejected |
| ObjectsExpression.BalancedCounts | src/Objects/expression.py:7-17 | balanced text has as many "(" as ")" |
| ObjectsExpression.IsValidExpression | src/Objects/expression.py:19-27 | True exactly when the text is balanced and holds one of + - * / |
| ObjectsExpression.ExtractExpression | src/Objects/expression.py:29-34 | text starting with "(" and ending with ")" loses those two characters; other text is kept |
| ObjectsExpression.ExtractWrapped | src/Objects/expression.py:29-34 | wrapping text in parentheses and extracting gives the text back |
| ObjectsExpression.ExtractUnmatched | src/Objects/expression.py:29-34 | "(A1) + (B1)" loses its outer characters even though they do not match each other |
| ObjectsExpression.SplitKeep | src/Objects/expression.py:42 | re.split with a capturing group gives an odd number of parts |
| ObjectsExpression.SplitKeepConcat | src/Objects/expression.py:42 | the parts of the split join back to the text |
| ObjectsExpression.SplitKeepOperators | src/Objects/expression.py:42 | every operator becomes a part of its own, in order, and no other part holds an operator |
| ObjectsExpression.Cleaned | src/Objects/expression.py:43 | the stripped parts kept are never empty |
| ObjectsExpression.CleanedOperators | src/Objects/expression.py:43 | stripping and dropping empty parts keeps the operators in order and leaves every part stripped |
| ObjectsExpression.LStripEquals | src/Objects/expression.py:46-47 | lstrip("=") removes a prefix and leaves no leading "=" |
| ObjectsExpression.SplitExpression | src/Objects/expression.py:40-49 | the parts hold the text's operators in order, each alone; every part after the first is non-empty and stripped |
| ObjectsExpression.NewExpression | src/Objects/expression.py:36-38 | the expression is the extracted text and the components are its split |
| ObjectsExpression.ReprEach | src/Objects/expression.py:51-52 | each component is shown with its Python repr |
| ObjectsExpression.Str | src/Objects/expression.py:51-52 | no contract of its own: "Expression: [" + the components' reprs joined by ", " + "]", which is str() of the list; `ReprEach` states each repr |
| ObjectsExpression.AddExample | src/Objects/expression.py:36-49 | "(A1 + B1)" holds "A1 + B1" with components ["A1", "+", "B1"] |
| ObjectsExcelFunction.WordRunSpec | src/Objects/excel_function.py:16 | the `\w+` run is all word characters and stops at the first other character |
| ObjectsExcelFunction.MatchFunction | src/Objects/excel_function.py:16 | a match gives a word name and a body without newlines |
| ObjectsExcelFunction.MatchFunctionSpec | src/Objects/excel_function.py:16 | a match on text without a final newline spells the text as name + "(" + body + ")" |
| ObjectsExcelFunction.MatchFunctionOf | src/Objects/excel_function.py:16 | a word name, "(", a body without newlines and ")" always match as that name and body |
| ObjectsExcelFunction.ReadFromBounded | src/Objects/excel_function.py:23-37 | no argument collected is longer than the text read |
| ObjectsExcelFunction.Arguments | src/Objects/excel_function.py:23-40 | no contract of its own: the list parse_arguments returns; `ParseArguments` proves the loop gives it, `ArgumentsKept` relates it to the Models splitter, and `ArgumentsBounded` bounds it |
| ObjectsExcelFunction.ArgumentsBounded | src/Objects/excel_function.py:23-40 | no argument is longer than the argument text |
| ObjectsExcelFunction.ParseArguments | src/Objects/excel_function.py:23-40 | the loop over the characters gives Arguments of the text |
| ObjectsExcelFunction.ReadLikeModels | src/Objects/excel_function.py:23-40 | the reader counts brackets and collects text as the Models splitter does, keeping only its non-empty pieces, stripped |
| ObjectsExcelFunction.ArgumentsKept | src/Objects/excel_function.py:23-40 | the arguments are the Models splitter's pieces with the empty ones dropped and the rest stripped |
| ObjectsExcelFunction.JoinedArguments | src/Objects/excel_function.py:23-44 | arguments joined by ", " read back as the same list, when each is a trimmed plain argument or a call with flat insides |
| ObjectsExcelFunction.New | src/Objects/excel_function.py:14-21 | ValueError exactly when the pattern does not match; the name is a word |
| ObjectsExcelFunction.ArgumentsShorter | src/Objects/excel_function.py:14-40 | every argument is shorter than the function text |
| ObjectsExcelFunction.Str | src/Objects/excel_function.py:42-44 | no contract of its own: name(arguments joined by ", "); `PrintedParses` and `ParsedPrints` prove that printing and parsing are inverse |
| ObjectsExcelFunction.PrintedParses | src/Objects/excel_function.py:14-44 | a printed function whose arguments are good shapes reads back as the same function |
| ObjectsExcelFunction.ParsedPrints | src/Objects/excel_function.py:14-44 | a function text whose body is good arguments joined by ", " prints back as itself |
| ObjectsExcelFunction.SumExample | src/Tests/test_excel_function.py:6-10 | "SUM(1, 2, 3)" has name SUM and arguments "1", "2", "3", and prints back as itself (also lines 35-38) |
| ObjectsExcelFunction.AverageExample | src/Tests/test_excel_function.py:12-19 | "AVERAGE(1, 2, SUM(4, 5))" has the three text arguments "1", "2" and "SUM(4, 5)", and prints back as itself (also lines 40-41) |
| ObjectsExcelFunction.NestedParenthesesAccepted | src/Tests/test_excel_function.py:32-33 | "SUM((1, 2))" is accepted with the one argument "(1, 2)" |
| ObjectsExcelFunction.EmptyPieceDropped | src/Objects/excel_function.py:32-35 | "1,,2" gives the arguments "1" and "2": an empty piece is not kept |
| ObjectsExcelFunction.RejectedFunctions | src/Tests/test_excel_function.py:21-30 | "INVALID(1, 2, 3", "(1, 2, 3)" and "MISSINGPARENTHESIS" raise ValueError |
| ObjectsExcelFunction.NoFinalParen | src/Objects/excel_function.py:16 | text that does not end with ")" does not match |
| ObjectsExcelFunction.NoWord | src/Objects/excel_function.py:16 | text that starts with "(" does not match |
| ObjectsConstant.IsValidConstant | src/Objects/constant.py:6-10 | True for a string of digits, ValueError for anything else; never False |
| ObjectsConstant.Str | src/Objects/constant.py:34-35 | no contract of its own: str() of the stored text is the text itself, since the constructor keeps its argument unchanged (line 13); no lemma is needed |
| ObjectsConstant.RemoveQuotes | src/Objects/constant.py:17 | no quote of either kind is left, every other character stays |
| ObjectsConstant.ParseConstant | src/Objects/constant.py:15-32 | quotes removed, text with "." is read by float(), other text by int(); any failure is ValueError |
| ObjectsConstant.ParseInt | src/Objects/constant.py:25-30 | int() raises only ValueError |
| ObjectsConstant.ParseLiteral | src/Objects/constant.py:25-30 | int() accepts exactly digits with single underscores between them, and reads digit strings as their value |
| ObjectsConstant.ParsePrintedInt | src/Objects/constant.py:25-30 | str() of any integer reads back as the same integer |
| ObjectsConstant.QuotedInt | src/Objects/constant.py:15-32 | an integer in quotes parses as the integer |
| ObjectsConstant.RemoveQuotesConcat | src/Objects/constant.py:17 | removing quotes from two texts joined is removing them from each |
| ObjectsConstant.ValidParses | src/Objects/constant.py:6-32 | a string the validity check accepts parses as the integer its digits spell |
| ObjectsConstant.IntExamples | src/Objects/constant.py:25-30 | "1_000" is 1000, and "1__0" and "abc" raise ValueError |
| ObjectsConstant.InvalidConstant | src/Tests/test_constant.py:6-12 | "abc" and "12.5" raise ValueError in the Objects validity check; the tests there import `Models.constant` (line 2), not the Objects class, and expect False from that one |
| ObjectsFormulaParser.ParseExpression | src/Objects/formula_parser.py:24-80 | a function text raises TypeError when ExcelFunction accepts it, since parse_arguments() is called without its argument, and ValueError otherwise; a result is a range, reference or constant dictionary, and a constant holds the stripped digits |
| ObjectsFormulaParser.Reconstruct | src/Objects/formula_parser.py:91-113 | reconstruct succeeds exactly on the printable trees; everything else raises KeyError |
| ObjectsFormulaParser.ReconstructAll | src/Objects/formula_parser.py:96 | one text per part, in order, exactly when every part prints (also line 106) |
| ObjectsFormulaParser.ReferenceRoundTrip | src/Objects/formula_parser.py:56-58 | a well-formed cell's text parses to its dictionary, which reconstructs as the same text (also lines 98-104) |
| ObjectsFormulaParser.ReferenceBranch | src/Objects/formula_parser.py:56-58 | trimmed text that is no function and no range and parses as a cell gives the cell's dictionary |
| ObjectsFormulaParser.RangeBranch | src/Objects/formula_parser.py:47-54 | trimmed text that is no function and parses as a range gives the dictionary of both corners |
| ObjectsFormulaParser.ConstantRoundTrip | src/Objects/formula_parser.py:61-63 | digits parse to a constant holding them, which reconstructs as the digits (also lines 110-111) |
| ObjectsFormulaParser.RangeKeyError | src/Objects/formula_parser.py:47-54 | a printed range parses to a range dictionary, and reconstructing it raises KeyError (also lines 95-113) |
| ObjectsFormulaParser.SumTextRejected | src/Objects/formula_parser.py:24-80 | "A1 + B1" raises ValueError: it is no range, matches the reference pattern only at the start and fails the constant check |
| ObjectsFormulaParser.ToValue | src/Objects/formula_parser.py:115-147 | every node is a dictionary to the key traversal |
| ObjectsFormulaParser.GetAllKeysWithCounts | src/Objects/formula_parser.py:115-147 | each of the eight acceptable keys found in the tree is added to the given counts as often as it occurs |
| ObjectsFormulaParser.ReferenceCounts | src/Objects/formula_parser.py:115-147 | a reference dictionary counts as {'cell_reference': 1}: its four fields are not acceptable keys |
| ObjectsFormulaParser.RangeCounts | src/Objects/formula_parser.py:115-147 | a range dictionary counts as {'cell_range': 1, 'cell_reference': 2} |
| ObjectsFormulaParser.LeafCounts | src/Objects/formula_parser.py:115-147 | a one-key leaf with an acceptable key counts that key once |
| ObjectsFormulaParser.ParsedCounts | src/Objects/formula_parser.py:24-80 | the counts of any successful parse hold no "Unknown Value", "function" or "expression" key (also lines 115-147) |
| ObjectsFormulaParser.FormulaParser.constructor | src/Objects/formula_parser.py:11-15 | the object keeps the text and the text after "=" |
| ObjectsFormulaParser.FormulaParser.New | src/Objects/formula_parser.py:11-15 | ValueError exactly when the text does not start with "="; parentheses are not checked |
| ObjectsFormulaParser.FormulaParser.ReconstructedFormula | src/Objects/formula_parser.py:17-19 | succeeds exactly when the parse succeeds and prints, and is "=" followed by the printed tree |
| ObjectsFormulaParser.ReconstructedReference | src/Objects/formula_parser.py:17-19 | a formula of one well-formed cell reference is reconstructed as itself |
| ObjectsExcelFormula.Kept | src/Objects/excel_formula.py:58 | the pieces kept are pieces of the split, none of them "", " ", "(" or ")" |
| ObjectsExcelFormula.PartNode | src/Objects/excel_formula.py:59-66 | a stripped piece becomes an operator exactly when it is one of + - * /; a run of digits becomes a constant of those digits; the piece parses exactly when it is an operator, digits or a cell reference, and otherwise raises ValueError |
| ObjectsExcelFormula.PartNodes | src/Objects/excel_formula.py:59-66 | one node per piece; any failure is ValueError |
| ObjectsExcelFormula.PartNodesErrors | src/Objects/excel_formula.py:59-66 | the only error a piece can raise is ValueError |
| ObjectsExcelFormula.Operators | src/Objects/excel_formula.py:54-67 | no contract of its own: what parse_operators returns; `ParseOperators` proves the loop gives it, `OperatorsKept` that its operator nodes are the text's operators in order, and `PartNodes` that only ValueError fails it |
| ObjectsExcelFormula.ParseOperators | src/Objects/excel_formula.py:54-67 | the loop appending node after node gives Operators of the text, failing at the first piece that fails |
| ObjectsExcelFormula.PrefixFails | src/Objects/excel_formula.py:59-66 | once a prefix of the pieces fails, the whole list fails |
| ObjectsExcelFormula.CollectSnoc | src/Objects/excel_formula.py:59-66 | appending one more converted piece extends the list by its node |
| ObjectsExcelFormula.KeptOperators | src/Objects/excel_formula.py:58 | dropping the blank and bracket pieces keeps every operator piece, in order |
| ObjectsExcelFormula.NodesKeepOperators | src/Objects/excel_formula.py:59-66 | the operator nodes are the operator pieces, in order |
| ObjectsExcelFormula.OperatorsKept | src/Objects/excel_formula.py:54-67 | parse_operators keeps every operator of the text, in order, as an operator node |
| ObjectsExcelFormula.ParseExpression | src/Objects/excel_formula.py:30-52 | the only error is ValueError |
| ObjectsExcelFormula.ParseAll | src/Objects/excel_formula.py:37 | one node per argument; any failure is ValueError |
| ObjectsExcelFormula.ExpressionOperators | src/Objects/excel_formula.py:39-41 | text with an operator that is no function becomes an expression whose operator nodes are the text's operators in order |
| ObjectsExcelFormula.ConstantFallback | src/Objects/excel_formula.py:51-52 | text that is no function, has no operator and is no range or reference becomes a constant holding the stripped text |
| ObjectsExcelFormula.ReferenceKept | src/Objects/excel_formula.py:47-49 | a sheet-less cell's text becomes a reference holding the text |
| ObjectsExcelFormula.RangeKept | src/Objects/excel_formula.py:43-45 | text that is no call and prints a sheet-less range is trimmed, holds no operator, and parses to {"cell_range": str(CellRange(t))}, which is the text itself |
| ObjectsExcelFormula.FunctionBranch | src/Objects/excel_formula.py:33-37 | text the function check accepts gives ValueError when ExcelFunction rejects it; otherwise it parses exactly when every argument does, to a function node of the name and the parsed arguments in order |
| ObjectsExcelFormula.Reconstruct | src/Objects/excel_formula.py:75-80 | _reconstruct returns a non-expression unchanged and joins an expression of expressions; an expression holding any other node raises TypeError |
| ObjectsExcelFormula.JoinAll | src/Objects/excel_formula.py:79 | " ".join succeeds exactly when every part reconstructs to text, and raises TypeError otherwise |
| ObjectsExcelFormula.DictRepr | src/Objects/excel_formula.py:73 | a dictionary is formatted as its repr, between braces |
| ObjectsExcelFormula.ReconstructFormula | src/Objects/excel_formula.py:72-80 | fails exactly on an expression holding a non-expression node; any other non-expression tree gives "=" followed by its repr |
| ObjectsExcelFormula.ParsedExpressionFails | src/Objects/excel_formula.py:41 | every expression that parse_operators builds from text with an operator raises TypeError when reconstructed (also lines 54-67, 72-80) |
| ObjectsExcelFormula.OperatorNodeIn | src/Objects/excel_formula.py:59-62 | a list with operator texts holds an operator node |
| ObjectsExcelFormula.ExcelFormula.FromTree | src/Objects/excel_formula.py:26-28 | a dictionary is kept as given, with no text |
| ObjectsExcelFormula.ExcelFormula.FromParsed | src/Objects/excel_formula.py:21-25 | the object keeps the text and its parse |
| ObjectsExcelFormula.ExcelFormula.FromText | src/Objects/excel_formula.py:20-25 | ValueError when the text does not start with "=" or the parse of the rest fails; otherwise the text and the parse of the text after "=" |
| ObjectsExcelFormula.IsValidFormula | src/Objects/excel_formula.py:16-18 | no contract of its own (a predicate): the text starts with "="; `ExcelFormula.FromText` fails with ValueError when it does not hold |
| ObjectsExcelFormula.ExcelFormula.ReconstructedFormula | src/Objects/excel_formula.py:72-73 | fails exactly when the stored tree is an expression holding a non-expression node |
| ObjectsExcelFormula.AddFormula | src/Objects/excel_formula.py:30-67 | " A1 + B1" parses to an expression of the reference A1, the operator + and the reference B1 |
| ObjectsExcelFormula.ParenthesisedRejected | src/Objects/excel_formula.py:54-67 | "(A1 + 4)" raises ValueError, because the piece "(A1 " is kept and is no cell reference |
| ObjectsExcelFormula.ReferenceReconstructed | src/Objects/excel_formula.py:72-80 | the reference A1 is reconstructed as "={'cell_reference': 'A1'}" |
| ModelsReference.MatchCellSound | src/Models/reference.py:5 | a match of `([A-Z]+)(\d+)` splits the text into upper-case letters followed by digits |
| ModelsRange.MatchRangeAt | src/Models/range.py:7 | a cell prefix, a colon and a second cell prefix match as the two corner texts (also line 24) |
| ObjectsExpression.OperatorStep | src/Objects/expression.py:42 | splitting at one more operator adds it as a part of its own and keeps the split well formed |
| ObjectsExpression.SplitKeepAround | src/Objects/expression.py:42 | text, an operator and operator-free text split as the split of the text, the operator and the rest |
| Text.Strip | src/Models/parser.py:39 | str.strip() never makes text longer |
| Text.StripSpec | src/Models/parser.py:39 | strip removes a blank prefix and a blank suffix and leaves ends that are not whitespace; it is empty exactly for blank text |
| Text.StripTrimmed | src/Models/parser.py:39 | text whose ends are not whitespace is its own strip |
| Text.StripIdempotent | src/Models/parser.py:39 | stripping twice is stripping once |
| Text.NatToString | src/Models/parser.py:98 | str() of a natural number is digits without a leading zero (also line 122) |
| Text.DigitsOfNatToString | src/Models/reference.py:33-34 | int() of str(n) is n |
| Text.NatToStringOfDigits | src/Models/reference.py:33-34 | str() of int() of canonical digits gives the digits back |
| Text.CountStrip | src/Models/parser.py:14 | stripping whitespace does not change how often a parenthesis occurs (also line 39) |
| Text.BalanceStrip | src/Models/expression.py:47-54 | stripping whitespace does not change the parenthesis balance |
| Text.ToUpper | src/Models/reference.py:113 | upper() changes only lower-case letters, and turns alphabetic text upper-case |
| Text.Repr | src/Models/function.py:23 | repr() of a text is quoted on both ends, with double quotes exactly when the text holds a single quote and no double quote; no character of the result is one repr() escapes, and the text between the quotes reads back as the original |
| Text.UnescapeEscape | src/Models/function.py:23 | reading back the escaped body of repr(s) gives s: quote, backslash, newline, carriage return and tab by letter, the other unprintable characters below U+0100 as \x and two hex digits |
| Text.ReprHexExamples | src/Objects/expression.py:51 | repr of the characters U+0001, U+007F and U+00A0 is '\x01', '\x7f' and '\xa0' |
| Text.WithoutParens | src/Tests/test_parser.py:89 | the text with every "(" and ")" removed holds no parenthesis |
| Text.WrappedWithoutParens | src/Tests/test_parser.py:89-90 | "=(t)" and "=t" are equal once parentheses are removed |

## Left out

- Python dictionaries are updated in place by `recurse_translate`, `parse_expression` and `update`; the model builds new trees instead. Nothing else holds the dictionaries a fresh parse makes, so no caller of those three can see the difference (the `keys_count` argument of `get_all_keys_with_counts` is different; see the next lines).
- DictKeys.CountAll: `get_all_keys_with_counts` adds to the caller's `keys_count` dictionary in place and returns that same object (src/Models/parser.py:141-159); the model returns the updated counts as a new map and leaves its argument unchanged, so a caller that keeps `keys_count` and ignores the result sees the counts in the source but not in the model. The returned counts themselves are exact (`DictKeys.KeyCountsAdds`, `DictKeys.FromNothing`).
- ModelsParser.GetAllKeysWithCounts: the same in-place update of `keys_count` (src/Models/parser.py:141-159) is not modelled; the model returns the new counts and leaves the argument unchanged.
- ModelsFormulaParser.GetAllKeysWithCounts: the same in-place update of `keys_count` (src/Models/formula_parser.py:131-150) is not modelled; the model returns the new counts and leaves the argument unchanged.
- ObjectsFormulaParser.GetAllKeysWithCounts: the same in-place update of `keys_count` (src/Objects/formula_parser.py:130-147) is not modelled. The source's recursive calls at lines 140 and 145 ignore their result and rely on that update; the model threads the counts through the recursion instead, which gives the same final counts, but it leaves the caller's argument unchanged.
- The dictionary branches of `parse_expression` (`src/Models/parser.py:29-37`, `src/Models/formula_parser.py:27-35`, `src/Objects/formula_parser.py:25-33`) are reached only through the argument re-parse, which the model follows for text arguments; a dictionary given by a caller is not modelled.
- Inputs that are not strings (numbers, `None`, `CellReference` objects passed to `is_valid_reference` and `is_valid_range`) are left out: every operation takes text.
- `json.dumps` in the `__str__` methods of the parsers is left out; it only formats the tree.
- `pandas` in `get_cells_in_range(as_dataframe=True)` is left out; the list form is modelled.
- `float()` in `Constant.parse_constant` is the parameter `floatSyntax`, since floating point is outside this model.
- Python's `\w`, `\d`, `isdigit`, `isalpha` and `upper` are modelled on ASCII only.
- `ExcelFunction.is_function_string` does not exist in `src/Objects/excel_function.py`; the Objects parsers take it as the parameter `isFunctionString`.
- The `ExcelFunction` instance branch of `ExcelFormula._reconstruct` is left out: `parse_expression` never stores such an object.
- `ExcelFormula` built from an arbitrary dictionary is modelled only for the node shapes `parse_expression` builds.
- `model_types.py` and `types.py` (the class registry that `Expression.from_dict` uses) are reduced to the lookup outcome: a range raises ImportError.
- `src/Models/formula.py` is not part of this model.
- openpyxl's column conversions `column_index_from_string` and `get_column_letter` cover only the names A to ZZZ (columns 1 to 18278) and raise ValueError beyond them; the source calls them at `src/Models/reference.py:55,102,113`, `src/Models/range.py:36-47` and `src/Objects/cell_reference.py:34` (the column number `to_dict` reports at line 43), so a reference such as "AAAA1" fails inside `is_valid_reference` (`src/Models/reference.py:55`). `Columns.ColumnIndex` and `Columns.ColumnLetters` give a name to every column from 1 up, so the model accepts such references.
- `src/Models/constant.py` is not part of this model; `ModelsParser.IsConstant` stands in for `Constant.is_valid_constant`.
- The `label` argument of `get_all_keys_with_counts` is modelled as an `Option`, since `label` is a keyword in Dafny.
- ObjectsExcelFormula.ParseExpression: its own contract only says that every error is ValueError; what each branch builds is stated by `FunctionBranch` (function), `ExpressionOperators` (operators), `RangeKept` (range), `ReferenceKept` (reference), `ConstantFallback` (constant) and `AddFormula`.
- ModelsParser.ParseText: its own contract only says which branches can fail; what each branch builds is stated by the per-branch lemmas (`FunctionKindOf` to `NoKindOf`).
- ObjectsConstant.ParseInt: its own contract only says that every error is ValueError; the values it reads are stated by `ParseLiteral`, `ParsePrintedInt` and `IntExamples`.
- ModelsExpression round trip: nested parenthesised groups are not proved to read back; `ModelsExpression.NestedGroupFlattened` shows how the scanner flattens them.
- Text.Repr: characters from U+0100 on are shown as they are; Python writes the ones its Unicode database calls unprintable as \u or \U escapes, and that database is not modelled.
- ArgTextsFlat: the dictionary text of an argument is built with Text.Repr, so it shares that gap for characters from U+0100 on.
- FromDictFlat: the text arguments are dictionary texts built with Text.Repr, so they share that gap for characters from U+0100 on.
- ReprEach: each component is shown with Text.Repr, so it shares that gap for characters from U+0100 on.
- DictRepr: the dictionary text is built with Text.Repr, so it shares that gap for characters from U+0100 on.
- ReconstructFormula: the "=" + dictionary text is built with Text.Repr, so it shares that gap for characters from U+0100 on.

## Findings

| source | as written | input that shows it | evidently intended | confidence | as-written member | corrected member |
|---|---|---|---|---|---|---|
| src/Models/function.py:23 with src/Models/parser.py:199-201 | after translation, `Function.from_dict` applies `str()` to each argument dictionary, so the function's display text is built from dictionary text | `=SUM(A1, B2)` translated from A1 to C3 (`src/Tests/test_parser.py:110-141` expects `SUM(C3, D4)`), or any function with a constant argument | the display text rebuilt from the printed arguments, `SUM(C3, D4)` | not executed | ModelsParser.TranslateConstantArgument | ModelsParser.TranslateFixed |
