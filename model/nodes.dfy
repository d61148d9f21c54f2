/** The dictionary tree the Models parsers produce. Each constructor is one
    dictionary shape; the display strings the dictionaries cache are kept. */
module Nodes {
  import opened Results
  import opened Text

  datatype Node =
      /** {"function": display, "components": {"name": name, "arguments": [...]}} */
    | FunctionNode(display: string, name: string, arguments: seq<Node>)
      /** {"reference": display, "components": {"sheet_name", "column_letter", "row_number", "column_number"}} */
    | ReferenceNode(display: string, sheetName: Option<string>, columnLetter: string, rowNumber: int, columnNumber: int)
      /** {"range": display, "components": {"start": start, "end": end}} */
    | RangeNode(display: string, start: string, end: string)
      /** {"expression": display, "components": [...]} */
    | ExpressionNode(display: string, components: seq<Node>)
      /** {"operator": symbol} */
    | OperatorNode(symbol: string)
      /** {"constant": value} */
    | ConstantNode(value: int)
      /** None: text no recogniser accepts */
    | NoMatch

  /** The kind key a node's dictionary carries. */
  function KindKey(n: Node): string {
    match n
    case FunctionNode(_, _, _) => "function"
    case ReferenceNode(_, _, _, _, _) => "reference"
    case RangeNode(_, _, _) => "range"
    case ExpressionNode(_, _) => "expression"
    case OperatorNode(_) => "operator"
    case ConstantNode(_) => "constant"
    case NoMatch => ""
  }

  function ReprOption(s: Option<string>): string {
    if s.None? then "None" else Text.Repr(s.value)
  }

  /** str(d) for the dictionary d a node stands for (Python's dict repr). */
  function Repr(n: Node): string {
    match n
    case FunctionNode(d, name, args) =>
      "{'function': " + Text.Repr(d) + ", 'components': {'name': " + Text.Repr(name)
      + ", 'arguments': [" + ReprAll(args) + "]}}"
    case ReferenceNode(d, sheet, letter, row, column) =>
      "{'reference': " + Text.Repr(d) + ", 'components': {'sheet_name': " + ReprOption(sheet)
      + ", 'column_letter': " + Text.Repr(letter) + ", 'row_number': " + IntToString(row)
      + ", 'column_number': " + IntToString(column) + "}}"
    case RangeNode(d, start, end) =>
      "{'range': " + Text.Repr(d) + ", 'components': {'start': " + Text.Repr(start) + ", 'end': " + Text.Repr(end) + "}}"
    case ExpressionNode(d, comps) =>
      "{'expression': " + Text.Repr(d) + ", 'components': [" + ReprAll(comps) + "]}"
    case OperatorNode(op) => "{'operator': " + Text.Repr(op) + "}"
    case ConstantNode(v) => "{'constant': " + IntToString(v) + "}"
    case NoMatch => "None"
  }

  /** ", ".join(repr(x) for x in ns) */
  function ReprAll(ns: seq<Node>): string {
    if ns == [] then ""
    else if |ns| == 1 then Repr(ns[0])
    else ReprAll(ns[..|ns| - 1]) + ", " + Repr(ns[|ns| - 1])
  }
}
