/** Syntax trees as the parser hands them to the evaluator: JavaScript numbers,
    strings and arrays. `Null` and `Undefined` are the two JavaScript values
    that also end up inside trees: the switch rewrite starts from an `if` node
    whose slots hold null, and reading past the end of an array (or a hole in
    it) yields undefined. */
module Syntax {

  datatype Expr =
    | Num(n: int)
    | Atom(s: string)
    | List(items: seq<Expr>)
    | Null
    | Undefined

  /** `items[i]` on a JavaScript array: undefined past the end. */
  function Nth(items: seq<Expr>, i: nat): Expr
  {
    if i < |items| then items[i] else Undefined
  }

  /** `items[i] = v` on a JavaScript array: writing past the end grows the
      array, and the slots skipped over read as undefined. */
  function SetAt(items: seq<Expr>, i: nat, v: Expr): (r: seq<Expr>)
    ensures |r| == if i < |items| then |items| else i + 1
    ensures r[i] == v
    ensures forall j :: 0 <= j < |items| && j != i ==> r[j] == items[j]
    ensures forall j :: |items| <= j < i ==> r[j] == Undefined
  {
    if i < |items| then items[i := v] else items + seq(i - |items|, _ => Undefined) + [v]
  }

  // ---------------------------------------------------------------------
  // Atom classification (Eva.js `_isNumber`, `_isString`, `_isVariableName`)
  // ---------------------------------------------------------------------

  /** A string literal: a non-empty atom whose first and last characters are
      both a double quote (a lone `"` qualifies). */
  predicate IsQuoted(s: string)
  {
    |s| > 0 && s[0] == '"' && s[|s| - 1] == '"'
  }

  /** `s.slice(1, -1)`: the text between the delimiting quotes. */
  function Unquote(s: string): (r: string)
    requires IsQuoted(s)
    ensures |s| >= 2 ==> ['"'] + r + ['"'] == s
    ensures |s| == 1 ==> r == ""
  {
    if |s| >= 2 then s[1..|s| - 1] else ""
  }

  predicate IsLetter(c: char)
  {
    'a' <= c <= 'z' || 'A' <= c <= 'Z'
  }

  predicate IsNameStart(c: char)
  {
    IsLetter(c) || c in "+-*/<>="
  }

  predicate IsNameChar(c: char)
  {
    IsNameStart(c) || '0' <= c <= '9' || c == '_'
  }

  /** The pattern `^[+\-*\/<>=a-zA-Z][+\-*\/<>=a-zA-Z0-9_]*$`. */
  predicate IsVariableName(s: string)
  {
    |s| > 0 && IsNameStart(s[0]) && forall i :: 1 <= i < |s| ==> IsNameChar(s[i])
  }

  // ---------------------------------------------------------------------
  // Property keys: records are JavaScript objects, so every name used as a
  // key goes through `String(name)`.
  // ---------------------------------------------------------------------

  function DigitChar(d: nat): char
    requires d < 10
  {
    "0123456789"[d]
  }

  function NatToDecimal(n: nat): (r: string)
    ensures |r| > 0
  {
    if n < 10 then [DigitChar(n)] else NatToDecimal(n / 10) + [DigitChar(n % 10)]
  }

  function IntToDecimal(n: int): string
  {
    if n < 0 then "-" + NatToDecimal(-n) else NatToDecimal(n)
  }

  function JoinWithCommas(parts: seq<string>): string
  {
    if |parts| == 0 then ""
    else if |parts| == 1 then parts[0]
    else parts[0] + "," + JoinWithCommas(parts[1..])
  }

  /** `String(e)`: an array is joined with commas, and its null and undefined
      elements print as the empty string. */
  function ToKey(e: Expr): string
  {
    match e
    case Num(n) => IntToDecimal(n)
    case Atom(s) => s
    case Null => "null"
    case Undefined => "undefined"
    case List(items) =>
      JoinWithCommas(seq(|items|, i requires 0 <= i < |items| =>
        if items[i].Null? || items[i].Undefined? then "" else ToKey(items[i])))
  }
}
