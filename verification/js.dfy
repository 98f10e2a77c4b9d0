/**
 The slice of JavaScript semantics both extension scripts lean on: primitive
 values, truthiness, the short-circuit `||` operator, reading a possibly absent
 field of a plain object, and `String.prototype.trim`.
 */
module Js {

  datatype Option<+T> = None | Some(value: T)

  /** A JavaScript primitive value. Numbers are abstracted to integers. */
  datatype Value = Undefined | Null | Bool(b: bool) | Num(n: int) | Str(s: string)

  /** JavaScript's ToBoolean: `undefined`, `null`, `false`, `0` and `""` are falsy. */
  predicate Truthy(v: Value)
  {
    match v
    case Undefined => false
    case Null => false
    case Bool(b) => b
    case Num(n) => n != 0
    case Str(s) => s != ""
  }

  /** `a || b`: the left operand when it is truthy, the right one otherwise. */
  function Or(a: Value, b: Value): (r: Value)
    ensures Truthy(r) <==> Truthy(a) || Truthy(b)
    ensures Truthy(a) ==> r == a
    ensures !Truthy(a) ==> r == b
  {
    if Truthy(a) then a else b
  }

  /** A plain message object: its own fields and their values. */
  type Object = map<string, Value>

  /** `o.key`: a field that is not there reads as `undefined`. */
  function Get(o: Object, key: string): Value
  {
    if key in o then o[key] else Undefined
  }

  /** The characters `String.prototype.trim` strips: WhiteSpace and LineTerminator of ECMA-262. */
  const WhitespaceChars: set<char> := {
    '\t', '\U{B}', '\U{C}', ' ', '\U{A0}', '\U{FEFF}',
    '\n', '\r', '\U{2028}', '\U{2029}',
    '\U{1680}', '\U{2000}', '\U{2001}', '\U{2002}', '\U{2003}', '\U{2004}', '\U{2005}',
    '\U{2006}', '\U{2007}', '\U{2008}', '\U{2009}', '\U{200A}', '\U{202F}', '\U{205F}', '\U{3000}'
  }

  predicate IsWhitespace(c: char)
  {
    c in WhitespaceChars
  }

  /** The index of the first character at or after `i` that is not whitespace, or `|s|`. */
  function TextStart(s: string, i: nat): (k: nat)
    requires i <= |s|
    ensures i <= k <= |s|
    ensures forall j :: i <= j < k ==> IsWhitespace(s[j])
    ensures k == |s| || !IsWhitespace(s[k])
    decreases |s| - i
  {
    if i < |s| && IsWhitespace(s[i]) then TextStart(s, i + 1) else i
  }

  /** The index just past the last character before `j`, and not before `lo`, that is not whitespace, or `lo`. */
  function TextEnd(s: string, lo: nat, j: nat): (k: nat)
    requires lo <= j <= |s|
    ensures lo <= k <= j
    ensures forall m :: k <= m < j ==> IsWhitespace(s[m])
    ensures k == lo || !IsWhitespace(s[k - 1])
    decreases j
  {
    if lo < j && IsWhitespace(s[j - 1]) then TextEnd(s, lo, j - 1) else j
  }

  /**
   `s.trim()`: the piece of `s` that starts where its leading whitespace ends and
   stops where its trailing whitespace begins. Everything outside that piece is
   whitespace, the piece neither starts nor ends with whitespace, and it is empty
   exactly when `s` is whitespace only.
   */
  function Trim(s: string): (r: string)
    ensures var lo := TextStart(s, 0);
            && lo + |r| <= |s| && r == s[lo..lo + |r|]
            && forall i :: 0 <= i < |s| && !(lo <= i < lo + |r|) ==> IsWhitespace(s[i])
    ensures r != [] ==> !IsWhitespace(r[0]) && !IsWhitespace(r[|r| - 1])
    ensures r == [] <==> forall i :: 0 <= i < |s| ==> IsWhitespace(s[i])
  {
    var lo := TextStart(s, 0);
    s[lo..TextEnd(s, lo, |s|)]
  }
}
