/** ECMAScript strings: sequences of UTF-16 code units, with the few string operations the sources use. */
module Texts {

  type Unit = u: int | 0 <= u < 0x1_0000

  type Text = seq<Unit>

  datatype Option<+T> = None | Some(value: T)

  datatype Result<+T, +E> = Ok(value: T) | Err(error: E)

  /** The text of a literal. Every literal of this project is inside the Basic Multilingual Plane. */
  function Lit(s: string): (t: Text)
    ensures |t| == |s|
    ensures forall i | 0 <= i < |s| :: t[i] == s[i] as int % 0x1_0000
  {
    seq(|s|, i requires 0 <= i < |s| => s[i] as int % 0x1_0000)
  }

  // ------------------------------------------------------------ white space and case

  /** White space and line terminators, as `trim` and the class \s of a regular expression see them. */
  predicate IsSpace(c: Unit) {
    9 <= c <= 13 || c == 0x20 || c == 0xA0 || c == 0x1680 || 0x2000 <= c <= 0x200A
    || c == 0x2028 || c == 0x2029 || c == 0x202F || c == 0x205F || c == 0x3000 || c == 0xFEFF
  }

  /** True when `trim` would leave nothing, which is how the services test for a missing argument. */
  predicate Blank(s: Text) {
    forall i | 0 <= i < |s| :: IsSpace(s[i])
  }

  function TrimStart(s: Text): (t: Text)
    ensures t != [] ==> !IsSpace(t[0])
    ensures |t| <= |s| && t == s[|s| - |t|..]
  {
    if s != [] && IsSpace(s[0]) then TrimStart(s[1..]) else s
  }

  function TrimEnd(s: Text): (t: Text)
    ensures t != [] ==> !IsSpace(t[|t| - 1])
    ensures |t| <= |s| && t == s[..|t|]
  {
    if s != [] && IsSpace(s[|s| - 1]) then TrimEnd(s[..|s| - 1]) else s
  }

  function Trim(s: Text): Text {
    TrimEnd(TrimStart(s))
  }

  /**
   * Lower case as far as a comparison with an ASCII literal can see it. The only units outside
   * ASCII whose lower case meets ASCII are the Kelvin sign and the capital I with a dot.
   */
  function LowerUnit(c: Unit): Text {
    if 'A' as int <= c <= 'Z' as int then [c + 32]
    else if c == 0x212A then ['k' as int]
    else if c == 0x0130 then ['i' as int, 0x0307]
    else [c]
  }

  function Lower(s: Text): Text {
    if s == [] then [] else LowerUnit(s[0]) + Lower(s[1..])
  }

  /** `includes`: the word occurs somewhere in the text. */
  predicate Includes(s: Text, word: Text) {
    word <= s || (s != [] && Includes(s[1..], word))
  }

  function Join(parts: seq<Text>, separator: Text): Text {
    if |parts| == 0 then []
    else if |parts| == 1 then parts[0]
    else parts[0] + separator + Join(parts[1..], separator)
  }

  // ------------------------------------------------------------ the order of `sort`

  /** The order of `Array.prototype.sort` on strings: lexicographic by code unit. */
  predicate LexLeq(a: Text, b: Text) {
    a == [] || (b != [] && (a[0] < b[0] || (a[0] == b[0] && LexLeq(a[1..], b[1..]))))
  }

  predicate LexLess(a: Text, b: Text) {
    a != b && LexLeq(a, b)
  }

  lemma {:induction false} LexTotal(a: Text, b: Text)
    ensures LexLeq(a, b) || LexLeq(b, a)
    ensures LexLeq(a, b) && LexLeq(b, a) ==> a == b
  {
    if a != [] && b != [] && a[0] == b[0] {
      LexTotal(a[1..], b[1..]);
      assert a == [a[0]] + a[1..] && b == [b[0]] + b[1..];
    }
  }

  lemma {:induction false} LexTransitive(a: Text, b: Text, c: Text)
    requires LexLeq(a, b) && LexLeq(b, c)
    ensures LexLeq(a, c)
  {
    if a != [] && a[0] == b[0] && b[0] == c[0] {
      LexTransitive(a[1..], b[1..], c[1..]);
    }
  }
}
