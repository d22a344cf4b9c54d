/** The error classes of src.js: `Error` with its caret rendering and
    `UnexpectedCharacterError` with its message. */
module Errors {

  /** An `UnexpectedCharacterError`: the whole source text, the index of the
      offending character, and that character. */
  datatype Error = UnexpectedCharacterError(text: string, position: nat, character: char)

  /** `n` spaces. */
  function Spaces(n: nat): (s: string)
    ensures |s| == n
    ensures forall k :: 0 <= k < n ==> s[k] == ' '
  {
    if n == 0 then [] else Spaces(n - 1) + [' ']
  }

  /** `display()`: the source text, a line break, then a caret under the
      offending column. */
  method Display(e: Error) returns (s: string)
    ensures s == e.text + "\n" + Spaces(e.position) + "^"
    ensures |s| == |e.text| + e.position + 2
    ensures s[..|e.text|] == e.text && s[|e.text|] == '\n' && s[|s| - 1] == '^'
  {
    var spaces: string := [];
    for i := 0 to e.position
      invariant spaces == Spaces(i)
    {
      spaces := spaces + [' '];
    }
    s := e.text + "\n" + spaces + "^";
  }

  /** `message()`: the header naming the character, then `display()`. */
  method Message(e: Error) returns (m: string)
    ensures m == "Unexpected character: '" + [e.character] + "'\n" + e.text + "\n" + Spaces(e.position) + "^"
    ensures |m| == 26 + |e.text| + e.position + 2
  {
    var display := Display(e);
    m := "Unexpected character: '" + [e.character] + "'\n" + display;
  }
}
