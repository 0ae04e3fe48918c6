/**
 White space as ECMAScript's `trim` sees it, and codes brought to one form.

   - White space is that of the language's grammar, line ends and the byte order mark included.
   - A text is blank if it is nothing but white space, the empty text included.
   - A currency code is compared and stored without white space at its ends and in upper case;
     only letters of ASCII are changed.
 */
module Text {

  predicate IsWhiteSpace(c: char)
  {
    || c == '\t' || c == '\n' || c == '\U{b}' || c == '\U{c}' || c == '\r' || c == ' ' || c == '\U{a0}'
    || c == '\U{1680}' || '\U{2000}' <= c <= '\U{200a}' || c == '\U{2028}' || c == '\U{2029}'
    || c == '\U{202f}' || c == '\U{205f}' || c == '\U{3000}' || c == '\U{feff}'
  }

  predicate IsBlank(s: string)
  {
    forall i :: 0 <= i < |s| ==> IsWhiteSpace(s[i])
  }

  lemma BlankTail(s: string)
    requires |s| > 0 && IsWhiteSpace(s[0])
    ensures IsBlank(s[1..]) <==> IsBlank(s)
  {
    assert s == [s[0]] + s[1..];
  }

  /** No white space at either end is left, and nothing else is taken away. */
  function Trim(s: string): (t: string)
    ensures |t| > 0 ==> !IsWhiteSpace(t[0]) && !IsWhiteSpace(t[|t| - 1])
    ensures t == [] <==> IsBlank(s)
    ensures |t| <= |s|
    decreases |s|
  {
    if |s| == 0 then s
    else if IsWhiteSpace(s[0]) then
      BlankTail(s);
      Trim(s[1..])
    else if IsWhiteSpace(s[|s| - 1]) then Trim(s[..|s| - 1])
    else s
  }

  function UpperChar(c: char): char
  {
    if 'a' <= c <= 'z' then c - 'a' + 'A' else c
  }

  /** The form in which currency codes are compared and stored. */
  function Normalized(code: string): (t: string)
    ensures t == [] <==> IsBlank(code)
  {
    var trimmed := Trim(code);
    seq(|trimmed|, i requires 0 <= i < |trimmed| => UpperChar(trimmed[i]))
  }
}
