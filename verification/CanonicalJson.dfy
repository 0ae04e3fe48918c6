/**
 The canonical JSON printers `stableStringify` and `canonicalStringify`: object members in the order of
 their keys, no white space, strings quoted as in section 7 of RFC 8259. Text is UTF-16 code units, as in
 JavaScript. The two printers differ only in the order of keys, which is a parameter here.
 */
module CanonicalJson {

  type CodeUnit = c: int | 0 <= c < 0x10000

  type Units = seq<CodeUnit>

  /** A number is its printed token; telling numbers apart by their tokens is left to Number.toString. */
  datatype Json =
    | Null
    | Bool(b: bool)
    | Number(token: Units)
    | Str(text: Units)
    | Arr(items: seq<Json>)
    | Obj(members: seq<Member>)

  datatype Member = Member(key: Units, value: Json)

  const QUOTE: CodeUnit := 0x22
  const BACKSLASH: CodeUnit := 0x5c
  const COMMA: CodeUnit := 0x2c
  const COLON: CodeUnit := 0x3a
  const LBRACKET: CodeUnit := 0x5b
  const RBRACKET: CodeUnit := 0x5d
  const LBRACE: CodeUnit := 0x7b
  const RBRACE: CodeUnit := 0x7d
  const LOWER_B: CodeUnit := 0x62
  const LOWER_F: CodeUnit := 0x66
  const LOWER_N: CodeUnit := 0x6e
  const LOWER_R: CodeUnit := 0x72
  const LOWER_T: CodeUnit := 0x74
  const LOWER_U: CodeUnit := 0x75
  const NULL_TEXT: Units := [0x6e, 0x75, 0x6c, 0x6c]
  const TRUE_TEXT: Units := [0x74, 0x72, 0x75, 0x65]
  const FALSE_TEXT: Units := [0x66, 0x61, 0x6c, 0x73, 0x65]

  // --- strings

  predicate IsHighSurrogate(c: CodeUnit) { 0xd800 <= c < 0xdc00 }

  predicate IsLowSurrogate(c: CodeUnit) { 0xdc00 <= c < 0xe000 }

  function HexDigit(d: int): (c: CodeUnit)
    requires 0 <= d < 16
  {
    if d < 10 then 0x30 + d else 0x61 + d - 10
  }

  predicate IsHexDigit(c: CodeUnit) { 0x30 <= c <= 0x39 || 0x61 <= c <= 0x66 }

  function HexValue(c: CodeUnit): (d: int)
    requires IsHexDigit(c)
    ensures 0 <= d < 16
  {
    if c <= 0x39 then c - 0x30 else c - 0x61 + 10
  }

  function UnicodeEscape(c: CodeUnit): (u: Units)
    ensures |u| == 6
  {
    [BACKSLASH, LOWER_U, HexDigit(c / 0x1000), HexDigit(c / 0x100 % 0x10), HexDigit(c / 0x10 % 0x10),
      HexDigit(c % 0x10)]
  }

  function EscapeUnit(c: CodeUnit): (u: Units)
  {
    if c == QUOTE || c == BACKSLASH then [BACKSLASH, c]
    else if c == 0x8 then [BACKSLASH, LOWER_B]
    else if c == 0x9 then [BACKSLASH, LOWER_T]
    else if c == 0xa then [BACKSLASH, LOWER_N]
    else if c == 0xc then [BACKSLASH, LOWER_F]
    else if c == 0xd then [BACKSLASH, LOWER_R]
    else if c < 0x20 || IsHighSurrogate(c) || IsLowSurrogate(c) then UnicodeEscape(c)
    else [c]
  }

  predicate StartsWithPair(s: Units)
  {
    |s| >= 2 && IsHighSurrogate(s[0]) && IsLowSurrogate(s[1])
  }

  /** How many units are quoted together: a surrogate pair stays together, anything else goes alone. */
  function Lead(s: Units): (n: nat)
    requires |s| > 0
    ensures 1 <= n <= |s|
  {
    if StartsWithPair(s) then 2 else 1
  }

  function QuoteLead(s: Units): (u: Units)
    requires |s| > 0
  {
    if StartsWithPair(s) then s[..2] else EscapeUnit(s[0])
  }

  /** JSON.stringify of a string, between its quotes: a surrogate pair stays, a lone surrogate is escaped. */
  function QuoteBody(s: Units): (u: Units)
  {
    if |s| == 0 then [] else QuoteLead(s) + QuoteBody(s[Lead(s)..])
  }

  function Quote(s: Units): Units { [QUOTE] + QuoteBody(s) + [QUOTE] }

  // --- sorting members by key

  function InsertMember(leq: (Units, Units) -> bool, m: Member, sorted: seq<Member>): (result: seq<Member>)
    ensures multiset(result) == multiset(sorted) + multiset{m}
  {
    if |sorted| == 0 || leq(m.key, sorted[0].key) then [m] + sorted
    else
      assert sorted == [sorted[0]] + sorted[1..];
      [sorted[0]] + InsertMember(leq, m, sorted[1..])
  }

  function SortMembers(leq: (Units, Units) -> bool, members: seq<Member>): (sorted: seq<Member>)
    ensures multiset(sorted) == multiset(members)
  {
    if |members| == 0 then []
    else
      assert members == [members[0]] + members[1..];
      InsertMember(leq, members[0], SortMembers(leq, members[1..]))
  }

  lemma SortedAreMembers(leq: (Units, Units) -> bool, members: seq<Member>)
    ensures |SortMembers(leq, members)| == |members|
    ensures forall m :: m in SortMembers(leq, members) <==> m in members
  {
    var sorted := SortMembers(leq, members);
    assert |multiset(sorted)| == |sorted| && |multiset(members)| == |members|;
    assert forall m :: m in sorted <==> m in multiset(sorted);
  }

  // --- printing

  function Print(leq: (Units, Units) -> bool, v: Json): (u: Units)
    decreases v, 1, 0
  {
    match v
    case Null => NULL_TEXT
    case Bool(b) => if b then TRUE_TEXT else FALSE_TEXT
    case Number(token) => token
    case Str(text) => Quote(text)
    case Arr(items) => [LBRACKET] + PrintItems(leq, items) + [RBRACKET]
    case Obj(members) =>
      SortedAreMembers(leq, members);
      [LBRACE] + PrintMembers(leq, v, SortMembers(leq, members)) + [RBRACE]
  }

  function PrintItems(leq: (Units, Units) -> bool, items: seq<Json>): (u: Units)
    decreases items, 0, 0
  {
    if |items| == 0 then []
    else if |items| == 1 then Print(leq, items[0])
    else Print(leq, items[0]) + [COMMA] + PrintItems(leq, items[1..])
  }

  function PrintMember(leq: (Units, Units) -> bool, m: Member): (u: Units)
    decreases m.value, 2, 0
  {
    Quote(m.key) + [COLON] + Print(leq, m.value)
  }

  function PrintMembers(leq: (Units, Units) -> bool, ghost context: Json, members: seq<Member>): (u: Units)
    requires forall m :: m in members ==> m.value < context
    decreases context, 0, |members|
  {
    if |members| == 0 then []
    else if |members| == 1 then PrintMember(leq, members[0])
    else PrintMember(leq, members[0]) + [COMMA] + PrintMembers(leq, context, members[1..])
  }

  // --- the value that is left when the order of members no longer matters

  function Canon(leq: (Units, Units) -> bool, v: Json): (w: Json)
    decreases v, 1, 0
  {
    match v
    case Arr(items) => Arr(CanonItems(leq, items))
    case Obj(members) =>
      SortedAreMembers(leq, members);
      Obj(CanonMembers(leq, v, SortMembers(leq, members)))
    case _ => v
  }

  function CanonItems(leq: (Units, Units) -> bool, items: seq<Json>): (result: seq<Json>)
    ensures |result| == |items|
    decreases items, 0, 0
  {
    if |items| == 0 then [] else [Canon(leq, items[0])] + CanonItems(leq, items[1..])
  }

  function CanonMembers(leq: (Units, Units) -> bool, ghost context: Json, members: seq<Member>): (result: seq<Member>)
    requires forall m :: m in members ==> m.value < context
    ensures |result| == |members|
    ensures forall i :: 0 <= i < |members| ==> result[i].key == members[i].key
    decreases context, 0, |members|
  {
    if |members| == 0 then []
    else [Member(members[0].key, Canon(leq, members[0].value))] + CanonMembers(leq, context, members[1..])
  }

  // --- well-formed values

  predicate IsNumberUnit(c: CodeUnit)
  {
    0x30 <= c <= 0x39 || c == 0x2b || c == 0x2d || c == 0x2e || c == 0x45 || c == 0x65
  }

  predicate IsNumberStart(c: CodeUnit) { 0x30 <= c <= 0x39 || c == 0x2d }

  predicate IsNumberToken(t: Units)
  {
    |t| > 0 && IsNumberStart(t[0]) && forall i :: 0 <= i < |t| ==> IsNumberUnit(t[i])
  }

  predicate UniqueKeys(members: seq<Member>)
  {
    forall i, j :: 0 <= i < j < |members| ==> members[i].key != members[j].key
  }

  /** Numbers are number tokens and no object has a key twice. */
  predicate WellFormed(v: Json)
    decreases v
  {
    match v
    case Number(token) => IsNumberToken(token)
    case Arr(items) => forall x :: x in items ==> WellFormed(x)
    case Obj(members) => UniqueKeys(members) && forall m :: m in members ==> WellFormed(m.value)
    case _ => true
  }

  // --- a parser for what is printed

  datatype Parsed<+T> = Failure | Success(value: T, rest: Units)

  function Unescape(c: CodeUnit): (u: Parsed<CodeUnit>)
  {
    if c == QUOTE || c == BACKSLASH || c == 0x2f then Success(c, [])
    else if c == LOWER_B then Success(0x8, [])
    else if c == LOWER_T then Success(0x9, [])
    else if c == LOWER_N then Success(0xa, [])
    else if c == LOWER_F then Success(0xc, [])
    else if c == LOWER_R then Success(0xd, [])
    else Failure
  }

  /** One character of a string, escaped or not. */
  function ParseUnit(s: Units): (r: Parsed<CodeUnit>)
    ensures r.Success? ==> |r.rest| < |s|
  {
    if |s| == 0 || s[0] < 0x20 then Failure
    else if s[0] != BACKSLASH then Success(s[0], s[1..])
    else if |s| >= 6 && s[1] == LOWER_U then
      if IsHexDigit(s[2]) && IsHexDigit(s[3]) && IsHexDigit(s[4]) && IsHexDigit(s[5])
      then Success(HexValue(s[2]) * 0x1000 + HexValue(s[3]) * 0x100 + HexValue(s[4]) * 0x10 + HexValue(s[5]), s[6..])
      else Failure
    else if |s| >= 2 && Unescape(s[1]).Success? then Success(Unescape(s[1]).value, s[2..])
    else Failure
  }

  function ParseBody(s: Units): (r: Parsed<Units>)
    ensures r.Success? ==> |r.rest| < |s|
    decreases |s|
  {
    if |s| == 0 then Failure
    else if s[0] == QUOTE then Success([], s[1..])
    else match ParseUnit(s)
      case Failure => Failure
      case Success(c, rest) =>
        match ParseBody(rest)
        case Failure => Failure
        case Success(tail, rest') => Success([c] + tail, rest')
  }

  function NumberLength(s: Units): (n: nat)
    ensures n <= |s|
  {
    if |s| == 0 || !IsNumberUnit(s[0]) then 0 else 1 + NumberLength(s[1..])
  }

  function ParseValue(s: Units): (r: Parsed<Json>)
    ensures r.Success? ==> |r.rest| < |s|
    decreases |s|, 0
  {
    if |s| == 0 then Failure
    else if s[0] == QUOTE then
      match ParseBody(s[1..])
      case Failure => Failure
      case Success(text, rest) => Success(Str(text), rest)
    else if s[0] == LBRACKET then
      if |s| >= 2 && s[1] == RBRACKET then Success(Arr([]), s[2..])
      else
        match ParseItems(s[1..])
        case Failure => Failure
        case Success(items, rest) => Success(Arr(items), rest)
    else if s[0] == LBRACE then
      if |s| >= 2 && s[1] == RBRACE then Success(Obj([]), s[2..])
      else
        match ParseMembers(s[1..])
        case Failure => Failure
        case Success(members, rest) => Success(Obj(members), rest)
    else if IsNumberStart(s[0]) then Success(Number(s[..1 + NumberLength(s[1..])]), s[1 + NumberLength(s[1..])..])
    else if NULL_TEXT <= s then Success(Null, s[4..])
    else if TRUE_TEXT <= s then Success(Bool(true), s[4..])
    else if FALSE_TEXT <= s then Success(Bool(false), s[5..])
    else Failure
  }

  function ParseItems(s: Units): (r: Parsed<seq<Json>>)
    ensures r.Success? ==> |r.rest| < |s|
    decreases |s|, 1
  {
    match ParseValue(s)
    case Failure => Failure
    case Success(v, rest) =>
      if |rest| == 0 then Failure
      else if rest[0] == RBRACKET then Success([v], rest[1..])
      else if rest[0] == COMMA then
        match ParseItems(rest[1..])
        case Failure => Failure
        case Success(more, rest') => Success([v] + more, rest')
      else Failure
  }

  function ParseMember(s: Units): (r: Parsed<Member>)
    ensures r.Success? ==> |r.rest| < |s|
    decreases |s|, 1
  {
    if |s| == 0 || s[0] != QUOTE then Failure
    else match ParseBody(s[1..])
      case Failure => Failure
      case Success(key, rest) =>
        if |rest| == 0 || rest[0] != COLON then Failure
        else match ParseValue(rest[1..])
          case Failure => Failure
          case Success(v, rest') => Success(Member(key, v), rest')
  }

  function ParseMembers(s: Units): (r: Parsed<seq<Member>>)
    ensures r.Success? ==> |r.rest| < |s|
    decreases |s|, 2
  {
    match ParseMember(s)
    case Failure => Failure
    case Success(m, rest) =>
      if |rest| == 0 then Failure
      else if rest[0] == RBRACE then Success([m], rest[1..])
      else if rest[0] == COMMA then
        match ParseMembers(rest[1..])
        case Failure => Failure
        case Success(more, rest') => Success([m] + more, rest')
      else Failure
  }
}
