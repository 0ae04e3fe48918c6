/**
 The printers are canonical: a parser takes the printed text back to the value up to the order of
 members, and two values print alike exactly when they are the same but for that order.
 */
module CanonicalJsonProperties {
  import opened CanonicalJson

  // --- strings

  lemma DigitRoundTrip(d: int)
    requires 0 <= d < 16
    ensures IsHexDigit(HexDigit(d)) && HexValue(HexDigit(d)) == d
  {
  }

  lemma HexDigitsOf(c: CodeUnit)
    ensures c == c / 0x1000 * 0x1000 + c / 0x100 % 0x10 * 0x100 + c / 0x10 % 0x10 * 0x10 + c % 0x10
    ensures c / 0x1000 < 0x10
  {
  }

  lemma HexRoundTrip(c: CodeUnit)
    ensures var u := UnicodeEscape(c);
      && IsHexDigit(u[2]) && IsHexDigit(u[3]) && IsHexDigit(u[4]) && IsHexDigit(u[5])
      && HexValue(u[2]) * 0x1000 + HexValue(u[3]) * 0x100 + HexValue(u[4]) * 0x10 + HexValue(u[5]) == c
  {
    HexDigitsOf(c);
    DigitRoundTrip(c / 0x1000);
    DigitRoundTrip(c / 0x100 % 0x10);
    DigitRoundTrip(c / 0x10 % 0x10);
    DigitRoundTrip(c % 0x10);
  }

  lemma UnitRoundTrip(c: CodeUnit, rest: Units)
    ensures ParseUnit(EscapeUnit(c) + rest) == Success(c, rest)
    ensures EscapeUnit(c)[0] != QUOTE
  {
    var u := EscapeUnit(c);
    assert (u + rest)[|u|..] == rest;
    if u == UnicodeEscape(c) {
      HexRoundTrip(c);
    }
  }

  function Prepend(u: Units, r: Parsed<Units>): Parsed<Units>
  {
    match r
    case Failure => Failure
    case Success(t, rest) => Success(u + t, rest)
  }

  lemma PrependTwice(a: CodeUnit, b: CodeUnit, r: Parsed<Units>)
    ensures Prepend([a], Prepend([b], r)) == Prepend([a, b], r)
  {
    if r.Success? {
      assert [a] + ([b] + r.value) == [a, b] + r.value;
    }
  }

  /** A unit that is not a quote, an escape or a control is read as it stands. */
  lemma RawUnit(c: CodeUnit, tail: Units)
    requires c >= 0x20 && c != QUOTE && c != BACKSLASH
    ensures ParseBody([c] + tail)
         == Prepend([c], ParseBody(tail))
  {
  }

  lemma EscapedUnit(c: CodeUnit, tail: Units)
    ensures ParseBody(EscapeUnit(c) + tail)
         == Prepend([c], ParseBody(tail))
  {
    UnitRoundTrip(c, tail);
  }

  lemma LeadRead(s: Units, tail: Units)
    requires |s| > 0
    ensures ParseBody(QuoteLead(s) + tail)
         == Prepend(s[..Lead(s)], ParseBody(tail))
  {
    if StartsWithPair(s) {
      RawUnit(s[1], tail);
      RawUnit(s[0], [s[1]] + tail);
      PrependTwice(s[0], s[1], ParseBody(tail));
      assert s[..2] == [s[0], s[1]];
      assert QuoteLead(s) + tail == [s[0]] + ([s[1]] + tail);
    } else {
      EscapedUnit(s[0], tail);
      assert s[..1] == [s[0]];
    }
  }

  lemma Associative(a: Units, b: Units, c: Units)
    ensures (a + b) + c == a + (b + c)
  {
  }

  /** A quoted string is read back unit by unit, surrogate pairs and lone surrogates included. */
  lemma {:induction false} StringRoundTrip(s: Units, end: Units)
    requires |end| > 0 && end[0] == QUOTE
    ensures ParseBody(QuoteBody(s) + end) == Success(s, end[1..])
  {
    if |s| == 0 {
      assert QuoteBody(s) + end == end;
    } else {
      var later := s[Lead(s)..];
      StringRoundTrip(later, end);
      LeadRead(s, QuoteBody(later) + end);
      Associative(QuoteLead(s), QuoteBody(later), end);
      assert s == s[..Lead(s)] + later;
    }
  }

  lemma Framed(open: CodeUnit, body: Units, close: CodeUnit, rest: Units)
    ensures var text := [open] + body + [close] + rest;
      text[0] == open && text[1..] == body + ([close] + rest)
  {
  }

  lemma QuoteRoundTrip(s: Units, rest: Units)
    ensures (Quote(s) + rest)[0] == QUOTE
    ensures ParseBody((Quote(s) + rest)[1..]) == Success(s, rest)
  {
    var end := [QUOTE] + rest;
    assert end[1..] == rest;
    StringRoundTrip(s, end);
    Framed(QUOTE, QuoteBody(s), QUOTE, rest);
  }

  // --- values

  /** What may follow a value without being read as part of a number. */
  predicate Delimited(rest: Units)
  {
    |rest| == 0 || !IsNumberUnit(rest[0])
  }

  lemma {:induction false} NumberEnds(t: Units, rest: Units)
    requires forall i :: 0 <= i < |t| ==> IsNumberUnit(t[i])
    requires Delimited(rest)
    ensures NumberLength(t + rest) == |t|
  {
    if |t| == 0 {
      assert t + rest == rest;
    } else {
      NumberEnds(t[1..], rest);
      assert (t + rest)[1..] == t[1..] + rest;
    }
  }

  lemma NumberRoundTrip(t: Units, rest: Units)
    requires IsNumberToken(t) && Delimited(rest)
    ensures ParseValue(t + rest) == Success(Number(t), rest)
  {
    NumberEnds(t[1..], rest);
    assert (t + rest)[1..] == t[1..] + rest;
    assert (t + rest)[..|t|] == t && (t + rest)[|t|..] == rest;
  }

  /** Reading the printed text gives the value back, with the members of every object in key order. */
  lemma {:induction false} ParsePrint(leq: (Units, Units) -> bool, v: Json, rest: Units)
    requires WellFormed(v) && Delimited(rest)
    ensures ParseValue(Print(leq, v) + rest) == Success(Canon(leq, v), rest)
    decreases v, 1, 0
  {
    match v
    case Null => LiteralRoundTrip(rest);
    case Bool(b) => LiteralRoundTrip(rest);
    case Number(token) => NumberRoundTrip(token, rest);
    case Str(text) => QuoteRoundTrip(text, rest);
    case Arr(items) =>
      if |items| > 0 {
        ParsePrintItems(leq, items, rest);
        FirstOfItems(leq, items);
      }
      ArrRoundTrip(leq, items, rest);
    case Obj(members) =>
      SortedAreMembers(leq, members);
      var sorted := SortMembers(leq, members);
      if |members| > 0 {
        ParsePrintMembers(leq, v, sorted, rest);
        FirstOfMembers(leq, v, sorted);
      }
      ObjRoundTrip(PrintMembers(leq, v, sorted), CanonMembers(leq, v, sorted), rest);
  }

  lemma LiteralRoundTrip(rest: Units)
    ensures ParseValue(NULL_TEXT + rest) == Success(Null, rest)
    ensures ParseValue(TRUE_TEXT + rest) == Success(Bool(true), rest)
    ensures ParseValue(FALSE_TEXT + rest) == Success(Bool(false), rest)
  {
  }

  lemma ArrRoundTrip(leq: (Units, Units) -> bool, items: seq<Json>, rest: Units)
    requires var inner := PrintItems(leq, items) + [RBRACKET] + rest;
      |items| > 0 ==> ParseItems(inner) == Success(CanonItems(leq, items), rest) && inner[0] != RBRACKET
    ensures ParseValue([LBRACKET] + PrintItems(leq, items) + [RBRACKET] + rest)
         == Success(Arr(CanonItems(leq, items)), rest)
  {
    var inner := PrintItems(leq, items) + [RBRACKET] + rest;
    var text := [LBRACKET] + PrintItems(leq, items) + [RBRACKET] + rest;
    assert text == [LBRACKET] + inner;
    assert text[1..] == inner;
    if |items| == 0 {
      assert inner == [RBRACKET] + rest;
      assert text[2..] == rest;
    }
  }

  lemma ObjRoundTrip(printed: Units, members: seq<Member>, rest: Units)
    requires var inner := printed + [RBRACE] + rest;
      if |members| == 0 then printed == [] else ParseMembers(inner) == Success(members, rest) && inner[0] == QUOTE
    ensures ParseValue([LBRACE] + printed + [RBRACE] + rest) == Success(Obj(members), rest)
  {
    var inner := printed + [RBRACE] + rest;
    var text := [LBRACE] + printed + [RBRACE] + rest;
    assert text == [LBRACE] + inner;
    assert text[1..] == inner;
    if |members| == 0 {
      assert inner == [RBRACE] + rest;
      assert text[2..] == rest;
    }
  }

  lemma LastItem(text: Units, v: Json, end: Units)
    requires |end| > 0 && end[0] == RBRACKET && ParseValue(text) == Success(v, end)
    ensures ParseItems(text) == Success([v], end[1..])
  {
  }

  lemma OneMoreItem(text: Units, v: Json, more: seq<Json>, tail: Units, rest: Units)
    requires ParseValue(text + ([COMMA] + tail)) == Success(v, [COMMA] + tail)
    requires ParseItems(tail) == Success(more, rest)
    ensures ParseItems(text + ([COMMA] + tail)) == Success([v] + more, rest)
  {
  }

  lemma LastMember(text: Units, m: Member, end: Units)
    requires |end| > 0 && end[0] == RBRACE && ParseMember(text) == Success(m, end)
    ensures ParseMembers(text) == Success([m], end[1..])
  {
  }

  lemma OneMoreMember(text: Units, m: Member, more: seq<Member>, tail: Units, rest: Units)
    requires ParseMember(text + ([COMMA] + tail)) == Success(m, [COMMA] + tail)
    requires ParseMembers(tail) == Success(more, rest)
    ensures ParseMembers(text + ([COMMA] + tail)) == Success([m] + more, rest)
  {
  }

  lemma {:induction false} ParsePrintItems(leq: (Units, Units) -> bool, items: seq<Json>, rest: Units)
    requires |items| > 0
    requires forall x :: x in items ==> WellFormed(x)
    ensures var inner := PrintItems(leq, items) + [RBRACKET] + rest;
      ParseItems(inner) == Success(CanonItems(leq, items), rest)
    decreases items, 0, 0
  {
    var first, canon := Print(leq, items[0]), Canon(leq, items[0]);
    if |items| == 1 {
      ParsePrint(leq, items[0], [RBRACKET] + rest);
      LastItem(first + ([RBRACKET] + rest), canon, [RBRACKET] + rest);
      Associative(first, [RBRACKET], rest);
      assert CanonItems(leq, items) == [canon];
    } else {
      var tail := PrintItems(leq, items[1..]) + [RBRACKET] + rest;
      ParsePrintItems(leq, items[1..], rest);
      ParsePrint(leq, items[0], [COMMA] + tail);
      OneMoreItem(first, canon, CanonItems(leq, items[1..]), tail, rest);
      Regroup(first, COMMA, PrintItems(leq, items[1..]), RBRACKET, rest);
    }
  }

  lemma Regroup(first: Units, separator: CodeUnit, printed: Units, close: CodeUnit, rest: Units)
    ensures first + [separator] + printed + [close] + rest == first + ([separator] + (printed + [close] + rest))
  {
  }

  lemma FirstOfItems(leq: (Units, Units) -> bool, items: seq<Json>)
    requires |items| > 0 && forall x :: x in items ==> WellFormed(x)
    ensures |PrintItems(leq, items)| > 0 && PrintItems(leq, items)[0] != RBRACKET
  {
    FirstOfValue(leq, items[0]);
  }

  lemma FirstOfValue(leq: (Units, Units) -> bool, v: Json)
    requires WellFormed(v)
    ensures |Print(leq, v)| > 0 && Print(leq, v)[0] != RBRACKET
  {
  }

  lemma Regroup3(a: Units, b: Units, c: Units, d: Units)
    ensures a + b + c + d == a + (b + (c + d))
  {
  }

  lemma MemberRoundTrip(key: Units, v: Json, value: Units, rest: Units)
    requires ParseValue(value) == Success(v, rest)
    ensures ParseMember(Quote(key) + ([COLON] + value)) == Success(Member(key, v), rest)
    ensures (Quote(key) + ([COLON] + value))[0] == QUOTE
  {
    QuoteRoundTrip(key, [COLON] + value);
    assert ([COLON] + value)[1..] == value;
  }

  lemma {:induction false} ParsePrintMember(leq: (Units, Units) -> bool, m: Member, rest: Units)
    requires WellFormed(m.value) && Delimited(rest)
    ensures ParseMember(PrintMember(leq, m) + rest) == Success(Member(m.key, Canon(leq, m.value)), rest)
    ensures (PrintMember(leq, m) + rest)[0] == QUOTE
    decreases m.value, 2, 0
  {
    var value := Print(leq, m.value) + rest;
    ParsePrint(leq, m.value, rest);
    MemberRoundTrip(m.key, Canon(leq, m.value), value, rest);
    Regroup3(Quote(m.key), [COLON], Print(leq, m.value), rest);
  }

  lemma {:induction false} ParsePrintMembers(
    leq: (Units, Units) -> bool, context: Json, members: seq<Member>, rest: Units)
    requires |members| > 0
    requires forall m :: m in members ==> m.value < context && WellFormed(m.value)
    ensures var inner := PrintMembers(leq, context, members) + [RBRACE] + rest;
      ParseMembers(inner) == Success(CanonMembers(leq, context, members), rest)
    decreases context, 0, |members|
  {
    var m := members[0];
    var first, canon := PrintMember(leq, m), Member(m.key, Canon(leq, m.value));
    if |members| == 1 {
      ParsePrintMember(leq, m, [RBRACE] + rest);
      LastMember(first + ([RBRACE] + rest), canon, [RBRACE] + rest);
      Associative(first, [RBRACE], rest);
      assert CanonMembers(leq, context, members) == [canon];
    } else {
      var tail := PrintMembers(leq, context, members[1..]) + [RBRACE] + rest;
      ParsePrintMembers(leq, context, members[1..], rest);
      ParsePrintMember(leq, m, [COMMA] + tail);
      OneMoreMember(first, canon, CanonMembers(leq, context, members[1..]), tail, rest);
      Regroup(first, COMMA, PrintMembers(leq, context, members[1..]), RBRACE, rest);
    }
  }

  lemma FirstOfMembers(leq: (Units, Units) -> bool, context: Json, members: seq<Member>)
    requires |members| > 0 && forall m :: m in members ==> m.value < context
    ensures |PrintMembers(leq, context, members)| > 0 && PrintMembers(leq, context, members)[0] == QUOTE
  {
  }

  // --- the same value

  /** Equal but for the order in which objects list their members. */
  ghost predicate SameValue(v: Json, w: Json)
    decreases v
  {
    match (v, w)
    case (Arr(xs), Arr(ys)) =>
      |xs| == |ys| && forall i :: 0 <= i < |xs| ==> SameValue(xs[i], ys[i])
    case (Obj(ms), Obj(ns)) =>
      && |ms| == |ns|
      && (forall m :: m in ms ==> exists n :: n in ns && n.key == m.key && SameValue(m.value, n.value))
    case (_, _) => v == w
  }

  /** If two values have the same canonical form, they are the same but for the order of members. */
  lemma {:induction false} CanonEqualMeansSame(leq: (Units, Units) -> bool, v: Json, w: Json)
    requires Canon(leq, v) == Canon(leq, w)
    ensures SameValue(v, w)
    decreases v
  {
    match (v, w)
    case (Arr(xs), Arr(ys)) =>
      forall i | 0 <= i < |xs| ensures SameValue(xs[i], ys[i]) {
        CanonItemAt(leq, xs, i);
        CanonItemAt(leq, ys, i);
        CanonEqualMeansSame(leq, xs[i], ys[i]);
      }
    case (Obj(ms), Obj(ns)) =>
      SortedAreMembers(leq, ms);
      SortedAreMembers(leq, ns);
      var s, t := SortMembers(leq, ms), SortMembers(leq, ns);
      forall m | m in ms ensures exists n :: n in ns && n.key == m.key && SameValue(m.value, n.value) {
        assert m in s;
        var i :| 0 <= i < |s| && s[i] == m;
        CanonMemberAt(leq, v, s, i);
        CanonMemberAt(leq, w, t, i);
        CanonEqualMeansSame(leq, m.value, t[i].value);
        assert t[i] in t;
      }
    case (_, _) =>
  }

  lemma {:induction false} CanonItemAt(leq: (Units, Units) -> bool, items: seq<Json>, i: nat)
    requires i < |items|
    ensures CanonItems(leq, items)[i] == Canon(leq, items[i])
  {
    if i > 0 {
      CanonItemAt(leq, items[1..], i - 1);
    }
  }

  lemma {:induction false} CanonMemberAt(leq: (Units, Units) -> bool, context: Json, members: seq<Member>, i: nat)
    requires i < |members| && forall m :: m in members ==> m.value < context
    ensures CanonMembers(leq, context, members)[i] == Member(members[i].key, Canon(leq, members[i].value))
  {
    if i > 0 {
      CanonMemberAt(leq, context, members[1..], i - 1);
    }
  }

  // --- key order

  /** A digest that never collides, as SHA-256 is taken to be. */
  ghost predicate Injective(digest: Units -> Units)
  {
    forall a, b :: digest(a) == digest(b) ==> a == b
  }

  ghost predicate TotalOrder(leq: (Units, Units) -> bool)
  {
    && (forall a, b :: leq(a, b) || leq(b, a))
    && (forall a, b :: leq(a, b) && leq(b, a) ==> a == b)
    && (forall a, b, c :: leq(a, b) && leq(b, c) ==> leq(a, c))
  }

  ghost predicate SortedByKey(leq: (Units, Units) -> bool, members: seq<Member>)
  {
    forall i, j :: 0 <= i < j < |members| ==> leq(members[i].key, members[j].key)
  }

  lemma {:induction false} InsertKeepsSorted(leq: (Units, Units) -> bool, m: Member, sorted: seq<Member>)
    requires TotalOrder(leq) && SortedByKey(leq, sorted)
    ensures SortedByKey(leq, InsertMember(leq, m, sorted))
  {
    if |sorted| > 0 && !leq(m.key, sorted[0].key) {
      var tail := InsertMember(leq, m, sorted[1..]);
      InsertKeepsSorted(leq, m, sorted[1..]);
      forall i | 0 <= i < |tail| ensures leq(sorted[0].key, tail[i].key) {
        assert tail[i] in multiset(tail);
        assert tail[i] == m || tail[i] in sorted[1..];
      }
    }
  }

  lemma {:induction false} SortSorts(leq: (Units, Units) -> bool, members: seq<Member>)
    requires TotalOrder(leq)
    ensures SortedByKey(leq, SortMembers(leq, members))
  {
    if |members| > 0 {
      SortSorts(leq, members[1..]);
      InsertKeepsSorted(leq, members[0], SortMembers(leq, members[1..]));
    }
  }

  lemma SortKeepsUniqueKeys(leq: (Units, Units) -> bool, members: seq<Member>)
    requires UniqueKeys(members)
    ensures UniqueKeys(SortMembers(leq, members))
  {
    var sorted := SortMembers(leq, members);
    forall i, j | 0 <= i < j < |sorted| ensures sorted[i].key != sorted[j].key {
      if sorted[i].key == sorted[j].key {
        SortedAreMembers(leq, members);
        assert sorted[i] in members && sorted[j] in members;
        assert sorted[i] == sorted[j];
        TwiceInSeq(sorted, i, j);
        OnceInUnique(members, sorted[i]);
      }
    }
  }

  lemma TwiceInSeq(s: seq<Member>, i: nat, j: nat)
    requires i < j < |s| && s[i] == s[j]
    ensures multiset(s)[s[i]] >= 2
  {
    assert s == s[..j] + [s[j]] + s[j + 1..];
    assert s[..j][i] == s[i];
    assert multiset(s[..j])[s[i]] >= 1;
  }

  lemma {:induction false} OnceInUnique(s: seq<Member>, m: Member)
    requires UniqueKeys(s)
    ensures multiset(s)[m] <= 1
  {
    if |s| > 0 {
      OnceInUnique(s[1..], m);
      assert s == [s[0]] + s[1..];
      if s[0] == m {
        assert m !in s[1..];
      }
    }
  }

  /** There is only one way to list a set of keys in order without repetition. */
  lemma {:induction false} SortedListingIsUnique(leq: (Units, Units) -> bool, s: seq<Member>, t: seq<Member>)
    requires TotalOrder(leq) && SortedByKey(leq, s) && SortedByKey(leq, t) && UniqueKeys(s) && UniqueKeys(t)
    requires forall k :: HasKey(s, k) <==> HasKey(t, k)
    ensures |s| == |t| && forall i :: 0 <= i < |s| ==> s[i].key == t[i].key
  {
    if |s| == 0 {
      if |t| > 0 {
        assert HasKey(t, t[0].key);
      }
    } else {
      assert HasKey(s, s[0].key);
      var j :| 0 <= j < |t| && t[j].key == s[0].key;
      assert HasKey(t, t[0].key);
      var i :| 0 <= i < |s| && s[i].key == t[0].key;
      assert s[0].key == t[0].key;
      forall k ensures HasKey(s[1..], k) <==> HasKey(t[1..], k) {
        TailKeys(s, k);
        TailKeys(t, k);
      }
      SortedListingIsUnique(leq, s[1..], t[1..]);
    }
  }

  predicate HasKey(members: seq<Member>, key: Units)
  {
    exists i :: 0 <= i < |members| && members[i].key == key
  }

  lemma TailKeys(s: seq<Member>, k: Units)
    requires |s| > 0 && UniqueKeys(s)
    ensures HasKey(s[1..], k) <==> HasKey(s, k) && k != s[0].key
  {
  }

  /** Values that are the same but for the order of members print alike. */
  lemma {:induction false} SameValuePrintsAlike(leq: (Units, Units) -> bool, v: Json, w: Json)
    requires TotalOrder(leq) && WellFormed(v) && WellFormed(w) && SameValue(v, w)
    ensures Print(leq, v) == Print(leq, w)
    decreases v, 1, 0
  {
    match (v, w)
    case (Arr(xs), Arr(ys)) =>
      SameItemsPrintAlike(leq, xs, ys);
    case (Obj(ms), Obj(ns)) =>
      SortedAreMembers(leq, ms);
      SortedAreMembers(leq, ns);
      SortSorts(leq, ms);
      SortSorts(leq, ns);
      SortKeepsUniqueKeys(leq, ms);
      SortKeepsUniqueKeys(leq, ns);
      var s, t := SortMembers(leq, ms), SortMembers(leq, ns);
      SameKeys(ms, ns, s, t);
      SortedListingIsUnique(leq, s, t);
      forall i | 0 <= i < |s| ensures SameValue(s[i].value, t[i].value) {
        assert s[i] in ms && t[i] in ns;
        var n :| n in ns && n.key == s[i].key && SameValue(s[i].value, n.value);
        assert n == t[i];
      }
      SameMembersPrintAlike(leq, v, w, s, t);
    case (_, _) =>
  }

  lemma SameKeys(ms: seq<Member>, ns: seq<Member>, s: seq<Member>, t: seq<Member>)
    requires UniqueKeys(ms) && UniqueKeys(ns) && |ms| == |ns|
    requires forall m :: m in s <==> m in ms
    requires forall n :: n in t <==> n in ns
    requires forall m :: m in ms ==> exists n :: n in ns && n.key == m.key
    ensures forall k :: HasKey(s, k) <==> HasKey(t, k)
  {
    forall k ensures (HasKey(s, k) <==> HasKey(ms, k)) && (HasKey(t, k) <==> HasKey(ns, k)) {
      HasKeyBySet(s, ms, k);
      HasKeyBySet(t, ns, k);
    }
    forall k ensures HasKey(ms, k) ==> HasKey(ns, k) {
      if i :| 0 <= i < |ms| && ms[i].key == k {
        assert ms[i] in ms;
        var n :| n in ns && n.key == ms[i].key;
        var j :| 0 <= j < |ns| && ns[j] == n;
      }
    }
    forall k ensures HasKey(ns, k) ==> HasKey(ms, k) {
      KeysCount(ms);
      KeysCount(ns);
      assert Keys(ms) <= Keys(ns) by {
        forall q | q in Keys(ms) ensures q in Keys(ns) { assert HasKey(ms, q); assert HasKey(ns, q); }
      }
      SubsetOfSameSize(Keys(ms), Keys(ns));
      if HasKey(ns, k) { assert k in Keys(ns); assert k in Keys(ms); }
    }
  }

  lemma HasKeyBySet(a: seq<Member>, b: seq<Member>, k: Units)
    requires forall m :: m in a <==> m in b
    ensures HasKey(a, k) <==> HasKey(b, k)
  {
    if i :| 0 <= i < |a| && a[i].key == k {
      assert a[i] in b;
    }
    if i :| 0 <= i < |b| && b[i].key == k {
      assert b[i] in a;
    }
  }

  function Keys(members: seq<Member>): set<Units>
  {
    set i | 0 <= i < |members| :: members[i].key
  }

  lemma {:induction false} KeysCount(members: seq<Member>)
    requires UniqueKeys(members)
    ensures |Keys(members)| == |members|
  {
    if |members| > 0 {
      var init, last := members[..|members| - 1], members[|members| - 1];
      KeysCount(init);
      assert last.key !in Keys(init);
      assert Keys(members) == Keys(init) + {last.key} by {
        assert forall i :: 0 <= i < |init| ==> init[i] == members[i];
      }
    }
  }

  lemma SubsetOfSameSize(a: set<Units>, b: set<Units>)
    requires a <= b && |a| == |b|
    ensures a == b
  {
    assert b == a + (b - a);
    assert |b| == |a| + |b - a|;
  }

  lemma {:induction false} SameItemsPrintAlike(leq: (Units, Units) -> bool, xs: seq<Json>, ys: seq<Json>)
    requires TotalOrder(leq) && |xs| == |ys|
    requires forall x :: x in xs ==> WellFormed(x)
    requires forall y :: y in ys ==> WellFormed(y)
    requires forall i :: 0 <= i < |xs| ==> SameValue(xs[i], ys[i])
    ensures PrintItems(leq, xs) == PrintItems(leq, ys)
    decreases xs, 0, 0
  {
    if |xs| > 0 {
      SameValuePrintsAlike(leq, xs[0], ys[0]);
      SameItemsPrintAlike(leq, xs[1..], ys[1..]);
    }
  }

  lemma {:induction false} SameMembersPrintAlike(
    leq: (Units, Units) -> bool, v: Json, w: Json, s: seq<Member>, t: seq<Member>)
    requires TotalOrder(leq) && |s| == |t|
    requires forall m :: m in s ==> m.value < v && WellFormed(m.value)
    requires forall m :: m in t ==> m.value < w && WellFormed(m.value)
    requires forall i :: 0 <= i < |s| ==> s[i].key == t[i].key && SameValue(s[i].value, t[i].value)
    ensures PrintMembers(leq, v, s) == PrintMembers(leq, w, t)
    decreases v, 0, |s|
  {
    if |s| > 0 {
      SameValuePrintsAlike(leq, s[0].value, t[0].value);
      SameMembersPrintAlike(leq, v, w, s[1..], t[1..]);
    }
  }

  /** Two well-formed values print alike exactly when they are the same but for the order of members. */
  lemma PrintIsCanonical(leq: (Units, Units) -> bool, v: Json, w: Json)
    requires TotalOrder(leq) && WellFormed(v) && WellFormed(w)
    ensures Print(leq, v) == Print(leq, w) <==> SameValue(v, w)
  {
    if Print(leq, v) == Print(leq, w) {
      ParsePrint(leq, v, []);
      ParsePrint(leq, w, []);
      CanonEqualMeansSame(leq, v, w);
    }
    if SameValue(v, w) {
      SameValuePrintsAlike(leq, v, w);
    }
  }

  // --- the order of Array.prototype.sort on strings

  predicate CodeUnitLeq(a: Units, b: Units)
  {
    if |a| == 0 then true
    else if |b| == 0 then false
    else a[0] < b[0] || (a[0] == b[0] && CodeUnitLeq(a[1..], b[1..]))
  }

  lemma {:induction false} CodeUnitTotal(a: Units, b: Units)
    ensures CodeUnitLeq(a, b) || CodeUnitLeq(b, a)
    ensures CodeUnitLeq(a, b) && CodeUnitLeq(b, a) ==> a == b
  {
    if |a| > 0 && |b| > 0 {
      CodeUnitTotal(a[1..], b[1..]);
      assert a == [a[0]] + a[1..] && b == [b[0]] + b[1..];
    }
  }

  lemma {:induction false} CodeUnitTransitive(a: Units, b: Units, c: Units)
    requires CodeUnitLeq(a, b) && CodeUnitLeq(b, c)
    ensures CodeUnitLeq(a, c)
  {
    if |a| > 0 && a[0] == b[0] == c[0] {
      CodeUnitTransitive(a[1..], b[1..], c[1..]);
    }
  }

  lemma CodeUnitOrderIsTotal()
    ensures TotalOrder(CodeUnitLeq)
  {
    forall a, b ensures CodeUnitLeq(a, b) || CodeUnitLeq(b, a) { CodeUnitTotal(a, b); }
    forall a, b ensures CodeUnitLeq(a, b) && CodeUnitLeq(b, a) ==> a == b { CodeUnitTotal(a, b); }
    forall a, b, c | CodeUnitLeq(a, b) && CodeUnitLeq(b, c) ensures CodeUnitLeq(a, c) { CodeUnitTransitive(a, b, c); }
  }

  // --- the texts themselves

  /** The characters of a text without surrogates, as units. */
  predicate Reads(u: Units, s: string)
  {
    |u| == |s| && forall i :: 0 <= i < |u| ==> u[i] == s[i] as int
  }

  /** The punctuation and the three names are those of JSON. */
  lemma PunctuationReads()
    ensures Reads([QUOTE, BACKSLASH, COMMA, COLON, LBRACKET, RBRACKET, LBRACE, RBRACE], "\"\\,:[]{}")
    ensures Reads(NULL_TEXT, "null") && Reads(TRUE_TEXT, "true") && Reads(FALSE_TEXT, "false")
  {
  }

  /**
   Quote and backslash are escaped by a backslash, five controls by a letter, the other controls and lone
   surrogates by their four digits; every other unit stands for itself.
   */
  lemma EscapesRead(c: CodeUnit)
    ensures Reads(EscapeUnit('"' as int), "\\\"") && Reads(EscapeUnit('\\' as int), "\\\\")
    ensures Reads(EscapeUnit(8), "\\b") && Reads(EscapeUnit(9), "\\t") && Reads(EscapeUnit(10), "\\n")
    ensures Reads(EscapeUnit(12), "\\f") && Reads(EscapeUnit(13), "\\r")
    ensures Reads(EscapeUnit(0x1f), "\\u001f") && Reads(EscapeUnit(0xdfab), "\\udfab")
    ensures (c < 0x20 && c !in {8, 9, 10, 12, 13}) || 0xd800 <= c < 0xe000 ==> EscapeUnit(c) == UnicodeEscape(c)
    ensures 0x20 <= c && c != 0x22 && c != 0x5c && !(0xd800 <= c < 0xe000) ==> EscapeUnit(c) == [c]
  {
  }

  /** Keys are ordered by their first difference, and a beginning comes before what it begins. */
  lemma {:induction false} CodeUnitOrderIs(p: Units, a: CodeUnit, s: Units, b: CodeUnit, t: Units)
    requires a < b
    ensures CodeUnitLeq(p + [a] + s, p + [b] + t) && !CodeUnitLeq(p + [b] + t, p + [a] + s)
    ensures CodeUnitLeq(p, p + [a] + s) && !CodeUnitLeq(p + [a] + s, p)
    decreases |p|
  {
    var x, y := p + [a] + s, p + [b] + t;
    if |p| > 0 {
      assert x[1..] == p[1..] + [a] + s && y[1..] == p[1..] + [b] + t;
      CodeUnitOrderIs(p[1..], a, s, b, t);
    } else {
      assert x[0] == a && y[0] == b;
    }
  }
}
