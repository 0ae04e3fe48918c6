/**
 What holds of every ledger that postings and reversals, also interrupted ones, can build: it only grows, holds
 the first valid posting of each key, and is in balance up to rounding.
 */
module LedgerProperties {
  import opened Wrappers
  import opened Rounding
  import opened Sums
  import opened LedgerModel
  import opened TenantLedger

  /** A reversal that is interrupted is an interrupted posting of its flipped lines. */
  datatype Command =
    | PostCommand(input: EntryInput, newId: string)
    | InterruptedCommand(input: EntryInput, newId: string)
    | ReverseCommand(tenantId: string, entryId: string, role: Option<Role>, now: int, newId: string)

  function Apply(entries: seq<Entry>, command: Command): seq<Entry>
  {
    match command
    case PostCommand(input, newId) => Post(entries, input, newId).0
    case InterruptedCommand(input, newId) => PostInterrupted(entries, input, newId)
    case ReverseCommand(tenantId, entryId, role, now, newId) => Reverse(entries, tenantId, entryId, role, now, newId).0
  }

  /** The ledger after a sequence of calls, in the order their transactions commit. */
  function RunLedger(commands: seq<Command>): (entries: seq<Entry>)
  {
    if |commands| == 0 then []
    else Apply(RunLedger(commands[..|commands| - 1]), commands[|commands| - 1])
  }

  lemma RunLedgerSnoc(commands: seq<Command>, command: Command)
    ensures RunLedger(commands + [command]) == Apply(RunLedger(commands), command)
  {
  }

  // --- append only

  /** A posting adds nothing, or one entry with a key and an id not in use, made from a valid input. */
  lemma PostAppends(entries: seq<Entry>, input: EntryInput, newId: string)
    ensures var (after, result) := Post(entries, input, newId);
      && (result == Posted(newId, false) || after == entries)
      && (result.Posted? ==> IdTaken(after, result.id))
      && (after != entries ==>
        && after == entries + [NewEntry(input, newId)]
        && ValidPost(input)
        && FindKey(entries, input.tenantId, input.idempotencyKey).None?
        && !IdTaken(entries, newId))
  {
  }

  /** What a call tries to post: a reversal posts the flipped lines of the entry it names. */
  function AppliedInput(entries: seq<Entry>, command: Command): (input: Option<EntryInput>)
  {
    match command
    case PostCommand(input, _) => Some(input)
    case InterruptedCommand(input, _) => Some(input)
    case ReverseCommand(tenantId, entryId, role, now, _) =>
      var found := FindEntry(entries, tenantId, entryId);
      if RoleCanReverse(role) && found.Some? && FindKey(entries, tenantId, ReversalKey(entryId)).None?
      then Some(ReversalInput(found.value, role, now))
      else None
  }

  /** What a call stores of the input it tries to post: an interrupted one leaves out the lines. */
  function AppliedEntry(command: Command, input: EntryInput): Entry
  {
    var e := NewEntry(input, command.newId);
    if command.InterruptedCommand? then e.(lines := []) else e
  }

  /** A call leaves the ledger alone, or adds the entry of its applied input, valid, with key and id not in use. */
  lemma ApplyAppends(entries: seq<Entry>, command: Command)
    ensures var input := AppliedInput(entries, command);
      Apply(entries, command) == entries
      || (&& input.Some? && ValidPost(input.value)
          && Apply(entries, command) == entries + [AppliedEntry(command, input.value)]
          && FindKey(entries, input.value.tenantId, input.value.idempotencyKey).None?
          && !IdTaken(entries, command.newId))
  {
    var input := AppliedInput(entries, command);
    if input.Some? {
      PostAppends(entries, input.value, command.newId);
    }
  }

  /** What a call adds to the ledger. */
  function Added(entries: seq<Entry>, command: Command): (added: Option<Entry>)
    ensures Apply(entries, command) == entries + if added.Some? then [added.value] else []
  {
    ApplyAppends(entries, command);
    if Apply(entries, command) == entries then None
    else Some(AppliedEntry(command, AppliedInput(entries, command).value))
  }

  /** No stored entry or line ever changes: the ledger after more calls starts with the ledger before. */
  lemma {:induction false} LedgerIsAppendOnly(commands: seq<Command>, i: nat)
    requires i <= |commands|
    ensures RunLedger(commands[..i]) <= RunLedger(commands)
  {
    if i == |commands| {
      assert commands[..i] == commands;
    } else {
      var init, last := commands[..|commands| - 1], commands[|commands| - 1];
      LedgerIsAppendOnly(init, i);
      assert init[..i] == commands[..i];
      ApplyAppends(RunLedger(init), last);
    }
  }

  // --- refinement of "first valid posting per key"

  datatype Posting = Posting(input: EntryInput, newId: string)

  function RunPosts(posts: seq<Posting>): (entries: seq<Entry>)
  {
    if |posts| == 0 then []
    else
      var last := posts[|posts| - 1];
      Post(RunPosts(posts[..|posts| - 1]), last.input, last.newId).0
  }

  predicate SameKey(a: EntryInput, b: EntryInput)
  {
    a.tenantId == b.tenantId && a.idempotencyKey == b.idempotencyKey
  }

  /** Posting number i is the first valid one of its tenant and key. */
  predicate IsFirstValid(posts: seq<Posting>, i: nat)
    requires i < |posts|
  {
    ValidPost(posts[i].input)
    && forall j :: 0 <= j < i && ValidPost(posts[j].input) ==> !SameKey(posts[j].input, posts[i].input)
  }

  function FirstValid(posts: seq<Posting>, n: nat): (kept: seq<Posting>)
    requires n <= |posts|
  {
    if n == 0 then []
    else FirstValid(posts, n - 1) + if IsFirstValid(posts, n - 1) then [posts[n - 1]] else []
  }

  function EntriesFor(kept: seq<Posting>): (entries: seq<Entry>)
    ensures |entries| == |kept|
    ensures forall i :: 0 <= i < |kept| ==> entries[i] == NewEntry(kept[i].input, kept[i].newId)
  {
    seq(|kept|, i requires 0 <= i < |kept| => NewEntry(kept[i].input, kept[i].newId))
  }

  ghost predicate DistinctIds(posts: seq<Posting>)
  {
    forall i, j :: 0 <= i < j < |posts| ==> posts[i].newId != posts[j].newId
  }

  predicate HasKey(kept: seq<Posting>, input: EntryInput)
  {
    exists i :: 0 <= i < |kept| && SameKey(kept[i].input, input)
  }

  predicate ValidBefore(posts: seq<Posting>, n: nat, input: EntryInput)
    requires n <= |posts|
  {
    exists j :: 0 <= j < n && ValidPost(posts[j].input) && SameKey(posts[j].input, input)
  }

  lemma HasKeySnoc(kept: seq<Posting>, p: Posting, input: EntryInput)
    ensures HasKey(kept + [p], input) <==> HasKey(kept, input) || SameKey(p.input, input)
  {
    assert (kept + [p])[|kept|] == p;
    if i :| 0 <= i < |kept| && SameKey(kept[i].input, input) {
      assert (kept + [p])[i] == kept[i];
    }
  }

  /** The kept postings have a key exactly when a valid posting with that key came before. */
  lemma {:induction false} FirstValidCovers(posts: seq<Posting>, n: nat, input: EntryInput)
    requires n <= |posts|
    ensures HasKey(FirstValid(posts, n), input) <==> ValidBefore(posts, n, input)
  {
    if n > 0 {
      FirstValidCovers(posts, n - 1, input);
      var last := posts[n - 1];
      assert ValidBefore(posts, n, input) <==>
        ValidBefore(posts, n - 1, input) || (ValidPost(last.input) && SameKey(last.input, input));
      assert IsFirstValid(posts, n - 1) <==> ValidPost(last.input) && !ValidBefore(posts, n - 1, last.input);
      HasKeySnoc(FirstValid(posts, n - 1), last, input);
      assert !IsFirstValid(posts, n - 1) ==> FirstValid(posts, n) == FirstValid(posts, n - 1);
      if SameKey(last.input, input) && ValidBefore(posts, n - 1, last.input) {
        var j :| 0 <= j < n - 1 && ValidPost(posts[j].input) && SameKey(posts[j].input, last.input);
        assert SameKey(posts[j].input, input);
      }
    }
  }

  lemma {:induction false} FirstValidIds(posts: seq<Posting>, n: nat)
    requires n <= |posts| && DistinctIds(posts)
    ensures forall k, j :: 0 <= k < |FirstValid(posts, n)| && n <= j < |posts| ==>
      FirstValid(posts, n)[k].newId != posts[j].newId
  {
    if n > 0 {
      FirstValidIds(posts, n - 1);
    }
  }

  /**
   After any sequence of postings, with ids that do not repeat, the ledger is exactly the one built
   from the first valid posting of each tenant and key; invalid postings and replays leave no trace.
   */
  lemma {:induction false} PostingKeepsFirstValidPerKey(posts: seq<Posting>)
    requires DistinctIds(posts)
    ensures RunPosts(posts) == EntriesFor(FirstValid(posts, |posts|))
  {
    if |posts| > 0 {
      var n := |posts| - 1;
      var init, last := posts[..n], posts[n];
      PostingKeepsFirstValidPerKey(init);
      FirstValidPrefix(posts, init, n);
      var kept := FirstValid(posts, n);
      FirstValidCovers(posts, n, last.input);
      FirstValidIds(posts, n);
      assert IsFirstValid(posts, n) <==> ValidPost(last.input) && !HasKey(kept, last.input);
      PostOnKept(kept, last);
    }
  }

  lemma PostOnKept(kept: seq<Posting>, last: Posting)
    requires forall k :: 0 <= k < |kept| ==> kept[k].newId != last.newId
    ensures Post(EntriesFor(kept), last.input, last.newId).0
         == EntriesFor(kept + if ValidPost(last.input) && !HasKey(kept, last.input) then [last] else [])
  {
  }

  lemma {:induction false} FirstValidPrefix(posts: seq<Posting>, prefix: seq<Posting>, n: nat)
    requires prefix <= posts && n <= |prefix|
    ensures FirstValid(prefix, n) == FirstValid(posts, n)
  {
    if n > 0 {
      FirstValidPrefix(posts, prefix, n - 1);
      assert IsFirstValid(prefix, n - 1) == IsFirstValid(posts, n - 1);
    }
  }

  lemma KeyUsedMeansKept(kept: seq<Posting>, input: EntryInput)
    ensures FindKey(EntriesFor(kept), input.tenantId, input.idempotencyKey).Some? <==> HasKey(kept, input)
  {
  }

  /** A valid replay is answered with the id of the first valid posting of its key, and changes nothing. */
  lemma ReplayReturnsFirstId(posts: seq<Posting>, i: nat, replay: Posting)
    requires DistinctIds(posts)
    requires i < |posts| && IsFirstValid(posts, i)
    requires ValidPost(replay.input) && SameKey(posts[i].input, replay.input)
    ensures Post(RunPosts(posts), replay.input, replay.newId) == (RunPosts(posts), Posted(posts[i].newId, true))
  {
    var kept := FirstValid(posts, |posts|);
    PostingKeepsFirstValidPerKey(posts);
    var m := KeptStays(posts, i, |posts|);
    assert SameKey(kept[m].input, replay.input);
    KeyUsedMeansKept(kept, replay.input);
    var found := FindKey(RunPosts(posts), replay.input.tenantId, replay.input.idempotencyKey).value;
    var k :| 0 <= k < |kept| && EntriesFor(kept)[k] == found;
    OnePerKey(posts, |posts|, k, m);
  }

  lemma {:induction false} KeptStays(posts: seq<Posting>, i: nat, n: nat) returns (m: nat)
    requires i < n <= |posts| && IsFirstValid(posts, i)
    ensures m < |FirstValid(posts, n)| && FirstValid(posts, n)[m] == posts[i]
  {
    if i < n - 1 {
      m := KeptStays(posts, i, n - 1);
    } else {
      m := |FirstValid(posts, n - 1)|;
    }
  }

  lemma {:induction false} OnePerKey(posts: seq<Posting>, n: nat, a: nat, b: nat)
    requires n <= |posts| && a < |FirstValid(posts, n)| && b < |FirstValid(posts, n)|
    requires SameKey(FirstValid(posts, n)[a].input, FirstValid(posts, n)[b].input)
    ensures a == b
  {
    if n > 0 {
      var kept := FirstValid(posts, n - 1);
      FirstValidCovers(posts, n - 1, posts[n - 1].input);
      if a < |kept| && b < |kept| {
        OnePerKey(posts, n - 1, a, b);
      } else {
        assert IsFirstValid(posts, n - 1);
        assert !HasKey(kept, posts[n - 1].input);
      }
    }
  }

  // --- what every stored entry satisfies

  ghost predicate LineOk(line: Line)
  {
    line.amount * 100.0 == line.amountMinor as real && line.amountMinor >= 0
  }

  ghost predicate EntryOk(e: Entry)
  {
    && (forall l :: l in e.lines ==> LineOk(l))
    && 2 * Imbalance(e.lines) <= |e.lines|
    && -2 * Imbalance(e.lines) <= |e.lines|
  }

  ghost predicate LedgerOk(entries: seq<Entry>)
  {
    && (forall e :: e in entries ==> EntryOk(e))
    && (forall i, j :: 0 <= i < j < |entries| ==> entries[i].id != entries[j].id)
    && (forall i, j :: 0 <= i < j < |entries| && entries[i].tenantId == entries[j].tenantId ==>
          entries[i].idempotencyKey != entries[j].idempotencyKey)
  }

  /** The exact value of a line, in kobo, signed. */
  function ExactKobo(line: LineInput): real
  {
    if line.direction == DEBIT then line.amount * 100.0 else -(line.amount * 100.0)
  }

  lemma {:induction false} ExactSidesBalance(lines: seq<LineInput>)
    ensures SumReal(ExactKobo, lines) == (SumReal(DebitAmount, lines) - SumReal(CreditAmount, lines)) * 100.0
  {
    if |lines| > 0 {
      ExactSidesBalance(lines[..|lines| - 1]);
    }
  }

  /** Each line is rounded on its own, so the errors add up to at most half a kobo a line. */
  lemma {:induction false} RoundingErrorBound(lines: seq<LineInput>, currency: string)
    ensures -0.5 * |lines| as real <= Imbalance(StoredLines(lines, currency)) as real - SumReal(ExactKobo, lines)
              <= 0.5 * |lines| as real
  {
    if |lines| > 0 {
      var n := |lines| - 1;
      RoundingErrorBound(lines[..n], currency);
      assert StoredLines(lines, currency)[..n] == StoredLines(lines[..n], currency);
      assert StoredLines(lines, currency)[n] == Stored(lines[n], currency);
    }
  }

  lemma NewEntryOk(input: EntryInput, id: string)
    requires ValidPost(input)
    ensures EntryOk(NewEntry(input, id))
  {
    var e := NewEntry(input, id);
    ExactSidesBalance(input.lines);
    RoundingErrorBound(input.lines, CurrencyOf(input));
    var n := Imbalance(e.lines);
    assert (2 * n) as real == 2.0 * n as real;
    forall l | l in e.lines ensures LineOk(l) {
      var i :| 0 <= i < |e.lines| && e.lines[i] == l;
      assert l == Stored(input.lines[i], CurrencyOf(input));
    }
  }

  lemma {:induction false} ReachableLedgerOk(commands: seq<Command>)
    ensures LedgerOk(RunLedger(commands))
  {
    if |commands| > 0 {
      var before, last := RunLedger(commands[..|commands| - 1]), commands[|commands| - 1];
      ReachableLedgerOk(commands[..|commands| - 1]);
      ApplyAppends(before, last);
      if Apply(before, last) != before {
        var input := AppliedInput(before, last).value;
        NewEntryOk(input, last.newId);
        AppendKeepsLedgerOk(before, AppliedEntry(last, input));
      }
    }
  }

  lemma AppendKeepsLedgerOk(entries: seq<Entry>, added: Entry)
    requires LedgerOk(entries) && EntryOk(added)
    requires FindKey(entries, added.tenantId, added.idempotencyKey).None? && !IdTaken(entries, added.id)
    ensures LedgerOk(entries + [added])
  {
    assert forall i :: 0 <= i < |entries| ==> entries[i] in entries && (entries + [added])[i] == entries[i];
  }

  // --- whole kobo

  ghost predicate WholeKobo(lines: seq<LineInput>)
  {
    forall i :: 0 <= i < |lines| ==> lines[i].amount * 100.0 == ToMinor(lines[i].amount) as real
  }

  lemma {:induction false} WholeKoboIsExact(lines: seq<LineInput>, currency: string)
    requires WholeKobo(lines)
    ensures Imbalance(StoredLines(lines, currency)) as real == SumReal(ExactKobo, lines)
  {
    if |lines| > 0 {
      var n := |lines| - 1;
      WholeKoboIsExact(lines[..n], currency);
      assert StoredLines(lines, currency)[..n] == StoredLines(lines[..n], currency);
      assert StoredLines(lines, currency)[n] == Stored(lines[n], currency);
    }
  }

  lemma WholeKoboEntryBalances(input: EntryInput, id: string)
    requires ValidPost(input) && WholeKobo(input.lines)
    ensures Imbalance(NewEntry(input, id).lines) == 0
  {
    WholeKoboIsExact(input.lines, CurrencyOf(input));
    ExactSidesBalance(input.lines);
  }

  /** A stored amount is whole kobo, so a reversal is posted in whole kobo. */
  lemma FlippedIsWholeKobo(lines: seq<Line>)
    requires forall l :: l in lines ==> LineOk(l)
    ensures WholeKobo(FlippedLines(lines))
    ensures forall i :: 0 <= i < |lines| ==> ToMinor(FlippedLines(lines)[i].amount) == lines[i].amountMinor
  {
    forall i | 0 <= i < |lines|
      ensures ToMinor(FlippedLines(lines)[i].amount) == lines[i].amountMinor
      ensures FlippedLines(lines)[i].amount * 100.0 == lines[i].amountMinor as real
    {
      assert LineOk(lines[i]);
      RoundWhole(lines[i].amountMinor);
    }
  }
}
