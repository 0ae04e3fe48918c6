/**
 A reversal undoes an entry exactly when the entry's stored lines can be posted again. A posting that was
 interrupted has none, so it can be neither completed nor reversed.
 */
module LedgerReversals {
  import opened Wrappers
  import opened Rounding
  import opened Sums
  import opened LedgerModel
  import opened TenantLedger
  import opened LedgerProperties
  import opened Text

  lemma {:induction false} FlipNegatesEffect(code: AccountCode, lines: seq<Line>, currency: string)
    requires forall l :: l in lines ==> LineOk(l)
    ensures Effect(code, StoredLines(FlippedLines(lines), currency)) == -Effect(code, lines)
  {
    if |lines| > 0 {
      var n := |lines| - 1;
      FlipNegatesEffect(code, lines[..n], currency);
      assert FlippedLines(lines)[..n] == FlippedLines(lines[..n]);
      assert StoredLines(FlippedLines(lines), currency)[..n] == StoredLines(FlippedLines(lines[..n]), currency);
      FlippedIsWholeKobo(lines);
      assert FlippedLines(lines)[n] == LineInput(lines[n].accountCode, Opposite(lines[n].direction), lines[n].amount);
    }
  }

  /** Flipping stored lines turns the debits into credits, so they balance exactly when the kobo do. */
  lemma {:induction false} FlippedSides(lines: seq<Line>)
    requires forall l :: l in lines ==> LineOk(l)
    ensures (SumReal(CreditAmount, FlippedLines(lines)) - SumReal(DebitAmount, FlippedLines(lines))) * 100.0
         == Imbalance(lines) as real
  {
    if |lines| > 0 {
      var n := |lines| - 1;
      FlippedSides(lines[..n]);
      assert FlippedLines(lines)[..n] == FlippedLines(lines[..n]);
      assert LineOk(lines[n]);
      assert FlippedLines(lines)[n] == LineInput(lines[n].accountCode, Opposite(lines[n].direction), lines[n].amount);
    }
  }

  /** The stored lines can be posted again: there are some, none was rounded to nothing and the kobo balance. */
  ghost predicate Repostable(lines: seq<Line>)
  {
    |lines| > 0 && Imbalance(lines) == 0 && forall l :: l in lines ==> l.amountMinor > 0
  }

  lemma FlippedPassesChecks(entry: Entry, role: Option<Role>, now: int)
    requires EntryOk(entry) && RoleCanReverse(role)
    ensures ValidPost(ReversalInput(entry, role, now)) <==> Repostable(entry.lines)
  {
    var flipped := FlippedLines(entry.lines);
    assert ReversalKey(entry.id)[0] == 'r';
    assert !IsBlank(ReversalKey(entry.id));
    FlippedSides(entry.lines);
    assert AllPositive(flipped) <==> forall l :: l in entry.lines ==> l.amountMinor > 0 by {
      if AllPositive(flipped) {
        forall l | l in entry.lines ensures l.amountMinor > 0 {
          var i :| 0 <= i < |entry.lines| && entry.lines[i] == l;
          assert flipped[i].amount > 0.0 && LineOk(l);
        }
      } else {
        var i :| 0 <= i < |flipped| && flipped[i].amount <= 0.0;
        assert LineOk(entry.lines[i]) && entry.lines[i] in entry.lines;
      }
    }
  }

  /** Nothing stands in the way of the reversal. */
  ghost predicate Reversible(entries: seq<Entry>, entry: Entry, newId: string)
  {
    && FindKey(entries, entry.tenantId, ReversalKey(entry.id)).None?
    && Repostable(entry.lines)
    && !IdTaken(entries, newId)
  }

  /**
   A permitted reversal of a stored entry goes through exactly when no entry holds its key, the entry's
   stored lines are repostable and the new id is free. If an entry holds the key, that one is the answer,
   be it a reversal or not; otherwise the call is refused. In both cases the ledger stays as it is.
   */
  lemma ReversalSucceedsExactlyWhenReversible(
    entries: seq<Entry>, entry: Entry, role: Option<Role>, now: int, newId: string)
    requires LedgerOk(entries) && entry in entries && RoleCanReverse(role)
    ensures var (after, result) := Reverse(entries, entry.tenantId, entry.id, role, now, newId);
      var holder := FindKey(entries, entry.tenantId, ReversalKey(entry.id));
      && (result == Posted(newId, false) <==> Reversible(entries, entry, newId))
      && (holder.Some? ==> result == Posted(holder.value.id, true))
      && (holder.None? && !Reversible(entries, entry, newId) ==> result.Rejected?)
      && after == if Reversible(entries, entry, newId) then entries + [NewEntry(ReversalInput(entry, role, now), newId)]
                  else entries
  {
    FoundIs(entries, entry);
    FlippedPassesChecks(entry, role, now);
  }

  lemma FoundIs(entries: seq<Entry>, entry: Entry)
    requires LedgerOk(entries) && entry in entries
    ensures FindEntry(entries, entry.tenantId, entry.id) == Some(entry)
  {
  }

  /** Every entry posted in whole kobo, and every reversal, can be reversed. */
  lemma WholeKoboEntriesAreRepostable(input: EntryInput, id: string)
    requires ValidPost(input) && WholeKobo(input.lines)
    ensures Repostable(NewEntry(input, id).lines)
  {
    WholeKoboEntryBalances(input, id);
    var e := NewEntry(input, id);
    forall l | l in e.lines ensures l.amountMinor > 0 {
      var i :| 0 <= i < |e.lines| && e.lines[i] == l;
      assert l == Stored(input.lines[i], CurrencyOf(input));
    }
  }

  /**
   Had the amount column kept the exact decimal, any entry could be reversed: lines that pass the
   posting checks pass them again with the directions swapped.
   */
  lemma {:induction false} SwappedSides(lines: seq<LineInput>, swapped: seq<LineInput>)
    requires |swapped| == |lines|
    requires forall i :: 0 <= i < |lines| ==>
      swapped[i] == LineInput(lines[i].accountCode, Opposite(lines[i].direction), lines[i].amount)
    ensures SumReal(DebitAmount, swapped) == SumReal(CreditAmount, lines)
    ensures SumReal(CreditAmount, swapped) == SumReal(DebitAmount, lines)
    ensures CheckLines(lines).None? <==> CheckLines(swapped).None?
  {
    if |lines| > 0 {
      SwappedSides(lines[..|lines| - 1], swapped[..|lines| - 1]);
    }
    assert AllPositive(lines) <==> AllPositive(swapped) by {
      forall i | 0 <= i < |lines| ensures lines[i].amount == swapped[i].amount { }
    }
  }

  /**
   A permitted reversal takes the entry's effect off every account of the tenant, to the kobo, exactly if it
   goes through or there is no effect; once it has gone through, asking again changes nothing and returns
   the same id.
   */
  lemma ReversalUndoesEntry(
    entries: seq<Entry>, entry: Entry, role: Option<Role>, now: int, newId: string, code: AccountCode)
    requires LedgerOk(entries) && entry in entries && RoleCanReverse(role)
    ensures var after := Reverse(entries, entry.tenantId, entry.id, role, now, newId).0;
      && (Balance(entry.tenantId, code, after) == Balance(entry.tenantId, code, entries) - Effect(code, entry.lines)
          <==> Reversible(entries, entry, newId) || Effect(code, entry.lines) == 0)
      && (Reversible(entries, entry, newId) ==> forall now', otherId ::
            Reverse(after, entry.tenantId, entry.id, role, now', otherId) == (after, Posted(newId, true)))
  {
    ReversalSucceedsExactlyWhenReversible(entries, entry, role, now, newId);
    if Reversible(entries, entry, newId) {
      var reversal := NewEntry(ReversalInput(entry, role, now), newId);
      BalanceSnoc(entry.tenantId, code, entries, reversal);
      FlipNegatesEffect(code, entry.lines, CurrencyOf(ReversalInput(entry, role, now)));
      FoundIs(entries, entry);
      AppendKeepsFind(entries, reversal, entry);
      FindAppended(entries, reversal);
    }
  }

  /**
   A caller may post an ordinary entry under a reversal's key. The reversal is then answered with that
   entry's id and cancels nothing.
   */
  lemma OrdinaryEntryTakesReversalKey(
    entries: seq<Entry>, entry: Entry, input: EntryInput, postId: string, role: Option<Role>, now: int, newId: string)
    requires LedgerOk(entries) && entry in entries && RoleCanReverse(role)
    requires ValidPost(input) && input.tenantId == entry.tenantId && input.idempotencyKey == ReversalKey(entry.id)
    requires FindKey(entries, input.tenantId, input.idempotencyKey).None? && !IdTaken(entries, postId)
    ensures var after := Post(entries, input, postId).0;
      Reverse(after, entry.tenantId, entry.id, role, now, newId) == (after, Posted(postId, true))
  {
    var added := NewEntry(input, postId);
    FoundIs(entries, entry);
    AppendKeepsFind(entries, added, entry);
    FindAppended(entries, added);
  }

  lemma {:induction false} AppendKeepsFind(entries: seq<Entry>, added: Entry, entry: Entry)
    requires FindEntry(entries, entry.tenantId, entry.id).Some?
    ensures FindEntry(entries + [added], entry.tenantId, entry.id) == FindEntry(entries, entry.tenantId, entry.id)
  {
    assert (entries + [added])[0] == entries[0];
    if !(entries[0].tenantId == entry.tenantId && entries[0].id == entry.id) {
      assert (entries + [added])[1..] == entries[1..] + [added];
      AppendKeepsFind(entries[1..], added, entry);
    }
  }

  lemma {:induction false} FindAppended(entries: seq<Entry>, added: Entry)
    requires FindKey(entries, added.tenantId, added.idempotencyKey).None?
    ensures FindKey(entries + [added], added.tenantId, added.idempotencyKey) == Some(added)
  {
  }

  lemma ReversalKeysDiffer(a: string, b: string)
    requires a != b
    ensures ReversalKey(a) != ReversalKey(b)
  {
    assert ReversalKey(a)[9..] == a && ReversalKey(b)[9..] == b;
  }

  /** The entry of a reversal is itself repostable and has the opposite effect. */
  lemma ReversalEntry(entry: Entry, role: Option<Role>, now: int, newId: string, code: AccountCode)
    requires EntryOk(entry) && RoleCanReverse(role) && Repostable(entry.lines)
    ensures var reversal := NewEntry(ReversalInput(entry, role, now), newId);
      Repostable(reversal.lines) && Effect(code, reversal.lines) == -Effect(code, entry.lines)
  {
    var input := ReversalInput(entry, role, now);
    FlippedPassesChecks(entry, role, now);
    FlippedIsWholeKobo(entry.lines);
    WholeKoboEntriesAreRepostable(input, newId);
    FlipNegatesEffect(code, entry.lines, CurrencyOf(input));
  }

  /**
   After a reversal, reversing the reversal goes through exactly when its key and the new id are free, and
   then every account of the tenant is back at its balance from before both.
   */
  lemma ReversingTheReversalRestores(
    entries: seq<Entry>, entry: Entry, role: Option<Role>, now: int, newId: string,
    role': Option<Role>, now': int, newId': string, code: AccountCode)
    requires LedgerOk(entries) && entry in entries && RoleCanReverse(role) && RoleCanReverse(role')
    requires Reversible(entries, entry, newId)
    ensures var after := Reverse(entries, entry.tenantId, entry.id, role, now, newId).0;
      var (restored, result) := Reverse(after, entry.tenantId, newId, role', now', newId');
      && (result == Posted(newId', false)
          <==> FindKey(entries, entry.tenantId, ReversalKey(newId)).None? && !IdTaken(after, newId'))
      && (result == Posted(newId', false) ==>
            Balance(entry.tenantId, code, restored) == Balance(entry.tenantId, code, entries))
  {
    var input := ReversalInput(entry, role, now);
    var reversal := NewEntry(input, newId);
    var after := entries + [reversal];
    ReversalSucceedsExactlyWhenReversible(entries, entry, role, now, newId);
    ReversalUndoesEntry(entries, entry, role, now, newId, code);
    FlippedPassesChecks(entry, role, now);
    NewEntryOk(input, newId);
    AppendKeepsLedgerOk(entries, reversal);
    ReversalEntry(entry, role, now, newId, code);
    assert reversal in after;
    assert entry.id != newId;
    ReversalKeysDiffer(entry.id, newId);
    OtherKeyAppended(entries, reversal, ReversalKey(newId));
    ReversalSucceedsExactlyWhenReversible(after, reversal, role', now', newId');
    ReversalUndoesEntry(after, reversal, role', now', newId', code);
  }

  lemma OtherKeyAppended(entries: seq<Entry>, added: Entry, key: string)
    requires added.idempotencyKey != key
    ensures FindKey(entries + [added], added.tenantId, key).None? <==> FindKey(entries, added.tenantId, key).None?
  {
    var found, later := FindKey(entries, added.tenantId, key), FindKey(entries + [added], added.tenantId, key);
    if found.Some? {
      assert found.value in entries + [added];
    }
    if later.Some? {
      assert later.value in entries;
    }
  }

  const FRACTIONAL_LINES :=
    [LineInput(CASH_MAIN, DEBIT, 0.005), LineInput(CASH, DEBIT, 0.005), LineInput(FEE_INCOME, CREDIT, 0.01)]

  const FRACTIONAL_INPUT := EntryInput("t", 0, ADJUSTMENT, "k", "r", "1", None, None, FRACTIONAL_LINES)

  lemma FractionalInputIsValid()
    ensures ValidPost(FRACTIONAL_INPUT)
  {
    assert !IsBlank("k") by { assert "k"[0] == 'k'; }
    SumOfThree(DebitAmount, FRACTIONAL_LINES);
    SumOfThree(CreditAmount, FRACTIONAL_LINES);
  }

  lemma FractionalImbalance()
    ensures Imbalance(NewEntry(FRACTIONAL_INPUT, "a").lines) == 1
  {
    var lines := NewEntry(FRACTIONAL_INPUT, "a").lines;
    RoundHalfUpUnique(0.5, 1);
    RoundWhole(1);
    var currency := CurrencyOf(FRACTIONAL_INPUT);
    assert lines
        == [Stored(FRACTIONAL_LINES[0], currency), Stored(FRACTIONAL_LINES[1], currency),
          Stored(FRACTIONAL_LINES[2], currency)];
    SumIntPrefix(SignedMinor, lines, 0);
    SumIntPrefix(SignedMinor, lines, 1);
    SumIntPrefix(SignedMinor, lines, 2);
    assert lines[..3] == lines;
  }

  /** 0.005 + 0.005 against 0.01 posts, and is stored one kobo out of balance, so it cannot be reversed. */
  lemma FractionalKoboEntryCannotBeReversed()
    ensures exists input, newId, role, now, otherId ::
      var ledger := Post([], input, newId).0;
      && ledger == [NewEntry(input, newId)]
      && Imbalance(ledger[0].lines) == 1
      && RoleCanReverse(role)
      && Reverse(ledger, input.tenantId, newId, role, now, otherId).1.Rejected?
  {
    var input := FRACTIONAL_INPUT;
    FractionalInputIsValid();
    FractionalImbalance();
    var entry := NewEntry(input, "a");
    NewEntryOk(input, "a");
    assert Post([], input, "a").0 == [entry];
    assert LedgerOk([entry]);
    FoundIs([entry], entry);
    FlippedPassesChecks(entry, None, 0);
    assert Reverse([entry], "t", "a", None, 0, "b").1.Rejected?;
  }

  lemma SumOfThree(f: LineInput -> real, s: seq<LineInput>)
    requires |s| == 3
    ensures SumReal(f, s) == f(s[0]) + f(s[1]) + f(s[2])
  {
    SumRealPrefix(f, s, 0);
    SumRealPrefix(f, s, 1);
    SumRealPrefix(f, s, 2);
    assert s[..3] == s;
  }

  // --- postings outside of a transaction

  /**
   A posting that stopped between its two writes is never completed: every replay is answered with its id
   and adds nothing, and it cannot be reversed, as it has no lines.
   */
  lemma InterruptedPostIsNeverCompleted(
    entries: seq<Entry>, input: EntryInput, newId: string, replay: EntryInput, otherId: string, role: Option<Role>,
      now: int)
    requires Post(entries, input, newId).1 == Posted(newId, false)
    requires ValidPost(replay) && replay.tenantId == input.tenantId && replay.idempotencyKey == input.idempotencyKey
    requires RoleCanReverse(role)
    ensures var after := PostInterrupted(entries, input, newId);
      && Post(after, replay, otherId) == (after, Posted(newId, true))
      && after[|entries|].lines == []
      && (FindKey(after, input.tenantId, ReversalKey(newId)).None? ==>
            Reverse(after, input.tenantId, newId, role, now, otherId) == (after, Rejected(NoLines)))
  {
    PostAppends(entries, input, newId);
    var added := NewEntry(input, newId).(lines := []);
    var after := entries + [added];
    assert FindKey(entries, input.tenantId, input.idempotencyKey).None?;
    FindAppended(entries, added);
    NewIdFound(entries, added);
    assert !IsBlank(ReversalKey(newId)) by { assert ReversalKey(newId)[0] == 'r'; }
  }

  lemma {:induction false} NewIdFound(entries: seq<Entry>, added: Entry)
    requires !IdTaken(entries, added.id)
    ensures FindEntry(entries + [added], added.tenantId, added.id) == Some(added)
  {
    if |entries| > 0 {
      assert entries[0] in entries;
      assert (entries + [added])[1..] == entries[1..] + [added];
      assert forall e :: e in entries[1..] ==> e in entries;
      NewIdFound(entries[1..], added);
    } else {
      assert entries + [added] == [added];
    }
  }
}
