/** A journal is checked by itself and then posted; what its lines keep of its currency. */
module LedgerJournals {
  import opened Wrappers
  import opened Sums
  import opened LedgerModel
  import opened TenantLedger
  import opened LedgerProperties
  import opened LedgerEntries
  import opened Text

  /** A journal's own check never refuses what posting would accept, given one currency. */
  lemma JournalAcceptsWhatPostAccepts(entries: seq<Entry>, journal: JournalInput, newId: string)
    requires OneCurrency(journal.entries)
    ensures Journal(entries, journal, newId).1.Posted? <==> Post(entries, JournalPost(journal), newId).1.Posted?
    ensures Journal(entries, journal, newId).0 == Post(entries, JournalPost(journal), newId).0
  {
    var lines := JournalLines(journal.entries);
    if |lines| == 1 {
      SumRealPrefix(DebitAmount, lines, 0);
      SumRealPrefix(CreditAmount, lines, 0);
      assert [lines[0]] == lines;
    }
  }

  lemma DefaultIsNormal()
    ensures Normalized(DEFAULT_CURRENCY) == DEFAULT_CURRENCY
  {
    assert Trim(DEFAULT_CURRENCY) == DEFAULT_CURRENCY;
    assert UpperChar('N') == 'N' && UpperChar('G') == 'G';
  }

  /** A journal's lines keep the journal's currency exactly when that currency is the default one. */
  lemma JournalCurrencyIsKeptOnlyIfDefault(entries: seq<Entry>, journal: JournalInput, newId: string)
    requires Journal(entries, journal, newId).1 == Posted(newId, false)
    ensures var after := Journal(entries, journal, newId).0;
      && |after| == |entries| + 1
      && ((forall l :: l in after[|entries|].lines ==> l.currency == JournalCurrency(journal.entries[0]))
          <==> JournalCurrency(journal.entries[0]) == DEFAULT_CURRENCY)
  {
    PostAppends(entries, JournalPost(journal), newId);
    DefaultIsNormal();
    var after := Journal(entries, journal, newId).0;
    assert after[|entries|] == NewEntry(JournalPost(journal), newId);
    assert after[|entries|].lines[0] in after[|entries|].lines;
  }

  lemma DollarCurrencies()
    ensures Normalized(" usd") == Normalized("USD") == "USD"
  {
    assert " usd"[1..] == "usd";
    assert Trim(" usd") == Trim("usd") == "usd" && Trim("USD") == "USD";
    assert UpperChar('u') == 'U' && UpperChar('s') == 'S' && UpperChar('d') == 'D';
  }

  lemma TwoLinesBalance(lines: seq<LineInput>)
    requires |lines| == 2 && lines[0].direction == DEBIT && lines[1].direction == CREDIT
    requires lines[0].amount == lines[1].amount > 0.0
    ensures CheckLines(lines).None?
  {
    SumRealPrefix(DebitAmount, lines, 0);
    SumRealPrefix(DebitAmount, lines, 1);
    SumRealPrefix(CreditAmount, lines, 0);
    SumRealPrefix(CreditAmount, lines, 1);
    assert lines[..2] == lines;
  }

  /** Two balanced lines in dollars, one of them sloppily written. */
  predicate IsDollarJournal(journal: JournalInput)
  {
    && !IsBlank(journal.idempotencyKey) && journal.actorRole.None? && |journal.entries| == 2
    && journal.entries[0].currency == Some(" usd") && journal.entries[1].currency == Some("USD")
    && journal.entries[0].direction == DEBIT && journal.entries[1].direction == CREDIT
    && journal.entries[0].amount == journal.entries[1].amount > 0.0
  }

  lemma DollarJournalIsValid(journal: JournalInput)
    requires IsDollarJournal(journal)
    ensures OneCurrency(journal.entries) && JournalCurrency(journal.entries[0]) == "USD"
    ensures CheckBalanced(JournalLines(journal.entries)).None? && ValidPost(JournalPost(journal))
  {
    DollarCurrencies();
    TwoLinesBalance(JournalLines(journal.entries));
  }

  /** A journal in dollars is accepted, and all of its lines are stored as naira. */
  lemma DollarJournalIsStoredAsNaira(journal: JournalInput, newId: string)
    requires IsDollarJournal(journal)
    ensures var (after, result) := Journal([], journal, newId);
      result == Posted(newId, false) && |after| == 1 && forall l :: l in after[0].lines ==> l.currency == "NGN"
  {
    DollarJournalIsValid(journal);
    DefaultIsNormal();
  }

  function CurrencyGiven(line: JournalLine): string
  {
    Normalized(if line.currency.Some? then line.currency.value else "NGN")
  }

  /** Two lines whose currencies differ, once trimmed and in upper case, or no lines at all. */
  predicate IsMixed(lines: seq<JournalLine>)
  {
    |lines| == 0 || exists i :: 0 <= i < |lines| && CurrencyGiven(lines[i]) != CurrencyGiven(lines[0])
  }

  lemma OneCurrencyIsNotMixed(lines: seq<JournalLine>)
    ensures OneCurrency(lines) <==> !IsMixed(lines)
  {
    forall i | 0 <= i < |lines| ensures CurrencyGiven(lines[i]) == JournalCurrency(lines[i]) { }
  }

  /** The result of a journal once its currencies are looked at. */
  lemma JournalChecks(entries: seq<Entry>, journal: JournalInput, newId: string)
    ensures var result, lines := Journal(entries, journal, newId).1, JournalLines(journal.entries);
      && (!OneCurrency(journal.entries) ==> result == Rejected(MixedCurrencies))
      && (OneCurrency(journal.entries) && |lines| < 2 ==> result == Rejected(TooFewEntries))
      && (OneCurrency(journal.entries) && |lines| >= 2 ==>
            result == if CheckLines(lines).Some? then Rejected(CheckLines(lines).value)
                      else Post(entries, JournalPost(journal), newId).1)
  {
  }

  lemma RefusedJournalChangesNothing(entries: seq<Entry>, journal: JournalInput, newId: string)
    requires Journal(entries, journal, newId).1.Rejected?
    ensures Journal(entries, journal, newId).0 == entries
  {
    PostAppends(entries, JournalPost(journal), newId);
  }

  /** Neither the check of the lines nor the posting gives a journal's own reasons. */
  lemma PostingHasOtherReasons(entries: seq<Entry>, input: EntryInput, newId: string)
    ensures Post(entries, input, newId).1 !in {Rejected(MixedCurrencies), Rejected(TooFewEntries)}
    ensures CheckLines(input.lines) !in {Some(MixedCurrencies), Some(TooFewEntries)}
  {
  }

  /** A journal's own refusals: mixed currencies first, then a single line; nothing else keeps it from being posted. */
  lemma JournalRefusedExactlyIf(entries: seq<Entry>, journal: JournalInput, newId: string)
    ensures var result := Journal(entries, journal, newId).1;
      && (result == Rejected(MixedCurrencies) <==> IsMixed(journal.entries))
      && (result == Rejected(TooFewEntries) <==> |journal.entries| == 1)
      && (result.Rejected? ==> Journal(entries, journal, newId).0 == entries)
  {
    if Journal(entries, journal, newId).1.Rejected? {
      RefusedJournalChangesNothing(entries, journal, newId);
    }
    OneCurrencyIsNotMixed(journal.entries);
    JournalChecks(entries, journal, newId);
    PostingHasOtherReasons(entries, JournalPost(journal), newId);
  }

  /** An adjustment with the journal's own fields, and its lines in order, in naira. */
  ghost predicate IsStoredJournal(e: Entry, journal: JournalInput, id: string)
  {
    && e.id == id && e.tenantId == journal.tenantId && e.occurredAt == journal.occurredAt
    && e.entryType == ADJUSTMENT && e.idempotencyKey == journal.idempotencyKey
    && e.referenceType == journal.referenceType && e.referenceId == journal.referenceId
    && |e.lines| == |journal.entries|
    && forall i :: 0 <= i < |e.lines| ==>
         var line := journal.entries[i];
         IsStoredLine(e.lines[i], LineInput(line.accountCode, line.direction, line.amount), "NGN")
  }

  lemma JournalEntryIs(journal: JournalInput, id: string)
    ensures IsStoredJournal(NewEntry(JournalPost(journal), id), journal, id)
  {
    NewEntryIsStoredAs(JournalPost(journal), id);
    DefaultIsNormal();
  }

  lemma JournalIsPosted(entries: seq<Entry>, journal: JournalInput, newId: string)
    requires Journal(entries, journal, newId).1 == Posted(newId, false)
    ensures Journal(entries, journal, newId) == Post(entries, JournalPost(journal), newId)
    ensures Journal(entries, journal, newId).0 == entries + [NewEntry(JournalPost(journal), newId)]
  {
    PostAppends(entries, JournalPost(journal), newId);
  }

  /** A journal that goes through is stored as an adjustment, by a role that may post one. */
  lemma JournalStores(entries: seq<Entry>, journal: JournalInput, newId: string)
    requires Journal(entries, journal, newId).1 == Posted(newId, false)
    ensures var after := Journal(entries, journal, newId).0;
      && |after| == |entries| + 1 && after[..|entries|] == entries
      && IsStoredJournal(after[|entries|], journal, newId) && MayPost(journal.actorRole, ADJUSTMENT)
  {
    JournalIsPosted(entries, journal, newId);
    JournalEntryIs(journal, newId);
    RefusedExactlyIf(entries, JournalPost(journal), newId);
  }
}
