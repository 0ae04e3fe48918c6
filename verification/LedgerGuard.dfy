/**
 PrismaService's guard on the append-only tables, and what it does not see. A call is its shape and, separately,
 what it writes: any additions, or anything, by what its shape can do.
 */
module LedgerGuard {
  import opened LedgerModel
  import opened TenantLedger
  import opened LedgerProperties

  datatype Action = CREATE | CREATE_MANY | UPSERT | UPDATE | UPDATE_MANY | DELETE | DELETE_MANY | READ

  /**
   What the arguments of a call reach: columns of its own rows other than an account's code and tenant; an account's
   code or tenant, under which its lines are read back; new related rows; or stored related rows, which it updates,
   deletes or connects elsewhere.
   */
  datatype Args = OWN_COLUMNS | RENAMES_ACCOUNT | CREATES_RELATED | WRITES_RELATED

  /** The ledger service's own calls, any other call on a model, and raw statements. */
  datatype Call =
    | Service(command: Command)
    | Direct(model: string, action: Action, args: Args)
    | Raw

  datatype Write = Write(result: seq<Entry> -> seq<Entry>)

  const IMMUTABLE_MODELS := {"TenantLedgerEntry", "TenantLedgerLine", "JournalEntry", "JournalLine", "AuditEvent"}

  /** The guard only looks at calls that have a model. */
  predicate AssertImmutable(call: Call)
  {
    call.Direct? && call.model in IMMUTABLE_MODELS && call.action in {UPDATE, UPDATE_MANY, DELETE, DELETE_MANY}
  }

  predicate IsLedgerTable(model: string) { model == "TenantLedgerEntry" || model == "TenantLedgerLine" }

  predicate IsAccountTable(model: string) { model == "TenantLedgerAccount" }

  /** What a call past the service could do to the entries and their lines if nothing refused it. */
  datatype Power = Nothing | Adds | Anything

  function PowerOf(call: Call): Power
    requires !call.Service?
  {
    if call.Raw? then Anything
    else if IsLedgerTable(call.model) then OnLedgerTable(call.action, call.args)
    else if IsAccountTable(call.model) then OnAccountTable(call.action, call.args)
    else Nothing
  }

  function OnLedgerTable(action: Action, args: Args): Power
  {
    match action
    case CREATE => if args == WRITES_RELATED then Anything else Adds
    case CREATE_MANY => Adds
    case READ => Nothing
    case _ => Anything
  }

  /** Lines hold on to their account: it cannot be deleted, and a new id of it goes on to them. */
  function OnAccountTable(action: Action, args: Args): Power
  {
    match args
    case OWN_COLUMNS => Nothing
    case RENAMES_ACCOUNT => if action in {UPSERT, UPDATE, UPDATE_MANY} then Anything else Nothing
    case CREATES_RELATED => if action in {CREATE, UPSERT, UPDATE} then Adds else Nothing
    case WRITES_RELATED => if action in {CREATE, UPSERT, UPDATE} then Anything else Nothing
  }

  /** The entry may have got more lines behind the ones it had. */
  predicate EntryExtends(a: Entry, b: Entry)
  {
    a.lines <= b.lines && b == a.(lines := b.lines)
  }

  /** No stored entry or line is changed or gone. */
  predicate Extends(before: seq<Entry>, after: seq<Entry>)
  {
    |before| <= |after| && forall i :: 0 <= i < |before| ==> EntryExtends(before[i], after[i])
  }

  function ApplyPast(entries: seq<Entry>, call: Call, write: Write): seq<Entry>
    requires !call.Service?
  {
    match PowerOf(call)
    case Nothing => entries
    case Adds => if Extends(entries, write.result(entries)) then write.result(entries) else entries
    case Anything => write.result(entries)
  }

  function ApplyCall(entries: seq<Entry>, call: Call, write: Write): seq<Entry>
  {
    if call.Service? then Apply(entries, call.command)
    else if AssertImmutable(call) then entries
    else ApplyPast(entries, call, write)
  }

  /** Each call writes what has its number. */
  function RunCalls(ledger: seq<Entry>, calls: seq<Call>, writes: nat -> Write): (entries: seq<Entry>)
  {
    if |calls| == 0 then ledger
    else
      var n := |calls| - 1;
      ApplyCall(RunCalls(ledger, calls[..n], writes), calls[n], writes(n))
  }

  // --- the writes the guard misses

  /**
   An upsert of entries or lines, a create of one that also writes stored rows, a call on an account that writes
   its stored lines or gives it another code or tenant, and any raw statement.
   */
  predicate GuardMisses(call: Call)
  {
    || call.Raw?
    || (call.Direct? && IsLedgerTable(call.model) &&
        (call.action == UPSERT || (call.action == CREATE && call.args == WRITES_RELATED)))
    || (call.Direct? && IsAccountTable(call.model) &&
        (|| (call.action in {CREATE, UPSERT, UPDATE} && call.args == WRITES_RELATED)
         || (call.action in {UPSERT, UPDATE, UPDATE_MANY} && call.args == RENAMES_ACCOUNT)))
  }

  /** Stored audit events are kept from updates and deletes as well, and not from upserts. */
  lemma AuditEventsAreGuarded(action: Action, args: Args)
    ensures AssertImmutable(Direct("AuditEvent", action, args))
      <==> action == UPDATE || action == UPDATE_MANY || action == DELETE || action == DELETE_MANY
  {
  }

  lemma MissedWritesAnything(entries: seq<Entry>, call: Call, write: Write)
    requires GuardMisses(call)
    ensures ApplyCall(entries, call, write) == write.result(entries)
  {
  }

  lemma OthersExtend(entries: seq<Entry>, call: Call, write: Write)
    requires !GuardMisses(call)
    ensures Extends(entries, ApplyCall(entries, call, write))
  {
    if call.Service? {
      ApplyAppends(entries, call.command);
    }
  }

  ghost predicate AlwaysExtends(call: Call)
  {
    forall entries, write :: Extends(entries, ApplyCall(entries, call, write))
  }

  function OtherCode(code: AccountCode): AccountCode { if code == SUSPENSE then CASH_MAIN else SUSPENSE }

  /** What a missed call can do to an entry: an upsert of it moves its date, others put a line on another account. */
  function Changed(call: Call, e: Entry): Entry
    requires |e.lines| > 0
  {
    if call.Direct? && call.model == "TenantLedgerEntry" && call.action == UPSERT then
      e.(occurredAt := e.occurredAt + 1)
    else
      e.(lines := e.lines[0 := e.lines[0].(accountCode := OtherCode(e.lines[0].accountCode))])
  }

  /** It does so to the first entry and leaves the others. */
  function Change(call: Call): Write
  {
    Write((entries: seq<Entry>) =>
      if |entries| > 0 && |entries[0].lines| > 0 then entries[0 := Changed(call, entries[0])] else entries)
  }

  /** The guard lets each call it misses through, and the stored entry changes. */
  lemma MissedCallChangesEntry(e: Entry, call: Call)
    requires |e.lines| > 0 && GuardMisses(call)
    ensures ApplyCall([e], call, Change(call)) == [Changed(call, e)]
    ensures !Extends([e], [Changed(call, e)])
  {
    MissedWritesAnything([e], call, Change(call));
    assert Changed(call, e).occurredAt != e.occurredAt || Changed(call, e).lines[0] != e.lines[0];
  }

  /** An upsert of a line passes where the update it amounts to is refused. */
  lemma UpsertChangesStoredLine(e: Entry)
    requires |e.lines| > 0
    ensures var upsert := Direct("TenantLedgerLine", UPSERT, OWN_COLUMNS);
      var update := Direct("TenantLedgerLine", UPDATE, OWN_COLUMNS);
      && AssertImmutable(update) && ApplyCall([e], update, Change(update)) == [e]
      && !AssertImmutable(upsert) && ApplyCall([e], upsert, Change(upsert)) == [Changed(upsert, e)]
      && Changed(upsert, e).lines[0] != e.lines[0]
  {
  }

  /** A posting of one line, for want of another. */
  lemma SomeEntry() returns (e: Entry)
    ensures |e.lines| > 0
  {
    e := Entry("", "", 0, ADJUSTMENT, "", "", "", [Line(CASH_MAIN, DEBIT, 0.0, 0, "")]);
  }

  /** A call leaves every stored entry and line in place, whatever it writes, exactly if the guard does not miss it. */
  lemma GuardKeepsLedgerExactly(call: Call)
    ensures AlwaysExtends(call) <==> !GuardMisses(call)
  {
    if GuardMisses(call) {
      var e := SomeEntry();
      MissedCallChangesEntry(e, call);
      assert !Extends([e], ApplyCall([e], call, Change(call)));
    } else {
      forall entries, write ensures Extends(entries, ApplyCall(entries, call, write)) {
        OthersExtend(entries, call, write);
      }
    }
  }

  // --- over every run

  predicate GuardSeesAll(calls: seq<Call>)
  {
    forall i :: 0 <= i < |calls| ==> !GuardMisses(calls[i])
  }

  lemma ExtendsOn(a: seq<Entry>, b: seq<Entry>, c: seq<Entry>)
    requires Extends(a, b) && Extends(b, c)
    ensures Extends(a, c)
  {
    forall i | 0 <= i < |a| ensures EntryExtends(a[i], c[i]) {
      assert EntryExtends(a[i], b[i]) && EntryExtends(b[i], c[i]);
    }
  }

  /** Over every run without such calls, no entry or line stored at any moment is ever changed or gone. */
  lemma {:induction false} GuardedLedgerIsAppendOnly(
    ledger: seq<Entry>, calls: seq<Call>, writes: nat -> Write, i: nat)
    requires GuardSeesAll(calls) && i <= |calls|
    ensures Extends(RunCalls(ledger, calls[..i], writes), RunCalls(ledger, calls, writes))
  {
    if i == |calls| {
      assert calls[..i] == calls;
    } else {
      var n := |calls| - 1;
      GuardedLedgerIsAppendOnly(ledger, calls[..n], writes, i);
      assert calls[..n][..i] == calls[..i];
      var before := RunCalls(ledger, calls[..n], writes);
      OthersExtend(before, calls[n], writes(n));
      ExtendsOn(RunCalls(ledger, calls[..i], writes), before, RunCalls(ledger, calls, writes));
    }
  }

  ghost predicate RunAlwaysExtends(calls: seq<Call>)
  {
    forall ledger, writes :: Extends(ledger, RunCalls(ledger, calls, writes))
  }

  function Keep(): Write { Write((entries: seq<Entry>) => entries) }

  function WriteIf(now: bool, write: Write): Write { if now then write else Keep() }

  /** Only call number k writes anything. */
  function OnlyAt(k: nat, write: Write): nat -> Write { (n: nat) => WriteIf(n == k, write) }

  lemma OnlyAtIs(k: nat, write: Write, n: nat)
    ensures OnlyAt(k, write)(n) == if n == k then write else Keep()
  {
    assert OnlyAt(k, write)(n) == WriteIf(n == k, write);
  }

  lemma KeepExtends(entries: seq<Entry>, call: Call)
    ensures Extends(entries, ApplyCall(entries, call, Keep()))
  {
    if call.Service? {
      ApplyAppends(entries, call.command);
    }
  }

  lemma {:induction false} QuietCallsExtend(ledger: seq<Entry>, calls: seq<Call>, k: nat, write: Write)
    requires |calls| <= k
    ensures Extends(ledger, RunCalls(ledger, calls, OnlyAt(k, write)))
  {
    if |calls| > 0 {
      var n := |calls| - 1;
      var before := RunCalls(ledger, calls[..n], OnlyAt(k, write));
      QuietCallsExtend(ledger, calls[..n], k, write);
      OnlyAtIs(k, write, n);
      KeepExtends(before, calls[n]);
      ExtendsOn(ledger, before, RunCalls(ledger, calls, OnlyAt(k, write)));
    }
  }

  /** The first entry is there, and is not what e was. */
  predicate IsChanged(e: Entry, entries: seq<Entry>)
    requires |e.lines| > 0
  {
    |entries| > 0 && |entries[0].lines| > 0
    && (entries[0].occurredAt != e.occurredAt || entries[0].lines[0] != e.lines[0])
  }

  lemma ChangedStays(e: Entry, before: seq<Entry>, after: seq<Entry>)
    requires |e.lines| > 0 && IsChanged(e, before) && Extends(before, after)
    ensures IsChanged(e, after)
  {
    assert EntryExtends(before[0], after[0]);
  }

  lemma ChangeShows(e: Entry, before: seq<Entry>, call: Call)
    requires |e.lines| > 0 && Extends([e], before) && GuardMisses(call)
    ensures IsChanged(e, ApplyCall(before, call, Change(call)))
  {
    MissedWritesAnything(before, call, Change(call));
    assert EntryExtends([e][0], before[0]);
    assert e.lines[0] == before[0].lines[0];
  }

  /** What one missed call changes stays changed through the rest of the run. */
  lemma {:induction false} MissedChangeStays(e: Entry, calls: seq<Call>, k: nat)
    requires |e.lines| > 0 && k < |calls| && GuardMisses(calls[k])
    ensures IsChanged(e, RunCalls([e], calls, OnlyAt(k, Change(calls[k]))))
  {
    var n := |calls| - 1;
    var before := RunCalls([e], calls[..n], OnlyAt(k, Change(calls[k])));
    OnlyAtIs(k, Change(calls[k]), n);
    if n == k {
      QuietCallsExtend([e], calls[..n], k, Change(calls[k]));
      ChangeShows(e, before, calls[n]);
    } else {
      MissedChangeStays(e, calls[..n], k);
      KeepExtends(before, calls[n]);
      ChangedStays(e, before, RunCalls([e], calls, OnlyAt(k, Change(calls[k]))));
    }
  }

  /** Runs of these calls leave every stored entry and line in place exactly if the guard misses none of them. */
  lemma GuardedRunsExtendExactly(calls: seq<Call>)
    ensures RunAlwaysExtends(calls) <==> GuardSeesAll(calls)
  {
    if GuardSeesAll(calls) {
      forall ledger, writes ensures Extends(ledger, RunCalls(ledger, calls, writes)) {
        GuardedLedgerIsAppendOnly(ledger, calls, writes, 0);
      }
    } else {
      var k :| 0 <= k < |calls| && GuardMisses(calls[k]);
      var e := SomeEntry();
      MissedChangeStays(e, calls, k);
      var after := RunCalls([e], calls, OnlyAt(k, Change(calls[k])));
      assert !Extends([e], after) by {
        assert Extends([e], after) ==> EntryExtends([e][0], after[0]);
      }
    }
  }

  // --- when the ledger is the service's alone

  function ServiceCommands(calls: seq<Call>): (commands: seq<Command>)
  {
    if |calls| == 0 then []
    else
      var last := calls[|calls| - 1];
      ServiceCommands(calls[..|calls| - 1]) + if last.Service? then [last.command] else []
  }

  /** The call goes past the service and is not refused, and it can at least add to the ledger. */
  predicate Interferes(call: Call)
  {
    !call.Service? && !AssertImmutable(call) && PowerOf(call) != Nothing
  }

  /** If no other call interferes, the ledger is what the service's own calls alone would have made of it. */
  lemma {:induction false} UndisturbedLedgerIsServices(calls: seq<Call>, writes: nat -> Write)
    requires forall i :: 0 <= i < |calls| ==> !Interferes(calls[i])
    ensures RunCalls([], calls, writes) == RunLedger(ServiceCommands(calls))
  {
    if |calls| > 0 {
      var init, last := calls[..|calls| - 1], calls[|calls| - 1];
      UndisturbedLedgerIsServices(init, writes);
      if last.Service? {
        RunLedgerSnoc(ServiceCommands(init), last.command);
      } else {
        assert ServiceCommands(init) + [] == ServiceCommands(init);
      }
    }
  }
}
