/**
 What the chains and state rows cannot show: each day's chain starts anew and a state row names one chain only, so
 any other chain can lose its end.
 */
module AuditDeletions {
  import opened AuditChain
  import opened AuditChainProperties

  /** Nothing but events of the first log, in any order and number. */
  predicate OnlyEventsOf(events: seq<AuditEvent>, all: seq<AuditEvent>)
  {
    forall e :: e in events ==> e in all
  }

  /** What is left of a tenant's chain is a beginning of it, and all of it if the tenant's state row names it. */
  ghost predicate LeavesBeginning(log: Log, left: seq<AuditEvent>, tenantId: string, day: int)
  {
    && Chain(left, tenantId, day) <= Chain(log.events, tenantId, day)
    && (tenantId in log.states && log.states[tenantId].day == day ==>
          Chain(left, tenantId, day) == Chain(log.events, tenantId, day))
  }

  ghost predicate LeavesBeginnings(log: Log, left: seq<AuditEvent>)
  {
    forall tenantId, day :: LeavesBeginning(log, left, tenantId, day)
  }

  lemma LinkedMemberKeepsPlace(part: seq<AuditEvent>, chain: seq<AuditEvent>, i: nat)
    requires Linked(part) && Linked(chain) && OnlyEventsOf(part, chain) && i < |part|
    ensures i < |chain| && part[i] == chain[i]
  {
    assert LinkedAt(part, i) && part[i] in chain;
    var k :| 0 <= k < |chain| && chain[k] == part[i];
    assert LinkedAt(chain, k);
  }

  /** A linked chain of another linked chain's events is a beginning of it. */
  lemma LinkedPartIsBeginning(part: seq<AuditEvent>, chain: seq<AuditEvent>)
    requires Linked(part) && Linked(chain) && OnlyEventsOf(part, chain)
    ensures part <= chain
  {
    if |part| > 0 {
      LinkedMemberKeepsPlace(part, chain, |part| - 1);
    }
    forall i | 0 <= i < |part| ensures part[i] == chain[i] {
      LinkedMemberKeepsPlace(part, chain, i);
    }
  }

  lemma BeginningIsLinked(part: seq<AuditEvent>, chain: seq<AuditEvent>)
    requires Linked(chain) && part <= chain
    ensures Linked(part)
  {
    forall i | 0 <= i < |part| ensures LinkedAt(part, i) {
      assert LinkedAt(chain, i);
    }
  }

  lemma ChainOfPart(left: seq<AuditEvent>, all: seq<AuditEvent>, tenantId: string, day: int)
    requires OnlyEventsOf(left, all)
    ensures OnlyEventsOf(Chain(left, tenantId, day), Chain(all, tenantId, day))
  {
    forall e | e in Chain(left, tenantId, day) ensures e in Chain(all, tenantId, day) {
      ChainMembers(left, tenantId, day, e);
      ChainMembers(all, tenantId, day, e);
    }
  }

  lemma WholeLogLeavesBeginning(hash: HashFunction, log: Log, left: seq<AuditEvent>, tenantId: string, day: int)
    requires LogOk(hash, log) && OnlyEventsOf(left, log.events) && LogOk(hash, log.(events := left))
    ensures LeavesBeginning(log, left, tenantId, day)
  {
    ChainOfPart(left, log.events, tenantId, day);
    LinkedPartIsBeginning(Chain(left, tenantId, day), Chain(log.events, tenantId, day));
    if tenantId in log.states {
      assert StateNamesLast(log, tenantId) && StateNamesLast(log.(events := left), tenantId);
    }
  }

  lemma BeginningsAreWhole(hash: HashFunction, log: Log, left: seq<AuditEvent>)
    requires LogOk(hash, log) && OnlyEventsOf(left, log.events) && LeavesBeginnings(log, left)
    ensures LogOk(hash, log.(events := left))
  {
    forall t, d ensures Linked(Chain(left, t, d)) {
      assert LeavesBeginning(log, left, t, d);
      BeginningIsLinked(Chain(left, t, d), Chain(log.events, t, d));
    }
    forall t | t in log.states ensures StateNamesLast(log.(events := left), t) {
      assert StateNamesLast(log, t) && LeavesBeginning(log, left, t, log.states[t].day);
    }
  }

  /**
   With the state rows as they are, a log left with some of its events is still whole exactly if it has a beginning of
   every chain and all of those that the state rows name.
   */
  lemma DeletionIsUnseenExactly(hash: HashFunction, log: Log, left: seq<AuditEvent>)
    requires LogOk(hash, log) && OnlyEventsOf(left, log.events)
    ensures LogOk(hash, log.(events := left)) <==> LeavesBeginnings(log, left)
  {
    if LogOk(hash, log.(events := left)) {
      forall tenantId, day ensures LeavesBeginning(log, left, tenantId, day) {
        WholeLogLeavesBeginning(hash, log, left, tenantId, day);
      }
    } else if LeavesBeginnings(log, left) {
      BeginningsAreWhole(hash, log, left);
    }
  }

  // --- a deleted day

  /** All events but those of one chain. */
  function Without(events: seq<AuditEvent>, tenantId: string, day: int): (left: seq<AuditEvent>)
    ensures forall e :: e in left <==> e in events && !InChain(e, tenantId, day)
  {
    if |events| == 0 then []
    else
      var last := events[|events| - 1];
      Without(events[..|events| - 1], tenantId, day) + if InChain(last, tenantId, day) then [] else [last]
  }

  lemma WithoutSnoc(events: seq<AuditEvent>, e: AuditEvent, tenantId: string, day: int)
    ensures Without(events + [e], tenantId, day)
         == Without(events, tenantId, day) + if InChain(e, tenantId, day) then [] else [e]
  {
  }

  lemma {:induction false} WithoutKeepsOthers(events: seq<AuditEvent>, tenantId: string, day: int, t: string, d: int)
    ensures Chain(Without(events, tenantId, day), t, d)
         == if t == tenantId && d == day then [] else Chain(events, t, d)
  {
    if |events| > 0 {
      var init, last := events[..|events| - 1], events[|events| - 1];
      assert events == init + [last];
      WithoutKeepsOthers(init, tenantId, day, t, d);
      WithoutSnoc(init, last, tenantId, day);
      ChainSnoc(init, last, t, d);
      if InChain(last, tenantId, day) {
        assert Without(init, tenantId, day) + [] == Without(init, tenantId, day);
      } else {
        ChainSnoc(Without(init, tenantId, day), last, t, d);
      }
    }
  }

  /** All events of a day but the tenant's last can be deleted, and the log is as whole as before. */
  lemma DeletedDayIsUnseen(hash: HashFunction, log: Log, tenantId: string, day: int)
    requires LogOk(hash, log) && tenantId in log.states && log.states[tenantId].day != day
    ensures var left := Without(log.events, tenantId, day);
      Chain(left, tenantId, day) == [] && LogOk(hash, log.(events := left))
  {
    var left := Without(log.events, tenantId, day);
    forall t, d ensures LeavesBeginning(log, left, t, d) {
      WithoutKeepsOthers(log.events, tenantId, day, t, d);
    }
    WithoutKeepsOthers(log.events, tenantId, day, tenantId, day);
    DeletionIsUnseenExactly(hash, log, left);
  }
}
