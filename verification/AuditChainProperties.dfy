/**
 The chains are tamper evident, and every run keeps them whole: what a clock that goes back can do is
 lose events, and only then.
 */
module AuditChainProperties {
  import opened Wrappers
  import opened CanonicalJson
  import opened CanonicalJsonProperties
  import opened AuditChain

  // --- the payload tells its parts apart

  function DecimalValue(u: Units): (n: int)
  {
    if |u| == 0 then 0 else 10 * DecimalValue(u[..|u| - 1]) + u[|u| - 1] - 0x30
  }

  lemma {:induction false} DecimalRoundTrip(n: nat)
    ensures DecimalValue(Decimal(n)) == n
    ensures IsNumberToken(Decimal(n))
  {
    if n >= 10 {
      DecimalRoundTrip(n / 10);
      assert Decimal(n)[..|Decimal(n)| - 1] == Decimal(n / 10);
    } else {
      assert Decimal(n)[..0] == [];
    }
  }

  predicate IsLinkKey(key: Units)
  {
    key in {PREV_HASH, SEQUENCE, SIGNATURE_VERSION}
  }

  /** The content is a plain JSON object without the chain's own keys. */
  ghost predicate ContentOk(content: seq<Member>)
  {
    WellFormed(Obj(content)) && forall m :: m in content ==> !IsLinkKey(m.key)
  }

  lemma LinkKeysDiffer()
    ensures PREV_HASH != SEQUENCE && PREV_HASH != SIGNATURE_VERSION && SEQUENCE != SIGNATURE_VERSION
  {
  }

  /** The chain's members of the payload, by name: a text or null, a number, and the version 1. */
  lemma LinksRead(prevHash: Option<Units>, sequence: nat)
    ensures var links := Links(prevHash, sequence);
      && |links| == 3
      && Reads(links[0].key, "prevHash") && links[0].value == (if prevHash.Some? then Str(prevHash.value) else Null)
      && Reads(links[1].key, "sequence") && links[1].value == Number(Decimal(sequence))
      && Reads(links[2].key, "signatureVersion") && links[2].value.Number? && Reads(links[2].value.token, "1")
  {
  }

  lemma LinksAreWellFormed(prevHash: Option<Units>, sequence: nat)
    ensures WellFormed(Obj(Links(prevHash, sequence)))
    ensures forall m :: m in Links(prevHash, sequence) ==> IsLinkKey(m.key)
  {
    LinkKeysDiffer();
    DecimalRoundTrip(sequence);
    DecimalRoundTrip(1);
  }

  lemma JoinIsWellFormed(a: seq<Member>, b: seq<Member>)
    requires WellFormed(Obj(a)) && WellFormed(Obj(b))
    requires forall m, n :: m in a && n in b ==> m.key != n.key
    ensures WellFormed(Obj(a + b))
  {
  }

  lemma PayloadIsWellFormed(content: seq<Member>, prevHash: Option<Units>, sequence: nat)
    requires ContentOk(content)
    ensures WellFormed(Payload(content, prevHash, sequence))
  {
    LinksAreWellFormed(prevHash, sequence);
    JoinIsWellFormed(content, Links(prevHash, sequence));
  }

  /** Members whose keys are not among the tail's are matched outside the tail. */
  lemma SameContent(a: seq<Member>, linksA: seq<Member>, b: seq<Member>, linksB: seq<Member>)
    requires SameValue(Obj(a + linksA), Obj(b + linksB)) && |linksA| == |linksB|
    requires forall m :: m in a ==> !IsLinkKey(m.key)
    requires forall m :: m in linksB ==> IsLinkKey(m.key)
    ensures SameValue(Obj(a), Obj(b))
  {
  }

  lemma LinkMatches(a: seq<Member>, linksA: seq<Member>, b: seq<Member>, linksB: seq<Member>, i: nat)
    requires SameValue(Obj(a + linksA), Obj(b + linksB)) && i < |linksA| && i < |linksB|
    requires linksA[i].key == linksB[i].key && IsLinkKey(linksB[i].key)
    requires UniqueKeys(linksB) && forall n :: n in b ==> !IsLinkKey(n.key)
    ensures SameValue(linksA[i].value, linksB[i].value)
  {
  }

  lemma SameLeaf(p: Option<Units>, q: Option<Units>)
    requires SameValue(PrevHashJson(p), PrevHashJson(q))
    ensures p == q
  {
  }

  /** Payloads that are the same value have the same link members and the same content. */
  lemma SamePayloadSameParts(
    a: seq<Member>, prevA: Option<Units>, seqA: nat, b: seq<Member>, prevB: Option<Units>, seqB: nat)
    requires ContentOk(a) && ContentOk(b)
    requires SameValue(Payload(a, prevA, seqA), Payload(b, prevB, seqB))
    ensures prevA == prevB && seqA == seqB && SameValue(Obj(a), Obj(b))
  {
    var linksA, linksB := Links(prevA, seqA), Links(prevB, seqB);
    LinksAreWellFormed(prevB, seqB);
    SameContent(a, linksA, b, linksB);
    LinkMatches(a, linksA, b, linksB, 0);
    LinkMatches(a, linksA, b, linksB, 1);
    SameLeaf(prevA, prevB);
    DecimalRoundTrip(seqA);
    DecimalRoundTrip(seqB);
  }

  // --- tamper evidence

  /** The hash recomputes from the event's content, its prevHash and its sequence. */
  predicate HashRecomputes(hash: HashFunction, e: AuditEvent)
  {
    e.hash == hash(e.content, e.prevHash, e.sequence)
  }

  predicate LinkedAt(chain: seq<AuditEvent>, i: nat)
    requires i < |chain|
  {
    && chain[i].sequence == i + 1
    && chain[i].prevHash == if i == 0 then None else Some(chain[i - 1].hash)
  }

  /** Sequences run from 1, each event names the hash before it, and the first names none. */
  predicate Linked(chain: seq<AuditEvent>)
  {
    forall i :: 0 <= i < |chain| ==> LinkedAt(chain, i)
  }

  lemma LinkedPrefix(chain: seq<AuditEvent>)
    requires Linked(chain) && |chain| > 0
    ensures Linked(chain[..|chain| - 1])
    ensures LinkedAt(chain, |chain| - 1)
  {
    var init := chain[..|chain| - 1];
    forall i | 0 <= i < |init| ensures LinkedAt(init, i) {
      assert LinkedAt(chain, i);
    }
  }

  lemma LinkedSnoc(chain: seq<AuditEvent>, e: AuditEvent)
    requires Linked(chain) && e.sequence == |chain| + 1
    requires e.prevHash == if |chain| == 0 then None else Some(chain[|chain| - 1].hash)
    ensures Linked(chain + [e])
  {
    forall i | 0 <= i < |chain + [e]| ensures LinkedAt(chain + [e], i) {
      if i < |chain| {
        assert LinkedAt(chain, i);
      }
    }
  }

  ghost predicate Verifies(hash: HashFunction, chain: seq<AuditEvent>)
  {
    && Linked(chain)
    && forall i :: 0 <= i < |chain| ==> HashOf(hash, chain[i])
  }

  ghost predicate SameEvent(a: AuditEvent, b: AuditEvent)
  {
    a.prevHash == b.prevHash && a.sequence == b.sequence && SameValue(Obj(a.content), Obj(b.content))
  }

  ghost predicate HashOf(hash: HashFunction, e: AuditEvent)
  {
    HashRecomputes(hash, e) && ContentOk(e.content)
  }

  /** A hash function that tells events apart. */
  ghost predicate Separates(hash: HashFunction)
  {
    forall a, b :: HashOf(hash, a) && HashOf(hash, b) && a.hash == b.hash ==> SameEvent(a, b)
  }

  lemma EqualHashesEqualEvents(leq: (Units, Units) -> bool, digest: Units -> Units, a: AuditEvent, b: AuditEvent)
    requires TotalOrder(leq) && Injective(digest)
    requires HashOf(AuditHash(leq, digest), a) && HashOf(AuditHash(leq, digest), b)
    requires a.hash == b.hash
    ensures SameEvent(a, b)
  {
    var pa, pb := Payload(a.content, a.prevHash, a.sequence), Payload(b.content, b.prevHash, b.sequence);
    PayloadIsWellFormed(a.content, a.prevHash, a.sequence);
    PayloadIsWellFormed(b.content, b.prevHash, b.sequence);
    PrintIsCanonical(leq, pa, pb);
    SamePayloadSameParts(a.content, a.prevHash, a.sequence, b.content, b.prevHash, b.sequence);
  }

  /** With an injective digest and a total key order, the audit hash tells events apart. */
  lemma AuditHashSeparates(leq: (Units, Units) -> bool, digest: Units -> Units)
    requires TotalOrder(leq) && Injective(digest)
    ensures Separates(AuditHash(leq, digest))
  {
    var hash := AuditHash(leq, digest);
    forall a, b | HashOf(hash, a) && HashOf(hash, b) && a.hash == b.hash ensures SameEvent(a, b) {
      EqualHashesEqualEvents(leq, digest, a, b);
    }
  }

  lemma PrefixVerifies(hash: HashFunction, chain: seq<AuditEvent>)
    requires Verifies(hash, chain) && |chain| > 0
    ensures Verifies(hash, chain[..|chain| - 1])
    ensures LinkedAt(chain, |chain| - 1) && HashOf(hash, chain[|chain| - 1])
  {
    LinkedPrefix(chain);
  }

  /** The same contents and hashes in the same order. */
  ghost predicate SameChain(a: seq<AuditEvent>, b: seq<AuditEvent>)
  {
    && |a| == |b|
    && forall i :: 0 <= i < |a| ==> a[i].hash == b[i].hash && SameValue(Obj(a[i].content), Obj(b[i].content))
  }

  lemma SameChainSnoc(a: seq<AuditEvent>, b: seq<AuditEvent>)
    requires |a| > 0 && |b| > 0 && SameChain(a[..|a| - 1], b[..|b| - 1])
    requires a[|a| - 1].hash == b[|b| - 1].hash && SameValue(Obj(a[|a| - 1].content), Obj(b[|b| - 1].content))
    ensures SameChain(a, b)
  {
  }

  lemma {:induction false} LastHashSeparates(hash: HashFunction, a: seq<AuditEvent>, b: seq<AuditEvent>)
    requires Separates(hash) && Verifies(hash, a) && Verifies(hash, b)
    requires |a| > 0 && |b| > 0 && a[|a| - 1].hash == b[|b| - 1].hash
    ensures SameChain(a, b)
  {
    PrefixVerifies(hash, a);
    PrefixVerifies(hash, b);
    assert SameEvent(a[|a| - 1], b[|b| - 1]);
    if |a| > 1 {
      LastHashSeparates(hash, a[..|a| - 1], b[..|b| - 1]);
    }
    SameChainSnoc(a, b);
  }

  /**
   Tamper evidence: two chains that both verify and end in the same hash are equally long and hold the
   same contents in the same order.
   */
  lemma LastHashFixesChain(leq: (Units, Units) -> bool, digest: Units -> Units, a: seq<AuditEvent>, b: seq<AuditEvent>)
    requires TotalOrder(leq) && Injective(digest)
    requires Verifies(AuditHash(leq, digest), a) && Verifies(AuditHash(leq, digest), b)
    requires |a| > 0 && |b| > 0 && a[|a| - 1].hash == b[|b| - 1].hash
    ensures |a| == |b|
    ensures forall i :: 0 <= i < |a| ==> a[i].hash == b[i].hash && SameValue(Obj(a[i].content), Obj(b[i].content))
  {
    AuditHashSeparates(leq, digest);
    LastHashSeparates(AuditHash(leq, digest), a, b);
  }

  /** So a chain that still verifies with another content somewhere, or another length, ends in another hash. */
  lemma TamperingChangesLastHash(
    leq: (Units, Units) -> bool, digest: Units -> Units, original: seq<AuditEvent>, altered: seq<AuditEvent>)
    requires TotalOrder(leq) && Injective(digest)
    requires Verifies(AuditHash(leq, digest), original) && Verifies(AuditHash(leq, digest), altered)
    requires |original| > 0 && |altered| > 0
    requires |original| != |altered|
      || exists i :: 0 <= i < |original| && !SameValue(Obj(original[i].content), Obj(altered[i].content))
    ensures original[|original| - 1].hash != altered[|altered| - 1].hash
  {
    if original[|original| - 1].hash == altered[|altered| - 1].hash {
      LastHashFixesChain(leq, digest, original, altered);
    }
  }

  // --- every run

  datatype Request = Request(tenantId: string, day: int, content: seq<Member>)

  function Run(hash: HashFunction, requests: seq<Request>): (log: Log)
  {
    if |requests| == 0 then Log([], map[])
    else
      var last := requests[|requests| - 1];
      Append(hash, Run(hash, requests[..|requests| - 1]), last.tenantId, last.day, last.content).0
  }

  predicate InChain(e: AuditEvent, tenantId: string, day: int)
  {
    e.tenantId == tenantId && e.day == day
  }

  /** The events of one chain, in the order they were written. */
  function Chain(events: seq<AuditEvent>, tenantId: string, day: int): (chain: seq<AuditEvent>)
  {
    if |events| == 0 then []
    else
      var last := events[|events| - 1];
      Chain(events[..|events| - 1], tenantId, day) + if InChain(last, tenantId, day) then [last] else []
  }

  lemma ChainSnoc(events: seq<AuditEvent>, e: AuditEvent, tenantId: string, day: int)
    ensures Chain(events + [e], tenantId, day)
         == Chain(events, tenantId, day) + if InChain(e, tenantId, day) then [e] else []
  {
  }

  lemma {:induction false} ChainMembers(events: seq<AuditEvent>, tenantId: string, day: int, e: AuditEvent)
    ensures e in Chain(events, tenantId, day) <==> e in events && InChain(e, tenantId, day)
  {
    if |events| > 0 {
      var init, last := events[..|events| - 1], events[|events| - 1];
      ChainMembers(init, tenantId, day, e);
      assert e in events <==> e in init || e == last;
    }
  }

  /** The state row names the last event of its chain, which is not empty. */
  ghost predicate StateNamesLast(log: Log, tenantId: string)
    requires tenantId in log.states
  {
    var state := log.states[tenantId];
    var chain := Chain(log.events, tenantId, state.day);
    && |chain| > 0
    && state.lastSequence == |chain|
    && state.lastHash == Some(chain[|chain| - 1].hash)
  }

  ghost predicate LogOk(hash: HashFunction, log: Log)
  {
    && (forall e :: e in log.events ==> HashRecomputes(hash, e) && e.tenantId in log.states)
    && (forall tenantId, day :: Linked(Chain(log.events, tenantId, day)))
    && (forall tenantId :: tenantId in log.states ==> StateNamesLast(log, tenantId))
  }

  /** The tenant's day changes to one that already has events. */
  ghost predicate Reopens(log: Log, tenantId: string, day: int)
  {
    tenantId in log.states && log.states[tenantId].day != day && |Chain(log.events, tenantId, day)| > 0
  }

  lemma TakenMeansInChain(events: seq<AuditEvent>, e: AuditEvent)
    ensures var chain := Chain(events, e.tenantId, e.day);
      IsTaken(events, e) <==> exists k :: 0 <= k < |chain| && chain[k].sequence == e.sequence
  {
    var chain := Chain(events, e.tenantId, e.day);
    if i :| 0 <= i < |events| && InChain(events[i], e.tenantId, e.day) && events[i].sequence == e.sequence {
      ChainMembers(events, e.tenantId, e.day, events[i]);
      var k :| 0 <= k < |chain| && chain[k] == events[i];
    }
    if k :| 0 <= k < |chain| && chain[k].sequence == e.sequence {
      ChainMembers(events, e.tenantId, e.day, chain[k]);
      var i :| 0 <= i < |events| && events[i] == chain[k];
    }
  }

  /** A tenant without a state row has no events. */
  lemma NoStateNoEvents(hash: HashFunction, log: Log, tenantId: string, day: int)
    requires LogOk(hash, log) && tenantId !in log.states
    ensures Chain(log.events, tenantId, day) == []
  {
    var chain := Chain(log.events, tenantId, day);
    if |chain| > 0 {
      ChainMembers(log.events, tenantId, day, chain[0]);
    }
  }

  /** The next event continues its chain unless the day reopens, and then it starts the chain again at 1. */
  lemma NextEventContinues(hash: HashFunction, log: Log, tenantId: string, day: int, content: seq<Member>)
    requires LogOk(hash, log)
    ensures var e := NextEvent(hash, CurrentState(log, tenantId, day), tenantId, day, content);
      var chain := Chain(log.events, tenantId, day);
      && HashRecomputes(hash, e)
      && (Reopens(log, tenantId, day) ==> e.sequence == 1)
      && (!Reopens(log, tenantId, day) ==>
            && e.sequence == |chain| + 1
            && e.prevHash == if |chain| == 0 then None else Some(chain[|chain| - 1].hash))
  {
    if tenantId in log.states {
      assert StateNamesLast(log, tenantId);
    } else {
      NoStateNoEvents(hash, log, tenantId, day);
    }
  }

  /** The insert is refused exactly when the day changes to one that already has events. */
  lemma RefusedExactlyWhenDayReopens(hash: HashFunction, log: Log, tenantId: string, day: int, content: seq<Member>)
    requires LogOk(hash, log)
    ensures !Append(hash, log, tenantId, day, content).1 <==> Reopens(log, tenantId, day)
  {
    var e := NextEvent(hash, CurrentState(log, tenantId, day), tenantId, day, content);
    var chain := Chain(log.events, tenantId, day);
    NextEventContinues(hash, log, tenantId, day, content);
    TakenMeansInChain(log.events, e);
    forall k | 0 <= k < |chain| ensures chain[k].sequence == k + 1 {
      assert LinkedAt(chain, k);
    }
    if Reopens(log, tenantId, day) {
      assert LinkedAt(chain, 0);
    }
  }

  /** Writing an event that continues its chain keeps the log whole. */
  lemma WritingKeepsLogOk(hash: HashFunction, log: Log, e: AuditEvent)
    requires LogOk(hash, log) && HashRecomputes(hash, e)
    requires var chain := Chain(log.events, e.tenantId, e.day);
      && e.sequence == |chain| + 1
      && e.prevHash == if |chain| == 0 then None else Some(chain[|chain| - 1].hash)
    ensures LogOk(hash, Written(log, e))
  {
    var after := Written(log, e);
    forall t, d ensures Linked(Chain(after.events, t, d)) {
      ChainSnoc(log.events, e, t, d);
      var chain := Chain(log.events, t, d);
      assert Linked(chain);
      if InChain(e, t, d) {
        LinkedSnoc(chain, e);
      } else {
        assert chain + [] == chain;
      }
    }
    forall t | t in after.states ensures StateNamesLast(after, t) {
      ChainSnoc(log.events, e, t, after.states[t].day);
      if t != e.tenantId {
        assert StateNamesLast(log, t);
        var chain := Chain(log.events, t, after.states[t].day);
        assert chain + [] == chain;
      }
    }
  }

  lemma AppendKeepsLogOk(hash: HashFunction, log: Log, tenantId: string, day: int, content: seq<Member>)
    requires LogOk(hash, log)
    ensures LogOk(hash, Append(hash, log, tenantId, day, content).0)
  {
    var e := NextEvent(hash, CurrentState(log, tenantId, day), tenantId, day, content);
    RefusedExactlyWhenDayReopens(hash, log, tenantId, day, content);
    if !Reopens(log, tenantId, day) {
      NextEventContinues(hash, log, tenantId, day, content);
      WritingKeepsLogOk(hash, log, e);
    }
  }

  /**
   After any run, whatever the clock does: every chain carries the sequences 1..n, its first event has no
   prevHash, each later one names its predecessor's hash, every hash recomputes, and each tenant's state
   row names the last event of the chain it points to.
   */
  lemma {:induction false} EveryRunIsOk(hash: HashFunction, requests: seq<Request>)
    ensures LogOk(hash, Run(hash, requests))
  {
    if |requests| > 0 {
      var last := requests[|requests| - 1];
      EveryRunIsOk(hash, requests[..|requests| - 1]);
      AppendKeepsLogOk(hash, Run(hash, requests[..|requests| - 1]), last.tenantId, last.day, last.content);
    }
  }

  lemma RunSnoc(hash: HashFunction, requests: seq<Request>, r: Request)
    ensures Run(hash, requests + [r]) == Append(hash, Run(hash, requests), r.tenantId, r.day, r.content).0
  {
    assert (requests + [r])[..|requests|] == requests;
  }

  /** Days d, e, d: the third event is refused and lost. */
  lemma ReopenedDayLosesEvent(hash: HashFunction, first: Request, second: Request, third: Request)
    requires first.tenantId == second.tenantId == third.tenantId && first.day == third.day != second.day
    ensures var requests := [first] + [second];
      && |Run(hash, requests).events| == 2
      && !Append(hash, Run(hash, requests), third.tenantId, third.day, third.content).1
      && Run(hash, requests + [third]) == Run(hash, requests)
  {
    var t := first.tenantId;
    var one, two := Run(hash, [first]), Run(hash, [first] + [second]);
    RunSnoc(hash, [], first);
    assert [] + [first] == [first];
    RunSnoc(hash, [first], second);
    RunSnoc(hash, [first] + [second], third);
    EveryRunIsOk(hash, [first]);
    EveryRunIsOk(hash, [first] + [second]);
    assert one.events == [] + [one.events[0]];
    ChainSnoc([], one.events[0], t, second.day);
    RefusedExactlyWhenDayReopens(hash, one, t, second.day, second.content);
    ChainMembers(two.events, t, first.day, one.events[0]);
    RefusedExactlyWhenDayReopens(hash, two, t, third.day, third.content);
  }

  /** A tenant's clock does not go back. */
  ghost predicate DaysNeverGoBack(requests: seq<Request>)
  {
    forall i, j :: 0 <= i < j < |requests| && requests[i].tenantId == requests[j].tenantId ==>
      requests[i].day <= requests[j].day
  }

  predicate IsRequestOf(r: Request, e: AuditEvent)
  {
    r.tenantId == e.tenantId && r.day == e.day && r.content == e.content
  }

  predicate Asked(requests: seq<Request>, tenantId: string, day: int)
  {
    exists i :: 0 <= i < |requests| && requests[i].tenantId == tenantId && requests[i].day == day
  }

  /** Every request is in the log, in order, and the state rows point to the newest chains. */
  ghost predicate Complete(requests: seq<Request>, log: Log)
  {
    && |log.events| == |requests|
    && (forall i :: 0 <= i < |requests| ==> IsRequestOf(requests[i], log.events[i]))
    && (forall e :: e in log.events ==> e.tenantId in log.states && e.day <= log.states[e.tenantId].day)
    && (forall tenantId :: tenantId in log.states ==> Asked(requests, tenantId, log.states[tenantId].day))
  }

  lemma CompleteSnoc(requests: seq<Request>, log: Log, e: AuditEvent)
    requires |requests| > 0 && Complete(requests[..|requests| - 1], log)
    requires IsRequestOf(requests[|requests| - 1], e)
    requires e.tenantId in log.states ==> log.states[e.tenantId].day <= e.day
    ensures Complete(requests, Written(log, e))
  {
  }

  /** If no tenant's clock goes back, no event is lost. */
  lemma {:induction false} NothingIsLostIfDaysNeverGoBack(hash: HashFunction, requests: seq<Request>)
    requires DaysNeverGoBack(requests)
    ensures Complete(requests, Run(hash, requests))
  {
    if |requests| > 0 {
      var n := |requests| - 1;
      var init, last := requests[..n], requests[n];
      NothingIsLostIfDaysNeverGoBack(hash, init);
      EveryRunIsOk(hash, init);
      var log := Run(hash, init);
      NewestDayIsNotReopened(requests, log);
      RefusedExactlyWhenDayReopens(hash, log, last.tenantId, last.day, last.content);
      var current := CurrentState(log, last.tenantId, last.day);
      CompleteSnoc(requests, log, NextEvent(hash, current, last.tenantId, last.day, last.content));
    }
  }

  lemma NewestDayIsNotReopened(requests: seq<Request>, log: Log)
    requires |requests| > 0 && DaysNeverGoBack(requests) && Complete(requests[..|requests| - 1], log)
    ensures var last := requests[|requests| - 1];
      && !Reopens(log, last.tenantId, last.day)
      && (last.tenantId in log.states ==> log.states[last.tenantId].day <= last.day)
  {
    var n := |requests| - 1;
    var last := requests[n];
    var chain := Chain(log.events, last.tenantId, last.day);
    if last.tenantId in log.states {
      assert Asked(requests[..n], last.tenantId, log.states[last.tenantId].day);
      var i :| 0 <= i < n && requests[..n][i].tenantId == last.tenantId
        && requests[..n][i].day == log.states[last.tenantId].day;
      assert requests[i].day <= requests[n].day;
      if |chain| > 0 {
        ChainMembers(log.events, last.tenantId, last.day, chain[0]);
      }
    }
  }

  /** Every chain of every run verifies, provided only that contents are plain JSON without the chain's keys. */
  lemma EveryChainVerifies(hash: HashFunction, requests: seq<Request>, tenantId: string, day: int)
    requires forall i :: 0 <= i < |requests| ==> ContentOk(requests[i].content)
    ensures Verifies(hash, Chain(Run(hash, requests).events, tenantId, day))
  {
    EveryRunIsOk(hash, requests);
    ContentsOk(hash, requests);
    var events := Run(hash, requests).events;
    var chain := Chain(events, tenantId, day);
    forall i | 0 <= i < |chain| ensures HashOf(hash, chain[i]) {
      ChainMembers(events, tenantId, day, chain[i]);
    }
  }

  lemma {:induction false} ContentsOk(hash: HashFunction, requests: seq<Request>)
    requires forall i :: 0 <= i < |requests| ==> ContentOk(requests[i].content)
    ensures forall e :: e in Run(hash, requests).events ==> ContentOk(e.content)
  {
    if |requests| > 0 {
      ContentsOk(hash, requests[..|requests| - 1]);
    }
  }
}
