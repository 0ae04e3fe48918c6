/**
 Where a replayed answer comes from: a handler returned it to a client that had been told to execute, even
 if that client crashed later or was told that its completion had failed.
 */
module IdempotencyReplay {
  import opened Wrappers
  import opened CanonicalJson
  import opened CanonicalJsonProperties
  import opened Idempotency
  import opened IdempotencyProtocol

  /** At action n a handler returned the answer to client c, which was executing this request. */
  ghost predicate Returned(actions: seq<Action>, n: nat, c: nat, req: Request, statusCode: int, body: Json)
  {
    && n < |actions| && actions[n] == HandlerReturns(c, statusCode, body)
    && c in Run(actions[..n]).clients
    && Run(actions[..n]).clients[c].Executing? && Run(actions[..n]).clients[c].req == req
  }

  ghost predicate HasOrigin(actions: seq<Action>, slot: Slot, hash: Units, statusCode: int, body: Json)
  {
    exists n: nat, c: nat, req: Request ::
      Returned(actions, n, c, req, statusCode, body) && req.slot == slot && req.hash == hash
  }

  lemma OriginStays(actions: seq<Action>, slot: Slot, hash: Units, statusCode: int, body: Json)
    requires |actions| > 0 && HasOrigin(actions[..|actions| - 1], slot, hash, statusCode, body)
    ensures HasOrigin(actions, slot, hash, statusCode, body)
  {
    var init := actions[..|actions| - 1];
    var n: nat, c: nat, req: Request :|
      Returned(init, n, c, req, statusCode, body) && req.slot == slot && req.hash == hash;
    assert init[..n] == actions[..n];
    assert Returned(actions, n, c, req, statusCode, body);
  }

  /** The answer a client is about to store, and every stored answer, came from a handler. */
  ghost predicate ClientOrigin(actions: seq<Action>, client: Client)
  {
    client.Completing? ==> HasOrigin(actions, client.req.slot, client.req.hash, client.statusCode, client.body)
  }

  ghost predicate RecordOrigin(actions: seq<Action>, slot: Slot, record: Record)
  {
    record.status == COMPLETED ==>
      record.responseStatus.Some?
      && HasOrigin(actions, slot, record.requestHash, record.responseStatus.value, record.responseBody)
  }

  ghost predicate Origins(actions: seq<Action>)
  {
    && (forall c :: c in Run(actions).clients ==> ClientOrigin(actions, Run(actions).clients[c]))
    && (forall slot :: slot in Run(actions).table.records ==>
          RecordOrigin(actions, slot, Run(actions).table.records[slot]))
  }

  /** Only its handler's return makes a client complete. */
  lemma CompletingBegins(s: State, a: Action, c: nat)
    requires c in Step(s, a).clients && Step(s, a).clients[c].Completing?
    requires !(c in s.clients && s.clients[c] == Step(s, a).clients[c])
    ensures c in s.clients && s.clients[c].Executing? && s.clients[c].req == Step(s, a).clients[c].req
    ensures a == HandlerReturns(c, Step(s, a).clients[c].statusCode, Step(s, a).clients[c].body)
  {
  }

  /** Only a completing client completes a record: that of its own request, with its own answer. */
  lemma CompletedBegins(s: State, a: Action, slot: Slot)
    requires Inv(s) && slot in Step(s, a).table.records && Step(s, a).table.records[slot].status == COMPLETED
    requires !(slot in s.table.records && s.table.records[slot] == Step(s, a).table.records[slot])
    ensures a.c in s.clients && s.clients[a.c].Completing? && s.clients[a.c].req.slot == slot
    ensures var record, client := Step(s, a).table.records[slot], s.clients[a.c];
      record.requestHash == client.req.hash && record.responseStatus == Some(client.statusCode)
      && record.responseBody == client.body
  {
    if a.c in s.clients {
      assert ClientOk(s.table, s.clients[a.c]);
    }
  }

  lemma ClientOriginStep(actions: seq<Action>, c: nat)
    requires |actions| > 0 && Origins(actions[..|actions| - 1]) && c in Run(actions).clients
    ensures ClientOrigin(actions, Run(actions).clients[c])
  {
    var n := |actions| - 1;
    var init := actions[..n];
    var s, client := Run(init), Run(actions).clients[c];
    if client.Completing? {
      if c in s.clients && s.clients[c] == client {
        assert ClientOrigin(init, client);
        OriginStays(actions, client.req.slot, client.req.hash, client.statusCode, client.body);
      } else {
        CompletingBegins(s, actions[n], c);
        assert Returned(actions, n, c, client.req, client.statusCode, client.body);
      }
    }
  }

  lemma RecordOriginStep(actions: seq<Action>, slot: Slot)
    requires |actions| > 0 && Origins(actions[..|actions| - 1]) && slot in Run(actions).table.records
    ensures RecordOrigin(actions, slot, Run(actions).table.records[slot])
  {
    var n := |actions| - 1;
    var init := actions[..n];
    var s, record := Run(init), Run(actions).table.records[slot];
    if record.status == COMPLETED {
      if slot in s.table.records && s.table.records[slot] == record {
        assert RecordOrigin(init, slot, record);
        OriginStays(actions, slot, record.requestHash, record.responseStatus.value, record.responseBody);
      } else {
        InvHolds(init);
        CompletedBegins(s, actions[n], slot);
        var client := s.clients[actions[n].c];
        assert ClientOrigin(init, client);
        OriginStays(actions, slot, client.req.hash, client.statusCode, client.body);
      }
    }
  }

  lemma {:induction false} OriginsHold(actions: seq<Action>)
    ensures Origins(actions)
  {
    if |actions| > 0 {
      OriginsHold(actions[..|actions| - 1]);
      forall c | c in Run(actions).clients ensures ClientOrigin(actions, Run(actions).clients[c]) {
        ClientOriginStep(actions, c);
      }
      forall slot | slot in Run(actions).table.records
        ensures RecordOrigin(actions, slot, Run(actions).table.records[slot])
      {
        RecordOriginStep(actions, slot);
      }
    }
  }

  /**
   Every replayed answer is one that a handler returned to a client executing for the same slot with the
   same hash; with an injective digest and hashes computed from the bodies, for the same body.
   */
  lemma EveryReplayIsAHandlersAnswer(digest: Units -> Units, actions: seq<Action>, d: nat)
    returns (n: nat, c: nat, req: Request)
    requires Injective(digest)
    requires d in Run(actions).clients && Run(actions).clients[d].Done? && Run(actions).clients[d].outcome.Replayed?
    ensures var client := Run(actions).clients[d];
      && Returned(actions, n, c, req, client.outcome.statusCode, client.outcome.body)
      && req.slot == client.req.slot && req.hash == client.req.hash
      && (ProperRequest(digest, req) && ProperRequest(digest, client.req) ==> SameValue(req.body, client.req.body))
  {
    var s := Run(actions);
    var client := s.clients[d];
    var slot := client.req.slot;
    InvHolds(actions);
    OriginsHold(actions);
    assert ClientOk(s.table, client);
    assert RecordOrigin(actions, slot, s.table.records[slot]);
    n, c, req :| Returned(actions, n, c, req, client.outcome.statusCode, client.outcome.body)
      && req.slot == slot && req.hash == client.req.hash;
    if ProperRequest(digest, req) && ProperRequest(digest, client.req) {
      SameHashMeansSameBody(digest, slot.requestMethod, slot.requestPath, req.body, client.req.body);
    }
  }
}
