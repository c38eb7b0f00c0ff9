/** The Trust Authority's in-memory store: receipts, seen identifiers, issuers and agents. Times are milliseconds. */
module TrustStore {
  import opened Basics

  // ---------------------------------------------------------------- receipts

  /** A receipt identifier as submitted: any JSON value. Arrays and objects are parsed into new objects each time. */
  datatype Identifier = Text(text: string) | Number(value: real) | Flag(b: bool) | Null | Structured(json: string)

  /**
   * `timestamp` is what the submitted value converts to in arithmetic, None
   * when that is not a number: it then compares false to everything.
   */
  datatype StoredReceipt = StoredReceipt(
    id: Identifier, agentId: string, issuerId: string, domain: string, timestamp: Option<int>, score: real,
    acceptedAt: int)

  datatype Holdings = Holdings(receipts: map<string, seq<StoredReceipt>>, seen: map<Identifier, int>)

  /** A map finds arrays and objects by reference, so it never finds them again. */
  predicate Remembered(seen: map<Identifier, int>, id: Identifier)
  {
    !id.Structured? && id in seen
  }

  /** The entry of an array or object can never be found, so it is not recorded. */
  function Remember(seen: map<Identifier, int>, id: Identifier, acceptedAt: int): map<Identifier, int>
  {
    if id.Structured? then seen else seen[id := acceptedAt]
  }

  function Key(agentId: string, domain: string): string
  {
    agentId + ":" + domain
  }

  function Lookup(receipts: map<string, seq<StoredReceipt>>, key: string): seq<StoredReceipt>
  {
    if key in receipts then receipts[key] else []
  }

  function Store(h: Holdings, r: StoredReceipt): Holdings
  {
    var key := Key(r.agentId, r.domain);
    Holdings(h.receipts[key := Lookup(h.receipts, key) + [r]], Remember(h.seen, r.id, r.acceptedAt))
  }

  predicate YoungEnough(r: StoredReceipt, now: int, maxAge: int)
  {
    r.timestamp.Some? && now - r.timestamp.value <= maxAge
  }

  function Fresh(rs: seq<StoredReceipt>, now: int, maxAge: int): seq<StoredReceipt>
  {
    if rs == [] then []
    else
      var front, r := Fresh(rs[..|rs| - 1], now, maxAge), rs[|rs| - 1];
      if YoungEnough(r, now, maxAge) then front + [r] else front
  }

  function Prune(h: Holdings, now: int, maxAge: int): Holdings
  {
    Holdings(
      map key | key in h.receipts && Fresh(h.receipts[key], now, maxAge) != [] :: Fresh(h.receipts[key], now, maxAge),
      map id | id in h.seen && now - h.seen[id] <= maxAge :: h.seen[id])
  }

  // ---------------------------------------------------------------- issuers and agents

  datatype IssuerType = Infrastructure | AgentPeer

  datatype Issuer = Issuer(
    publicKey: string, issuerType: IssuerType, minAttesterScore: Option<real>, confirmationUrl: Option<string>)

  datatype Mode = Auto | Manual | Supervised

  datatype Status = Active | Quarantined | Blocked

  datatype AgentRecord = AgentRecord(
    apiKey: string, blocked: bool, blockedReason: Option<string>,
    mode: Option<Mode>, reason: Option<string>, since: Option<int>, expiresAt: Option<int>)

  function NewAgent(apiKey: string): AgentRecord
  {
    AgentRecord(apiKey, false, None, None, None, None, None)
  }

  function Block(a: AgentRecord, reason: string): AgentRecord
  {
    a.(blocked := true, blockedReason := Some(reason))
  }

  function Quarantine(a: AgentRecord, mode: Mode, reason: string, now: int, expiresAt: Option<int>): AgentRecord
  {
    if a.blocked then a
    else a.(mode := Some(mode), reason := Some(reason), since := Some(now), expiresAt := expiresAt)
  }

  function Lift(a: AgentRecord): AgentRecord
  {
    if a.blocked then a else a.(mode := None, reason := None, since := None, expiresAt := None)
  }

  /** A timed quarantine has run out; an expiry of zero counts as none. */
  predicate Expired(a: AgentRecord, now: int)
  {
    a.mode.Some? && a.expiresAt.Some? && a.expiresAt.value != 0 && a.expiresAt.value < now
  }

  function StatusOf(a: AgentRecord, now: int): Status
  {
    if a.blocked then Blocked else if a.mode.Some? && !Expired(a, now) then Quarantined else Active
  }

  /** Asking for the status lifts an expired quarantine. */
  function AfterStatus(a: AgentRecord, now: int): AgentRecord
  {
    if Expired(a, now) then Lift(a) else a
  }

  /** A block outweighs all; a quarantine holds until after its expiry, if it has one other than zero. */
  lemma StatusExactlyWhen(a: AgentRecord, now: int)
    ensures StatusOf(a, now) == Blocked <==> a.blocked
    ensures StatusOf(a, now) == Quarantined <==>
      !a.blocked && a.mode.Some? && (a.expiresAt.Some? && a.expiresAt.value != 0 ==> now <= a.expiresAt.value)
  {
  }

  /** Neither quarantine nor lift, nor a look at the status, changes the record of a blocked agent. */
  lemma BlockedStaysAsIs(a: AgentRecord, mode: Mode, reason: string, now: int, expiresAt: Option<int>)
    requires a.blocked
    ensures Quarantine(a, mode, reason, now, expiresAt) == a && Lift(a) == a && AfterStatus(a, now) == a
  {
  }

  class Agent {
    var apiKey: string
    var blocked: bool
    var blockedReason: Option<string>
    var mode: Option<Mode>
    var reason: Option<string>
    var since: Option<int>
    var expiresAt: Option<int>

    function Record(): AgentRecord
      reads this
    {
      AgentRecord(apiKey, blocked, blockedReason, mode, reason, since, expiresAt)
    }

    constructor (apiKey: string)
      ensures Record() == NewAgent(apiKey)
    {
      this.apiKey, blocked, blockedReason := apiKey, false, None;
      mode, reason, since, expiresAt := None, None, None, None;
    }
  }

  // ---------------------------------------------------------------- the store

  class TTPStore {
    var receipts: map<string, seq<StoredReceipt>>
    var seenReceiptIds: map<Identifier, int>
    var issuers: map<string, Issuer>
    var agents: map<string, Agent>

    /** No two identifiers share an agent object. */
    ghost predicate Valid()
      reads this
    {
      forall i, j :: i in agents && j in agents && i != j ==> agents[i] != agents[j]
    }

    function Held(): Holdings
      reads this
    {
      Holdings(receipts, seenReceiptIds)
    }

    ghost function Records(): map<string, AgentRecord>
      reads this, agents.Values
    {
      map id | id in agents :: agents[id].Record()
    }

    constructor ()
      ensures Valid() && Held() == Holdings(map[], map[]) && issuers == map[] && Records() == map[]
    {
      receipts, seenReceiptIds, issuers, agents := map[], map[], map[], map[];
    }

    method RegisterIssuer(id: string, issuer: Issuer)
      modifies this`issuers
      ensures issuers == old(issuers)[id := issuer]
    {
      issuers := issuers[id := issuer];
    }

    /** A new record replaces an existing one, block and quarantine included. */
    method RegisterAgent(id: string, apiKey: string)
      requires Valid()
      modifies this`agents
      ensures Valid()
      ensures Records() == old(Records())[id := NewAgent(apiKey)]
    {
      var agent := new Agent(apiKey);
      agents := agents[id := agent];
    }

    method BlockAgent(id: string, reason: string)
      requires Valid()
      modifies agents.Values
      ensures Records() ==
        if id in agents then old(Records())[id := Block(old(Records())[id], reason)] else old(Records())
    {
      if id in agents {
        var agent := agents[id];
        agent.blocked := true;
        agent.blockedReason := Some(reason);
      }
    }

    method GetAgentStatus(id: string, now: int) returns (status: Status)
      requires Valid()
      modifies agents.Values
      ensures status == if id in agents then StatusOf(old(Records())[id], now) else Active
      ensures Records() ==
        if id in agents then old(Records())[id := AfterStatus(old(Records())[id], now)] else old(Records())
    {
      if id !in agents {
        return Active;
      }
      var agent := agents[id];
      if agent.blocked {
        return Blocked;
      }
      if agent.mode.Some? {
        if agent.expiresAt.Some? && agent.expiresAt.value != 0 && agent.expiresAt.value < now {
          var lifted := LiftQuarantine(id);
          return Active;
        }
        return Quarantined;
      }
      return Active;
    }

    method QuarantineAgent(id: string, mode: Mode, reason: string, now: int, expiresAt: Option<int>)
      returns (done: bool)
      requires Valid()
      modifies agents.Values
      ensures done == (id in agents && !old(Records())[id].blocked)
      ensures Records() ==
        if id in agents then old(Records())[id := Quarantine(old(Records())[id], mode, reason, now, expiresAt)]
        else old(Records())
    {
      if id !in agents || agents[id].blocked {
        return false;
      }
      var agent := agents[id];
      agent.mode := Some(mode);
      agent.reason := Some(reason);
      agent.since := Some(now);
      agent.expiresAt := expiresAt;
      return true;
    }

    method LiftQuarantine(id: string) returns (done: bool)
      requires Valid()
      modifies agents.Values
      ensures done == (id in agents && !old(Records())[id].blocked)
      ensures Records() == if id in agents then old(Records())[id := Lift(old(Records())[id])] else old(Records())
    {
      if id !in agents || agents[id].blocked {
        return false;
      }
      var agent := agents[id];
      agent.mode := None;
      agent.reason := None;
      agent.since := None;
      agent.expiresAt := None;
      return true;
    }

    function IsReceiptDuplicate(id: Identifier): bool
      reads this
    {
      Remembered(seenReceiptIds, id)
    }

    method StoreReceipt(r: StoredReceipt)
      modifies this`receipts, this`seenReceiptIds
      ensures Held() == Store(old(Held()), r)
    {
      seenReceiptIds := Remember(seenReceiptIds, r.id, r.acceptedAt);
      var key := Key(r.agentId, r.domain);
      var existing := if key in receipts then receipts[key] else [];
      existing := existing + [r];
      receipts := receipts[key := existing];
    }

    function GetReceipts(agentId: string, domain: string): seq<StoredReceipt>
      reads this
    {
      Lookup(receipts, Key(agentId, domain))
    }

    method PruneOldReceipts(now: int, maxAge: int)
      modifies this`receipts, this`seenReceiptIds
      ensures Held() == Prune(old(Held()), now, maxAge)
    {
      hide Fresh;
      var keys := receipts.Keys;
      while keys != {}
        invariant keys <= old(receipts).Keys && seenReceiptIds == old(seenReceiptIds)
        invariant forall k :: k in receipts <==>
                    k in old(receipts) && (k in keys || Fresh(old(receipts)[k], now, maxAge) != [])
        invariant forall k :: k in receipts ==>
                    receipts[k] == if k in keys then old(receipts)[k] else Fresh(old(receipts)[k], now, maxAge)
      {
        var key :| key in keys;
        var young := Fresh(receipts[key], now, maxAge);
        if |young| == 0 {
          receipts := receipts - {key};
        } else {
          receipts := receipts[key := young];
        }
        keys := keys - {key};
      }
      var ids := seenReceiptIds.Keys;
      while ids != {}
        invariant ids <= old(seenReceiptIds).Keys
        invariant receipts == Prune(old(Held()), now, maxAge).receipts
        invariant forall i :: i in seenReceiptIds <==>
                    i in old(seenReceiptIds) && (i in ids || now - old(seenReceiptIds)[i] <= maxAge)
        invariant forall i :: i in seenReceiptIds ==> seenReceiptIds[i] == old(seenReceiptIds)[i]
      {
        var id :| id in ids;
        if now - seenReceiptIds[id] > maxAge {
          seenReceiptIds := seenReceiptIds - {id};
        }
        ids := ids - {id};
      }
    }
  }
}
