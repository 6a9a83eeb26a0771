/**
 The investigator review command as one sequential database transaction.

 `RunSpec` says what one call of `Run` does to the store when nothing else is running; the class
 `Database` holds the tables and its method `Run` is the transaction statement by statement.
 The owner's callback is a parameter (`Config.apply`), as are UUID parsing, the session policy and
 the hash that turns an operation into an advisory lock number.
 */
module Review {
  import opened Common

  type Uuid = nat
  const NIL_UUID: Uuid := 0

  const RESOURCE_LIMIT := 1024
  const FINDINGS_LIMIT := 10000

  datatype Principal = Principal(subject: string, tenant: Uuid, admin: bool, session: Uuid, authzVersion: int)

  datatype Command = Command(operation: Uuid, resource: string, expectedVersion: string, action: string,
      findings: string)

  datatype State = State(status: string, version: string, eligible: bool, machineOutcome: string, actions: seq<string>)

  datatype Failure =
    | Forbidden
    | Invalid(message: string)
    | Conflict
    | AlreadyRecorded        // unique violation on the receipt table
    | OwnerFailure(code: int)
    | Internal

  type Answer = Result<State, Failure>

  datatype Call = Call(principal: Principal, tenant: Uuid, caseId: Uuid, resource: string, owner: string,
      command: Option<Command>)

  datatype OperationKey = OperationKey(owner: string, tenant: Uuid, operation: Uuid)
  datatype ResourceKey = ResourceKey(owner: string, tenant: Uuid, resource: string)

  datatype CaseRow = CaseRow(inbox: Uuid, status: string)

  /** What the owner knows about a resource: its present state and every version it has left behind. */
  datatype OwnerRow = OwnerRow(state: State, past: set<string>)

  /** The JSON document that is hashed into a receipt; the hash is taken to be injective. */
  datatype Payload = Payload(command: Command, actor: string, caseId: Uuid)

  datatype Receipt = Receipt(
    caseId: Uuid, resource: string, actor: string, previousStatus: string, status: string,
    findings: string, payload: Payload, result: State)

  /** One committed execution of the owner's write callback. */
  datatype Effect = Effect(key: OperationKey, resource: ResourceKey, command: Command, before: State, after: State)

  /** One event appended by the case manager's history function. */
  datatype Event = Event(key: OperationKey, caseId: Uuid, actor: string, resource: string, findings: string,
      status: string, previousStatus: string)

  datatype Store = Store(
    sessions: set<Principal>,                      // identities the identity service accepts now
    cases: map<(Uuid, Uuid), CaseRow>,
    inboxes: map<(Uuid, Uuid), string>,
    members: set<(Uuid, Uuid, string)>,
    decisionLinks: set<(Uuid, Uuid, Uuid)>,
    matchLinks: set<(Uuid, Uuid, string)>,
    resources: map<ResourceKey, OwnerRow>,
    receipts: map<OperationKey, Receipt>,
    effects: seq<Effect>,
    history: seq<Event>)

  /** What the owner's write callback leaves in its table and what it returns. */
  datatype Applied = Applied(next: State, out: State)

  datatype Config = Config(
    requireSession: bool,
    uniqueResource: bool,                          // the receipt table also forbids two receipts per resource
    parseUuid: string -> Option<Uuid>,
    apply: (ResourceKey, OwnerRow, Command, string) -> Result<Applied, Failure>,
    advisory: OperationKey -> nat)

  // ---- Text -----------------------------------------------------------------------------------

  predicate IsSpace(c: char) {
    var n := c as int;
    9 <= n <= 13 || n == 32 || n == 0x85 || n == 0xA0 || n == 0x1680 || 0x2000 <= n <= 0x200A
    || n == 0x2028 || n == 0x2029 || n == 0x202F || n == 0x205F || n == 0x3000
  }

  function TrimLeft(s: string): (r: string)
    ensures r == [] || !IsSpace(r[0])
  {
    if s != [] && IsSpace(s[0]) then TrimLeft(s[1..]) else s
  }

  function TrimRight(s: string): (r: string)
    ensures r == [] || !IsSpace(r[|r| - 1])
    ensures r <= s
  {
    if s != [] && IsSpace(s[|s| - 1]) then TrimRight(s[..|s| - 1]) else s
  }

  function Trim(s: string): (r: string)
    ensures r == [] || (!IsSpace(r[0]) && !IsSpace(r[|r| - 1]))
  {
    TrimRight(TrimLeft(s))
  }

  /** Length of a string in UTF-8 bytes. */
  function ByteLength(s: string): nat {
    if s == [] then 0
    else
      var n := s[0] as int;
      (if n < 0x80 then 1 else if n < 0x800 then 2 else if n < 0x10000 then 3 else 4) + ByteLength(s[1..])
  }

  // ---- The checks, in the order the transaction makes them --------------------------------------

  function Operation(c: Call): OperationKey
    requires c.command.Some?
  {
    OperationKey(c.owner, c.tenant, c.command.value.operation)
  }

  function Resource(c: Call): ResourceKey { ResourceKey(c.owner, c.tenant, c.resource) }

  function PayloadOf(c: Call): Payload
    requires c.command.Some?
  {
    Payload(c.command.value, c.principal.subject, c.caseId)
  }

  /** Checks that need no database; on success the call with its findings trimmed. */
  function Validate(c: Call): Result<Call, Failure> {
    if c.principal.subject == "" || c.principal.tenant != c.tenant || c.tenant == NIL_UUID
        || c.caseId == NIL_UUID then Err(Forbidden)
    else if c.resource == "" || ByteLength(c.resource) > RESOURCE_LIMIT then Err(Invalid("Resource is required."))
    else if c.owner != "core" && c.owner != "screening" then Err(Invalid("Unsupported review owner."))
    else if c.command.None? then Ok(c)
    else
      var cmd := c.command.value.(findings := Trim(c.command.value.findings));
      if cmd.operation == NIL_UUID || cmd.findings == "" || ByteLength(cmd.findings) > FINDINGS_LIMIT
          || cmd.expectedVersion == "" then
        Err(Invalid("Operation, expected version and findings are required."))
      else Ok(c.(command := Some(cmd)))
  }

  predicate IdentityHolds(cfg: Config, s: Store, p: Principal) {
    if p.session == NIL_UUID then !cfg.requireSession else p in s.sessions
  }

  predicate MemberHolds(s: Store, c: Call, row: CaseRow) {
    c.principal.admin || (c.tenant, row.inbox, c.principal.subject) in s.members
  }

  /** None: the resource name cannot name a decision at all. */
  function Linked(cfg: Config, s: Store, c: Call): Option<bool> {
    if c.owner == "core" then
      match cfg.parseUuid(c.resource)
      case None => None
      case Some(id) => Some((c.tenant, c.caseId, id) in s.decisionLinks)
    else Some((c.tenant, c.caseId, c.resource) in s.matchLinks)
  }

  function Access(cfg: Config, s: Store, c: Call): Result<(CaseRow, string), Failure> {
    if !IdentityHolds(cfg, s, c.principal) then Err(Forbidden)
    else if (c.tenant, c.caseId) !in s.cases then Err(Forbidden)
    else
      var row := s.cases[(c.tenant, c.caseId)];
      if (c.tenant, row.inbox) !in s.inboxes then Err(Internal)
      else if !MemberHolds(s, c, row) then Err(Forbidden)
      else
        match Linked(cfg, s, c)
        case None => Err(Invalid("Invalid decision ID."))
        case Some(linked) => if linked then Ok((row, s.inboxes[(c.tenant, row.inbox)])) else Err(Forbidden)
  }

  predicate Open(row: CaseRow, inboxStatus: string) { row.status != "closed" && inboxStatus == "active" }

  predicate ResourceTaken(s: Store, r: ResourceKey) {
    exists k <- s.receipts :: k.owner == r.owner && k.tenant == r.tenant && s.receipts[k].resource == r.resource
  }

  /** The state a read reports: the owner's, eligible only while the case can be reviewed. */
  function Shown(before: State, row: CaseRow, inboxStatus: string): State {
    before.(eligible := before.eligible && Open(row, inboxStatus))
  }

  /** The store after the owner change, the receipt and the history event have been committed. */
  function Recorded(s: Store, c: Call, before: State, applied: Applied): Store
    requires c.command.Some? && Resource(c) in s.resources
  {
    var cmd := c.command.value;
    var out := applied.out.(eligible := false);
    var row := s.resources[Resource(c)];
    s.(resources := s.resources[Resource(c) := OwnerRow(applied.next, row.past + {row.state.version})],
       receipts := s.receipts[Operation(c) := Receipt(c.caseId, c.resource, c.principal.subject, before.status,
           out.status, cmd.findings, PayloadOf(c), out)],
       effects := s.effects + [Effect(Operation(c), Resource(c), cmd, before, applied.next)],
       history := s.history + [Event(Operation(c), c.caseId, c.principal.subject, c.resource, cmd.findings, out.status,
           before.status)])
  }

  /** A command that has passed every access check. */
  function Attempt(cfg: Config, s: Store, c: Call, row: CaseRow, inboxStatus: string): (Store, Answer)
    requires c.command.Some?
  {
    var cmd := c.command.value;
    var key := Operation(c);
    if key in s.receipts then
      (s, if s.receipts[key].payload == PayloadOf(c) then Ok(s.receipts[key].result) else Err(Conflict))
    else if !Open(row, inboxStatus) then (s, Err(Invalid("Reopen the case in an active inbox before reviewing.")))
    else if Resource(c) !in s.resources then (s, Err(Internal))
    else
      var owned := s.resources[Resource(c)];
      if !owned.state.eligible || owned.state.version != cmd.expectedVersion then (s, Err(Conflict))
      else if cmd.action !in owned.state.actions then (s, Err(Invalid("Action is not available.")))
      else
        match cfg.apply(Resource(c), owned, cmd, c.principal.subject)
        case Err(e) => (s, Err(e))
        case Ok(applied) =>
          if cfg.uniqueResource && ResourceTaken(s, Resource(c)) then (s, Err(AlreadyRecorded))
          else (Recorded(s, c, owned.state, applied), Ok(applied.out.(eligible := false)))
  }

  /** A validated call, executed alone. */
  function RunChecked(cfg: Config, s: Store, c: Call): (Store, Answer) {
    match Access(cfg, s, c)
    case Err(e) => (s, Err(e))
    case Ok((row, inboxStatus)) =>
      if c.command.None? then
        (s, if Resource(c) in s.resources then Ok(Shown(s.resources[Resource(c)].state, row, inboxStatus))
            else Err(Internal))
      else Attempt(cfg, s, c, row, inboxStatus)
  }

  function RunSpec(cfg: Config, s: Store, c: Call): (Store, Answer) {
    match Validate(c)
    case Err(e) => (s, Err(e))
    case Ok(checked) => RunChecked(cfg, s, checked)
  }

  // ---- The transaction ---------------------------------------------------------------------------

  class Database {
    const cfg: Config
    var db: Store

    constructor (cfg: Config, db: Store)
      ensures this.cfg == cfg && this.db == db
    {
      this.cfg := cfg;
      this.db := db;
    }

    method CheckIdentity(p: Principal) returns (allowed: bool)
      ensures allowed == IdentityHolds(cfg, db, p)
    {
      if p.session == NIL_UUID {
        return !cfg.requireSession;
      }
      return p in db.sessions;
    }

    /** Case, inbox, membership and link checks; the rows read are handed on to the rest of the transaction. */
    method Authorize(call: Call) returns (rows: Result<(CaseRow, string), Failure>)
      ensures rows == Access(cfg, db, call)
    {
      var allowed := CheckIdentity(call.principal);
      if !allowed {
        return Err(Forbidden);
      }
      if (call.tenant, call.caseId) !in db.cases {
        return Err(Forbidden);
      }
      var row := db.cases[(call.tenant, call.caseId)];
      if (call.tenant, row.inbox) !in db.inboxes {
        return Err(Internal);
      }
      if !call.principal.admin && (call.tenant, row.inbox, call.principal.subject) !in db.members {
        return Err(Forbidden);
      }
      var linked := false;
      if call.owner == "core" {
        var id := cfg.parseUuid(call.resource);
        if id.None? {
          return Err(Invalid("Invalid decision ID."));
        }
        linked := (call.tenant, call.caseId, id.value) in db.decisionLinks;
      } else {
        linked := (call.tenant, call.caseId, call.resource) in db.matchLinks;
      }
      if !linked {
        return Err(Forbidden);
      }
      return Ok((row, db.inboxes[(call.tenant, row.inbox)]));
    }

    /** Receipt lookup, owner callback, receipt insert and history call of an authorized command. */
    method Execute(call: Call, row: CaseRow, inboxStatus: string) returns (answer: Answer)
      requires call.command.Some?
      modifies this`db
      ensures (db, answer) == Attempt(cfg, old(db), call, row, inboxStatus)
    {
      var cmd := call.command.value;
      var key := OperationKey(call.owner, call.tenant, cmd.operation);
      if key in db.receipts {
        if db.receipts[key].payload != PayloadOf(call) {
          return Err(Conflict);
        }
        return Ok(db.receipts[key].result);
      }
      if row.status == "closed" || inboxStatus != "active" {
        return Err(Invalid("Reopen the case in an active inbox before reviewing."));
      }
      var target := ResourceKey(call.owner, call.tenant, call.resource);
      if target !in db.resources {
        return Err(Internal);
      }
      var before := db.resources[target].state;
      if !before.eligible || before.version != cmd.expectedVersion {
        return Err(Conflict);
      }
      var allowed := false;
      for i := 0 to |before.actions|
        invariant allowed <==> cmd.action in before.actions[..i]
      {
        if before.actions[i] == cmd.action {
          allowed := true;
        }
      }
      assert before.actions[..|before.actions|] == before.actions;
      if !allowed {
        return Err(Invalid("Action is not available."));
      }
      var applied := cfg.apply(target, db.resources[target], cmd, call.principal.subject);
      if applied.Err? {
        return Err(applied.error);
      }
      if cfg.uniqueResource && ResourceTaken(db, target) {
        return Err(AlreadyRecorded);
      }
      db := Recorded(db, call, before, applied.value);
      return Ok(applied.value.out.(eligible := false));
    }

    /** `sent` is the caller's command as `Run` leaves it: the findings are trimmed in place. */
    method Run(p: Principal, tenant: Uuid, caseId: Uuid, resource: string, owner: string, command: Option<Command>)
      returns (answer: Answer, sent: Option<Command>)
      modifies this`db
      ensures (db, answer) == RunSpec(cfg, old(db), Call(p, tenant, caseId, resource, owner, command))
      ensures answer.Err? ==> db == old(db)
      ensures answer.Ok? && command.Some? ==> sent == Some(command.value.(findings := Trim(command.value.findings)))
    {
      sent := command;
      if p.subject == "" || p.tenant != tenant || tenant == NIL_UUID || caseId == NIL_UUID {
        return Err(Forbidden), sent;
      }
      if resource == "" || ByteLength(resource) > RESOURCE_LIMIT {
        return Err(Invalid("Resource is required.")), sent;
      }
      if owner != "core" && owner != "screening" {
        return Err(Invalid("Unsupported review owner.")), sent;
      }
      if sent.Some? {
        sent := Some(sent.value.(findings := Trim(sent.value.findings)));
        if sent.value.operation == NIL_UUID || sent.value.findings == ""
            || ByteLength(sent.value.findings) > FINDINGS_LIMIT || sent.value.expectedVersion == "" {
          return Err(Invalid("Operation, expected version and findings are required.")), sent;
        }
      }
      var call := Call(p, tenant, caseId, resource, owner, sent);
      var rows := Authorize(call);
      if rows.Err? {
        return Err(rows.error), sent;
      }
      if sent.Some? {
        answer := Execute(call, rows.value.0, rows.value.1);
      } else if Resource(call) in db.resources {
        answer := Ok(Shown(db.resources[Resource(call)].state, rows.value.0, rows.value.1));
      } else {
        answer := Err(Internal);
      }
    }
  }
}
