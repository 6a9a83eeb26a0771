/**
 Many review transactions interleaved statement by statement, with the rest of the system running
 beside them.

 A transaction remembers what its statements have read and which locks it holds; nothing it writes
 is visible before its commit step. Other services may change any row that no transaction has
 locked. The main result of this file, `MoveIsSerial`, says that the step which ends a transaction
 does to the store, and answers, exactly what the sequential `RunChecked` would in that store.
 */
module ReviewConcurrent {
  import opened Common
  import opened Review

  datatype Lock =
    | IdentityLock(principal: Principal)
    | AdvisoryLock(number: nat)
    | CaseLock(tenant: Uuid, caseId: Uuid)
    | InboxLock(tenant: Uuid, inbox: Uuid)
    | ResourceLock(key: ResourceKey)

  /** Identity and inbox rows are locked FOR SHARE, the others exclusively. */
  predicate Shared(l: Lock) { l.IdentityLock? || l.InboxLock? }

  predicate Conflicts(a: Lock, b: Lock) { a == b && !Shared(a) }

  function Rank(l: Lock): nat {
    match l
    case IdentityLock(_) => 0
    case AdvisoryLock(_) => 1
    case CaseLock(_, _) => 2
    case InboxLock(_, _) => 3
    case ResourceLock(_) => 7
  }

  /** The statement a transaction will run next. */
  datatype Pc = AtIdentity | AtAdvisory | AtCase | AtInbox | AtMember | AtLink | AtReceipt | AtBefore | AtApply
      | AtInsert | AtHistory | AtCommit | Finished

  function Order(pc: Pc): nat {
    match pc
    case AtIdentity => 0 case AtAdvisory => 1 case AtCase => 2 case AtInbox => 3
    case AtMember => 4 case AtLink => 5 case AtReceipt => 6 case AtBefore => 7
    case AtApply => 8 case AtInsert => 9 case AtHistory => 10 case AtCommit => 11
    case Finished => 12
  }

  /** What the transaction has found out it is: a read, an acknowledgement of a stored receipt, or a new review. */
  datatype Plan = Undecided | Reading | Replaying | Writing

  datatype Txn = Txn(
    call: Call, pc: Pc, held: set<Lock>, plan: Plan,
    row: CaseRow, inboxStatus: string, before: State, applied: Applied, answer: Answer)

  datatype Sys = Sys(store: Store, txns: seq<Txn>)

  const NO_STATE := State("", "", false, "", [])

  /** A call enters: it is rejected before any statement, or its transaction begins. */
  function Arrive(c: Call): Txn {
    match Validate(c)
    case Err(e) => Txn(c, Finished, {}, Undecided, CaseRow(0, ""), "", NO_STATE, Applied(NO_STATE, NO_STATE), Err(e))
    case Ok(checked) =>
        Txn(checked, AtIdentity, {}, Undecided, CaseRow(0, ""), "", NO_STATE, Applied(NO_STATE, NO_STATE),
        Err(Internal))
  }

  /** The lock the next statement waits for. */
  function Wanted(cfg: Config, x: Txn): Option<Lock> {
    match x.pc
    case AtIdentity => if x.call.principal.session == NIL_UUID then None else Some(IdentityLock(x.call.principal))
    case AtAdvisory => if x.call.command.None? then None else Some(AdvisoryLock(cfg.advisory(Operation(x.call))))
    case AtCase => Some(CaseLock(x.call.tenant, x.call.caseId))
    case AtInbox => Some(InboxLock(x.call.tenant, x.row.inbox))
    case AtBefore => Some(ResourceLock(Resource(x.call)))
    case _ => None
  }

  function Rollback(x: Txn, e: Failure): Txn { x.(pc := Finished, held := {}, answer := Err(e)) }

  function Acquire(cfg: Config, x: Txn): set<Lock> {
    x.held + (if Wanted(cfg, x).Some? then {Wanted(cfg, x).value} else {})
  }

  /** One statement of an unfinished transaction whose lock, if it wants one, is free. */
  function Statement(cfg: Config, s: Store, x: Txn): (Store, Txn)
    requires !x.pc.Finished?
    requires x.plan.Writing? ==> x.call.command.Some?
  {
    var c := x.call;
    match x.pc
    case AtIdentity =>
      (s, if IdentityHolds(cfg, s, c.principal) then x.(pc := AtAdvisory, held := Acquire(cfg, x))
          else Rollback(x, Forbidden))
    case AtAdvisory =>
      (s, x.(pc := AtCase, held := Acquire(cfg, x)))
    case AtCase =>
      (s, if (c.tenant, c.caseId) in s.cases then
          x.(pc := AtInbox, held := Acquire(cfg, x), row := s.cases[(c.tenant, c.caseId)]) else Rollback(x, Forbidden))
    case AtInbox =>
      (s, if (c.tenant, x.row.inbox) in s.inboxes then
          x.(pc := AtMember, held := Acquire(cfg, x), inboxStatus := s.inboxes[(c.tenant, x.row.inbox)])
          else Rollback(x, Internal))
    case AtMember =>
      (s, if MemberHolds(s, c, x.row) then x.(pc := AtLink) else Rollback(x, Forbidden))
    case AtLink =>
      (s, match Linked(cfg, s, c)
          case None => Rollback(x, Invalid("Invalid decision ID."))
          case Some(linked) => if linked then x.(pc := AtReceipt) else Rollback(x, Forbidden))
    case AtReceipt =>
      (s, if c.command.None? then x.(pc := AtBefore, plan := Reading)
          else if Operation(c) in s.receipts then
            if s.receipts[Operation(c)].payload == PayloadOf(c) then
                x.(pc := AtCommit, plan := Replaying, answer := Ok(s.receipts[Operation(c)].result))
            else Rollback(x, Conflict)
          else if Open(x.row, x.inboxStatus) then x.(pc := AtBefore, plan := Writing)
          else Rollback(x, Invalid("Reopen the case in an active inbox before reviewing.")))
    case AtBefore =>
      (s, if Resource(c) !in s.resources then Rollback(x, Internal)
          else
            var state := s.resources[Resource(c)].state;
            if !x.plan.Writing? then
                x.(pc := AtCommit, held := Acquire(cfg, x), before := state,
                answer := Ok(Shown(state, x.row, x.inboxStatus)))
            else if !state.eligible || state.version != c.command.value.expectedVersion then Rollback(x, Conflict)
            else if c.command.value.action !in state.actions then Rollback(x, Invalid("Action is not available."))
            else x.(pc := AtApply, held := Acquire(cfg, x), before := state))
    case AtApply =>
      (s, if !x.plan.Writing? || Resource(c) !in s.resources then Rollback(x, Internal)
          else
            match cfg.apply(Resource(c), s.resources[Resource(c)], c.command.value, c.principal.subject)
            case Err(e) => Rollback(x, e)
            case Ok(applied) => x.(pc := AtInsert, applied := applied, answer := Ok(applied.out.(eligible := false))))
    case AtInsert =>  // primary key on (tenant, operation), and optionally unique (tenant, resource)
      (s, if x.plan.Writing? && Operation(c) in s.receipts then Rollback(x, AlreadyRecorded)
          else if cfg.uniqueResource && ResourceTaken(s, Resource(c)) then Rollback(x, AlreadyRecorded)
          else x.(pc := AtHistory))
    case AtHistory =>  // the history function reads the case and the link again
      (s, if (c.tenant, c.caseId) in s.cases && s.cases[(c.tenant, c.caseId)].status != "closed"
          && Linked(cfg, s, c) == Some(true)
          then x.(pc := AtCommit) else Rollback(x, Internal))
    case AtCommit =>
      (if x.plan.Writing? && Resource(c) in s.resources then Recorded(s, c, x.before, x.applied) else s,
       x.(pc := Finished, held := {}))
  }

  // ---- The system ------------------------------------------------------------------------------

  predicate Blocks(cfg: Config, sys: Sys, t: nat, u: nat)
    requires t < |sys.txns| && u < |sys.txns|
  {
    t != u && Wanted(cfg, sys.txns[t]).Some?
        && exists l <- sys.txns[u].held :: Conflicts(Wanted(cfg, sys.txns[t]).value, l)
  }

  /**
   Transactions share identities and inboxes: one only waits for a number, a case or a resource that another holds.
   */
  lemma BlocksExactly(cfg: Config, sys: Sys, t: nat, u: nat)
    requires t < |sys.txns| && u < |sys.txns|
    ensures Blocks(cfg, sys, t, u) <==>
      && t != u && Wanted(cfg, sys.txns[t]).Some? && Wanted(cfg, sys.txns[t]).value in sys.txns[u].held
      && var l := Wanted(cfg, sys.txns[t]).value; l.AdvisoryLock? || l.CaseLock? || l.ResourceLock?
  {
  }

  ghost predicate CanMove(cfg: Config, sys: Sys, t: nat)
    requires t < |sys.txns|
  {
    && !sys.txns[t].pc.Finished?
    && (sys.txns[t].plan.Writing? ==> sys.txns[t].call.command.Some?)
    && forall u: nat :: u < |sys.txns| ==> !Blocks(cfg, sys, t, u)
  }

  /** The rows behind a lock are the same in both stores. */
  ghost predicate Guarded(l: Lock, s: Store, s': Store) {
    match l
    case IdentityLock(p) => p in s.sessions <==> p in s'.sessions
    case AdvisoryLock(_) => true
    case CaseLock(tenant, caseId) =>
      && ((tenant, caseId) in s.cases <==> (tenant, caseId) in s'.cases)
      && ((tenant, caseId) in s.cases ==> s.cases[(tenant, caseId)] == s'.cases[(tenant, caseId)])
      && (forall d :: (tenant, caseId, d) in s.decisionLinks <==> (tenant, caseId, d) in s'.decisionLinks)
      && (forall m :: (tenant, caseId, m) in s.matchLinks <==> (tenant, caseId, m) in s'.matchLinks)
    case InboxLock(tenant, inbox) =>
      && ((tenant, inbox) in s.inboxes <==> (tenant, inbox) in s'.inboxes)
      && ((tenant, inbox) in s.inboxes ==> s.inboxes[(tenant, inbox)] == s'.inboxes[(tenant, inbox)])
      && (forall u :: (tenant, inbox, u) in s.members <==> (tenant, inbox, u) in s'.members)
    case ResourceLock(k) =>
      && (k in s.resources <==> k in s'.resources)
      && (k in s.resources ==> s.resources[k] == s'.resources[k])
  }

  /** Everything else in the system: it respects locks and never touches receipts or history. */
  ghost predicate Elsewhere(sys: Sys, s': Store) {
    var s := sys.store;
    && s'.receipts == s.receipts && s'.effects == s.effects && s'.history == s.history
    && (forall t: nat, l :: t < |sys.txns| && l in sys.txns[t].held ==> Guarded(l, s, s'))
  }

  datatype Step =
    | Begin(call: Call)
    | Move(t: nat)
    | Fault(t: nat, failure: Failure)  // a statement fails: lost connection, lock timeout, identity outage
    | Other(store: Store)

  ghost predicate Next(cfg: Config, sys: Sys, step: Step, sys': Sys) {
    match step
    case Begin(c) => sys' == Sys(sys.store, sys.txns + [Arrive(c)])
    case Move(t) =>
      && t < |sys.txns| && CanMove(cfg, sys, t)
      && var (s', x') := Statement(cfg, sys.store, sys.txns[t]); sys' == Sys(s', sys.txns[t := x'])
    case Fault(t, e) =>
      && t < |sys.txns| && !sys.txns[t].pc.Finished?
      && sys' == Sys(sys.store, sys.txns[t := Rollback(sys.txns[t], e)])
    case Other(s') => Elsewhere(sys, s') && sys' == Sys(s', sys.txns)
  }

  // ---- What a transaction may rely on ------------------------------------------------------------

  /** The locks taken by the statements already run. */
  function HeldAt(cfg: Config, x: Txn): set<Lock> {
    var c := x.call;
    var n := Order(x.pc);
    if x.pc.Finished? then {}
    else
      (if n > 0 && c.principal.session != NIL_UUID then {IdentityLock(c.principal)} else {})
      + (if n > 1 && c.command.Some? then {AdvisoryLock(cfg.advisory(Operation(c)))} else {})
      + (if n > 2 then {CaseLock(c.tenant, c.caseId)} else {})
      + (if n > 3 then {InboxLock(c.tenant, x.row.inbox)} else {})
      + (if n > 7 && !x.plan.Replaying? then {ResourceLock(Resource(c))} else {})
  }

  ghost predicate PlanOk(x: Txn) {
    var n := Order(x.pc);
    && (x.plan.Undecided? <==> n <= 6)
    && (x.plan.Reading? ==> x.call.command.None? && (n == 7 || n == 11))
    && (x.plan.Replaying? ==> x.call.command.Some? && n == 11)
    && (x.plan.Writing? ==> x.call.command.Some?)
  }

  /** What the checks already made still say about the store. */
  ghost predicate AccessFacts(cfg: Config, s: Store, x: Txn) {
    var c := x.call;
    var n := Order(x.pc);
    && (n > 0 ==> IdentityHolds(cfg, s, c.principal))
    && (n > 2 ==> (c.tenant, c.caseId) in s.cases && s.cases[(c.tenant, c.caseId)] == x.row)
    && (n > 3 ==> (c.tenant, x.row.inbox) in s.inboxes && s.inboxes[(c.tenant, x.row.inbox)] == x.inboxStatus)
    && (n > 4 ==> MemberHolds(s, c, x.row))
    && (n > 5 ==> Linked(cfg, s, c) == Some(true))
  }

  ghost predicate PlanFacts(cfg: Config, s: Store, x: Txn)
    requires PlanOk(x)
  {
    var c := x.call;
    var n := Order(x.pc);
    && (x.plan.Reading? && n == 11 ==>
          Resource(c) in s.resources && x.answer == Ok(Shown(s.resources[Resource(c)].state, x.row, x.inboxStatus)))
    && (x.plan.Replaying? ==>
          Operation(c) in s.receipts && s.receipts[Operation(c)].payload == PayloadOf(c)
              && x.answer == Ok(s.receipts[Operation(c)].result))
    && (x.plan.Writing? ==> Operation(c) !in s.receipts && Open(x.row, x.inboxStatus))
    && (x.plan.Writing? && n > 7 ==>
          && Resource(c) in s.resources && s.resources[Resource(c)].state == x.before
          && x.before.eligible && x.before.version == c.command.value.expectedVersion
              && c.command.value.action in x.before.actions)
    && (x.plan.Writing? && n > 8 ==>
          && cfg.apply(Resource(c), s.resources[Resource(c)], c.command.value, c.principal.subject) == Ok(x.applied)
          && x.answer == Ok(x.applied.out.(eligible := false)))
    && (x.plan.Writing? && n > 9 ==> !(cfg.uniqueResource && ResourceTaken(s, Resource(c))))
  }

  ghost predicate TxnOk(cfg: Config, s: Store, x: Txn) {
    && x.held == HeldAt(cfg, x)
    && (!x.pc.Finished? ==> PlanOk(x) && AccessFacts(cfg, s, x) && PlanFacts(cfg, s, x))
  }

  ghost predicate Compatible(a: set<Lock>, b: set<Lock>) {
    forall l, m :: l in a && m in b ==> !Conflicts(l, m)
  }

  ghost predicate SysOk(cfg: Config, sys: Sys) {
    && (forall t: nat :: t < |sys.txns| ==> TxnOk(cfg, sys.store, sys.txns[t]))
    && (forall t: nat, u: nat :: t < |sys.txns| && u < |sys.txns| && t != u ==>
        Compatible(sys.txns[t].held, sys.txns[u].held))
  }

  // ---- One statement -----------------------------------------------------------------------------

  /** A statement either keeps the transaction's facts and the store, or ends it as `RunChecked` would. */
  ghost predicate StatementOk(cfg: Config, s: Store, x: Txn)
    requires !x.pc.Finished? && TxnOk(cfg, s, x)
  {
    var (s', x') := Statement(cfg, s, x);
    && (!x'.pc.Finished? ==> s' == s && x'.call == x.call && Order(x'.pc) > Order(x.pc) && TxnOk(cfg, s, x'))
    && (x'.pc.Finished? ==> x'.held == {} && RunChecked(cfg, s, x.call) == (s', x'.answer))
    && x'.held <= Acquire(cfg, x)
  }

  lemma StatementSound(cfg: Config, s: Store, x: Txn)
    requires !x.pc.Finished? && TxnOk(cfg, s, x)
    ensures StatementOk(cfg, s, x)
  {
    if Order(x.pc) < 3 {
      IdentityToCaseSound(cfg, s, x);
    } else if Order(x.pc) < 6 {
      InboxToLinkSound(cfg, s, x);
    } else if x.pc.AtReceipt? {
      ReceiptSound(cfg, s, x);
    } else if x.pc.AtBefore? {
      BeforeSound(cfg, s, x);
    } else if x.pc.AtApply? {
      ApplySound(cfg, s, x);
    } else if x.pc.AtInsert? {
      InsertSound(cfg, s, x);
    } else if x.pc.AtHistory? {
      HistorySound(cfg, s, x);
    } else {
      CommitSound(cfg, s, x);
    }
  }

  lemma IdentityToCaseSound(cfg: Config, s: Store, x: Txn)
    requires Order(x.pc) < 3 && TxnOk(cfg, s, x)
    ensures StatementOk(cfg, s, x)
  {
  }

  lemma InboxToLinkSound(cfg: Config, s: Store, x: Txn)
    requires 3 <= Order(x.pc) < 6 && TxnOk(cfg, s, x)
    ensures StatementOk(cfg, s, x)
  {
  }

  lemma AccessDecided(cfg: Config, s: Store, c: Call, row: CaseRow, inboxStatus: string)
    requires Access(cfg, s, c) == Ok((row, inboxStatus)) && c.command.Some?
    ensures RunChecked(cfg, s, c) == Attempt(cfg, s, c, row, inboxStatus)
  {
  }

  lemma AccessGranted(cfg: Config, s: Store, x: Txn)
    requires 5 < Order(x.pc) < 12 && AccessFacts(cfg, s, x)
    ensures Access(cfg, s, x.call) == Ok((x.row, x.inboxStatus))
  {
  }

  /** Past the link check, the access checks of the sequential call succeed with the rows the transaction has read. */
  lemma AccessKnown(cfg: Config, s: Store, x: Txn)
    requires 5 < Order(x.pc) < 12 && TxnOk(cfg, s, x)
    ensures Access(cfg, s, x.call) == Ok((x.row, x.inboxStatus))
    ensures x.call.command.Some? ==> RunChecked(cfg, s, x.call) == Attempt(cfg, s, x.call, x.row, x.inboxStatus)
  {
    AccessGranted(cfg, s, x);
    if x.call.command.Some? {
      AccessDecided(cfg, s, x.call, x.row, x.inboxStatus);
    }
  }

  lemma ReceiptSound(cfg: Config, s: Store, x: Txn)
    requires x.pc.AtReceipt? && TxnOk(cfg, s, x)
    ensures StatementOk(cfg, s, x)
  {
    if x.call.command.Some? {
      AccessKnown(cfg, s, x);
      if Operation(x.call) in s.receipts {
        ReplaySound(cfg, s, x);
      }
    }
  }

  lemma ReplaySound(cfg: Config, s: Store, x: Txn)
    requires x.pc.AtReceipt? && TxnOk(cfg, s, x) && x.call.command.Some? && Operation(x.call) in s.receipts
    ensures StatementOk(cfg, s, x)
  {
    AccessKnown(cfg, s, x);
  }

  lemma BeforeReadSound(cfg: Config, s: Store, x: Txn)
    requires x.pc.AtBefore? && TxnOk(cfg, s, x) && !x.plan.Writing?
    ensures StatementOk(cfg, s, x)
  {
    AccessKnown(cfg, s, x);
  }

  lemma BeforeReviewSound(cfg: Config, s: Store, x: Txn)
    requires x.pc.AtBefore? && TxnOk(cfg, s, x) && x.plan.Writing?
    ensures StatementOk(cfg, s, x)
  {
    AccessKnown(cfg, s, x);
  }

  lemma BeforeSound(cfg: Config, s: Store, x: Txn)
    requires x.pc.AtBefore? && TxnOk(cfg, s, x)
    ensures StatementOk(cfg, s, x)
  {
    if x.plan.Writing? {
      BeforeReviewSound(cfg, s, x);
    } else {
      BeforeReadSound(cfg, s, x);
    }
  }

  lemma ApplySound(cfg: Config, s: Store, x: Txn)
    requires x.pc.AtApply? && TxnOk(cfg, s, x)
    ensures StatementOk(cfg, s, x)
  {
    AccessKnown(cfg, s, x);
  }

  lemma InsertSound(cfg: Config, s: Store, x: Txn)
    requires x.pc.AtInsert? && TxnOk(cfg, s, x)
    ensures StatementOk(cfg, s, x)
  {
    AccessKnown(cfg, s, x);
  }

  lemma HistorySound(cfg: Config, s: Store, x: Txn)
    requires x.pc.AtHistory? && TxnOk(cfg, s, x)
    ensures StatementOk(cfg, s, x)
  {
    AccessKnown(cfg, s, x);
  }

  lemma CommitSound(cfg: Config, s: Store, x: Txn)
    requires x.pc.AtCommit? && TxnOk(cfg, s, x)
    ensures StatementOk(cfg, s, x)
  {
    AccessKnown(cfg, s, x);
  }

  // ---- Every step keeps every transaction's facts --------------------------------------------------

  /** A commit changes one receipt and one resource; a transaction about others keeps what it knows. */
  lemma CommitKeepsPlan(cfg: Config, s: Store, c: Call, before: State, applied: Applied, u: Txn)
    requires c.command.Some? && Resource(c) in s.resources && Operation(c) !in s.receipts
    requires PlanOk(u) && !u.pc.Finished? && PlanFacts(cfg, s, u)
    requires u.plan.Writing? ==> Operation(c) != Operation(u.call)
    requires Order(u.pc) > 7 && !u.plan.Replaying? ==> Resource(c) != Resource(u.call)
    ensures PlanFacts(cfg, Recorded(s, c, before, applied), u)
  {
    var s' := Recorded(s, c, before, applied);
    if u.plan.Writing? && Order(u.pc) > 9 && cfg.uniqueResource {
      forall k | k in s'.receipts ensures !(k.owner == u.call.owner && k.tenant == u.call.tenant
          && s'.receipts[k].resource == u.call.resource) {
        assert k == Operation(c) || k in s.receipts;
      }
    }
  }

  lemma OperationsSeparate(cfg: Config, x: Txn, u: Txn)
    requires x.held == HeldAt(cfg, x) && u.held == HeldAt(cfg, u) && Compatible(x.held, u.held)
    requires x.pc.AtCommit? && x.call.command.Some? && !u.pc.Finished? && Order(u.pc) > 1 && u.call.command.Some?
    ensures Operation(x.call) != Operation(u.call)
  {
    assert AdvisoryLock(cfg.advisory(Operation(x.call))) in x.held
        && AdvisoryLock(cfg.advisory(Operation(u.call))) in u.held;
  }

  /** Two transactions past their locks on an operation or a resource cannot share it. */
  lemma LocksSeparate(cfg: Config, x: Txn, u: Txn)
    requires x.held == HeldAt(cfg, x) && u.held == HeldAt(cfg, u) && Compatible(x.held, u.held)
    requires x.pc.AtCommit? && x.plan.Writing? && x.call.command.Some? && !u.pc.Finished?
    ensures Order(u.pc) > 1 && u.call.command.Some? ==> Operation(x.call) != Operation(u.call)
    ensures Order(u.pc) > 7 && !u.plan.Replaying? ==> Resource(x.call) != Resource(u.call)
  {
    if Order(u.pc) > 1 && u.call.command.Some? {
      OperationsSeparate(cfg, x, u);
    }
    if Order(u.pc) > 7 && !u.plan.Replaying? {
      assert ResourceLock(Resource(x.call)) in x.held && ResourceLock(Resource(u.call)) in u.held;
    }
  }

  /** A commit does not disturb a transaction whose locks are compatible with the committing one. */
  lemma CommitDisturbsNobody(cfg: Config, s: Store, x: Txn, u: Txn)
    requires x.pc.AtCommit? && x.plan.Writing? && TxnOk(cfg, s, x) && TxnOk(cfg, s, u) && Compatible(x.held, u.held)
    ensures TxnOk(cfg, Recorded(s, x.call, x.before, x.applied), u)
  {
    if !u.pc.Finished? {
      LocksSeparate(cfg, x, u);
      assert AccessFacts(cfg, Recorded(s, x.call, x.before, x.applied), u);
      CommitKeepsPlan(cfg, s, x.call, x.before, x.applied, u);
    }
  }

  lemma ElsewhereDisturbsNobody(cfg: Config, sys: Sys, s': Store, t: nat)
    requires t < |sys.txns| && SysOk(cfg, sys) && Elsewhere(sys, s')
    ensures TxnOk(cfg, s', sys.txns[t])
  {
    var s, x := sys.store, sys.txns[t];
    var c := x.call;
    if !x.pc.Finished? {
      assert forall l :: l in x.held ==> Guarded(l, s, s');
      if Order(x.pc) > 0 && c.principal.session != NIL_UUID { assert IdentityLock(c.principal) in x.held; }
      if Order(x.pc) > 2 { assert CaseLock(c.tenant, c.caseId) in x.held; }
      if Order(x.pc) > 3 { assert InboxLock(c.tenant, x.row.inbox) in x.held; }
      assert AccessFacts(cfg, s', x);
      if Order(x.pc) > 7 && !x.plan.Replaying? { assert ResourceLock(Resource(c)) in x.held; }
      assert PlanFacts(cfg, s', x);
    }
  }

  lemma MoveKeepsOther(cfg: Config, sys: Sys, t: nat, u: nat)
    requires SysOk(cfg, sys) && t < |sys.txns| && u < |sys.txns| && t != u && CanMove(cfg, sys, t)
    ensures var (s', x') := Statement(cfg, sys.store, sys.txns[t]);
      TxnOk(cfg, s', sys.txns[u]) && Compatible(x'.held, sys.txns[u].held)
  {
    var s, x, other := sys.store, sys.txns[t], sys.txns[u];
    var (s', x') := Statement(cfg, s, x);
    StatementSound(cfg, s, x);
    assert Compatible(x.held, other.held) && !Blocks(cfg, sys, t, u);
    if s' != s {
      CommitDisturbsNobody(cfg, s, x, other);
    }
  }

  lemma MoveKeepsSysOk(cfg: Config, sys: Sys, t: nat, sys': Sys)
    requires SysOk(cfg, sys) && Next(cfg, sys, Move(t), sys')
    ensures SysOk(cfg, sys')
  {
    StatementSound(cfg, sys.store, sys.txns[t]);
    forall u: nat | u < |sys.txns|
      ensures TxnOk(cfg, sys'.store, sys'.txns[u])
      ensures u != t ==> Compatible(sys'.txns[t].held, sys'.txns[u].held)
    {
      if u != t {
        MoveKeepsOther(cfg, sys, t, u);
      }
    }
  }

  lemma NextKeepsSysOk(cfg: Config, sys: Sys, step: Step, sys': Sys)
    requires SysOk(cfg, sys) && Next(cfg, sys, step, sys')
    ensures SysOk(cfg, sys')
  {
    match step
    case Begin(c) =>
    case Move(t) => MoveKeepsSysOk(cfg, sys, t, sys');
    case Fault(t, e) =>
    case Other(s') =>
      forall t: nat | t < |sys.txns| ensures TxnOk(cfg, s', sys.txns[t]) {
        ElsewhereDisturbsNobody(cfg, sys, s', t);
      }
  }

  /** The step that ends a transaction is one atomic run of the sequential call; no other move touches the store. */
  lemma MoveIsSerial(cfg: Config, sys: Sys, t: nat, sys': Sys)
    requires SysOk(cfg, sys) && Next(cfg, sys, Move(t), sys')
    ensures if sys'.txns[t].pc.Finished?
            then RunChecked(cfg, sys.store, sys.txns[t].call) == (sys'.store, sys'.txns[t].answer)
            else sys'.store == sys.store
    ensures sys'.txns[t].answer.Err? && sys'.txns[t].pc.Finished? ==> sys'.store == sys.store
  {
    StatementSound(cfg, sys.store, sys.txns[t]);
  }

  // ---- Locks ---------------------------------------------------------------------------------------

  /** Locks are taken in rank order and at most one per rank. */
  lemma LocksInOrder(cfg: Config, sys: Sys, t: nat)
    requires SysOk(cfg, sys) && t < |sys.txns| && !sys.txns[t].pc.Finished?
    ensures Wanted(cfg, sys.txns[t]).Some? ==> forall l :: l in sys.txns[t].held ==>
        Rank(l) < Rank(Wanted(cfg, sys.txns[t]).value)
    ensures forall l, m :: l in sys.txns[t].held && m in sys.txns[t].held && Rank(l) == Rank(m) ==> l == m
  {
  }

  /** Whoever blocks a transaction is further along than it is. */
  lemma BlockerIsAhead(cfg: Config, sys: Sys, t: nat, u: nat)
    requires SysOk(cfg, sys) && t < |sys.txns| && u < |sys.txns| && Blocks(cfg, sys, t, u)
    ensures !sys.txns[u].pc.Finished? && Order(sys.txns[t].pc) < Order(sys.txns[u].pc)
  {
  }

  /** No chain of transactions each waiting for the next ever closes. */
  lemma {:induction false} NoWaitCycle(cfg: Config, sys: Sys, chain: seq<nat>)
    requires SysOk(cfg, sys) && |chain| >= 2
    requires forall i :: 0 <= i < |chain| ==> chain[i] < |sys.txns|
    requires forall i :: 0 <= i < |chain| - 1 ==> Blocks(cfg, sys, chain[i], chain[i + 1])
    ensures Order(sys.txns[chain[0]].pc) < Order(sys.txns[chain[|chain| - 1]].pc)
    ensures chain[0] != chain[|chain| - 1]
  {
    BlockerIsAhead(cfg, sys, chain[0], chain[1]);
    if |chain| > 2 {
      NoWaitCycle(cfg, sys, chain[1..]);
    }
  }

  /** The unfinished transaction that has come furthest. */
  lemma {:induction false} Furthest(txns: seq<Txn>) returns (best: nat)
    requires exists t: nat :: t < |txns| && !txns[t].pc.Finished?
    ensures best < |txns| && !txns[best].pc.Finished?
    ensures forall t: nat :: t < |txns| && !txns[t].pc.Finished? ==> Order(txns[t].pc) <= Order(txns[best].pc)
  {
    var last := |txns| - 1;
    var rest := txns[..last];
    if exists t: nat :: t < |rest| && !rest[t].pc.Finished? {
      best := Furthest(rest);
      assert forall t: nat :: t < |rest| ==> txns[t] == rest[t];
      if !txns[last].pc.Finished? && Order(txns[last].pc) > Order(txns[best].pc) {
        best := last;
      }
    } else {
      best := last;
      assert forall t: nat :: t < |rest| ==> txns[t] == rest[t];
    }
  }

  /** Deadlock freedom: while some transaction is unfinished, some transaction can run its next statement. */
  lemma SomebodyCanMove(cfg: Config, sys: Sys) returns (t: nat)
    requires SysOk(cfg, sys)
    requires exists u: nat :: u < |sys.txns| && !sys.txns[u].pc.Finished?
    ensures t < |sys.txns| && CanMove(cfg, sys, t)
  {
    t := Furthest(sys.txns);
    forall u: nat | u < |sys.txns| ensures !Blocks(cfg, sys, t, u) {
      if Blocks(cfg, sys, t, u) {
        BlockerIsAhead(cfg, sys, t, u);
      }
    }
  }
}
