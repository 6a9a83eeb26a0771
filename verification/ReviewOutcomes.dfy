/**
 What one review does, said in the tables alone: when it is answered, what it answers, what a new review
 leaves behind, and when it is refused and why.
 */
module ReviewOutcomes {
  import opened Common
  import opened Review

  // ---- Text --------------------------------------------------------------------------------------------------

  /** The white space of Unicode. */
  ghost predicate Blank(s: string) {
    forall i :: 0 <= i < |s| ==>
      s[i] in {'\t', '\n', '\U{000B}', '\U{000C}', '\r', ' ', '\U{0085}', '\U{00A0}', '\U{1680}', '\U{2000}',
          '\U{2001}',
               '\U{2002}', '\U{2003}', '\U{2004}', '\U{2005}', '\U{2006}', '\U{2007}', '\U{2008}', '\U{2009}',
               '\U{200A}', '\U{2028}', '\U{2029}', '\U{202F}', '\U{205F}', '\U{3000}'}
  }

  lemma SpaceIsBlank(c: char)
    ensures IsSpace(c) <==> Blank([c])
  {
    assert [c][0] == c;
  }

  lemma {:induction false} TrimLeftDrops(left: string, rest: string)
    requires Blank(left) && (rest == "" || !Blank(rest[..1]))
    ensures TrimLeft(left + rest) == rest
  {
    if left == "" {
      assert left + rest == rest;
      if rest != "" {
        SpaceIsBlank(rest[0]);
        assert rest[..1] == [rest[0]];
      }
    } else {
      SpaceIsBlank(left[0]);
      assert (left + rest)[1..] == left[1..] + rest;
      TrimLeftDrops(left[1..], rest);
    }
  }

  lemma {:induction false} TrimRightDrops(rest: string, right: string)
    requires Blank(right) && (rest == "" || !Blank(rest[|rest| - 1..]))
    ensures TrimRight(rest + right) == rest
    decreases |right|
  {
    if right == "" {
      assert rest + right == rest;
      if rest != "" {
        SpaceIsBlank(rest[|rest| - 1]);
        assert rest[|rest| - 1..] == [rest[|rest| - 1]];
      }
    } else {
      var n := |right| - 1;
      SpaceIsBlank(right[n]);
      assert (rest + right)[..|rest + right| - 1] == rest + right[..n];
      TrimRightDrops(rest, right[..n]);
    }
  }

  /** Trimming takes away all white space at both ends and nothing else. */
  lemma TrimExactly(left: string, text: string, right: string)
    requires Blank(left) && Blank(right)
    requires text != "" ==> !Blank(text[..1]) && !Blank(text[|text| - 1..])
    ensures Trim(left + text + right) == text
  {
    if text == "" {
      assert left + text + right == (left + right) + "";
      TrimLeftDrops(left + right, "");
    } else {
      assert left + text + right == left + (text + right);
      assert (text + right)[..1] == text[..1];
      TrimLeftDrops(left, text + right);
      TrimRightDrops(text, right);
    }
  }

  /** The number of bytes is that of the shortest forms, which carry 7, 11, 16 or 21 bits. */
  lemma {:induction false} BytesExactly(a: string, c: char, b: string)
    ensures ByteLength(a + [c] + b) == ByteLength(a) + ByteLength([c]) + ByteLength(b)
    ensures c as int < 128 <==> ByteLength([c]) <= 1
    ensures c as int < 2048 <==> ByteLength([c]) <= 2
    ensures c as int < 65536 <==> ByteLength([c]) <= 3
    ensures 1 <= ByteLength([c]) <= 4 && ByteLength("") == 0
    decreases |a|
  {
    assert [c][1..] == "";
    if a == "" {
      assert a + [c] + b == [c] + b && ([c] + b)[1..] == b;
    } else {
      assert (a + [c] + b)[0] == a[0] && (a + [c] + b)[1..] == a[1..] + [c] + b;
      BytesExactly(a[1..], c, b);
    }
  }

  // ---- Calls that reach the database --------------------------------------------------------------------------

  /** A call is taken up exactly under these conditions, and then only the findings of its command are changed. */
  lemma ValidatedExactly(c: Call)
    ensures Validate(c).Ok? <==>
      && c.principal.subject != "" && c.principal.tenant == c.tenant && c.tenant != 0 && c.caseId != 0
      && c.resource != "" && ByteLength(c.resource) <= 1024 && (c.owner == "core" || c.owner == "screening")
      && (c.command.Some? ==>
            var command := c.command.value;
            && command.operation != 0 && command.expectedVersion != ""
            && Trim(command.findings) != "" && ByteLength(Trim(command.findings)) <= 10000)
    ensures Validate(c).Ok? ==>
      Validate(c).value == if c.command.None? then c
                           else c.(command := Some(c.command.value.(findings := Trim(c.command.value.findings))))
    ensures Validate(c) == Err(Forbidden) <==>
      c.principal.subject == "" || c.principal.tenant != c.tenant || c.tenant == 0 || c.caseId == 0
  {
  }

  /** A read is answered exactly under these conditions, with the owner's state, and leaves the store alone. */
  lemma ReadExactly(cfg: Config, s: Store, c: Call)
    requires c.command.None?
    ensures RunChecked(cfg, s, c).0 == s
    ensures RunChecked(cfg, s, c).1.Ok? <==>
      && (if c.principal.session == 0 then !cfg.requireSession else c.principal in s.sessions)
      && (c.tenant, c.caseId) in s.cases
      && var inbox := s.cases[(c.tenant, c.caseId)].inbox;
      && (c.tenant, inbox) in s.inboxes
      && (c.principal.admin || (c.tenant, inbox, c.principal.subject) in s.members)
      && (c.owner == "core" ==>
            && cfg.parseUuid(c.resource).Some?
            && (c.tenant, c.caseId, cfg.parseUuid(c.resource).value) in s.decisionLinks)
      && (c.owner != "core" ==> (c.tenant, c.caseId, c.resource) in s.matchLinks)
      && ResourceKey(c.owner, c.tenant, c.resource) in s.resources
    ensures RunChecked(cfg, s, c).1.Ok? ==>
      var row, state := s.cases[(c.tenant, c.caseId)], s.resources[ResourceKey(c.owner, c.tenant, c.resource)].state;
      RunChecked(cfg, s, c).1.value == State(
        state.status, state.version,
        state.eligible && row.status != "closed" && s.inboxes[(c.tenant, row.inbox)] == "active",
        state.machineOutcome, state.actions)
  {
  }

  /** A repeated command is answered exactly under these conditions, with what is stored, and leaves the store alone. */
  lemma ReplayExactly(cfg: Config, s: Store, c: Call)
    requires c.command.Some? && OperationKey(c.owner, c.tenant, c.command.value.operation) in s.receipts
    ensures RunChecked(cfg, s, c).0 == s
    ensures RunChecked(cfg, s, c).1.Ok? <==>
      && (if c.principal.session == 0 then !cfg.requireSession else c.principal in s.sessions)
      && (c.tenant, c.caseId) in s.cases
      && var inbox := s.cases[(c.tenant, c.caseId)].inbox;
      && (c.tenant, inbox) in s.inboxes
      && (c.principal.admin || (c.tenant, inbox, c.principal.subject) in s.members)
      && (c.owner == "core" ==>
            && cfg.parseUuid(c.resource).Some?
            && (c.tenant, c.caseId, cfg.parseUuid(c.resource).value) in s.decisionLinks)
      && (c.owner != "core" ==> (c.tenant, c.caseId, c.resource) in s.matchLinks)
      && s.receipts[OperationKey(c.owner, c.tenant, c.command.value.operation)].payload
         == Payload(c.command.value, c.principal.subject, c.caseId)
    ensures RunChecked(cfg, s, c).1.Ok? ==>
      RunChecked(cfg, s, c).1.value == s.receipts[OperationKey(c.owner, c.tenant, c.command.value.operation)].result
  {
  }

  /** A new review takes place exactly under these conditions. */
  lemma CommitExactly(cfg: Config, s: Store, c: Call)
    requires c.command.Some? && OperationKey(c.owner, c.tenant, c.command.value.operation) !in s.receipts
    ensures RunChecked(cfg, s, c).1.Ok? <==>
      && (if c.principal.session == 0 then !cfg.requireSession else c.principal in s.sessions)
      && (c.tenant, c.caseId) in s.cases
      && var row := s.cases[(c.tenant, c.caseId)];
      && (c.tenant, row.inbox) in s.inboxes
      && (c.principal.admin || (c.tenant, row.inbox, c.principal.subject) in s.members)
      && (c.owner == "core" ==>
            && cfg.parseUuid(c.resource).Some?
            && (c.tenant, c.caseId, cfg.parseUuid(c.resource).value) in s.decisionLinks)
      && (c.owner != "core" ==> (c.tenant, c.caseId, c.resource) in s.matchLinks)
      && row.status != "closed" && s.inboxes[(c.tenant, row.inbox)] == "active"
      && ResourceKey(c.owner, c.tenant, c.resource) in s.resources
      && var owned := s.resources[ResourceKey(c.owner, c.tenant, c.resource)];
      && owned.state.eligible && owned.state.version == c.command.value.expectedVersion
      && c.command.value.action in owned.state.actions
      && cfg.apply(ResourceKey(c.owner, c.tenant, c.resource), owned, c.command.value, c.principal.subject).Ok?
      && (cfg.uniqueResource ==>
            forall k :: k in s.receipts && k.owner == c.owner && k.tenant == c.tenant ==>
                s.receipts[k].resource != c.resource)
    ensures RunChecked(cfg, s, c).1.Err? ==> RunChecked(cfg, s, c).0 == s
  {
    AccessSplit(cfg, s, c);
  }

  /** Past the access checks a command is decided by the case, the owner's row and the receipts. */
  lemma AccessSplit(cfg: Config, s: Store, c: Call)
    ensures Access(cfg, s, c).Ok? <==>
      && (if c.principal.session == 0 then !cfg.requireSession else c.principal in s.sessions)
      && (c.tenant, c.caseId) in s.cases
      && var inbox := s.cases[(c.tenant, c.caseId)].inbox;
      && (c.tenant, inbox) in s.inboxes
      && (c.principal.admin || (c.tenant, inbox, c.principal.subject) in s.members)
      && (c.owner == "core" ==>
            && cfg.parseUuid(c.resource).Some?
            && (c.tenant, c.caseId, cfg.parseUuid(c.resource).value) in s.decisionLinks)
      && (c.owner != "core" ==> (c.tenant, c.caseId, c.resource) in s.matchLinks)
    ensures Access(cfg, s, c).Ok? ==>
      var row := s.cases[(c.tenant, c.caseId)]; Access(cfg, s, c).value == (row, s.inboxes[(c.tenant, row.inbox)])
  {
  }

  /**
   What a new review answers, and everything it leaves behind: the owner's row, one receipt, one effect, one event.
   */
  lemma CommitLeaves(cfg: Config, s: Store, c: Call)
    requires c.command.Some? && OperationKey(c.owner, c.tenant, c.command.value.operation) !in s.receipts
    requires RunChecked(cfg, s, c).1.Ok?
    ensures var command, key := c.command.value, OperationKey(c.owner, c.tenant, c.command.value.operation);
      var target := ResourceKey(c.owner, c.tenant, c.resource);
      && target in s.resources
      && var was := s.resources[target];
      && cfg.apply(target, was, command, c.principal.subject).Ok?
      && var next, out := cfg.apply(target, was, command, c.principal.subject).value.next,
                          cfg.apply(target, was, command, c.principal.subject).value.out;
      var answer := State(out.status, out.version, false, out.machineOutcome, out.actions);
      RunChecked(cfg, s, c) == (
        Store(s.sessions, s.cases, s.inboxes, s.members, s.decisionLinks, s.matchLinks,
              s.resources[target := OwnerRow(next, was.past + {was.state.version})],
              s.receipts[key := Receipt(c.caseId, c.resource, c.principal.subject, was.state.status, out.status,
                                        command.findings, Payload(command, c.principal.subject, c.caseId), answer)],
              s.effects + [Effect(key, target, command, was.state, next)],
              s.history + [Event(key, c.caseId, c.principal.subject, c.resource, command.findings, out.status,
                                 was.state.status)]),
        Ok(answer))
  {
  }

  // ---- Refusals -------------------------------------------------------------------------------------------------

  /** A call is forbidden exactly for want of identity, case, membership or link, or if the owner forbids it. */
  lemma ForbiddenExactly(cfg: Config, s: Store, c: Call)
    requires c.command.None?
    ensures RunChecked(cfg, s, c).1 == Err(Forbidden) <==>
      || (c.principal.session == 0 && cfg.requireSession) || (c.principal.session != 0 && c.principal !in s.sessions)
      || (c.tenant, c.caseId) !in s.cases
      || var inbox := s.cases[(c.tenant, c.caseId)].inbox;
      && (c.tenant, inbox) in s.inboxes
      && (|| (!c.principal.admin && (c.tenant, inbox, c.principal.subject) !in s.members)
          || (c.owner == "core" && cfg.parseUuid(c.resource).Some?
              && (c.tenant, c.caseId, cfg.parseUuid(c.resource).value) !in s.decisionLinks)
          || (c.owner != "core" && (c.tenant, c.caseId, c.resource) !in s.matchLinks))
  {
  }

  /** Whoever is neither admin nor member of the case's inbox is refused, whatever the command. */
  lemma OutsidersAreRefused(cfg: Config, s: Store, c: Call)
    requires (c.tenant, c.caseId) in s.cases && (c.tenant, s.cases[(c.tenant, c.caseId)].inbox) in s.inboxes
    requires !c.principal.admin
    requires (c.tenant, s.cases[(c.tenant, c.caseId)].inbox, c.principal.subject) !in s.members
    ensures RunChecked(cfg, s, c) == (s, Err(Forbidden))
  {
  }

  /** An authorised command in conflict: it repeats an operation with another content, or expects another version. */
  lemma ConflictExactly(cfg: Config, s: Store, c: Call)
    requires c.command.Some? && Access(cfg, s, c).Ok?
    requires forall r, row, command, actor :: cfg.apply(r, row, command, actor) != Err(Conflict)
    ensures RunChecked(cfg, s, c).1 == Err(Conflict) <==>
      var key, target := OperationKey(c.owner, c.tenant, c.command.value.operation),
                         ResourceKey(c.owner, c.tenant, c.resource);
      if key in s.receipts then s.receipts[key].payload != Payload(c.command.value, c.principal.subject, c.caseId)
      else
        && s.cases[(c.tenant, c.caseId)].status != "closed"
        && s.inboxes[(c.tenant, s.cases[(c.tenant, c.caseId)].inbox)] == "active"
        && target in s.resources
        && (!s.resources[target].state.eligible || s.resources[target].state.version != c.command.value.expectedVersion)
  {
    AccessSplit(cfg, s, c);
  }

  /**
   A command that expects the right version is still invalid in a closed case, in an inactive inbox or for an unknown
   action.
   */
  lemma InvalidExactly(cfg: Config, s: Store, c: Call)
    requires c.command.Some? && Access(cfg, s, c).Ok?
    requires forall r, row, command, actor :: var a := cfg.apply(r, row, command, actor); a.Err? ==> !a.error.Invalid?
    ensures RunChecked(cfg, s, c).1.Err? && RunChecked(cfg, s, c).1.error.Invalid? <==>
      && OperationKey(c.owner, c.tenant, c.command.value.operation) !in s.receipts
      && (|| s.cases[(c.tenant, c.caseId)].status == "closed"
          || s.inboxes[(c.tenant, s.cases[(c.tenant, c.caseId)].inbox)] != "active"
          || var target := ResourceKey(c.owner, c.tenant, c.resource);
             && target in s.resources
             && s.resources[target].state.eligible
             && s.resources[target].state.version == c.command.value.expectedVersion
             && c.command.value.action !in s.resources[target].state.actions)
  {
    AccessSplit(cfg, s, c);
  }
}
