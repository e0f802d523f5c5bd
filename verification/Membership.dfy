/** The members of one workspace. Each operation authorizes its caller, then reads the target's role, then
    writes in a transaction of its own; other callers may act in between. */
module Membership {
  import opened Text

  datatype Role = Owner | Admin | Member | Viewer

  type Members = map<string, Role>

  datatype Op =
    | Invite(caller: string, user: string, role: Role)
    | Change(caller: string, user: string, role: Role)
    | Remove(caller: string, user: string)

  /** The roles the policy lets invite, change roles and remove. */
  predicate Allowed(members: Members, op: Op) {
    && op.caller in members
    && if op.Change? then members[op.caller] == Owner else members[op.caller] in {Owner, Admin}
  }

  datatype Problem = PermissionDenied | InvalidInput | NotFound | AlreadyExists

  /** What is wrong with an operation, given the target's role as read. */
  function Objection(members: Members, op: Op): Option<Problem> {
    match op
    case Invite(_, _, role) => if role == Owner then Some(InvalidInput) else None
    case Change(_, user, role) =>
      if user !in members then Some(NotFound)
      else if members[user] == Owner && role != Owner then Some(PermissionDenied) else None
    case Remove(_, user) =>
      if user !in members then Some(NotFound) else if members[user] == Owner then Some(PermissionDenied) else None
  }

  /** The write: an insert fails for a member, an update or a delete of a non-member does nothing. */
  function Written(members: Members, op: Op): Members {
    match op
    case Invite(_, user, role) => if user in members then members else members[user := role]
    case Change(_, user, role) => if user in members then members[user := role] else members
    case Remove(_, user) => members - {user}
  }

  /** The whole operation with nobody in between. */
  function Atomic(members: Members, op: Op): Members {
    if Allowed(members, op) && Objection(members, op).None? then Written(members, op) else members
  }

  class Workspace {
    var members: Members

    /** createWorkspaceTx: the creator becomes its owner. */
    constructor (founder: string)
      ensures members == map[founder := Owner]
    {
      members := map[founder := Owner];
    }

    method InviteMember(caller: string, user: Option<string>, role: Role) returns (e: Option<Problem>)
      modifies this
      ensures user.Some? ==> members == Atomic(old(members), Invite(caller, user.value, role))
      ensures user.None? ==> members == old(members) && e.Some?
      ensures e.None? <==>
                && user.Some? && user.value !in old(members)
                && Allowed(old(members), Invite(caller, user.value, role)) && role != Owner
    {
      if caller !in members || (members[caller] != Owner && members[caller] != Admin) { return Some(PermissionDenied); }
      if role == Owner { return Some(InvalidInput); }
      if user.None? { return Some(NotFound); }
      if user.value in members { return Some(AlreadyExists); }
      members := members[user.value := role];
      return None;
    }

    method ChangeMemberRole(caller: string, user: string, role: Role) returns (e: Option<Problem>)
      modifies this
      ensures members == Atomic(old(members), Change(caller, user, role))
      ensures e == if !Allowed(old(members), Change(caller, user, role)) then Some(PermissionDenied)
                   else Objection(old(members), Change(caller, user, role))
    {
      if caller !in members || members[caller] != Owner { return Some(PermissionDenied); }
      if user !in members { return Some(NotFound); }
      if members[user] == Owner && role != Owner { return Some(PermissionDenied); }
      members := members[user := role];
      return None;
    }

    method RemoveMember(caller: string, user: string) returns (e: Option<Problem>)
      modifies this
      ensures members == Atomic(old(members), Remove(caller, user))
      ensures e == if !Allowed(old(members), Remove(caller, user)) then Some(PermissionDenied)
                   else Objection(old(members), Remove(caller, user))
    {
      if caller !in members || (members[caller] != Owner && members[caller] != Admin) { return Some(PermissionDenied); }
      if user !in members { return Some(NotFound); }
      if members[user] == Owner { return Some(PermissionDenied); }
      members := members - {user};
      return None;
    }
  }

  // ---- Operations one at a time ----

  function Owners(members: Members): set<string> { set u | u in members && members[u] == Owner }

  /** One operation at a time, no owner is lost, and one is gained only by an owner promoting a member. */
  lemma AtomicOwners(members: Members, op: Op)
    ensures Owners(members) <= Owners(Atomic(members, op))
    ensures forall u | u in Owners(Atomic(members, op)) - Owners(members) ::
              op.Change? && op.user == u && op.role == Owner && op.caller in Owners(members) && u in members
  {
  }

  function AtomicRun(members: Members, ops: seq<Op>): Members
    decreases ops
  {
    if ops == [] then members else AtomicRun(Atomic(members, ops[0]), ops[1..])
  }

  lemma {:induction false} AtomicRunKeepsOwners(members: Members, ops: seq<Op>)
    ensures Owners(members) <= Owners(AtomicRun(members, ops))
    decreases ops
  {
    if ops != [] {
      AtomicOwners(members, ops[0]);
      AtomicRunKeepsOwners(Atomic(members, ops[0]), ops[1..]);
    }
  }

  // ---- Operations interleaved ----

  /** The members, and the requests under way: those whose caller was authorized, and those whose target was
      checked as well. Any number of equal requests may be under way. */
  datatype State = State(members: Members, authorized: multiset<Op>, checked: multiset<Op>)

  datatype Step = Authorize(op: Op) | Check(op: Op) | Write(op: Op)

  predicate Enabled(s: State, step: Step) {
    match step
    case Authorize(op) => Allowed(s.members, op)
    case Check(op) => op in s.authorized
    case Write(op) => op in s.checked
  }

  function Next(s: State, step: Step): State {
    match step
    case Authorize(op) => s.(authorized := s.authorized + multiset{op})
    case Check(op) =>
      s.(authorized := s.authorized - multiset{op},
         checked := if Objection(s.members, op).None? then s.checked + multiset{op} else s.checked)
    case Write(op) => s.(checked := s.checked - multiset{op}, members := Written(s.members, op))
  }

  predicate Run(s: State, steps: seq<Step>, s': State)
    decreases steps
  {
    if steps == [] then s == s' else Enabled(s, steps[0]) && Run(Next(s, steps[0]), steps[1..], s')
  }

  /** The operation would cost the user their ownership if it were written now. */
  predicate Costs(op: Op, u: string) { op.user == u && (op.Remove? || (op.Change? && op.role != Owner)) }

  /** An owner whom no request that is checked and still to be written threatens. */
  predicate Safe(s: State, u: string) {
    && u in s.members && s.members[u] == Owner
    && forall op | op in s.checked :: !Costs(op, u)
  }

  lemma StepKeepsSafe(s: State, step: Step, u: string)
    requires Safe(s, u) && Enabled(s, step)
    ensures Safe(Next(s, step), u)
  {
  }

  lemma {:induction false} RunKeepsSafe(s: State, steps: seq<Step>, s': State, u: string)
    requires Safe(s, u) && Run(s, steps, s')
    ensures Safe(s', u)
    decreases steps
  {
    if steps != [] {
      StepKeepsSafe(s, steps[0], u);
      RunKeepsSafe(Next(s, steps[0]), steps[1..], s', u);
    }
  }

  predicate IsOwner(members: Members, u: string) { u in members && members[u] == Owner }

  /** Every continuation leaves the user an owner. */
  ghost predicate AlwaysOwner(s: State, u: string) {
    forall steps, s' | Run(s, steps, s') :: IsOwner(s'.members, u)
  }

  lemma AfterOneStep(s: State, step: Step, u: string)
    requires AlwaysOwner(s, u) && Enabled(s, step)
    ensures IsOwner(Next(s, step).members, u)
  {
    var after := Next(s, step);
    RunCons(s, step, [], after);
    assert IsOwner(after.members, u);
  }

  /** An owner stays an owner under every interleaving exactly when no request against them is checked and still
      to be written: from then on every check sees the role. A request that was written counts no more. */
  lemma OwnerStaysExactly(s: State, u: string)
    requires IsOwner(s.members, u)
    ensures Safe(s, u) <==> AlwaysOwner(s, u)
  {
    if Safe(s, u) {
      forall steps, s' | Run(s, steps, s') ensures IsOwner(s'.members, u) {
        RunKeepsSafe(s, steps, s', u);
      }
    } else {
      var op :| op in s.checked && Costs(op, u);
      if AlwaysOwner(s, u) {
        AfterOneStep(s, Write(op), u);
        assert false;
      }
    }
  }

  /** The founder stays an owner under every interleaving of every caller's operations. */
  lemma FounderStays(founder: string, steps: seq<Step>, s': State)
    requires Run(State(map[founder := Owner], multiset{}, multiset{}), steps, s')
    ensures founder in s'.members && s'.members[founder] == Owner
  {
    RunKeepsSafe(State(map[founder := Owner], multiset{}, multiset{}), steps, s', founder);
  }

  lemma RunCons(s: State, step: Step, steps: seq<Step>, s': State)
    requires Enabled(s, step) && Run(Next(s, step), steps, s')
    ensures Run(s, [step] + steps, s')
  {
    assert ([step] + steps)[1..] == steps;
  }

  /** A request gets past its two checks. */
  lemma PassChecks(s: State, op: Op, rest: seq<Step>, s': State)
    requires Allowed(s.members, op) && Objection(s.members, op).None?
    requires Run(s.(checked := s.checked + multiset{op}), rest, s')
    ensures Run(s, [Authorize(op)] + ([Check(op)] + rest), s')
  {
    var s1 := Next(s, Authorize(op));
    assert s1.authorized - multiset{op} == s.authorized;
    assert Next(s1, Check(op)) == s.(checked := s.checked + multiset{op});
    RunCons(s1, Check(op), rest, s');
    RunCons(s, Authorize(op), [Check(op)] + rest, s');
  }

  lemma WriteNext(s: State, op: Op, members: Members, checked: multiset<Op>)
    requires s.checked == checked + multiset{op} && Written(s.members, op) == members
    ensures Run(s, [Write(op)], State(members, s.authorized, checked))
  {
    assert s.checked - multiset{op} == checked;
    RunCons(s, Write(op), [], State(members, s.authorized, checked));
    assert [Write(op)] + [] == [Write(op)];
  }

  /** A promotion is written while a demotion that was checked before it is still under way. */
  function Overtaken(promote: Op, demote: Op): seq<Step> {
    [Authorize(promote)] + ([Check(promote)] + ([Authorize(demote)] + ([Check(demote)] + [Write(promote)])))
  }

  lemma OvertakenRun(m: Members, promote: Op, demote: Op)
    requires Allowed(m, promote) && Objection(m, promote).None? && Allowed(m, demote) && Objection(m, demote).None?
    ensures Run(State(m, multiset{}, multiset{}), Overtaken(promote, demote),
                State(Written(m, promote), multiset{}, multiset{demote}))
  {
    var end := State(Written(m, promote), multiset{}, multiset{demote});
    var s1 := State(m, multiset{}, multiset{} + multiset{promote});
    WriteNext(s1.(checked := s1.checked + multiset{demote}), promote, end.members, multiset{demote});
    PassChecks(s1, demote, [Write(promote)], end);
    var rest := [Authorize(demote)] + ([Check(demote)] + [Write(promote)]);
    PassChecks(State(m, multiset{}, multiset{}), promote, rest, end);
  }

  /** A later owner may be demoted: a role change whose check came before their promotion is written after it. */
  lemma LaterOwnerMayBeDemoted(founder: string, user: string)
    requires founder != user
    ensures var s := State(map[founder := Owner, user := Member], multiset{}, multiset{});
            var promote, demote := Change(founder, user, Owner), Change(founder, user, Viewer);
            var promoted := State(map[founder := Owner, user := Owner], multiset{}, multiset{demote});
            && Run(s, Overtaken(promote, demote), promoted)
            && Enabled(promoted, Write(demote))
            && Next(promoted, Write(demote)).members == map[founder := Owner, user := Viewer]
  {
    var m := map[founder := Owner, user := Member];
    var promote, demote := Change(founder, user, Owner), Change(founder, user, Viewer);
    OvertakenRun(m, promote, demote);
    assert Written(m, promote) == map[founder := Owner, user := Owner];
    assert Written(Written(m, promote), demote) == map[founder := Owner, user := Viewer];
  }

  /** The steps of a request whose caller is authorized, with nobody in between. */
  function Alone(members: Members, op: Op): seq<Step> {
    [Authorize(op)] + ([Check(op)] + if Objection(members, op).None? then [Write(op)] else [])
  }

  /** An atomic operation is its steps with nothing in between, and leaves no request under way. */
  lemma AtomicIsItsSteps(s: State, op: Op)
    requires Allowed(s.members, op)
    ensures Run(s, Alone(s.members, op), s.(members := Atomic(s.members, op)))
  {
    if Objection(s.members, op).None? {
      WriteNext(s.(checked := s.checked + multiset{op}), op, Atomic(s.members, op), s.checked);
      PassChecks(s, op, [Write(op)], s.(members := Atomic(s.members, op)));
    } else {
      Refused(s, op);
    }
  }

  lemma Refused(s: State, op: Op)
    requires Allowed(s.members, op) && Objection(s.members, op).Some?
    ensures Run(s, [Authorize(op)] + ([Check(op)] + []), s)
  {
    var s1 := Next(s, Authorize(op));
    assert s1.authorized - multiset{op} == s.authorized;
    assert Next(s1, Check(op)) == s;
    RunCons(s1, Check(op), [], s);
    RunCons(s, Authorize(op), [Check(op)] + [], s);
  }
}
