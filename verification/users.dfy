/** The User aggregate: standing, holds and verdicts, sessions, KYC and seat. An email, a
    username or an identity subject is an opaque value, and a profile either parses or not. */
module Users {
  import opened Results

  const HOLD_TTL_SECS: int := 24 * 60 * 60
  const HOLD_COOLDOWN_SECS: int := 7 * 24 * 60 * 60
  const MAX_KYC_LEVEL: nat := 3

  datatype Role = Investor | Operator | Admin | Owner

  datatype Suspension = AdminHold(expiresAt: int) | Governance

  datatype Event = Created | SessionsRevoked | Suspended | Reinstated | KycChanged | RoleChanged | PermissionsChanged

  datatype User = User(
    email: nat, emailVerified: bool, username: Option<nat>,
    active: bool, suspension: Option<Suspension>, holdEndedAt: Option<int>,
    tokenVersion: nat, kycLevel: nat, role: Role, rowVersion: nat, pending: seq<Event>)
  {
    predicate Held() {
      suspension.Some? && suspension.value.AdminHold?
    }
  }

  /** Everything a caller may ask of the aggregate. `Reinstate` is one admin's button, which
      refuses the owners' verdict; `Enable` is the owners' own act. */
  datatype Command =
    | ChangeEmail(email: nat, verified: bool)
    | VerifyEmail
    | TakeOver
    | SetUsername(username: nat)
    | UpdateProfile(parses: bool)
    | RevokeTokens
    | Disable
    | Hold(actor: Role, now: int, ratificationPending: bool)
    | Suspend
    | Enable(now: int)
    | Reinstate(now: int)
    | LapseHold(now: int)
    | SetKycLevel(level: nat)
    | SetRole(role: Role)

  // ---- Transitions ----

  function Bump(u: User): User {
    u.(rowVersion := u.rowVersion + 1)
  }

  function Emit(u: User, event: Event): User {
    u.(rowVersion := u.rowVersion + 1, pending := u.pending + [event])
  }

  function Provision(email: nat, verified: bool, username: Option<nat>): User {
    Emit(User(email, verified, username, true, None, None, 0, 0, Investor, 0, []), Created)
  }

  /** The one writer of a freeze: only the freeze itself is an event. */
  function SuspendedAs(u: User, reason: Option<Suspension>): User {
    var v := u.(active := false, suspension := reason);
    if u.active then Emit(v, Suspended) else v
  }

  function Lifted(u: User, now: int): User {
    var v := u.(suspension := None,
                holdEndedAt :=
                  if u.Held()
                  then Some(if now < u.suspension.value.expiresAt then now else u.suspension.value.expiresAt)
                  else u.holdEndedAt);
    if u.active then v else Emit(v.(active := true), Reinstated)
  }

  function Verified(u: User): User {
    if u.emailVerified then u else Bump(u.(emailVerified := true))
  }

  function Revoked(u: User): User {
    Emit(u.(tokenVersion := u.tokenVersion + 1), SessionsRevoked)
  }

  predicate Cooling(u: User, now: int) {
    u.holdEndedAt.Some? && now < SaturatingAdd(u.holdEndedAt.value, HOLD_COOLDOWN_SECS)
  }

  function HoldRefused(u: User, actor: Role, now: int, ratificationPending: bool): Option<Error> {
    if u.suspension == Some(Governance) then Some(Conflict)
    else if (u.role == Admin || u.role == Owner) && actor != Owner then Some(Forbidden)
    else if !ratificationPending && (u.Held() || Cooling(u, now)) then Some(Forbidden)
    else None
  }

  function Apply(u: User, c: Command): Result<User> {
    match c
    case ChangeEmail(email, verified) =>
      Success(if (u.emailVerified && !verified) || (u.email == email && u.emailVerified == verified) then u
              else Bump(u.(email := email, emailVerified := verified)))
    case VerifyEmail => Success(Verified(u))
    case TakeOver => Success(Revoked(Verified(u)))
    case SetUsername(username) =>
      Success(if u.username == Some(username) then u else Bump(u.(username := Some(username))))
    case UpdateProfile(parses) => if parses then Success(Bump(u)) else Failure(Validation)
    case RevokeTokens => Success(Revoked(u))
    case Disable => Success(SuspendedAs(u, None))
    case Hold(actor, now, ratificationPending) =>
      (match HoldRefused(u, actor, now, ratificationPending)
       case Some(e) => Failure(e)
       case None => Success(SuspendedAs(u, Some(AdminHold(SaturatingAdd(now, HOLD_TTL_SECS))))))
    case Suspend => Success(SuspendedAs(u, Some(Governance)))
    case Enable(now) => Success(Lifted(u, now))
    case Reinstate(now) => if u.suspension == Some(Governance) then Failure(Forbidden) else Success(Lifted(u, now))
    case LapseHold(now) =>
      Success(if u.Held() && now >= u.suspension.value.expiresAt then Lifted(u, now) else u)
    case SetKycLevel(level) =>
      if level > MAX_KYC_LEVEL then Failure(Validation)
      else if level > 0 && !u.emailVerified then Failure(Precondition)
      else Success(if u.kycLevel == level then u else Emit(u.(kycLevel := level), KycChanged))
    case SetRole(role) => Success(if u.role == role then u else Emit(u.(role := role), RoleChanged))
  }

  /** A refused command leaves the account as it was. */
  function Next(u: User, c: Command): User {
    match Apply(u, c)
    case Success(v) => v
    case Failure(_) => u
  }

  function Run(u: User, commands: seq<Command>): User {
    if commands == [] then u else Next(Run(u, commands[..|commands| - 1]), commands[|commands| - 1])
  }

  // ---- What each command does ----

  /** What lifting a freeze does: a hold ends at the reading or its deadline, whichever came
      first, and that end is remembered; lifting anything else remembers nothing new. */
  ghost predicate Freed(u: User, v: User, now: int) {
    && v.active && v.suspension == None
    && (match u.suspension
        case Some(AdminHold(expiresAt)) =>
          v.holdEndedAt.Some? && v.holdEndedAt.value <= now && v.holdEndedAt.value <= expiresAt
          && (v.holdEndedAt.value == now || v.holdEndedAt.value == expiresAt)
        case _ => v.holdEndedAt == u.holdEndedAt)
  }

  ghost predicate Frozen(u: User, v: User, why: Option<Suspension>) {
    !v.active && v.suspension == why && v.holdEndedAt == u.holdEndedAt
  }

  /** When a hold is refused: over the owners' verdict; on an admin's or owner's seat by anyone
      but an owner; and, with no proposal pending, over a live hold or within a week of the
      last one's end. */
  ghost predicate NotHeldNow(u: User, actor: Role, now: int, ratificationPending: bool) {
    || u.suspension == Some(Governance)
    || ((u.role == Admin || u.role == Owner) && actor != Owner)
    || (!ratificationPending
        && (u.Held() || (u.holdEndedAt.Some? && now < SaturatingAdd(u.holdEndedAt.value, 604800))))
  }

  /** Who stands frozen after a command and why: the owners' act lifts anything, their own
      verdict included; one admin's lifts anything but that verdict; a hold lapses at its
      deadline and not before; and no other command touches the standing. */
  lemma StandingMoves(u: User, c: Command)
    ensures var v := Next(u, c);
            && (c.Enable? ==> Freed(u, v, c.now))
            && (c.Reinstate? ==> if u.suspension == Some(Governance) then v == u else Freed(u, v, c.now))
            && (c.LapseHold? ==>
                  if u.Held() && u.suspension.value.expiresAt <= c.now then Freed(u, v, c.now) else v == u)
            && (c.Disable? ==> Frozen(u, v, None))
            && (c.Suspend? ==> Frozen(u, v, Some(Governance)))
            && (c.Hold? ==>
                  if NotHeldNow(u, c.actor, c.now, c.ratificationPending) then v == u
                  else Frozen(u, v, Some(AdminHold(SaturatingAdd(c.now, 86400)))))
            && (!c.Enable? && !c.Reinstate? && !c.LapseHold? && !c.Disable? && !c.Suspend? && !c.Hold? ==>
                  v.active == u.active && v.suspension == u.suspension && v.holdEndedAt == u.holdEndedAt)
  {
  }

  /** What a command says of the account besides its standing: the address moves unless that
      would take back a verification, the level within its bound and over a verified address,
      the seat and the name as asked; nothing else moves any of them. */
  lemma ProfileMoves(u: User, c: Command)
    ensures var v := Next(u, c);
            && (v.email, v.emailVerified)
               == (match c
                   case ChangeEmail(email, verified) =>
                     if u.emailVerified && !verified then (u.email, true) else (email, verified)
                   case VerifyEmail => (u.email, true)
                   case TakeOver => (u.email, true)
                   case _ => (u.email, u.emailVerified))
            && v.username == (if c.SetUsername? then Some(c.username) else u.username)
            && v.role == (if c.SetRole? then c.role else u.role)
            && v.kycLevel == (if c.SetKycLevel? && c.level <= 3 && (c.level == 0 || u.emailVerified) then c.level
                              else u.kycLevel)
            && v.tokenVersion == u.tokenVersion + (if c.RevokeTokens? || c.TakeOver? then 1 else 0)
  {
  }

  /** And what it tells: a freeze, a release, a revocation, a new level or a new seat each by
      its own event, exactly when it happened; the row counter rises by one for each event and
      for each change that tells nothing. */
  lemma EventsTell(u: User, c: Command)
    ensures var v := Next(u, c);
            var told := if u.active && !v.active then [Suspended]
                        else if !u.active && v.active then [Reinstated]
                        else if v.tokenVersion != u.tokenVersion then [SessionsRevoked]
                        else if v.kycLevel != u.kycLevel then [KycChanged]
                        else if v.role != u.role then [RoleChanged]
                        else [];
            var silent := (v.email, v.emailVerified) != (u.email, u.emailVerified) || v.username != u.username
                          || (c.UpdateProfile? && c.parses);
            && v.pending == u.pending + told
            && v.rowVersion == u.rowVersion + |told| + if silent then 1 else 0
  {
  }

  // ---- What every account keeps ----

  /** Two independent readings of the event log. */
  function FrozenAfter(frozen: bool, events: seq<Event>): bool {
    if events == [] then frozen
    else
      var last := events[|events| - 1];
      if last == Suspended then true
      else if last == Reinstated then false
      else FrozenAfter(frozen, events[..|events| - 1])
  }

  /** A freeze is announced only over an account last announced free, and the reverse. */
  ghost predicate Alternates(frozen: bool, events: seq<Event>) {
    forall i :: 0 <= i < |events| ==>
      && (events[i] == Suspended ==> !FrozenAfter(frozen, events[..i]))
      && (events[i] == Reinstated ==> FrozenAfter(frozen, events[..i]))
  }

  lemma {:induction false} AppendAlternates(frozen: bool, events: seq<Event>, event: Event)
    requires Alternates(frozen, events)
    requires event == Suspended ==> !FrozenAfter(frozen, events)
    requires event == Reinstated ==> FrozenAfter(frozen, events)
    ensures Alternates(frozen, events + [event])
    ensures FrozenAfter(frozen, events + [event]) ==
              if event == Suspended then true else if event == Reinstated then false else FrozenAfter(frozen, events)
  {
    var longer := events + [event];
    assert longer[..|events|] == events;
    forall i | 0 <= i < |longer|
      ensures longer[i] == Suspended ==> !FrozenAfter(frozen, longer[..i])
      ensures longer[i] == Reinstated ==> FrozenAfter(frozen, longer[..i])
    {
      if i < |events| {
        assert longer[..i] == events[..i];
      }
    }
  }

  /** What the log says since it was last empty, against the account before and after. */
  ghost predicate Announced(frozen: bool, u: User) {
    Alternates(frozen, u.pending) && FrozenAfter(frozen, u.pending) == !u.active
  }

  ghost predicate Proper(u: User) {
    && (u.suspension.Some? ==> !u.active)
    && u.kycLevel <= MAX_KYC_LEVEL && (u.kycLevel > 0 ==> u.emailVerified)
  }

  /** A command emits at most one event, and a change of standing is the event that says so. */
  lemma CommandEmits(u: User, c: Command)
    ensures var v := Next(u, c);
            || (v.pending == u.pending && v.active == u.active)
            || (|v.pending| == |u.pending| + 1 && v.pending == u.pending + [v.pending[|u.pending|]]
                && var event := v.pending[|u.pending|];
                   && (event == Suspended ==> u.active && !v.active)
                   && (event == Reinstated ==> !u.active && v.active)
                   && (event != Suspended && event != Reinstated ==> v.active == u.active))
  {
  }

  lemma CommandAnnounces(frozen: bool, u: User, c: Command)
    requires Announced(frozen, u)
    ensures Announced(frozen, Next(u, c)) && u.pending <= Next(u, c).pending
  {
    CommandEmits(u, c);
    var v := Next(u, c);
    if v.pending != u.pending {
      AppendAlternates(frozen, u.pending, v.pending[|u.pending|]);
    }
  }

  /** Every command keeps the account proper and its log honest; versions and the row counter
      only grow, by at least one for every event; only `RevokeTokens` and `TakeOver` move the
      token version. */
  lemma CommandKeeps(frozen: bool, u: User, c: Command)
    requires Proper(u) && Announced(frozen, u)
    ensures var v := Next(u, c);
            && Proper(v) && Announced(frozen, v)
            && u.pending <= v.pending
            && v.rowVersion - u.rowVersion >= |v.pending| - |u.pending|
            && v.tokenVersion == u.tokenVersion + (if c.RevokeTokens? || c.TakeOver? then 1 else 0)
            && (u.emailVerified ==> v.emailVerified)
  {
    CommandAnnounces(frozen, u, c);
    CommandCounts(u, c);
    CommandCaps(u, c);
  }

  lemma CommandCounts(u: User, c: Command)
    ensures var v := Next(u, c);
            && v.rowVersion - u.rowVersion >= |v.pending| - |u.pending|
            && v.tokenVersion == u.tokenVersion + (if c.RevokeTokens? || c.TakeOver? then 1 else 0)
  {
  }

  lemma CommandCaps(u: User, c: Command)
    requires Proper(u)
    ensures Proper(Next(u, c)) && (u.emailVerified ==> Next(u, c).emailVerified)
  {
  }

  /** Over any run from a provisioned account, SUSPENDED and REINSTATED strictly alternate,
      the last of them says whether the account is frozen, and the caps hold. */
  lemma {:induction false} LogTellsStanding(email: nat, verified: bool, username: Option<nat>, commands: seq<Command>)
    ensures var u := Run(Provision(email, verified, username), commands);
            && Proper(u) && Announced(false, u)
            && u.rowVersion >= |u.pending|
    decreases |commands|
  {
    var start := Provision(email, verified, username);
    if commands == [] {
      assert start.pending == [Created];
      AppendAlternates(false, [], Created);
      assert [] + [Created] == [Created];
    } else {
      var n := |commands| - 1;
      LogTellsStanding(email, verified, username, commands[..n]);
      CommandKeeps(false, Run(start, commands[..n]), commands[n]);
    }
  }

  // ---- Who may lift what ----

  predicate OwnersAct(c: Command) {
    c.Enable? || c.Disable?
  }

  /** The owners' verdict outlives everything but the owners' own act (and the raw brake
      beneath them): no hold, lapse or admin reinstatement touches it. */
  lemma {:induction false} VerdictStands(u: User, commands: seq<Command>)
    requires u.suspension == Some(Governance) && !u.active
    requires forall i :: 0 <= i < |commands| ==> !OwnersAct(commands[i])
    ensures Run(u, commands).suspension == Some(Governance) && !Run(u, commands).active
    decreases |commands|
  {
    if commands != [] {
      VerdictStands(u, commands[..|commands| - 1]);
      assert !OwnersAct(commands[|commands| - 1]);
    }
  }

  /** Nobody below an owner can freeze an admin or an owner: whatever else they do, in any
      number of presses and with any proposal pending, the account stays free until its seat
      moves, the owners suspend it, or the raw brake is pulled. */
  lemma {:induction false} SeatsAreNotHeldFromBelow(u: User, commands: seq<Command>)
    requires u.active && (u.role == Admin || u.role == Owner)
    requires forall c :: c in commands ==> !c.SetRole? && !c.Disable? && !c.Suspend? && (c.Hold? ==> c.actor != Owner)
    ensures Run(u, commands).active && Run(u, commands).role == u.role
    decreases |commands|
  {
    if commands != [] {
      SeatsAreNotHeldFromBelow(u, commands[..|commands| - 1]);
      assert commands[|commands| - 1] in commands;
    }
  }

  /** Exactly the commands that end a live hold, and exactly those that record its end: a
      verdict or the raw brake over a hold ends it with no cooldown started. */
  lemma HoldEndsExactly(u: User, c: Command)
    requires u.Held()
    ensures var v := Next(u, c);
            && (!v.Held() <==>
                c.Disable? || c.Suspend? || c.Enable? || c.Reinstate?
                  || (c.LapseHold? && c.now >= u.suspension.value.expiresAt))
            && (v.holdEndedAt != u.holdEndedAt ==>
                !v.Held() && v.holdEndedAt.Some? && v.holdEndedAt.value <= u.suspension.value.expiresAt)
            && (c.Disable? || c.Suspend? ==> v.holdEndedAt == u.holdEndedAt)
  {
  }

  /** A hold, then the raw brake, then another hold at the deadline: two days held without a
      pause and with nobody asked. This is why holds are counted without the raw brake. */
  lemma RawBrakeForgetsTheHold(u: User, now: int)
    requires u.suspension.None? && u.holdEndedAt.None? && u.role == Investor && 0 <= now <= I64_MAX - 2 * HOLD_TTL_SECS
    ensures var first := Apply(u, Hold(Admin, now, false));
            && first.Success?
            && var braked := Next(first.value, Disable);
            && Apply(braked, Hold(Admin, now + HOLD_TTL_SECS, false)).Success?
            && Apply(Next(first.value, LapseHold(now + HOLD_TTL_SECS)), Hold(Admin, now + HOLD_TTL_SECS, false))
               == Failure(Forbidden)
  {
    var v := SuspendedAs(u, Some(AdminHold(SaturatingAdd(now, HOLD_TTL_SECS))));
    assert Apply(u, Hold(Admin, now, false)) == Success(v);
    var lapsed := Lifted(v, now + HOLD_TTL_SECS);
    assert lapsed.holdEndedAt == Some(now + HOLD_TTL_SECS);
  }

  // ---- The aggregate ----

  class Account {
    var email: nat
    var emailVerified: bool
    var username: Option<nat>
    var active: bool
    var suspension: Option<Suspension>
    var holdEndedAt: Option<int>
    var tokenVersion: nat
    var kycLevel: nat
    var role: Role
    var rowVersion: nat
    var pending: seq<Event>

    function Model(): User reads this {
      User(email, emailVerified, username, active, suspension, holdEndedAt, tokenVersion, kycLevel, role, rowVersion,
           pending)
    }

    constructor (address: nat, verified: bool, handle: Option<nat>)
      ensures Model() == Provision(address, verified, handle)
    {
      email, emailVerified, username := address, verified, handle;
      active, suspension, holdEndedAt := true, None, None;
      tokenVersion, kycLevel, role := 0, 0, Investor;
      rowVersion, pending := 1, [Created];
    }

    method BumpAndEmit(event: Event)
      modifies this
      ensures Model() == Emit(old(Model()), event)
    {
      rowVersion := rowVersion + 1;
      pending := pending + [event];
    }

    method ChangeEmailTo(address: nat, verified: bool)
      modifies this
      ensures Success(Model()) == Apply(old(Model()), ChangeEmail(address, verified))
    {
      if emailVerified && !verified { return; }
      if email == address && emailVerified == verified { return; }
      email := address;
      emailVerified := verified;
      rowVersion := rowVersion + 1;
    }

    method Verify()
      modifies this
      ensures Success(Model()) == Apply(old(Model()), VerifyEmail)
    {
      if emailVerified { return; }
      emailVerified := true;
      rowVersion := rowVersion + 1;
    }

    method RevokeSessions() returns (version: nat)
      modifies this
      ensures Success(Model()) == Apply(old(Model()), RevokeTokens) && version == tokenVersion
    {
      tokenVersion := tokenVersion + 1;
      BumpAndEmit(SessionsRevoked);
      version := tokenVersion;
    }

    method TakenOver()
      modifies this
      ensures Success(Model()) == Apply(old(Model()), TakeOver)
    {
      Verify();
      var _ := RevokeSessions();
    }

    method ChooseUsername(handle: nat)
      modifies this
      ensures Success(Model()) == Apply(old(Model()), SetUsername(handle))
    {
      if username == Some(handle) { return; }
      username := Some(handle);
      rowVersion := rowVersion + 1;
    }

    method ReplaceProfile(parses: bool) returns (refused: Option<Error>)
      modifies this
      ensures refused.None? ==> Success(Model()) == Apply(old(Model()), UpdateProfile(parses))
      ensures refused.Some? ==>
              Failure(refused.value) == Apply(old(Model()), UpdateProfile(parses)) && Model() == old(Model())
    {
      if !parses { return Some(Validation); }
      rowVersion := rowVersion + 1;
      refused := None;
    }

    method SuspendAs(reason: Option<Suspension>)
      modifies this
      ensures Model() == SuspendedAs(old(Model()), reason)
    {
      var wasActive := active;
      active := false;
      suspension := reason;
      if wasActive { BumpAndEmit(Suspended); }
    }

    method PlaceHold(actor: Role, now: int, ratificationPending: bool) returns (refused: Option<Error>)
      modifies this
      ensures refused.None? ==> Success(Model()) == Apply(old(Model()), Hold(actor, now, ratificationPending))
      ensures refused.Some? ==>
              Failure(refused.value) == Apply(old(Model()), Hold(actor, now, ratificationPending))
                && Model() == old(Model())
    {
      if suspension == Some(Governance) { return Some(Conflict); }
      if (role == Admin || role == Owner) && actor != Owner { return Some(Forbidden); }
      if !ratificationPending {
        if suspension.Some? && suspension.value.AdminHold? { return Some(Forbidden); }
        if holdEndedAt.Some? && now < SaturatingAdd(holdEndedAt.value, HOLD_COOLDOWN_SECS) { return Some(Forbidden); }
      }
      SuspendAs(Some(AdminHold(SaturatingAdd(now, HOLD_TTL_SECS))));
      refused := None;
    }

    method EnableAt(now: int)
      modifies this
      ensures Success(Model()) == Apply(old(Model()), Enable(now))
    {
      if suspension.Some? && suspension.value.AdminHold? {
        holdEndedAt := Some(if now < suspension.value.expiresAt then now else suspension.value.expiresAt);
      }
      suspension := None;
      if active { return; }
      active := true;
      BumpAndEmit(Reinstated);
    }

    method Lapse(now: int) returns (lapsed: bool)
      modifies this
      ensures Success(Model()) == Apply(old(Model()), LapseHold(now))
      ensures lapsed <==> old(Model()).Held() && now >= old(suspension).value.expiresAt
    {
      if suspension.None? || suspension.value.Governance? { return false; }
      if now < suspension.value.expiresAt { return false; }
      EnableAt(now);
      lapsed := true;
    }

    method GrantKycLevel(level: nat) returns (refused: Option<Error>)
      modifies this
      ensures refused.None? ==> Success(Model()) == Apply(old(Model()), SetKycLevel(level))
      ensures refused.Some? ==>
              Failure(refused.value) == Apply(old(Model()), SetKycLevel(level)) && Model() == old(Model())
    {
      if level > MAX_KYC_LEVEL { return Some(Validation); }
      if level > 0 && !emailVerified { return Some(Precondition); }
      refused := None;
      if kycLevel == level { return; }
      kycLevel := level;
      BumpAndEmit(KycChanged);
    }

    method Seat(to: Role)
      modifies this
      ensures Success(Model()) == Apply(old(Model()), SetRole(to))
    {
      if role == to { return; }
      role := to;
      BumpAndEmit(RoleChanged);
    }

    method DrainEvents() returns (events: seq<Event>)
      modifies this
      ensures events == old(pending) && Model() == old(Model()).(pending := [])
    {
      events := pending;
      pending := [];
    }
  }
}
