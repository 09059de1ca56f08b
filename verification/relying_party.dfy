/** Authorization codes and the client sessions they open. Claiming a code, re-admitting its
    user and opening the session are separate transactions, and so are the steps of a
    refresh; handlers, replays, sign-outs and reaping interleave between them. Digests and
    challenges are opaque values, and digests and secrets are minted fresh. */
module RelyingParty {
  import opened Results

  type UserId = nat
  type Digest = nat
  type SessionId = nat

  const CODE_TTL_SECS: int := 60
  const REFRESH_TTL_SECS: int := 7 * 24 * 60 * 60
  const SESSION_MAX_SECS: int := 30 * 24 * 60 * 60
  const CODE_RETENTION_SECS: int := 24 * 60 * 60

  /** What a code is bound to. */
  datatype Binding = Binding(client: nat, redirect: nat, challenge: nat)

  datatype Code = Code(
    bound: Binding, user: UserId, tokenVersion: nat, upstream: nat,
    expiresAt: int, redeemed: bool, replayed: bool)

  datatype Session = Session(
    client: nat, user: UserId, code: Digest, current: Digest, prev: Option<Digest>, tokenVersion: nat,
    upstream: nat, expiresAt: int, absoluteExpiresAt: int, revoked: bool)

  datatype Account = Account(active: bool, tokenVersion: nat)

  /** `issued` remembers every code ever stored, `presented` how often each was presented
      while stored, and `rotations` every secret a session was rotated away from. */
  datatype World = World(
    codes: map<Digest, Code>, sessions: map<SessionId, Session>, accounts: map<UserId, Account>,
    handlers: map<nat, Handler>, issued: map<Digest, Code>, presented: map<Digest, nat>,
    secrets: set<Digest>, rotations: seq<(SessionId, Digest)>)

  datatype Handler =
    | Claimed(code: Digest, client: nat, user: UserId, tokenVersion: nat, now: int)
    | Cleared(code: Digest, client: nat, user: UserId, tokenVersion: nat, now: int)
    | HasRead(session: SessionId, presentedSecret: Digest, user: UserId, tokenVersion: nat, now: int)
    | MayRotate(session: SessionId, presentedSecret: Digest, now: int)
    | MustRevoke(session: SessionId)

  datatype Outcome = Unknown | Replayed | Expired | Mismatch | Redeemed(user: UserId, tokenVersion: nat)

  datatype Step =
    | IssueCode(code: Digest, bound: Binding, user: UserId, tokenVersion: nat, upstream: nat, now: int)
    | Claim(h: nat, code: Digest, bound: Binding, now: int)
    | Admit(h: nat)
    | OpenSession(h: nat, session: SessionId, secret: Digest)
    | ReadSession(h: nat, session: SessionId, secret: Digest, client: nat, now: int)
    | Rotate(h: nat, next: Digest)
    | Revoke(h: nat)
    | RevokeUpstream(user: UserId, family: Option<nat>, now: int)
    | AccountMoves(user: UserId, account: Account)

  // ---- The transactions ----

  /** What a presented code was: burned on every presentation, matching or not. */
  function Claims(w: World, code: Digest, bound: Binding, now: int): Outcome {
    if code !in w.codes then Unknown
    else
      var c := w.codes[code];
      if c.redeemed then Replayed
      else if now >= c.expiresAt then Expired
      else if c.bound != bound then Mismatch
      else Redeemed(c.user, c.tokenVersion)
  }

  function RevokeWhere(sessions: map<SessionId, Session>, hit: set<SessionId>): map<SessionId, Session> {
    map s | s in sessions :: if s in hit then sessions[s].(revoked := true) else sessions[s]
  }

  function SessionsOf(w: World, code: Digest): set<SessionId> {
    set s | s in w.sessions && w.sessions[s].code == code
  }

  function AfterClaim(w: World, code: Digest): World {
    if code !in w.codes then w
    else
      var seen := (if code in w.presented then w.presented[code] else 0) + 1;
      var v := w.(presented := w.presented[code := seen]);
      if w.codes[code].redeemed then
        v.(codes := v.codes[code := v.codes[code].(replayed := true)],
           sessions := RevokeWhere(v.sessions, SessionsOf(v, code)))
      else v.(codes := v.codes[code := v.codes[code].(redeemed := true)])
  }

  /** The guard of the session insert, at the clock the redemption read when it began. */
  predicate Opens(w: World, code: Digest, now: int) {
    code in w.codes && !w.codes[code].replayed && w.codes[code].expiresAt > now
  }

  predicate MatchesUpstream(c: Code, user: UserId, upstream: Option<nat>) {
    c.user == user && (upstream.None? || c.upstream == upstream.value)
  }

  function Min(a: int, b: int): int {
    if a < b then a else b
  }

  function UpstreamRevoked(w: World, user: UserId, upstream: Option<nat>, now: int): World {
    w.(codes := (map c | c in w.codes ::
                   if MatchesUpstream(w.codes[c], user, upstream)
                   then w.codes[c].(expiresAt := Min(w.codes[c].expiresAt, now)) else w.codes[c]),
       sessions := RevokeWhere(w.sessions,
                     set s | s in w.sessions && w.sessions[s].user == user
                       && (upstream.None? || w.sessions[s].upstream == upstream.value)))
  }

  // ---- The handlers ----

  function Done(w: World, h: nat): World {
    w.(handlers := w.handlers - {h})
  }

  function Goto(w: World, h: nat, to: Handler): World {
    w.(handlers := w.handlers[h := to])
  }

  function Issues(w: World, code: Digest, c: Code, now: int): World {
    if code in w.issued then w
    else
      var kept := map k | k in w.codes && w.codes[k].expiresAt >= now - CODE_RETENTION_SECS :: w.codes[k];
      w.(codes := kept[code := c], issued := w.issued[code := c])
  }

  function ClaimStep(w: World, h: nat, code: Digest, bound: Binding, now: int): World {
    if h in w.handlers then w
    else
      match Claims(w, code, bound, now)
      case Redeemed(user, tokenVersion) =>
        Goto(AfterClaim(w, code), h, Claimed(code, bound.client, user, tokenVersion, now))
      case _ => AfterClaim(w, code)
  }

  /** An active account at exactly the version the code was issued under; a refresh accepts
      a version no newer than the session's. */
  function AdmitStep(w: World, h: nat): World {
    if h !in w.handlers then w
    else
      match w.handlers[h]
      case Claimed(code, client, user, tokenVersion, now) =>
        if user in w.accounts && w.accounts[user] == Account(true, tokenVersion)
        then Goto(w, h, Cleared(code, client, user, tokenVersion, now)) else Done(w, h)
      case HasRead(session, secret, user, tokenVersion, now) =>
        if user in w.accounts && w.accounts[user].active && w.accounts[user].tokenVersion <= tokenVersion
        then Goto(w, h, MayRotate(session, secret, now)) else Goto(w, h, MustRevoke(session))
      case _ => w
  }

  function OpenStep(w: World, h: nat, session: SessionId, secret: Digest): World {
    if h !in w.handlers || !w.handlers[h].Cleared? || session in w.sessions || secret in w.secrets then w
    else
      var Cleared(code, client, user, tokenVersion, now) := w.handlers[h];
      if !Opens(w, code, now) then Done(w, h)
      else
        Done(w, h).(
          sessions := w.sessions[session := Session(client, user, code, secret, None, tokenVersion,
                                                    w.codes[code].upstream, now + REFRESH_TTL_SECS,
                                                    now + SESSION_MAX_SECS, false)],
          secrets := w.secrets + {secret})
  }

  /** Any wrong secret for a live session of the caller's own ends it. */
  function ReadStep(w: World, h: nat, session: SessionId, secret: Digest, client: nat, now: int): World {
    if h in w.handlers || session !in w.sessions then w
    else
      var s := w.sessions[session];
      if s.client != client || s.revoked || now >= s.expiresAt || now >= s.absoluteExpiresAt then w
      else if s.current != secret then Goto(w, h, MustRevoke(session))
      else Goto(w, h, HasRead(session, secret, s.user, s.tokenVersion, now))
  }

  /** Conditional on the secret that was checked and on the session still standing. */
  function RotateStep(w: World, h: nat, next: Digest): World {
    if h !in w.handlers || !w.handlers[h].MayRotate? || next in w.secrets then w
    else
      var MayRotate(session, secret, now) := w.handlers[h];
      var v := Done(w, h);
      if session !in w.sessions || w.sessions[session].current != secret || w.sessions[session].revoked then v
      else
        var s := w.sessions[session];
        v.(sessions := v.sessions[session := s.(prev := Some(s.current), current := next,
                                               expiresAt := Min(now + REFRESH_TTL_SECS, s.absoluteExpiresAt))],
           secrets := v.secrets + {next}, rotations := v.rotations + [(session, secret)])
  }

  function RevokeStep(w: World, h: nat): World {
    if h !in w.handlers || !w.handlers[h].MustRevoke? then w
    else Done(w, h).(sessions := RevokeWhere(w.sessions, {w.handlers[h].session}))
  }

  function Apply(w: World, s: Step): World {
    match s
    case IssueCode(code, bound, user, tokenVersion, upstream, now) =>
      Issues(w, code, Code(bound, user, tokenVersion, upstream, now + CODE_TTL_SECS, false, false), now)
    case Claim(h, code, bound, now) => ClaimStep(w, h, code, bound, now)
    case Admit(h) => AdmitStep(w, h)
    case OpenSession(h, session, secret) => OpenStep(w, h, session, secret)
    case ReadSession(h, session, secret, client, now) => ReadStep(w, h, session, secret, client, now)
    case Rotate(h, next) => RotateStep(w, h, next)
    case Revoke(h) => RevokeStep(w, h)
    case RevokeUpstream(user, upstream, now) => UpstreamRevoked(w, user, upstream, now)
    case AccountMoves(user, account) => w.(accounts := w.accounts[user := account])
  }

  function Run(w: World, steps: seq<Step>): World {
    if steps == [] then w else Apply(Run(w, steps[..|steps| - 1]), steps[|steps| - 1])
  }

  function Start(accounts: map<UserId, Account>): World {
    World(map[], map[], accounts, map[], map[], map[], {}, [])
  }

  // ---- What every run keeps ----

  predicate Redeeming(h: Handler) {
    h.Claimed? || h.Cleared?
  }

  function TimesPresented(w: World, code: Digest): nat {
    if code in w.presented then w.presented[code] else 0
  }

  /** Codes: stored ones are as issued but for their marks, and the marks count the
      presentations; a code spent is spent for good, stored or reaped. */
  ghost predicate CodeSound(w: World, c: Digest, code: Code) {
    && c in w.issued
    && code == w.issued[c].(expiresAt := code.expiresAt, redeemed := code.redeemed, replayed := code.replayed)
    && (code.redeemed <==> TimesPresented(w, c) >= 1)
    && (code.replayed <==> TimesPresented(w, c) >= 2)
  }

  ghost predicate CodesSound(w: World) {
    && (forall c :: c in w.codes ==> CodeSound(w, c, w.codes[c]))
    && (forall c :: c in w.presented ==> c in w.issued)
  }

  /** Whoever holds a code after its one good presentation holds what it was issued for. */
  ghost predicate HandlerSound(w: World, h: Handler) {
    Redeeming(h) ==>
      && h.code in w.issued && TimesPresented(w, h.code) >= 1
      && h.user == w.issued[h.code].user && h.tokenVersion == w.issued[h.code].tokenVersion
      && h.client == w.issued[h.code].bound.client
  }

  ghost predicate SessionSound(w: World, s: Session) {
    && s.code in w.issued && TimesPresented(w, s.code) >= 1
    && s.user == w.issued[s.code].user && s.tokenVersion == w.issued[s.code].tokenVersion
    && s.client == w.issued[s.code].bound.client && s.upstream == w.issued[s.code].upstream
    && (TimesPresented(w, s.code) >= 2 ==> s.revoked)
  }

  ghost predicate HoldersSound(w: World) {
    && (forall h :: h in w.handlers ==> HandlerSound(w, w.handlers[h]))
    && (forall s :: s in w.sessions ==> SessionSound(w, w.sessions[s]))
  }

  /** And holds it alone. */
  ghost predicate HandlersAlone(handlers: map<nat, Handler>) {
    forall h, k :: h in handlers && k in handlers && h != k && Redeeming(handlers[h]) && Redeeming(handlers[k]) ==>
      handlers[h].code != handlers[k].code
  }

  ghost predicate SessionsAlone(sessions: map<SessionId, Session>) {
    forall s, t :: s in sessions && t in sessions && s != t ==> sessions[s].code != sessions[t].code
  }

  ghost predicate Apart(handlers: map<nat, Handler>, sessions: map<SessionId, Session>) {
    forall h, s :: h in handlers && Redeeming(handlers[h]) && s in sessions ==> handlers[h].code != sessions[s].code
  }

  ghost predicate HoldersAlone(w: World) {
    HandlersAlone(w.handlers) && SessionsAlone(w.sessions) && Apart(w.handlers, w.sessions)
  }

  ghost predicate Sound(w: World) {
    CodesSound(w) && HoldersSound(w) && HoldersAlone(w)
  }

  lemma IssueKeeps(w: World, code: Digest, c: Code, now: int)
    requires Sound(w) && !c.redeemed && !c.replayed
    ensures Sound(Issues(w, code, c, now))
  {
  }

  /** A presentation burns or marks; what an earlier one bought goes with the second. */
  lemma PresentationKeeps(w: World, code: Digest)
    requires Sound(w)
    ensures Sound(AfterClaim(w, code))
  {
    if code in w.codes {
      PresentationCounts(w, code);
      PresentationKeepsHolders(w, code);
    }
  }

  lemma PresentationCounts(w: World, code: Digest)
    requires CodesSound(w) && code in w.codes
    ensures CodesSound(AfterClaim(w, code))
    ensures forall c :: TimesPresented(AfterClaim(w, code), c) == TimesPresented(w, c) + if c == code then 1 else 0
  {
    var v := AfterClaim(w, code);
    assert forall c :: TimesPresented(v, c) == TimesPresented(w, c) + if c == code then 1 else 0;
    forall c | c in v.codes ensures CodeSound(v, c, v.codes[c]) {
      PresentedCodeIsSound(w, code, c);
    }
  }

  lemma PresentedCodeIsSound(w: World, code: Digest, c: Digest)
    requires code in w.codes && c in w.codes && CodeSound(w, c, w.codes[c])
    ensures CodeSound(AfterClaim(w, code), c, AfterClaim(w, code).codes[c])
  {
  }

  lemma PresentationKeepsHolders(w: World, code: Digest)
    requires CodesSound(w) && HoldersSound(w) && HoldersAlone(w) && code in w.codes
    requires forall c :: TimesPresented(AfterClaim(w, code), c) == TimesPresented(w, c) + if c == code then 1 else 0
    ensures HoldersSound(AfterClaim(w, code)) && HoldersAlone(AfterClaim(w, code))
  {
    var v := AfterClaim(w, code);
    forall s | s in v.sessions ensures SessionSound(v, v.sessions[s]) && v.sessions[s].code == w.sessions[s].code {
      assert SessionSound(w, w.sessions[s]);
      assert CodeSound(w, code, w.codes[code]);
    }
    forall h | h in v.handlers ensures HandlerSound(v, v.handlers[h]) {
      assert HandlerSound(w, w.handlers[h]);
    }
  }

  lemma HandlerEnters(w: World, h: nat, to: Handler)
    requires Sound(w) && h !in w.handlers && HandlerSound(w, to)
    requires Redeeming(to) ==>
               && (forall k :: k in w.handlers && Redeeming(w.handlers[k]) ==> w.handlers[k].code != to.code)
               && (forall s :: s in w.sessions ==> w.sessions[s].code != to.code)
    ensures Sound(Goto(w, h, to))
  {
    var v := Goto(w, h, to);
    assert CodesSound(v);
    assert forall k :: k in v.handlers ==> HandlerSound(w, v.handlers[k]);
    assert HandlersAlone(v.handlers);
  }

  lemma ClaimKeeps(w: World, h: nat, code: Digest, bound: Binding, now: int)
    requires Sound(w)
    ensures Sound(ClaimStep(w, h, code, bound, now))
  {
    PresentationKeeps(w, code);
    var v := AfterClaim(w, code);
    if h !in w.handlers && Claims(w, code, bound, now).Redeemed? {
      assert CodeSound(w, code, w.codes[code]);
      assert TimesPresented(v, code) == 1;
      forall k | k in w.handlers && Redeeming(w.handlers[k]) ensures w.handlers[k].code != code {
        assert HandlerSound(w, w.handlers[k]);
      }
      forall s | s in v.sessions ensures v.sessions[s].code != code {
        assert SessionSound(w, w.sessions[s]);
      }
      HandlerEnters(v, h, Claimed(code, bound.client, w.codes[code].user, w.codes[code].tokenVersion, now));
    }
  }

  /** The inserted session takes over its handler's sole hold on the code. */
  lemma OpenKeeps(w: World, h: nat, session: SessionId, secret: Digest)
    requires Sound(w)
    ensures Sound(OpenStep(w, h, session, secret))
  {
    QuietKeeps(w, Done(w, h));
    var v := OpenStep(w, h, session, secret);
    if v != w && v != Done(w, h) {
      var c := w.handlers[h].code;
      assert HandlerSound(w, w.handlers[h]);
      assert CodeSound(w, c, w.codes[c]);
      assert SessionSound(v, v.sessions[session]);
      assert CodesSound(v) && HoldersSound(v);
      assert Apart(v.handlers, v.sessions);
      assert SessionsAlone(v.sessions);
    }
  }

  /** Steps that move handlers on without a new code, or only mark sessions revoked. */
  lemma QuietKeeps(w: World, v: World)
    requires Sound(w)
    requires v.issued == w.issued && v.presented == w.presented
    requires v.codes.Keys == w.codes.Keys
    requires forall c :: c in w.codes ==> v.codes[c] == w.codes[c].(expiresAt := v.codes[c].expiresAt)
    requires v.sessions.Keys == w.sessions.Keys
    requires forall s :: s in w.sessions ==> SameTerms(w.sessions[s], v.sessions[s])
    requires forall h :: h in v.handlers && Redeeming(v.handlers[h]) ==>
             h in w.handlers && SameHold(w.handlers[h], v.handlers[h])
    ensures Sound(v)
  {
    assert CodesSound(v);
    forall s | s in v.sessions ensures SessionSound(v, v.sessions[s]) {
      assert SessionSound(w, w.sessions[s]);
    }
    forall h | h in v.handlers ensures HandlerSound(v, v.handlers[h]) {
      if Redeeming(v.handlers[h]) {
        assert HandlerSound(w, w.handlers[h]);
      }
    }
    assert HoldersSound(v);
  }

  predicate SameTerms(s: Session, t: Session) {
    && t.code == s.code && t.user == s.user && t.tokenVersion == s.tokenVersion && t.client == s.client
    && t.upstream == s.upstream && (s.revoked ==> t.revoked)
  }

  predicate SameHold(h: Handler, k: Handler) {
    && Redeeming(h) && Redeeming(k)
    && k.code == h.code && k.user == h.user && k.tokenVersion == h.tokenVersion && k.client == h.client
  }

  /** What admission makes of the handler it is asked about; None ends it. */
  function AdmittedTo(w: World, h: Handler): Option<Handler> {
    match h
    case Claimed(code, client, user, tokenVersion, now) =>
      if user in w.accounts && w.accounts[user] == Account(true, tokenVersion)
      then Some(Cleared(code, client, user, tokenVersion, now)) else None
    case HasRead(session, secret, user, tokenVersion, now) =>
      if user in w.accounts && w.accounts[user].active && w.accounts[user].tokenVersion <= tokenVersion
      then Some(MayRotate(session, secret, now)) else Some(MustRevoke(session))
    case _ => Some(h)
  }

  lemma AdmitIsAdmittedTo(w: World, h: nat)
    requires h in w.handlers
    ensures AdmitStep(w, h) == match AdmittedTo(w, w.handlers[h])
                               case Some(to) => Goto(w, h, to)
                               case None => Done(w, h)
  {
    assert w.handlers[h := w.handlers[h]] == w.handlers;
  }

  /** Admission moves one handler on, with what it held, or ends it. */
  lemma AdmitMoves(w: World, h: nat)
    ensures AdmitStep(w, h).(handlers := w.handlers) == w
    ensures forall k :: k in AdmitStep(w, h).handlers && Redeeming(AdmitStep(w, h).handlers[k]) ==>
              && k in w.handlers && SameHold(w.handlers[k], AdmitStep(w, h).handlers[k])
              && AdmitStep(w, h).handlers[k].now == w.handlers[k].now
  {
    if h in w.handlers {
      AdmitIsAdmittedTo(w, h);
      var to := AdmittedTo(w, w.handlers[h]);
      assert to.Some? && Redeeming(to.value) ==> SameHold(w.handlers[h], to.value) && to.value.now == w.handlers[h].now;
    }
  }

  lemma AdmitKeeps(w: World, h: nat)
    requires Sound(w)
    ensures Sound(AdmitStep(w, h))
  {
    AdmitMoves(w, h);
    HandlersMoveKeep(w, AdmitStep(w, h));
  }

  lemma HandlersMoveKeep(w: World, v: World)
    requires Sound(w) && v.(handlers := w.handlers) == w
    requires forall h :: h in v.handlers && Redeeming(v.handlers[h]) ==>
             h in w.handlers && SameHold(w.handlers[h], v.handlers[h])
    ensures Sound(v)
  {
    QuietKeeps(w, v);
  }

  /** Reading a session starts a handler that holds no code. */
  lemma ReadMoves(w: World, h: nat, session: SessionId, secret: Digest, client: nat, now: int)
    ensures ReadStep(w, h, session, secret, client, now).(handlers := w.handlers) == w
    ensures var v := ReadStep(w, h, session, secret, client, now);
            forall k :: k in v.handlers && Redeeming(v.handlers[k]) ==>
              k in w.handlers && v.handlers[k] == w.handlers[k]
  {
  }

  lemma ReadKeeps(w: World, h: nat, session: SessionId, secret: Digest, client: nat, now: int)
    requires Sound(w)
    ensures Sound(ReadStep(w, h, session, secret, client, now))
  {
    ReadMoves(w, h, session, secret, client, now);
    HandlersMoveKeep(w, ReadStep(w, h, session, secret, client, now));
  }

  /** A rotation changes one session's secret and lifetime, and ends its handler. */
  lemma RotateMoves(w: World, h: nat, next: Digest)
    ensures var v := RotateStep(w, h, next);
            && v.codes == w.codes && v.issued == w.issued && v.presented == w.presented
            && v.sessions.Keys == w.sessions.Keys
            && (forall s :: s in w.sessions ==> SameTerms(w.sessions[s], v.sessions[s]))
            && (forall k :: k in v.handlers ==> k in w.handlers && v.handlers[k] == w.handlers[k])
  {
    var v := RotateStep(w, h, next);
    if v != w && v != Done(w, h) {
      var MayRotate(session, secret, now) := w.handlers[h];
      assert v == Rotated(Done(w, h), session, next, now);
    }
  }

  lemma RotateKeeps(w: World, h: nat, next: Digest)
    requires Sound(w)
    ensures Sound(RotateStep(w, h, next))
  {
    RotateMoves(w, h, next);
    QuietKeeps(w, RotateStep(w, h, next));
  }

  lemma RevokeKeeps(w: World, h: nat)
    requires Sound(w)
    ensures Sound(RevokeStep(w, h))
  {
    QuietKeeps(w, RevokeStep(w, h));
  }

  lemma UpstreamKeeps(w: World, user: UserId, upstream: Option<nat>, now: int)
    requires Sound(w)
    ensures Sound(UpstreamRevoked(w, user, upstream, now))
  {
    QuietKeeps(w, UpstreamRevoked(w, user, upstream, now));
  }

  lemma AccountKeeps(w: World, accounts: map<UserId, Account>)
    requires Sound(w)
    ensures Sound(w.(accounts := accounts))
  {
    QuietKeeps(w, w.(accounts := accounts));
  }

  lemma IssueStepKeeps(w: World, s: Step)
    requires Sound(w) && s.IssueCode?
    ensures Sound(Apply(w, s))
  {
    var c := Code(s.bound, s.user, s.tokenVersion, s.upstream, s.now + CODE_TTL_SECS, false, false);
    assert Apply(w, s) == Issues(w, s.code, c, s.now);
    IssueKeeps(w, s.code, c, s.now);
  }

  lemma SignInStepKeeps(w: World, s: Step)
    requires Sound(w) && (s.Admit? || s.OpenSession?)
    ensures Sound(Apply(w, s))
  {
    match s {
      case Admit(h) => AdmitKeeps(w, h);
      case OpenSession(h, session, secret) => OpenKeeps(w, h, session, secret);
      case _ =>
    }
  }

  lemma LaterStepKeeps(w: World, s: Step)
    requires Sound(w) && (s.ReadSession? || s.Rotate? || s.Revoke? || s.RevokeUpstream? || s.AccountMoves?)
    ensures Sound(Apply(w, s))
  {
    match s {
      case ReadSession(h, session, secret, client, now) => ReadKeeps(w, h, session, secret, client, now);
      case Rotate(h, next) => RotateKeeps(w, h, next);
      case Revoke(h) => RevokeKeeps(w, h);
      case RevokeUpstream(user, upstream, now) => UpstreamKeeps(w, user, upstream, now);
      case AccountMoves(user, account) => AccountKeeps(w, w.accounts[user := account]);
      case _ =>
    }
  }

  lemma StepKeeps(w: World, s: Step)
    requires Sound(w)
    ensures Sound(Apply(w, s))
  {
    if s.IssueCode? {
      IssueStepKeeps(w, s);
    } else if s.Claim? {
      ClaimKeeps(w, s.h, s.code, s.bound, s.now);
    } else if s.Admit? || s.OpenSession? {
      SignInStepKeeps(w, s);
    } else {
      LaterStepKeeps(w, s);
    }
  }

  lemma {:induction false} RunKeeps(w: World, steps: seq<Step>)
    requires Sound(w)
    ensures Sound(Run(w, steps))
    decreases |steps|
  {
    if steps != [] {
      RunKeeps(w, steps[..|steps| - 1]);
      StepKeeps(Run(w, steps[..|steps| - 1]), steps[|steps| - 1]);
    }
  }

  /** Each code opens at most one session, and a session is exactly what its code promised. */
  lemma OneSessionPerCode(accounts: map<UserId, Account>, steps: seq<Step>, s: SessionId, t: SessionId)
    requires var w := Run(Start(accounts), steps); s in w.sessions && t in w.sessions
    ensures var w := Run(Start(accounts), steps);
            && (w.sessions[s].code == w.sessions[t].code ==> s == t)
            && w.sessions[s].code in w.issued
            && w.sessions[s].user == w.issued[w.sessions[s].code].user
            && w.sessions[s].tokenVersion == w.issued[w.sessions[s].code].tokenVersion
            && w.sessions[s].client == w.issued[w.sessions[s].code].bound.client
  {
    RunKeeps(Start(accounts), steps);
  }

  /** Once a stored code has been presented twice, no live session derived from it exists,
      also when the replay lands between a redemption's claim and its session. */
  lemma ReplayedCodeHoldsNothing(accounts: map<UserId, Account>, steps: seq<Step>, s: SessionId)
    requires var w := Run(Start(accounts), steps); s in w.sessions && TimesPresented(w, w.sessions[s].code) >= 2
    ensures Run(Start(accounts), steps).sessions[s].revoked
  {
    RunKeeps(Start(accounts), steps);
  }

  /** When a presentation redeems, exactly: stored, never presented before, in time, and
      bound to this client, redirect URI and challenge. */
  lemma RedeemsExactly(w: World, code: Digest, bound: Binding, now: int)
    requires Sound(w)
    ensures Claims(w, code, bound, now).Redeemed? <==>
            && code in w.codes && TimesPresented(w, code) == 0
            && now < w.codes[code].expiresAt && w.issued[code].bound == bound
  {
  }

  /** Code `code` has been presented; as long as its row stands, the row says so. */
  ghost predicate Spent(w: World, code: Digest) {
    code in w.issued && (code in w.codes ==> w.codes[code].redeemed)
  }

  /** Storing a new code reaps the row, its expiry a day past by then. */
  predicate Reaps(w: World, s: Step, code: Digest) {
    s.IssueCode? && s.code !in w.issued && code in w.codes && w.codes[code].expiresAt < s.now - CODE_RETENTION_SECS
  }

  lemma IssueKeepsSpent(w: World, other: Digest, row: Code, now: int, code: Digest)
    requires Spent(w, code)
    ensures Spent(Issues(w, other, row, now), code)
    ensures code in Issues(w, other, row, now).codes <==>
              code in w.codes && (other in w.issued || w.codes[code].expiresAt >= now - CODE_RETENTION_SECS)
  {
  }

  lemma PresentationKeepsSpent(w: World, other: Digest, code: Digest)
    requires Spent(w, code)
    ensures Spent(AfterClaim(w, other), code) && (code in AfterClaim(w, other).codes <==> code in w.codes)
  {
  }

  lemma ClaimTouchesCodes(w: World, h: nat, other: Digest, bound: Binding, now: int)
    ensures var v := ClaimStep(w, h, other, bound, now);
            || (v.codes == w.codes && v.issued == w.issued)
            || (v.codes == AfterClaim(w, other).codes && v.issued == AfterClaim(w, other).issued)
  {
  }

  lemma UpstreamKeepsSpent(w: World, user: UserId, upstream: Option<nat>, now: int, code: Digest)
    requires Spent(w, code)
    ensures Spent(UpstreamRevoked(w, user, upstream, now), code)
    ensures code in UpstreamRevoked(w, user, upstream, now).codes <==> code in w.codes
  {
  }

  lemma StepKeepsSpent(w: World, s: Step, code: Digest)
    requires Spent(w, code)
    ensures Spent(Apply(w, s), code)
    ensures code in Apply(w, s).codes <==> code in w.codes && !Reaps(w, s, code)
  {
    match s {
      case IssueCode(other, bound, user, tokenVersion, upstream, now) =>
        IssueKeepsSpent(w, other, Code(bound, user, tokenVersion, upstream, now + CODE_TTL_SECS, false, false), now,
                        code);
      case Claim(h, other, bound, now) =>
        PresentationKeepsSpent(w, other, code);
        ClaimTouchesCodes(w, h, other, bound, now);
      case RevokeUpstream(user, upstream, now) => UpstreamKeepsSpent(w, user, upstream, now, code);
      case _ => OthersLeaveCodes(w, s);
    }
  }

  lemma OthersLeaveCodes(w: World, s: Step)
    requires !s.IssueCode? && !s.Claim? && !s.RevokeUpstream?
    ensures Apply(w, s).codes == w.codes && Apply(w, s).issued == w.issued
  {
    match s {
      case Admit(h) => AdmitMoves(w, h);
      case ReadSession(h, session, secret, client, now) => ReadMoves(w, h, session, secret, client, now);
      case OpenSession(h, session, secret) => OpenLeavesCodes(w, h, session, secret);
      case Rotate(h, next) => RotateLeavesCodes(w, h, next);
      case _ =>
    }
  }

  lemma OpenLeavesCodes(w: World, h: nat, session: SessionId, secret: Digest)
    ensures OpenStep(w, h, session, secret).codes == w.codes && OpenStep(w, h, session, secret).issued == w.issued
  {
  }

  lemma RotateLeavesCodes(w: World, h: nat, next: Digest)
    ensures RotateStep(w, h, next).codes == w.codes && RotateStep(w, h, next).issued == w.issued
  {
  }

  /** No step of the run stores a code more than a day after the expiry the row has by then. */
  ghost predicate Retained(w: World, steps: seq<Step>, code: Digest) {
    steps == [] || (Retained(w, steps[..|steps| - 1], code)
                    && !Reaps(Run(w, steps[..|steps| - 1]), steps[|steps| - 1], code))
  }

  lemma {:induction false} SpentStands(w: World, steps: seq<Step>, code: Digest)
    requires Spent(w, code) && code in w.codes
    ensures Spent(Run(w, steps), code)
    ensures code in Run(w, steps).codes <==> Retained(w, steps, code)
    decreases |steps|
  {
    if steps != [] {
      var n := |steps| - 1;
      SpentStands(w, steps[..n], code);
      StepKeepsSpent(Run(w, steps[..n]), steps[n], code);
    }
  }

  /** A spent code is recognised as a replay, whoever presents it with whatever binding, for as
      long as its row stands; and in every run it stands exactly until a code is stored more
      than a day after the expiry the row has by then. */
  lemma ReplayRecognised(w: World, steps: seq<Step>, code: Digest, bound: Binding, now: int)
    requires Spent(w, code) && code in w.codes
    ensures Claims(Run(w, steps), code, bound, now) == (if Retained(w, steps, code) then Replayed else Unknown)
  {
    SpentStands(w, steps, code);
  }

  // ---- Refresh ----

  ghost predicate RotationsSound(w: World) {
    && (forall s :: s in w.sessions ==>
          w.sessions[s].current in w.secrets && w.sessions[s].expiresAt <= w.sessions[s].absoluteExpiresAt)
    && (forall i :: 0 <= i < |w.rotations| ==>
          && w.rotations[i].0 in w.sessions && w.rotations[i].1 in w.secrets
          && w.sessions[w.rotations[i].0].current != w.rotations[i].1)
    && (forall i, j :: 0 <= i < j < |w.rotations| ==> w.rotations[i] != w.rotations[j])
  }

  /** No step revives a revoked session, moves its secret, or moves a session's ceiling. */
  ghost predicate Settled(w: World, v: World) {
    forall s :: s in w.sessions ==>
      && s in v.sessions
      && v.sessions[s].absoluteExpiresAt == w.sessions[s].absoluteExpiresAt
      && (w.sessions[s].revoked ==> v.sessions[s] == w.sessions[s])
  }

  lemma RotateKeepsRotations(w: World, h: nat, next: Digest)
    requires RotationsSound(w)
    ensures RotationsSound(RotateStep(w, h, next)) && Settled(w, RotateStep(w, h, next))
  {
    var v := RotateStep(w, h, next);
    if v.rotations != w.rotations {
      var n := |w.rotations|;
      var pair := v.rotations[n];
      assert v.rotations == w.rotations + [pair];
      forall i | 0 <= i < n ensures w.rotations[i] != pair {
        assert w.rotations[i].0 == pair.0 ==> w.sessions[pair.0].current != w.rotations[i].1;
      }
      forall i | 0 <= i < |v.rotations| ensures v.sessions[v.rotations[i].0].current != v.rotations[i].1 {
        assert v.rotations[i].1 in w.secrets;
      }
    }
  }

  lemma OpenKeepsRotations(w: World, h: nat, session: SessionId, secret: Digest)
    requires RotationsSound(w)
    ensures RotationsSound(OpenStep(w, h, session, secret)) && Settled(w, OpenStep(w, h, session, secret))
  {
  }

  lemma RevokingKeepsRotations(w: World, v: World)
    requires RotationsSound(w)
    requires v.secrets == w.secrets && v.rotations == w.rotations && v.sessions.Keys == w.sessions.Keys
    requires forall s :: s in w.sessions ==>
             v.sessions[s] == w.sessions[s] || v.sessions[s] == w.sessions[s].(revoked := true)
    ensures RotationsSound(v) && Settled(w, v)
  {
  }

  lemma ClaimKeepsRotations(w: World, h: nat, code: Digest, bound: Binding, now: int)
    requires RotationsSound(w)
    ensures RotationsSound(ClaimStep(w, h, code, bound, now)) && Settled(w, ClaimStep(w, h, code, bound, now))
  {
    RevokingKeepsRotations(w, ClaimStep(w, h, code, bound, now));
  }

  lemma SameSessionsKeepRotations(w: World, v: World)
    requires RotationsSound(w) && v.sessions == w.sessions && v.secrets == w.secrets && v.rotations == w.rotations
    ensures RotationsSound(v) && Settled(w, v)
  {
  }

  lemma QuietKeepsRotations(w: World, s: Step)
    requires RotationsSound(w) && (s.IssueCode? || s.Admit? || s.ReadSession? || s.AccountMoves?)
    ensures RotationsSound(Apply(w, s)) && Settled(w, Apply(w, s))
  {
    LeavesSessions(w, s);
    SameSessionsKeepRotations(w, Apply(w, s));
  }

  lemma LeavesSessions(w: World, s: Step)
    requires s.IssueCode? || s.Admit? || s.ReadSession? || s.AccountMoves?
    ensures var v := Apply(w, s); v.sessions == w.sessions && v.secrets == w.secrets && v.rotations == w.rotations
  {
    match s {
      case Admit(h) => AdmitMoves(w, h);
      case ReadSession(h, session, secret, client, now) => ReadMoves(w, h, session, secret, client, now);
      case _ =>
    }
  }

  lemma RevocationsKeepRotations(w: World, s: Step)
    requires RotationsSound(w) && (s.Revoke? || s.RevokeUpstream?)
    ensures RotationsSound(Apply(w, s)) && Settled(w, Apply(w, s))
  {
    RevokingKeepsRotations(w, Apply(w, s));
  }

  lemma StepKeepsRotations(w: World, s: Step)
    requires RotationsSound(w)
    ensures RotationsSound(Apply(w, s)) && Settled(w, Apply(w, s))
  {
    match s {
      case Claim(h, code, bound, now) => ClaimKeepsRotations(w, h, code, bound, now);
      case OpenSession(h, session, secret) => OpenKeepsRotations(w, h, session, secret);
      case Rotate(h, next) => RotateKeepsRotations(w, h, next);
      case Revoke(_) => RevocationsKeepRotations(w, s);
      case RevokeUpstream(_, _, _) => RevocationsKeepRotations(w, s);
      case _ => QuietKeepsRotations(w, s);
    }
  }

  /** In every run each secret of a session is rotated at most once, no session outlives its
      ceiling, and a revoked session never moves again. */
  lemma {:induction false} SessionsRotateOnce(w: World, steps: seq<Step>)
    requires RotationsSound(w)
    ensures RotationsSound(Run(w, steps)) && Settled(w, Run(w, steps))
    decreases |steps|
  {
    if steps != [] {
      SessionsRotateOnce(w, steps[..|steps| - 1]);
      StepKeepsRotations(Run(w, steps[..|steps| - 1]), steps[|steps| - 1]);
    }
  }

  // ---- Single logout ----

  /** A redemption cleared before its sign-in ended upstream still opens its session exactly
      when its clock reading is earlier than the revocation's. */
  lemma UpstreamRaceExactly(w: World, h: nat, session: SessionId, secret: Digest, upstream: Option<nat>, now: int)
    requires h in w.handlers && w.handlers[h].Cleared? && session !in w.sessions && secret !in w.secrets
    requires Opens(w, w.handlers[h].code, w.handlers[h].now)
    requires MatchesUpstream(w.codes[w.handlers[h].code], w.codes[w.handlers[h].code].user, upstream)
    ensures var signedOut := Apply(w, RevokeUpstream(w.codes[w.handlers[h].code].user, upstream, now));
            var v := Apply(signedOut, OpenSession(h, session, secret));
            session in v.sessions <==> w.handlers[h].now < now
  {
  }

  /** The codes of `ended` are spent: none reads as unexpired to any redemption in flight, and
      their sessions are revoked. */
  ghost predicate SignedOut(w: World, ended: set<Digest>, at: int) {
    && ended <= w.issued.Keys
    && (forall c :: c in ended && c in w.codes ==> w.codes[c].expiresAt <= at)
    && (forall h :: h in w.handlers && Redeeming(w.handlers[h]) && w.handlers[h].code in ended ==>
        w.handlers[h].now >= at)
    && (forall s :: s in w.sessions && w.sessions[s].code in ended ==> w.sessions[s].revoked)
  }

  /** No redemption of one of `ended` reads a clock earlier than `at`. */
  ghost predicate ReadsNoEarlier(steps: seq<Step>, ended: set<Digest>, at: int) {
    forall i :: 0 <= i < |steps| && steps[i].Claim? && steps[i].code in ended ==> steps[i].now >= at
  }

  lemma IssueKeepsSignedOut(w: World, code: Digest, c: Code, now: int, ended: set<Digest>, at: int)
    requires SignedOut(w, ended, at)
    ensures SignedOut(Issues(w, code, c, now), ended, at)
  {
  }

  lemma PresentationKeepsSignedOut(w: World, code: Digest, ended: set<Digest>, at: int)
    requires SignedOut(w, ended, at)
    ensures SignedOut(AfterClaim(w, code), ended, at)
  {
  }

  lemma ClaimKeepsSignedOut(w: World, h: nat, code: Digest, bound: Binding, now: int, ended: set<Digest>, at: int)
    requires SignedOut(w, ended, at) && (code in ended ==> now >= at)
    ensures SignedOut(ClaimStep(w, h, code, bound, now), ended, at)
  {
    PresentationKeepsSignedOut(w, code, ended, at);
    if h !in w.handlers && Claims(w, code, bound, now).Redeemed? {
      RedeemedClaims(w, h, code, bound, now);
    }
  }

  /** The insert's guard reads the code as expired already. */
  lemma OpenKeepsSignedOut(w: World, h: nat, session: SessionId, secret: Digest, ended: set<Digest>, at: int)
    requires SignedOut(w, ended, at)
    ensures SignedOut(OpenStep(w, h, session, secret), ended, at)
  {
    if h in w.handlers && w.handlers[h].Cleared? && session !in w.sessions && secret !in w.secrets {
      var code := w.handlers[h].code;
      OpensOnlyOutside(w, w.handlers[h], ended, at);
      var d := Done(w, h);
      assert SignedOut(d, ended, at);
      if Opens(w, code, w.handlers[h].now) {
        SessionEntersSignedOut(d, session, OpenStep(w, h, session, secret).sessions[session], secret, ended, at);
      }
    }
  }

  lemma SessionEntersSignedOut(w: World, session: SessionId, row: Session, secret: Digest, ended: set<Digest>, at: int)
    requires SignedOut(w, ended, at) && session !in w.sessions && row.code !in ended
    ensures SignedOut(w.(sessions := w.sessions[session := row], secrets := w.secrets + {secret}), ended, at)
  {
  }

  lemma OpensOnlyOutside(w: World, h: Handler, ended: set<Digest>, at: int)
    requires SignedOut(w, ended, at) && h in w.handlers.Values && h.Cleared?
    ensures Opens(w, h.code, h.now) ==> h.code !in ended
  {
    var k :| k in w.handlers && w.handlers[k] == h;
  }

  /** Every step that neither claims a code nor opens a session. */
  lemma QuietKeepsSignedOut(w: World, v: World, ended: set<Digest>, at: int)
    requires SignedOut(w, ended, at)
    requires v.issued == w.issued && v.codes.Keys == w.codes.Keys && v.sessions.Keys == w.sessions.Keys
    requires forall c :: c in w.codes ==> v.codes[c].expiresAt <= w.codes[c].expiresAt
    requires forall s :: s in w.sessions ==> SameTerms(w.sessions[s], v.sessions[s])
    requires forall h :: h in v.handlers && Redeeming(v.handlers[h]) ==>
               h in w.handlers && SameHold(w.handlers[h], v.handlers[h]) && v.handlers[h].now == w.handlers[h].now
    ensures SignedOut(v, ended, at)
  {
  }

  lemma AdmitKeepsSignedOut(w: World, h: nat, ended: set<Digest>, at: int)
    requires SignedOut(w, ended, at)
    ensures SignedOut(AdmitStep(w, h), ended, at)
  {
    AdmitMoves(w, h);
    QuietKeepsSignedOut(w, AdmitStep(w, h), ended, at);
  }

  lemma ReadKeepsSignedOut(w: World, h: nat, session: SessionId, secret: Digest, client: nat, now: int,
                           ended: set<Digest>, at: int)
    requires SignedOut(w, ended, at)
    ensures SignedOut(ReadStep(w, h, session, secret, client, now), ended, at)
  {
    ReadMoves(w, h, session, secret, client, now);
    QuietKeepsSignedOut(w, ReadStep(w, h, session, secret, client, now), ended, at);
  }

  lemma RotateKeepsSignedOut(w: World, h: nat, next: Digest, ended: set<Digest>, at: int)
    requires SignedOut(w, ended, at)
    ensures SignedOut(RotateStep(w, h, next), ended, at)
  {
    RotateMoves(w, h, next);
    QuietKeepsSignedOut(w, RotateStep(w, h, next), ended, at);
  }

  lemma RevocationsKeepSignedOut(w: World, s: Step, ended: set<Digest>, at: int)
    requires SignedOut(w, ended, at) && (s.Revoke? || s.RevokeUpstream? || s.AccountMoves?)
    ensures SignedOut(Apply(w, s), ended, at)
  {
    QuietKeepsSignedOut(w, Apply(w, s), ended, at);
  }

  lemma StepKeepsSignedOut(w: World, s: Step, ended: set<Digest>, at: int)
    requires SignedOut(w, ended, at) && (s.Claim? && s.code in ended ==> s.now >= at)
    ensures SignedOut(Apply(w, s), ended, at)
  {
    match s {
      case IssueCode(code, bound, user, tokenVersion, upstream, now) =>
        IssueKeepsSignedOut(w, code, Code(bound, user, tokenVersion, upstream, now + CODE_TTL_SECS, false, false),
                            now, ended, at);
      case Claim(h, code, bound, now) => ClaimKeepsSignedOut(w, h, code, bound, now, ended, at);
      case Admit(h) => AdmitKeepsSignedOut(w, h, ended, at);
      case OpenSession(h, session, secret) => OpenKeepsSignedOut(w, h, session, secret, ended, at);
      case ReadSession(h, session, secret, client, now) =>
        ReadKeepsSignedOut(w, h, session, secret, client, now, ended, at);
      case Rotate(h, next) => RotateKeepsSignedOut(w, h, next, ended, at);
      case _ => RevocationsKeepSignedOut(w, s, ended, at);
    }
  }

  /** Single logout is final for every code it reached, when no redemption of one reads a
      clock earlier than the revocation did: no run leaves a live session of any of them. */
  lemma {:induction false} SingleLogoutHolds(w: World, steps: seq<Step>, ended: set<Digest>, at: int)
    requires SignedOut(w, ended, at) && ReadsNoEarlier(steps, ended, at)
    ensures SignedOut(Run(w, steps), ended, at)
    decreases |steps|
  {
    if steps != [] {
      var n := |steps| - 1;
      SingleLogoutHolds(w, steps[..n], ended, at);
      StepKeepsSignedOut(Run(w, steps[..n]), steps[n], ended, at);
    }
  }

  /** What a logout ends: every matching code ever issued, but those some redemption in
      flight holds at an earlier reading. */
  ghost function Reached(w: World, user: UserId, upstream: Option<nat>, at: int): set<Digest> {
    set c | c in w.issued && MatchesUpstream(w.issued[c], user, upstream)
            && forall h :: h in w.handlers && Redeeming(w.handlers[h]) && w.handlers[h].code == c ==>
                 w.handlers[h].now >= at
  }

  lemma RevocationSignsOut(w: World, user: UserId, upstream: Option<nat>, at: int)
    requires Sound(w)
    ensures SignedOut(Apply(w, RevokeUpstream(user, upstream, at)), Reached(w, user, upstream, at), at)
  {
  }

  // ---- The handlers, run without interference ----

  function Opening(client: nat, c: Code, code: Digest, secret: Digest, now: int): Session {
    Session(client, c.user, code, secret, None, c.tokenVersion, c.upstream, now + REFRESH_TTL_SECS,
            now + SESSION_MAX_SECS, false)
  }

  function Opened(w: World, session: SessionId, row: Session): World {
    w.(sessions := w.sessions[session := row], secrets := w.secrets + {row.current})
  }

  predicate Passes(w: World, user: UserId, tokenVersion: nat) {
    user in w.accounts && w.accounts[user] == Account(true, tokenVersion)
  }

  lemma ClearedInARow(w: World, h: nat, code: Digest, client: nat, c: Code, now: int, session: SessionId,
                      secret: Digest)
    requires h !in w.handlers && session !in w.sessions && secret !in w.secrets
    requires code in w.codes && w.codes[code] == c && c.expiresAt > now
    ensures OpenStep(Goto(w, h, Cleared(code, client, c.user, c.tokenVersion, now)), h, session, secret)
            == if c.replayed then w else Opened(w, session, Opening(client, c, code, secret, now))
  {
    assert (w.handlers[h := Cleared(code, client, c.user, c.tokenVersion, now)]) - {h} == w.handlers;
  }

  lemma ClaimedInARow(w: World, h: nat, code: Digest, client: nat, user: UserId, tokenVersion: nat, now: int)
    requires h !in w.handlers
    ensures AdmitStep(Goto(w, h, Claimed(code, client, user, tokenVersion, now)), h)
            == if Passes(w, user, tokenVersion) then Goto(w, h, Cleared(code, client, user, tokenVersion, now)) else w
  {
    var a := Goto(w, h, Claimed(code, client, user, tokenVersion, now));
    assert a.handlers - {h} == w.handlers;
    assert a.handlers[h := Cleared(code, client, user, tokenVersion, now)]
           == w.handlers[h := Cleared(code, client, user, tokenVersion, now)];
  }

  lemma RedeemedClaims(w: World, h: nat, code: Digest, bound: Binding, now: int)
    requires h !in w.handlers && Claims(w, code, bound, now).Redeemed?
    ensures ClaimStep(w, h, code, bound, now)
            == Goto(AfterClaim(w, code), h,
                    Claimed(code, bound.client, w.codes[code].user, w.codes[code].tokenVersion, now))
  {
  }

  /** A redemption's steps taken in a row. */
  lemma RedemptionInARow(w: World, h: nat, code: Digest, bound: Binding, now: int, session: SessionId, secret: Digest)
    requires h !in w.handlers && session !in w.sessions && secret !in w.secrets
    ensures var r := OpenStep(AdmitStep(ClaimStep(w, h, code, bound, now), h), h, session, secret);
            var v := AfterClaim(w, code);
            if Claims(w, code, bound, now).Redeemed? && Passes(w, w.codes[code].user, w.codes[code].tokenVersion)
               && !w.codes[code].replayed
            then r == Opened(v, session, Opening(bound.client, w.codes[code], code, secret, now))
            else r == v
  {
    if Claims(w, code, bound, now).Redeemed? {
      AcceptedInARow(w, h, code, bound, now, session, secret);
    } else {
      RefusedInARow(w, h, code, bound, now, session, secret);
    }
  }

  lemma AcceptedInARow(w: World, h: nat, code: Digest, bound: Binding, now: int, session: SessionId, secret: Digest)
    requires h !in w.handlers && session !in w.sessions && secret !in w.secrets && Claims(w, code, bound, now).Redeemed?
    ensures var c := w.codes[code];
            OpenStep(AdmitStep(ClaimStep(w, h, code, bound, now), h), h, session, secret)
            == if Passes(w, c.user, c.tokenVersion) && !c.replayed
               then Opened(AfterClaim(w, code), session, Opening(bound.client, c, code, secret, now))
               else AfterClaim(w, code)
  {
    var v, c := AfterClaim(w, code), w.codes[code];
    assert v.handlers == w.handlers && v.secrets == w.secrets && v.accounts == w.accounts && v.sessions == w.sessions;
    RedeemedClaims(w, h, code, bound, now);
    RedeemedInARow(v, h, code, bound.client, c.(redeemed := true), now, session, secret);
  }

  lemma RefusedInARow(w: World, h: nat, code: Digest, bound: Binding, now: int, session: SessionId, secret: Digest)
    requires h !in w.handlers && !Claims(w, code, bound, now).Redeemed?
    ensures OpenStep(AdmitStep(ClaimStep(w, h, code, bound, now), h), h, session, secret) == AfterClaim(w, code)
  {
    assert ClaimStep(w, h, code, bound, now) == AfterClaim(w, code);
  }

  lemma RedeemedInARow(w: World, h: nat, code: Digest, client: nat, c: Code, now: int, session: SessionId,
                       secret: Digest)
    requires h !in w.handlers && session !in w.sessions && secret !in w.secrets
    requires code in w.codes && w.codes[code] == c && c.expiresAt > now
    ensures OpenStep(AdmitStep(Goto(w, h, Claimed(code, client, c.user, c.tokenVersion, now)), h), h, session, secret)
            == if Passes(w, c.user, c.tokenVersion) && !c.replayed
               then Opened(w, session, Opening(client, c, code, secret, now))
               else w
  {
    ClaimedInARow(w, h, code, client, c.user, c.tokenVersion, now);
    ClearedInARow(w, h, code, client, c, now, session, secret);
  }

  // ---- Exactly which readings single logout needs ----

  ghost predicate NothingLive(w: World, code: Digest) {
    forall s :: s in w.sessions && w.sessions[s].code == code ==> w.sessions[s].revoked
  }

  /** The account as the code was issued for, then one redemption. */
  function LateRedemption(c: Code, code: Digest, h: nat, session: SessionId, secret: Digest, now: int): seq<Step> {
    [AccountMoves(c.user, Account(true, c.tokenVersion)), Claim(h, code, c.bound, now), Admit(h),
     OpenSession(h, session, secret)]
  }

  lemma RunOfFour(w: World, s0: Step, s1: Step, s2: Step, s3: Step)
    ensures Run(w, [s0, s1, s2, s3]) == Apply(Apply(Apply(Apply(w, s0), s1), s2), s3)
  {
    var steps := [s0, s1, s2, s3];
    assert steps[..3] == [s0, s1, s2] && [s0, s1, s2][..2] == [s0, s1] && [s0, s1][..1] == [s0] && [s0][..0] == [];
    assert Run(w, [s0]) == Apply(w, s0);
    assert Run(w, [s0, s1]) == Apply(Run(w, [s0]), s1);
    assert Run(w, [s0, s1, s2]) == Apply(Run(w, [s0, s1]), s2);
  }

  function Restored(w: World, c: Code): World {
    w.(accounts := w.accounts[c.user := Account(true, c.tokenVersion)])
  }

  lemma LateRedemptionIsItsSteps(w: World, c: Code, code: Digest, h: nat, session: SessionId, secret: Digest, now: int)
    ensures Run(w, LateRedemption(c, code, h, session, secret, now))
            == OpenStep(AdmitStep(ClaimStep(Restored(w, c), h, code, c.bound, now), h), h, session, secret)
  {
    RunOfFour(w, AccountMoves(c.user, Account(true, c.tokenVersion)), Claim(h, code, c.bound, now), Admit(h),
              OpenSession(h, session, secret));
  }

  lemma UnspentRedeems(w: World, code: Digest, h: nat, session: SessionId, secret: Digest, now: int)
    requires code in w.codes && !w.codes[code].redeemed && !w.codes[code].replayed && now < w.codes[code].expiresAt
    requires h !in w.handlers && session !in w.sessions && secret !in w.secrets
    requires Passes(w, w.codes[code].user, w.codes[code].tokenVersion)
    ensures var c := w.codes[code];
            OpenStep(AdmitStep(ClaimStep(w, h, code, c.bound, now), h), h, session, secret)
            == Opened(AfterClaim(w, code), session, Opening(c.bound.client, c, code, secret, now))
  {
    AcceptedInARow(w, h, code, w.codes[code].bound, now, session, secret);
  }

  lemma OpenedIsLive(w: World, session: SessionId, row: Session)
    requires !row.revoked
    ensures !NothingLive(Opened(w, session, row), row.code)
  {
    var v := Opened(w, session, row);
    assert v.sessions[session] == row;
  }

  lemma LateRedemptionOpens(w: World, code: Digest, h: nat, session: SessionId, secret: Digest, now: int)
    requires code in w.codes && !w.codes[code].redeemed && !w.codes[code].replayed && now < w.codes[code].expiresAt
    requires h !in w.handlers && session !in w.sessions && secret !in w.secrets
    ensures !NothingLive(Run(w, LateRedemption(w.codes[code], code, h, session, secret, now)), code)
  {
    var c := w.codes[code];
    var a := Restored(w, c);
    LateRedemptionIsItsSteps(w, c, code, h, session, secret, now);
    UnspentRedeems(a, code, h, session, secret, now);
    OpenedIsLive(AfterClaim(a, code), session, Opening(c.bound.client, c, code, secret, now));
  }

  lemma UnspentIsSignedOut(w: World, code: Digest)
    requires Sound(w) && code in w.codes && !w.codes[code].redeemed
    ensures SignedOut(w, {code}, w.codes[code].expiresAt) && !w.codes[code].replayed
  {
    assert CodeSound(w, code, w.codes[code]);
  }

  /** A code not presented before its logout: no run from there leaves a live session of it,
      for every run whose redemptions of it read no earlier than `from`, exactly when `from` is
      no earlier than the logout's reading, or the code's own expiry if that came first. */
  lemma SingleLogoutExactly(w: World, user: UserId, upstream: Option<nat>, at: int, code: Digest, from: int,
                            h: nat, session: SessionId, secret: Digest)
    requires Sound(w) && code in w.codes && !w.codes[code].redeemed && MatchesUpstream(w.codes[code], user, upstream)
    requires h !in w.handlers && session !in w.sessions && secret !in w.secrets
    ensures var v := Apply(w, RevokeUpstream(user, upstream, at));
            (forall steps: seq<Step> :: ReadsNoEarlier(steps, {code}, from) ==> NothingLive(Run(v, steps), code))
            <==> from >= Min(w.codes[code].expiresAt, at)
  {
    var v := Apply(w, RevokeUpstream(user, upstream, at));
    var end := v.codes[code].expiresAt;
    UpstreamKeeps(w, user, upstream, at);
    UnspentIsSignedOut(v, code);
    if from >= end {
      forall steps: seq<Step> | ReadsNoEarlier(steps, {code}, from) ensures NothingLive(Run(v, steps), code) {
        SingleLogoutHolds(v, steps, {code}, end);
      }
    } else {
      var late := LateRedemption(v.codes[code], code, h, session, secret, from);
      LateRedemptionOpens(v, code, h, session, secret, from);
      assert ReadsNoEarlier(late, {code}, from);
    }
  }

  // ---- Refreshing ----

  predicate Presentable(w: World, session: SessionId, client: nat, now: int) {
    && session in w.sessions
    && w.sessions[session].client == client && !w.sessions[session].revoked
    && now < w.sessions[session].expiresAt && now < w.sessions[session].absoluteExpiresAt
  }

  predicate StillPasses(w: World, s: Session) {
    s.user in w.accounts && w.accounts[s.user].active && w.accounts[s.user].tokenVersion <= s.tokenVersion
  }

  function Rotated(w: World, session: SessionId, next: Digest, now: int): World
    requires session in w.sessions
  {
    var s := w.sessions[session];
    w.(sessions := w.sessions[session := s.(prev := Some(s.current), current := next,
                                           expiresAt := Min(now + REFRESH_TTL_SECS, s.absoluteExpiresAt))],
       secrets := w.secrets + {next}, rotations := w.rotations + [(session, s.current)])
  }

  lemma EndsInARow(w: World, h: nat, session: SessionId, next: Digest)
    requires h !in w.handlers
    ensures var a := Goto(w, h, MustRevoke(session));
            && AdmitStep(a, h) == a && RotateStep(a, h, next) == a
            && RevokeStep(a, h) == w.(sessions := RevokeWhere(w.sessions, {session}))
  {
    assert w.handlers[h := MustRevoke(session)] - {h} == w.handlers;
  }

  lemma RotatesInARow(w: World, h: nat, session: SessionId, now: int, next: Digest)
    requires h !in w.handlers && next !in w.secrets && session in w.sessions && !w.sessions[session].revoked
    ensures RotateStep(Goto(w, h, MayRotate(session, w.sessions[session].current, now)), h, next)
            == Rotated(w, session, next, now)
  {
    assert w.handlers[h := MayRotate(session, w.sessions[session].current, now)] - {h} == w.handlers;
  }

  lemma ReadInARow(w: World, h: nat, session: SessionId, secret: Digest, now: int)
    requires h !in w.handlers && session in w.sessions
    ensures var s := w.sessions[session];
            AdmitStep(Goto(w, h, HasRead(session, secret, s.user, s.tokenVersion, now)), h)
            == Goto(w, h, if StillPasses(w, s) then MayRotate(session, secret, now) else MustRevoke(session))
  {
    var s := w.sessions[session];
    var to := if StillPasses(w, s) then MayRotate(session, secret, now) else MustRevoke(session);
    assert w.handlers[h := HasRead(session, secret, s.user, s.tokenVersion, now)][h := to] == w.handlers[h := to];
  }

  /** A refresh's steps taken in a row. */
  lemma RefreshInARow(w: World, h: nat, session: SessionId, secret: Digest, client: nat, now: int, next: Digest)
    requires h !in w.handlers && next !in w.secrets
    ensures var r := RevokeStep(RotateStep(AdmitStep(ReadStep(w, h, session, secret, client, now), h), h, next), h);
            if !Presentable(w, session, client, now) then r == w
            else if w.sessions[session].current == secret && StillPasses(w, w.sessions[session])
            then r == Rotated(w, session, next, now)
            else r == w.(sessions := RevokeWhere(w.sessions, {session}))
  {
    EndsInARow(w, h, session, next);
    if Presentable(w, session, client, now) && w.sessions[session].current == secret {
      ReadInARow(w, h, session, secret, now);
      if StillPasses(w, w.sessions[session]) {
        RotatesInARow(w, h, session, now, next);
      }
    }
  }

  /** The adapter's transactions and the two handlers, in the order the code runs them. The
      steps above are these, cut at every transaction. */
  class RelyingParties {
    var world: World

    method ClaimCode(code: Digest, bound: Binding, now: int) returns (outcome: Outcome)
      modifies this
      ensures outcome == Claims(old(world), code, bound, now)
      ensures world == AfterClaim(old(world), code)
    {
      if code !in world.codes {
        return Unknown;
      }
      var row := world.codes[code];
      var seen := 1;
      if code in world.presented { seen := seen + world.presented[code]; }
      world := world.(presented := world.presented[code := seen]);
      if row.redeemed {
        world := world.(codes := world.codes[code := row.(replayed := true)]);
        world := world.(sessions := RevokeWhere(world.sessions, SessionsOf(world, code)));
        return Replayed;
      }
      world := world.(codes := world.codes[code := row.(redeemed := true)]);
      if now >= row.expiresAt {
        return Expired;
      }
      if row.bound != bound {
        return Mismatch;
      }
      return Redeemed(row.user, row.tokenVersion);
    }

    method OpenFor(code: Digest, session: SessionId, row: Session, now: int) returns (ok: bool)
      modifies this
      ensures ok == Opens(old(world), code, now)
      ensures world == if ok then Opened(old(world), session, row) else old(world)
    {
      if code !in world.codes || world.codes[code].replayed || world.codes[code].expiresAt <= now {
        return false;
      }
      world := world.(sessions := world.sessions[session := row], secrets := world.secrets + {row.current});
      return true;
    }

    /** A redemption is its three steps, and grants exactly when the code redeems, its user
        is active at the version it was issued under, and its row still stands. */
    method RedeemCode(h: nat, code: Digest, bound: Binding, now: int, session: SessionId, secret: Digest)
      returns (granted: bool)
      requires h !in world.handlers && session !in world.sessions && secret !in world.secrets
      modifies this
      ensures world == OpenStep(AdmitStep(ClaimStep(old(world), h, code, bound, now), h), h, session, secret)
      ensures granted <==> session in world.sessions
      ensures granted <==> && Claims(old(world), code, bound, now).Redeemed? && !old(world).codes[code].replayed
                           && Passes(old(world), old(world).codes[code].user, old(world).codes[code].tokenVersion)
    {
      RedemptionInARow(world, h, code, bound, now, session, secret);
      var outcome := ClaimCode(code, bound, now);
      match outcome {
        case Redeemed(user, tokenVersion) =>
          if !Passes(world, user, tokenVersion) {
            return false;
          }
          granted := OpenFor(code, session, Opening(bound.client, world.codes[code], code, secret, now), now);
        case _ => granted := false;
      }
    }

    /** A refresh is its steps; it rotates exactly the live session whose secret was shown
        and whose user still passes at a version no newer than the session's, and a wrong
        secret or a refused user ends the session instead. */
    method RotateRefresh(h: nat, session: SessionId, secret: Digest, client: nat, now: int, next: Digest)
      returns (granted: bool)
      requires h !in world.handlers && next !in world.secrets
      modifies this
      ensures var admitted := AdmitStep(ReadStep(old(world), h, session, secret, client, now), h);
              world == RevokeStep(RotateStep(admitted, h, next), h)
      ensures granted <==>
              && Presentable(old(world), session, client, now)
              && old(world).sessions[session].current == secret
              && StillPasses(old(world), old(world).sessions[session])
      ensures Presentable(old(world), session, client, now) && !granted ==> world.sessions[session].revoked
    {
      RefreshInARow(world, h, session, secret, client, now, next);
      if session !in world.sessions {
        return false;
      }
      var row := world.sessions[session];
      if row.client != client || row.revoked || now >= row.expiresAt || now >= row.absoluteExpiresAt {
        return false;
      }
      if row.current != secret || !StillPasses(world, row) {
        world := world.(sessions := RevokeWhere(world.sessions, {session}));
        return false;
      }
      world := Rotated(world, session, next, now);
      return true;
    }
  }
}
