/** What each transaction on codes and client sessions changes, row by row, and what it leaves
    alone. */
module ClientSessions {
  import opened Results
  import opened RelyingParty

  /** A session or code of that user and, when one is named, of that upstream sign-in. */
  predicate Of(owner: UserId, from: nat, user: UserId, upstream: Option<nat>) {
    owner == user && (upstream == None || upstream == Some(from))
  }

  ghost function OfSessions(w: World, user: UserId, upstream: Option<nat>): set<SessionId> {
    set s | s in w.sessions && Of(w.sessions[s].user, w.sessions[s].upstream, user, upstream)
  }

  /** Exactly the sessions of `hit` are revoked; nothing else of any session moves. */
  ghost predicate RevokesOnly(w: World, v: World, hit: set<SessionId>) {
    && (forall s :: s in v.sessions <==> s in w.sessions)
    && (forall s :: s in w.sessions ==>
          v.sessions[s] == w.sessions[s].(revoked := w.sessions[s].revoked || s in hit))
  }

  /** Single logout revokes the sessions of the user, of the one sign-in when it is named, and
      no other; it brings forward the expiry of their codes, and of no other. */
  lemma LogoutDoes(w: World, user: UserId, upstream: Option<nat>, now: int)
    ensures var v := Apply(w, RevokeUpstream(user, upstream, now));
            && RevokesOnly(w, v, OfSessions(w, user, upstream))
            && (forall c :: c in v.codes <==> c in w.codes)
            && (forall c :: c in w.codes ==>
                  var row := w.codes[c];
                  v.codes[c] == if Of(row.user, row.upstream, user, upstream) && now < row.expiresAt
                                then row.(expiresAt := now) else row)
            && v == w.(codes := v.codes, sessions := v.sessions)
  {
  }

  /** So codes of other users and sign-ins redeem as before. */
  lemma LogoutSparesOthers(w: World, user: UserId, upstream: Option<nat>, at: int, code: Digest,
                          bound: Binding, now: int)
    requires code in w.codes ==> !Of(w.codes[code].user, w.codes[code].upstream, user, upstream)
    ensures Claims(Apply(w, RevokeUpstream(user, upstream, at)), code, bound, now) == Claims(w, code, bound, now)
  {
  }

  /** The first presentation of a stored code spends it; every later one marks the replay and
      revokes the sessions it opened, and no other; an unknown code changes nothing. */
  lemma PresentationDoes(w: World, code: Digest)
    ensures var v := AfterClaim(w, code);
            && (code !in w.codes ==> v == w)
            && (code in w.codes ==>
                  && (forall c :: c in v.codes <==> c in w.codes)
                  && (forall c :: c in w.codes && c != code ==> v.codes[c] == w.codes[c])
                  && v.codes[code] == w.codes[code].(redeemed := true,
                                                     replayed := w.codes[code].redeemed || w.codes[code].replayed)
                  && RevokesOnly(w, v, set s | s in w.sessions && w.codes[code].redeemed && w.sessions[s].code == code)
                  && v == w.(codes := v.codes, sessions := v.sessions, presented := v.presented))
  {
  }

  /** Nothing but where handler `h` stands has moved. */
  ghost predicate OnlyHandler(w: World, v: World, h: nat) {
    && v.(handlers := w.handlers) == w
    && (forall k :: k != h ==> (k in v.handlers <==> k in w.handlers))
    && (forall k :: k != h && k in w.handlers ==> v.handlers[k] == w.handlers[k])
  }

  /** Storing a code keeps every row whose expiry is not more than a day past, drops the rest,
      and adds the new one, unspent, good for a minute; a digest is stored once. */
  lemma StoringDoes(w: World, code: Digest, bound: Binding, user: UserId, version: nat, upstream: nat, now: int)
    ensures var v := Apply(w, IssueCode(code, bound, user, version, upstream, now));
            && (code in w.issued ==> v == w)
            && (code !in w.issued ==>
                  && code in v.codes && v.codes[code] == Code(bound, user, version, upstream, now + 60, false, false)
                  && (forall c :: c != code ==> (c in v.codes <==> c in w.codes && w.codes[c].expiresAt >= now - 86400))
                  && (forall c :: c != code && c in v.codes ==> v.codes[c] == w.codes[c])
                  && v.issued == w.issued[code := v.codes[code]]
                  && v == w.(codes := v.codes, issued := v.issued))
  {
  }

  /** A claim that redeems leaves a handler holding what the code was issued for; any other
      outcome leaves none. */
  lemma ClaimDoes(w: World, h: nat, code: Digest, bound: Binding, now: int)
    requires h !in w.handlers
    ensures var v := Apply(w, Claim(h, code, bound, now));
            && v.(handlers := w.handlers) == AfterClaim(w, code)
            && (forall k :: k != h ==> (k in v.handlers <==> k in w.handlers))
            && (forall k :: k in w.handlers ==> v.handlers[k] == w.handlers[k])
            && (h in v.handlers <==> code in w.codes && !w.codes[code].redeemed && now < w.codes[code].expiresAt
                                     && w.codes[code].bound == bound)
            && (h in v.handlers ==>
                  v.handlers[h]
                  == Claimed(code, bound.client, w.codes[code].user, w.codes[code].tokenVersion, now))
  {
  }

  /** Admission lets a redemption through for an active account at exactly the code's version,
      and ends it otherwise. */
  lemma AdmitRedemptionDoes(w: World, h: nat)
    requires h in w.handlers && w.handlers[h].Claimed?
    ensures var v, from := Apply(w, Admit(h)), w.handlers[h];
            && OnlyHandler(w, v, h)
            && (h in v.handlers <==> from.user in w.accounts && w.accounts[from.user].active
                                     && w.accounts[from.user].tokenVersion == from.tokenVersion)
            && (h in v.handlers ==>
                  v.handlers[h] == Cleared(from.code, from.client, from.user, from.tokenVersion, from.now))
  {
  }

  /** It lets a refresh through for an active account at no newer a version than the session's,
      and sends it to revoke otherwise. */
  lemma AdmitRefreshDoes(w: World, h: nat)
    requires h in w.handlers && w.handlers[h].HasRead?
    ensures var v, from := Apply(w, Admit(h)), w.handlers[h];
            && OnlyHandler(w, v, h)
            && h in v.handlers
            && v.handlers[h] == if from.user in w.accounts && w.accounts[from.user].active
                                   && w.accounts[from.user].tokenVersion <= from.tokenVersion
                                then MayRotate(from.session, from.presentedSecret, from.now)
                                else MustRevoke(from.session)
  {
  }

  /** A cleared redemption opens its session exactly while its code stands, unreplayed and
      unexpired at its reading: for the code's user, version and upstream, good for a week and
      for thirty days in all. */
  lemma OpenDoes(w: World, h: nat, session: SessionId, secret: Digest)
    requires h in w.handlers && w.handlers[h].Cleared? && session !in w.sessions && secret !in w.secrets
    ensures var v, from := Apply(w, OpenSession(h, session, secret)), w.handlers[h];
            && h !in v.handlers && (forall k :: k != h ==> (k in v.handlers <==> k in w.handlers))
            && (forall k :: k in v.handlers ==> v.handlers[k] == w.handlers[k])
            && (session in v.sessions <==>
                  from.code in w.codes && !w.codes[from.code].replayed && from.now < w.codes[from.code].expiresAt)
            && (session in v.sessions ==>
                  v.sessions[session]
                  == Session(from.client, from.user, from.code, secret, None, from.tokenVersion,
                             w.codes[from.code].upstream, from.now + 604800, from.now + 2592000, false))
            && (forall s :: s != session ==> (s in v.sessions <==> s in w.sessions))
            && (forall s :: s in w.sessions ==> v.sessions[s] == w.sessions[s])
            && v.codes == w.codes && v.issued == w.issued && v.accounts == w.accounts && v.presented == w.presented
  {
  }

  /** Reading a session takes on a live one of the caller's own: with its current secret to be
      admitted, with any other to be revoked. */
  lemma ReadDoes(w: World, h: nat, session: SessionId, secret: Digest, client: nat, now: int)
    requires h !in w.handlers
    ensures var v := Apply(w, ReadSession(h, session, secret, client, now));
            && OnlyHandler(w, v, h)
            && (h in v.handlers <==>
                  && session in w.sessions && w.sessions[session].client == client && !w.sessions[session].revoked
                  && now < w.sessions[session].expiresAt && now < w.sessions[session].absoluteExpiresAt)
            && (h in v.handlers ==>
                  v.handlers[h] == if w.sessions[session].current == secret
                                   then HasRead(session, secret, w.sessions[session].user,
                                                w.sessions[session].tokenVersion, now)
                                   else MustRevoke(session))
  {
  }

  /** Rotating moves a session still standing on the secret that was read to the next one, good
      for another week but no longer than its thirty days; otherwise nothing moves. */
  lemma RotateDoes(w: World, h: nat, next: Digest)
    requires h in w.handlers && w.handlers[h].MayRotate? && next !in w.secrets
    ensures var v, from := Apply(w, Rotate(h, next)), w.handlers[h];
            && h !in v.handlers && (forall k :: k != h ==> (k in v.handlers <==> k in w.handlers))
            && (forall k :: k in v.handlers ==> v.handlers[k] == w.handlers[k])
            && (forall s :: s in v.sessions <==> s in w.sessions)
            && (forall s :: s in w.sessions && s != from.session ==> v.sessions[s] == w.sessions[s])
            && (from.session in w.sessions ==>
                  var row := w.sessions[from.session];
                  v.sessions[from.session]
                  == if row.current == from.presentedSecret && !row.revoked
                     then row.(current := next, prev := Some(row.current),
                               expiresAt := if from.now + 604800 < row.absoluteExpiresAt then from.now + 604800
                                            else row.absoluteExpiresAt)
                     else row)
            && v.codes == w.codes && v.issued == w.issued && v.accounts == w.accounts && v.presented == w.presented
  {
  }

  /** A handler sent to revoke revokes that one session. */
  lemma RevokeDoes(w: World, h: nat)
    requires h in w.handlers && w.handlers[h].MustRevoke?
    ensures var v := Apply(w, Revoke(h));
            && RevokesOnly(w, v, {w.handlers[h].session})
            && v == w.(sessions := v.sessions, handlers := v.handlers)
            && h !in v.handlers && (forall k :: k != h ==> (k in v.handlers <==> k in w.handlers))
            && (forall k :: k in v.handlers ==> v.handlers[k] == w.handlers[k])
  {
  }
}
