/** Device sessions and the rotation of their refresh tokens. Refreshes of one token lock its epoch
    row and its session row, so transactions are modelled in the order in which they commit. */
module Sessions {
  import opened Leases

  type User = nat
  type Token = nat

  /** What the tables keep of a token; the hash is taken to be injective. */
  datatype Hash = Sha256(token: Token)

  datatype Session = Session(user: User, current: Hash, expiresAt: Time, lastActive: Time, revokedAt: Option<Time>)

  /** One token of a session's chain. */
  datatype Epoch = Epoch(session: nat, hash: Hash, consumedAt: Option<Time>)

  /** Rows by id, and the generator, which never repeats a token. */
  datatype Tables = Tables(sessions: seq<Session>, epochs: seq<Epoch>, nextToken: Token)

  datatype Settings = Settings(absoluteTimeout: nat, rememberMe: nat, idleTimeout: nat)

  /** A transaction. An error that revokes is raised through the transaction, so whether the
      revocation lasts depends on the caller: `persists` says it does. */
  datatype Op =
    | Create(user: User, now: Time, remember: bool)
    | Refresh(token: Token, now: Time, persists: bool)
    | Revoke(session: nat, now: Time)
    | RevokeAll(user: User, now: Time)

  /** The last two of the refusals below are the same error to the client. */
  datatype Outcome = Issued(session: nat, token: Token) | TokenInvalid | SessionExpired | TokenConsumed | SessionRevoked

  // --- statements -----------------------------------------------------------------------

  /** The first row with this hash. */
  function FindEpoch(epochs: seq<Epoch>, hash: Hash): (r: Option<nat>)
    ensures r.Some? ==> r.value < |epochs| && epochs[r.value].hash == hash
    ensures r.None? ==> forall e :: 0 <= e < |epochs| ==> epochs[e].hash != hash
  {
    if epochs == [] then None
    else
      var r := FindEpoch(epochs[..|epochs| - 1], hash);
      if r.Some? then r else if epochs[|epochs| - 1].hash == hash then Some(|epochs| - 1) else None
  }

  function FindSession(sessions: seq<Session>, hash: Hash): (r: Option<nat>)
    ensures r.Some? ==> r.value < |sessions| && sessions[r.value].current == hash
    ensures r.None? ==> forall i :: 0 <= i < |sessions| ==> sessions[i].current != hash
  {
    if sessions == [] then None
    else
      var r := FindSession(sessions[..|sessions| - 1], hash);
      if r.Some? then r else if sessions[|sessions| - 1].current == hash then Some(|sessions| - 1) else None
  }

  /** Only sessions that are not revoked yet are stamped. */
  function RevokedNow(s: Session, now: Time): Session {
    if s.revokedAt.None? then s.(revokedAt := Some(now)) else s
  }

  function RevokedFor(sessions: seq<Session>, user: User, now: Time): (r: seq<Session>)
    ensures |r| == |sessions|
    ensures forall i :: 0 <= i < |sessions| ==> r[i] == if sessions[i].user == user then RevokedNow(sessions[i], now)
                else sessions[i]
  {
    seq(|sessions|, i requires 0 <= i < |sessions| => if sessions[i].user == user then RevokedNow(sessions[i], now)
        else sessions[i])
  }

  // --- transactions ---------------------------------------------------------------------

  predicate TimedOut(c: Settings, s: Session, now: Time) {
    s.expiresAt < now || s.lastActive < now - c.idleTimeout
  }

  /** The verdict on a presented token, by the tables as they are. */
  function Verdict(c: Settings, t: Tables, token: Token, now: Time): Outcome {
    var e := FindEpoch(t.epochs, Sha256(token));
    if e.None? then TokenInvalid
    else if t.epochs[e.value].consumedAt.Some? then TokenConsumed
    else
      var s := FindSession(t.sessions, Sha256(token));
      if s.None? then TokenInvalid
      else if t.sessions[s.value].revokedAt.Some? then SessionRevoked
      else if TimedOut(c, t.sessions[s.value], now) then SessionExpired
      else Issued(s.value, t.nextToken)
  }

  function Rotated(t: Tables, token: Token, now: Time, session: nat): Tables
    requires session < |t.sessions|
  {
    var e := FindEpoch(t.epochs, Sha256(token));
    var consumed := if e.Some? then t.epochs[e.value := t.epochs[e.value].(consumedAt := Some(now))] else t.epochs;
    Tables(t.sessions[session := t.sessions[session].(current := Sha256(t.nextToken), lastActive := now)],
           consumed + [Epoch(session, Sha256(t.nextToken), None)], t.nextToken + 1)
  }

  function Created(c: Settings, t: Tables, user: User, now: Time, remember: bool): Tables {
    var expires := now + (if remember then c.rememberMe else c.absoluteTimeout);
    Tables(t.sessions + [Session(user, Sha256(t.nextToken), expires, now, None)],
           t.epochs + [Epoch(|t.sessions|, Sha256(t.nextToken), None)], t.nextToken + 1)
  }

  function Do(c: Settings, t: Tables, op: Op): Tables {
    match op
    case Create(user, now, remember) => Created(c, t, user, now, remember)
    case Refresh(token, now, persists) =>
      var s := FindSession(t.sessions, Sha256(token));
      (match Verdict(c, t, token, now)
       case Issued(session, _) => if session < |t.sessions| then Rotated(t, token, now, session) else t
       case SessionRevoked =>
         if persists && s.Some? then t.(sessions := RevokedFor(t.sessions, t.sessions[s.value].user, now)) else t
       case SessionExpired =>
         if persists && s.Some? then t.(sessions := t.sessions[s.value := RevokedNow(t.sessions[s.value], now)]) else t
       case _ => t)
    case Revoke(session, now) =>
      if session < |t.sessions| then t.(sessions := t.sessions[session := RevokedNow(t.sessions[session], now)]) else t
    case RevokeAll(user, now) => t.(sessions := RevokedFor(t.sessions, user, now))
  }

  function Run(c: Settings, ops: seq<Op>): Tables {
    if ops == [] then Tables([], [], 0) else Do(c, Run(c, ops[..|ops| - 1]), ops[|ops| - 1])
  }

  // --- what every run keeps -------------------------------------------------------------

  /** Epoch k carries the k-th token; an unconsumed epoch carries its session's current token, and every
      session has one. */
  ghost predicate Inv(t: Tables) {
    && |t.epochs| == t.nextToken
    && (forall k :: 0 <= k < |t.epochs| ==> t.epochs[k].hash == Sha256(k) && t.epochs[k].session < |t.sessions|)
    && (forall k :: 0 <= k < |t.epochs| && t.epochs[k].consumedAt.None? ==>
          t.sessions[t.epochs[k].session].current == t.epochs[k].hash)
    && (forall i :: 0 <= i < |t.sessions| ==> Carries(t, i, t.sessions[i].current.token))
  }

  /** This token is the live one of the session. */
  predicate Carries(t: Tables, session: nat, token: Token) {
    token < |t.epochs| && t.epochs[token].session == session && t.epochs[token].consumedAt.None?
  }

  lemma TokensAreFound(t: Tables, token: Token)
    requires Inv(t)
    ensures FindEpoch(t.epochs, Sha256(token)) == if token < t.nextToken then Some(token) else None
  {
  }

  lemma SessionsAreFound(t: Tables, session: nat)
    requires Inv(t) && session < |t.sessions|
    ensures FindSession(t.sessions, t.sessions[session].current) == Some(session)
  {
    var found := FindSession(t.sessions, t.sessions[session].current);
    assert Carries(t, session, t.sessions[session].current.token);
    assert Carries(t, found.value, t.sessions[found.value].current.token);
  }

  /** The session whose current token was presented. */
  ghost predicate Presented(sessions: seq<Session>, token: Token, s: int) {
    0 <= s < |sessions| && sessions[s].current == Sha256(token)
  }

  /** Exactly when a refresh succeeds and why it fails, without mentioning the epochs. In particular an
      unconsumed epoch always has its session, so the lookup of that session never comes back empty. */
  lemma VerdictMeans(c: Settings, t: Tables, token: Token, now: Time)
    requires Inv(t)
    ensures var v := Verdict(c, t, token, now);
            && (forall s: nat :: v == Issued(s, t.nextToken) <==>
                  && Presented(t.sessions, token, s) && t.sessions[s].revokedAt.None?
                  && now <= t.sessions[s].expiresAt && now - t.sessions[s].lastActive <= c.idleTimeout)
            && (v.SessionExpired? <==> exists s ::
                  && Presented(t.sessions, token, s) && t.sessions[s].revokedAt.None?
                  && (t.sessions[s].expiresAt < now || c.idleTimeout < now - t.sessions[s].lastActive))
            && (v.TokenInvalid? <==> token >= t.nextToken)
            && (v.TokenConsumed? <==> token < t.nextToken && forall s :: !Presented(t.sessions, token, s))
            && (v.SessionRevoked? <==> exists s :: Presented(t.sessions, token, s) && t.sessions[s].revokedAt.Some?)
            && (token < t.nextToken && t.epochs[token].consumedAt.None? ==>
                FindSession(t.sessions, Sha256(token)).Some?)
  {
    TokensAreFound(t, token);
    forall s | Presented(t.sessions, token, s)
      ensures FindSession(t.sessions, Sha256(token)) == Some(s) && Carries(t, s, token)
    {
      SessionsAreFound(t, s);
    }
    if token < t.nextToken && t.epochs[token].consumedAt.None? {
      assert Presented(t.sessions, token, t.epochs[token].session);
    }
  }

  /** Rotation s took place: the transaction's refresh was for this session. */
  predicate Rotates(c: Settings, t: Tables, op: Op, session: nat) {
    op.Refresh? && var v := Verdict(c, t, op.token, op.now); v.Issued? && v.session == session
  }

  lemma RotationKeepsInv(c: Settings, t: Tables, token: Token, now: Time, session: nat)
    requires Inv(t) && session < |t.sessions| && t.sessions[session].current == Sha256(token)
    ensures var u := Rotated(t, token, now, session);
            && Inv(u) && |u.sessions| == |t.sessions|
            && u.epochs == t.epochs[token := t.epochs[token].(consumedAt := Some(now))]
                + [Epoch(session, Sha256(t.nextToken), None)]
  {
    TokensAreFound(t, token);
    assert Carries(t, session, token);
    var u := Rotated(t, token, now, session);
    forall i | 0 <= i < |u.sessions| ensures Carries(u, i, u.sessions[i].current.token) {
      assert Carries(t, i, t.sessions[i].current.token);
    }
  }

  /** Everything else leaves the tokens alone. */
  lemma OnlyStamps(t: Tables, u: Tables)
    requires Inv(t) && u.epochs == t.epochs && u.nextToken == t.nextToken && |u.sessions| == |t.sessions|
    requires forall i :: 0 <= i < |t.sessions| ==> u.sessions[i] == t.sessions[i].(revokedAt := u.sessions[i].revokedAt)
    ensures Inv(u)
  {
    forall i | 0 <= i < |u.sessions| ensures Carries(u, i, u.sessions[i].current.token) {
      assert Carries(t, i, t.sessions[i].current.token);
    }
  }

  lemma StepKeepsInv(c: Settings, t: Tables, op: Op)
    requires Inv(t)
    ensures Inv(Do(c, t, op))
  {
    hide Inv, Rotated;
    match op
    case Create(user, now, remember) => CreationKeepsInv(c, t, user, now, remember);
    case Refresh(token, now, persists) =>
      VerdictMeans(c, t, token, now);
      var v := Verdict(c, t, token, now);
      if v.Issued? {
        RotationKeepsInv(c, t, token, now, v.session);
      } else {
        OnlyStamps(t, Do(c, t, op));
      }
    case Revoke(_, _) => OnlyStamps(t, Do(c, t, op));
    case RevokeAll(_, _) => OnlyStamps(t, Do(c, t, op));
  }

  lemma CreationKeepsInv(c: Settings, t: Tables, user: User, now: Time, remember: bool)
    requires Inv(t)
    ensures Inv(Created(c, t, user, now, remember))
  {
    var u := Created(c, t, user, now, remember);
    forall i | 0 <= i < |u.sessions| ensures Carries(u, i, u.sessions[i].current.token) {
      if i < |t.sessions| {
        assert Carries(t, i, t.sessions[i].current.token);
      }
    }
  }

  lemma {:induction false} RunKeepsInv(c: Settings, ops: seq<Op>)
    ensures Inv(Run(c, ops))
  {
    hide Inv, Do;
    if ops == [] {
      NothingYet();
    } else {
      RunKeepsInv(c, ops[..|ops| - 1]);
      StepKeepsInv(c, Run(c, ops[..|ops| - 1]), ops[|ops| - 1]);
    }
  }

  lemma NothingYet()
    ensures Inv(Tables([], [], 0))
  {
  }

  /** One live token: in every reachable state each session has exactly one unconsumed epoch, and its
      hash is the session's current one. */
  lemma OneLiveToken(c: Settings, ops: seq<Op>, session: nat)
    requires session < |Run(c, ops).sessions|
    ensures var t := Run(c, ops);
            && Carries(t, session, t.sessions[session].current.token)
            && t.epochs[t.sessions[session].current.token].hash == t.sessions[session].current
            && forall k :: Carries(t, session, k) ==> k == t.sessions[session].current.token
  {
    RunKeepsInv(c, ops);
  }

  // --- chains ---------------------------------------------------------------------------

  /** When the session was created and when each of its rotations took place. */
  function Activity(c: Settings, ops: seq<Op>, session: nat): seq<Time> {
    if ops == [] then []
    else
      var front, last := ops[..|ops| - 1], ops[|ops| - 1];
      var t := Run(c, front);
      if last.Create? && session == |t.sessions| then Activity(c, front, session) + [last.now]
      else if Rotates(c, t, last, session) then Activity(c, front, session) + [last.now]
      else Activity(c, front, session)
  }

  function CountEpochs(epochs: seq<Epoch>, session: nat): nat {
    if epochs == [] then 0
    else CountEpochs(epochs[..|epochs| - 1], session) + (if epochs[|epochs| - 1].session == session then 1 else 0)
  }

  lemma {:induction false} CountIgnoresConsumption(epochs: seq<Epoch>, k: nat, e: Epoch, session: nat)
    requires k < |epochs| && e.session == epochs[k].session
    ensures CountEpochs(epochs[k := e], session) == CountEpochs(epochs, session)
  {
    var n := |epochs| - 1;
    if k < n {
      assert epochs[k := e][..n] == epochs[..n][k := e];
      CountIgnoresConsumption(epochs[..n], k, e, session);
    } else {
      assert epochs[k := e][..n] == epochs[..n];
    }
  }

  lemma CountAppends(epochs: seq<Epoch>, e: Epoch, session: nat)
    ensures CountEpochs(epochs + [e], session) == CountEpochs(epochs, session) + (if e.session == session then 1 else 0)
  {
    assert (epochs + [e])[..|epochs|] == epochs;
  }

  /** The two limits on a chain: nothing after the expiry fixed at creation, and no gap above the idle
      limit. */
  ghost predicate WithinLimits(c: Settings, expiresAt: Time, activity: seq<Time>) {
    && activity != []
    && expiresAt in {activity[0] + c.absoluteTimeout, activity[0] + c.rememberMe}
    && (forall k :: 0 < k < |activity| ==> activity[k] <= expiresAt && activity[k] - activity[k - 1] <= c.idleTimeout)
  }

  /** A session, its chain of tokens and its activity, in step. */
  ghost predicate ChainInStep(c: Settings, t: Tables, activity: seq<Time>, session: nat) {
    if session < |t.sessions| then
      && CountEpochs(t.epochs, session) == |activity|
      && WithinLimits(c, t.sessions[session].expiresAt, activity)
      && t.sessions[session].lastActive == activity[|activity| - 1]
    else
      activity == [] && CountEpochs(t.epochs, session) == 0
  }

  lemma CreationKeepsChains(c: Settings, t: Tables, op: Op, activity: seq<Time>, session: nat)
    requires Inv(t) && op.Create? && ChainInStep(c, t, activity, session)
    ensures ChainInStep(c, Do(c, t, op), if session == |t.sessions| then activity + [op.now] else activity, session)
  {
    CountAppends(t.epochs, Epoch(|t.sessions|, Sha256(t.nextToken), None), session);
  }

  lemma RotationKeepsChains(c: Settings, t: Tables, token: Token, now: Time, rotated: nat, activity: seq<Time>,
      session: nat)
    requires Inv(t) && rotated < |t.sessions| && t.sessions[rotated].current == Sha256(token)
    requires !TimedOut(c, t.sessions[rotated], now) && ChainInStep(c, t, activity, session)
    ensures ChainInStep(c, Rotated(t, token, now, rotated), if session == rotated then activity + [now] else activity,
                session)
  {
    hide Inv;
    RotationKeepsInv(c, t, token, now, rotated);
    LiveTokenIsIssued(t, rotated);
    var consumed := t.epochs[token := t.epochs[token].(consumedAt := Some(now))];
    CountIgnoresConsumption(t.epochs, token, t.epochs[token].(consumedAt := Some(now)), session);
    CountAppends(consumed, Epoch(rotated, Sha256(t.nextToken), None), session);
    hide CountEpochs;
  }

  lemma LiveTokenIsIssued(t: Tables, session: nat)
    requires Inv(t) && session < |t.sessions|
    ensures t.sessions[session].current.token < |t.epochs|
  {
    assert Carries(t, session, t.sessions[session].current.token);
  }

  lemma StampsKeepChains(c: Settings, t: Tables, op: Op, activity: seq<Time>, session: nat)
    requires ChainInStep(c, t, activity, session) && !op.Create?
                 && (op.Refresh? ==> !Verdict(c, t, op.token, op.now).Issued?)
    ensures ChainInStep(c, Do(c, t, op), activity, session)
  {
    hide CountEpochs, WithinLimits;
  }

  /** Chains: a session of n rotations has n + 1 epochs; all of them happened by the expiry fixed at
      creation, and none later than the idle limit after the one before. */
  lemma {:induction false} ChainsStayWithinLimits(c: Settings, ops: seq<Op>, session: nat)
    ensures ChainInStep(c, Run(c, ops), Activity(c, ops, session), session)
  {
    hide Inv, Do, ChainInStep;
    if ops == [] {
      NoChainYet(c, session);
    } else {
      var front, op := ops[..|ops| - 1], ops[|ops| - 1];
      var t := Run(c, front);
      ChainsStayWithinLimits(c, front, session);
      RunKeepsInv(c, front);
      if op.Create? {
        CreationKeepsChains(c, t, op, Activity(c, front, session), session);
      } else if op.Refresh? && Verdict(c, t, op.token, op.now).Issued? {
        VerdictMeans(c, t, op.token, op.now);
        RefreshRotates(c, t, op);
        RotationKeepsChains(c, t, op.token, op.now, Verdict(c, t, op.token, op.now).session,
            Activity(c, front, session), session);
      } else {
        StampsKeepChains(c, t, op, Activity(c, front, session), session);
      }
    }
  }

  lemma RefreshRotates(c: Settings, t: Tables, op: Op)
    requires op.Refresh? && Verdict(c, t, op.token, op.now).Issued?
    ensures var s := Verdict(c, t, op.token, op.now).session;
            s < |t.sessions| && Do(c, t, op) == Rotated(t, op.token, op.now, s)
  {
  }

  lemma NoChainYet(c: Settings, session: nat)
    ensures ChainInStep(c, Run(c, []), Activity(c, [], session), session)
  {
  }

  // --- replay and revocation ------------------------------------------------------------

  /** Rows stay, and so do their stamps. */
  ghost predicate StampsLast(t: Tables, u: Tables) {
    && |t.epochs| <= |u.epochs| && |t.sessions| <= |u.sessions|
    && (forall k :: 0 <= k < |t.epochs| && t.epochs[k].consumedAt.Some? ==> u.epochs[k].consumedAt.Some?)
    && (forall s :: 0 <= s < |t.sessions| && t.sessions[s].revokedAt.Some? ==>
        u.sessions[s].revokedAt == t.sessions[s].revokedAt)
  }

  lemma StampsLastAStep(c: Settings, t: Tables, op: Op)
    ensures StampsLast(t, Do(c, t, op))
  {
    hide Verdict;
  }

  /** Once consumed, and once revoked, for good. */
  lemma {:induction false} ConsumedAndRevokedForGood(c: Settings, ops: seq<Op>, i: nat, j: nat)
    requires i <= j <= |ops|
    ensures StampsLast(Run(c, ops[..i]), Run(c, ops[..j]))
    decreases j - i
  {
    hide Do;
    if i < j {
      ConsumedAndRevokedForGood(c, ops, i, j - 1);
      assert ops[..j][..j - 1] == ops[..j - 1];
      StampsLastAStep(c, Run(c, ops[..j - 1]), ops[j - 1]);
    }
  }

  /** No token is redeemed twice in any run. */
  lemma NoTokenIsRedeemedTwice(c: Settings, ops: seq<Op>, i: nat, j: nat, s: nat, s': nat)
    requires i < j < |ops| && Rotates(c, Run(c, ops[..i]), ops[i], s) && Rotates(c, Run(c, ops[..j]), ops[j], s')
    ensures ops[i].token != ops[j].token
  {
    hide Verdict;
    RunKeepsInv(c, ops[..i]);
    RunKeepsInv(c, ops[..j]);
    VerdictMeans(c, Run(c, ops[..i]), ops[i].token, ops[i].now);
    assert ops[..i + 1][..i] == ops[..i];
    RedeemingConsumes(c, Run(c, ops[..i]), ops[i]);
    ConsumedAndRevokedForGood(c, ops, i + 1, j);
    ConsumedIsRefused(c, Run(c, ops[..j]), ops[i].token, ops[j].now);
  }

  lemma RedeemingConsumes(c: Settings, t: Tables, op: Op)
    requires Inv(t) && op.Refresh? && Verdict(c, t, op.token, op.now).Issued?
    ensures op.token < |t.epochs| < |Do(c, t, op).epochs| && Do(c, t, op).epochs[op.token].consumedAt.Some?
  {
    TokensAreFound(t, op.token);
  }

  lemma ConsumedIsRefused(c: Settings, t: Tables, token: Token, now: Time)
    requires Inv(t) && token < |t.epochs| && t.epochs[token].consumedAt.Some?
    ensures Verdict(c, t, token, now) == TokenConsumed
  {
    TokensAreFound(t, token);
  }

  /** A session that was revoked never rotates again. */
  lemma NoRotationAfterRevocation(c: Settings, ops: seq<Op>, i: nat, j: nat, session: nat)
    requires i <= j < |ops| && session < |Run(c, ops[..i]).sessions|
                 && Run(c, ops[..i]).sessions[session].revokedAt.Some?
    ensures !Rotates(c, Run(c, ops[..j]), ops[j], session)
  {
    ConsumedAndRevokedForGood(c, ops, i, j);
  }

  /** A replayed token is refused without touching anything, whether or not the caller commits. */
  lemma ReplayChangesNothing(c: Settings, t: Tables, token: Token, now: Time, persists: bool)
    requires Inv(t) && token < |t.epochs| && t.epochs[token].consumedAt.Some?
    ensures Do(c, t, Refresh(token, now, persists)) == t
  {
    ConsumedIsRefused(c, t, token, now);
  }

  /** What a refresh leaves behind. */
  lemma NewTokenIsCarried(c: Settings, t: Tables, token: Token, now: Time, persists: bool)
    requires Inv(t)
    ensures var v, u := Verdict(c, t, token, now), Do(c, t, Refresh(token, now, persists));
            if v.Issued? then
              && v.session < |u.sessions| && u.sessions[v.session].current == Sha256(v.token)
              && Carries(u, v.session, v.token) && |u.epochs| == |t.epochs| + 1
            else
              v.TokenInvalid? || v.TokenConsumed? || !persists ==> u == t
  {
    hide Inv;
    VerdictMeans(c, t, token, now);
    var v := Verdict(c, t, token, now);
    if v.Issued? {
      RotationKeepsInv(c, t, token, now, v.session);
      InvCarries(Rotated(t, token, now, v.session), v.session);
    }
  }

  /** The rows that a refresh leaves, column by column. */
  lemma RowsAfterARefresh(c: Settings, t: Tables, token: Token, now: Time, persists: bool)
    requires Inv(t)
    ensures var v, u := Verdict(c, t, token, now), Do(c, t, Refresh(token, now, persists));
            match v
            case Issued(s, next) =>
              && s < |t.sessions| && token < |t.epochs| && next == |t.epochs| == t.nextToken
              && u.sessions == t.sessions[s := t.sessions[s].(current := Sha256(next), lastActive := now)]
              && u.epochs == t.epochs[token := t.epochs[token].(consumedAt := Some(now))]
                             + [Epoch(s, Sha256(next), None)]
            case SessionRevoked => persists ==>
              && u.epochs == t.epochs && |u.sessions| == |t.sessions|
              && exists p :: Presented(t.sessions, token, p) && forall i :: 0 <= i < |t.sessions| ==>
                   u.sessions[i] == if t.sessions[i].user == t.sessions[p].user && t.sessions[i].revokedAt.None?
                                    then t.sessions[i].(revokedAt := Some(now)) else t.sessions[i]
            case SessionExpired => persists ==>
              && u.epochs == t.epochs
              && exists p :: Presented(t.sessions, token, p)
                             && u.sessions == t.sessions[p := t.sessions[p].(revokedAt := Some(now))]
            case _ => u == t
  {
    TokensAreFound(t, token);
    var s := FindSession(t.sessions, Sha256(token));
    if s.Some? {
      assert Presented(t.sessions, token, s.value);
    }
    VerdictMeans(c, t, token, now);
    if Verdict(c, t, token, now).Issued? {
      RotationKeepsInv(c, t, token, now, s.value);
    }
  }

  lemma FirstTokenWorks(c: Settings, t: Tables, user: User, now: Time, remember: bool)
    requires Inv(t)
    ensures var u := Created(c, t, user, now, remember);
            Verdict(c, u, t.nextToken, now) == Issued(|t.sessions|, u.nextToken)
  {
    CreationKeepsInv(c, t, user, now, remember);
    VerdictMeans(c, Created(c, t, user, now, remember), t.nextToken, now);
  }

  lemma InvCarries(t: Tables, session: nat)
    requires Inv(t) && session < |t.sessions|
    ensures Carries(t, session, t.sessions[session].current.token)
  {
  }

  // --- the service ----------------------------------------------------------------------

  class SessionService {
    const settings: Settings
    var sessions: seq<Session>
    var epochs: seq<Epoch>
    var nextToken: Token
    ghost var ops: seq<Op>

    constructor (settings: Settings)
      ensures this.settings == settings && AsRun() && ops == []
    {
      this.settings, sessions, epochs, nextToken, ops := settings, [], [], 0, [];
    }

    function Now(): Tables
      reads this
    {
      Tables(sessions, epochs, nextToken)
    }

    ghost predicate AsRun()
      reads this
    {
      Now() == Run(settings, ops)
    }

    method GenerateRefreshToken() returns (token: Token)
      modifies this`nextToken
      ensures token == old(nextToken) && nextToken == token + 1
    {
      token, nextToken := nextToken, nextToken + 1;
    }

    /** Returns the epoch's row, or nothing if it was consumed already. */
    method MarkConsumed(epoch: nat, now: Time) returns (row: Option<Epoch>)
      requires epoch < |epochs|
      modifies this`epochs
      ensures epochs == if old(epochs)[epoch].consumedAt.None?
                  then old(epochs)[epoch := old(epochs)[epoch].(consumedAt := Some(now))] else old(epochs)
      ensures row == if old(epochs)[epoch].consumedAt.None? then Some(epochs[epoch]) else None
    {
      if epochs[epoch].consumedAt.Some? {
        return None;
      }
      epochs := epochs[epoch := epochs[epoch].(consumedAt := Some(now))];
      row := Some(epochs[epoch]);
    }

    method RevokeSession(session: nat, now: Time) returns (changed: bool)
      requires session < |sessions|
      modifies this`sessions
      ensures sessions == old(sessions)[session := RevokedNow(old(sessions)[session], now)]
      ensures changed <==> old(sessions)[session].revokedAt.None?
    {
      changed := sessions[session].revokedAt.None?;
      if changed {
        sessions := sessions[session := sessions[session].(revokedAt := Some(now))];
      }
    }

    method CreateSession(user: User, now: Time, remember: bool) returns (session: nat, token: Token)
      requires AsRun()
      modifies this
      ensures AsRun() && ops == old(ops) + [Create(user, now, remember)]
      ensures session == |old(sessions)| && token == old(nextToken)
      ensures var expires := now + (if remember then settings.rememberMe else settings.absoluteTimeout);
              sessions == old(sessions) + [Session(user, Sha256(token), expires, now, None)]
      ensures epochs == old(epochs) + [Epoch(session, Sha256(token), None)]
      ensures Verdict(settings, Now(), token, now) == Issued(session, nextToken)
    {
      hide Inv, Run, Verdict, Created;
      RunKeepsInv(settings, ops);
      FirstTokenWorks(settings, Now(), user, now, remember);
      session, token := InsertSession(user, now, remember);
      Remember(Create(user, now, remember));
    }

    method InsertSession(user: User, now: Time, remember: bool) returns (session: nat, token: Token)
      modifies this`sessions, this`epochs, this`nextToken
      ensures Now() == Created(settings, old(Now()), user, now, remember)
      ensures session == |old(sessions)| && token == old(nextToken)
      ensures var expires := now + (if remember then settings.rememberMe else settings.absoluteTimeout);
              sessions == old(sessions) + [Session(user, Sha256(token), expires, now, None)]
      ensures epochs == old(epochs) + [Epoch(session, Sha256(token), None)]
    {
      var expiresAt := now + (if remember then settings.rememberMe else settings.absoluteTimeout);
      token := GenerateRefreshToken();
      session := |sessions|;
      sessions := sessions + [Session(user, Sha256(token), expiresAt, now, None)];
      epochs := epochs + [Epoch(session, Sha256(token), None)];
    }

    ghost method Remember(op: Op)
      requires Now() == Do(settings, Run(settings, ops), op)
      modifies this`ops
      ensures AsRun() && ops == old(ops) + [op]
    {
      assert (ops + [op])[..|ops|] == ops;
      ops := ops + [op];
    }

    /** The outcome is the verdict on the presented token, and each outcome has its reason in the rows: a
        live session within both limits gets the next token, and only that session and the presented epoch
        change; a replay of a revoked session revokes what its user has left. */
    method RefreshSession(token: Token, now: Time, persists: bool) returns (outcome: Outcome)
      requires AsRun()
      modifies this
      ensures AsRun() && ops == old(ops) + [Refresh(token, now, persists)]
      ensures outcome == Verdict(settings, old(Now()), token, now)
      ensures forall s :: outcome.Issued? && outcome.session == s <==>
                && Presented(old(sessions), token, s) && old(sessions)[s].revokedAt.None?
                && now <= old(sessions)[s].expiresAt && now - old(sessions)[s].lastActive <= settings.idleTimeout
      ensures outcome.SessionExpired? <==> exists s ::
                && Presented(old(sessions), token, s) && old(sessions)[s].revokedAt.None?
                && (old(sessions)[s].expiresAt < now || settings.idleTimeout < now - old(sessions)[s].lastActive)
      ensures outcome.SessionRevoked? <==>
                exists s :: Presented(old(sessions), token, s) && old(sessions)[s].revokedAt.Some?
      ensures outcome.TokenInvalid? <==> token >= old(nextToken)
      ensures outcome.Issued? ==>
                && sessions == old(sessions)[outcome.session := old(sessions)[outcome.session].(
                                 current := Sha256(outcome.token), lastActive := now)]
                && token < |old(epochs)| && outcome.token == |old(epochs)|
                && epochs == old(epochs)[token := old(epochs)[token].(consumedAt := Some(now))]
                             + [Epoch(outcome.session, Sha256(outcome.token), None)]
      ensures outcome.SessionRevoked? && persists ==>
                && epochs == old(epochs) && |sessions| == |old(sessions)|
                && exists p :: Presented(old(sessions), token, p) && forall i :: 0 <= i < |sessions| ==>
                     var was := old(sessions)[i];
                     sessions[i] == if was.user == old(sessions)[p].user && was.revokedAt.None?
                                    then was.(revokedAt := Some(now)) else was
      ensures outcome.SessionExpired? && persists ==>
                && epochs == old(epochs)
                && exists p :: Presented(old(sessions), token, p)
                               && sessions == old(sessions)[p := old(sessions)[p].(revokedAt := Some(now))]
      ensures outcome.Issued? ==>
                && outcome.session < |sessions| && sessions[outcome.session].current == Sha256(outcome.token)
                && Carries(Now(), outcome.session, outcome.token)
                && outcome.token < |epochs| && |epochs| == |old(epochs)| + 1
      ensures outcome.TokenInvalid? || outcome.TokenConsumed? || (!outcome.Issued? && !persists) ==> Now() == old(Now())
    {
      hide Inv, Run, Do, Verdict;
      RunKeepsInv(settings, ops);
      NewTokenIsCarried(settings, Now(), token, now, persists);
      VerdictMeans(settings, Now(), token, now);
      RowsAfterARefresh(settings, Now(), token, now, persists);
      outcome := Redeem(token, now, persists);
      Remember(Refresh(token, now, persists));
    }

    method Redeem(token: Token, now: Time, persists: bool) returns (outcome: Outcome)
      requires Inv(Now())
      modifies this`sessions, this`epochs, this`nextToken
      ensures Now() == Do(settings, old(Now()), Refresh(token, now, persists))
      ensures outcome == Verdict(settings, old(Now()), token, now)
    {
      var family := FindEpoch(epochs, Sha256(token));
      if family.None? {
        return TokenInvalid;
      }
      if epochs[family.value].consumedAt.Some? {
        return TokenConsumed;
      }
      var session := FindSession(sessions, Sha256(token));
      if session.None? {
        return TokenInvalid;
      }
      if sessions[session.value].revokedAt.Some? {
        if persists {
          sessions := RevokedFor(sessions, sessions[session.value].user, now);
        }
        return SessionRevoked;
      }
      if sessions[session.value].expiresAt < now || sessions[session.value].lastActive < now - settings.idleTimeout {
        if persists {
          var _ := RevokeSession(session.value, now);
        }
        return SessionExpired;
      }
      var next := GenerateRefreshToken();
      var _ := MarkConsumed(family.value, now);
      sessions := sessions[session.value := sessions[session.value].(current := Sha256(next), lastActive := now)];
      epochs := epochs + [Epoch(session.value, Sha256(next), None)];
      outcome := Issued(session.value, next);
    }

    /** Every session of the user that is not revoked yet. */
    method LogOutEverywhere(user: User, now: Time)
      requires AsRun()
      modifies this
      ensures AsRun() && ops == old(ops) + [RevokeAll(user, now)] && epochs == old(epochs)
      ensures |sessions| == |old(sessions)|
      ensures forall i :: 0 <= i < |sessions| ==>
                var was := old(sessions)[i];
                sessions[i] == if was.user == user && was.revokedAt.None? then was.(revokedAt := Some(now)) else was
    {
      sessions := RevokedFor(sessions, user, now);
      Remember(RevokeAll(user, now));
    }

    method LogOut(session: nat, now: Time) returns (changed: bool)
      requires AsRun() && session < |sessions|
      modifies this
      ensures AsRun() && ops == old(ops) + [Revoke(session, now)]
      ensures sessions == old(sessions)[session := old(sessions)[session].(
                            revokedAt := if changed then Some(now) else old(sessions)[session].revokedAt)]
      ensures sessions[session].revokedAt.Some? && epochs == old(epochs)
      ensures changed <==> old(sessions)[session].revokedAt.None?
    {
      changed := RevokeSession(session, now);
      Remember(Revoke(session, now));
    }
  }
}
