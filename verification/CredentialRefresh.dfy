/** Refreshing the provider credential of a mail account: read, lease, call the provider with no
    transaction open, then finalise by compare-and-set. Any number of callers interleave, and a user
    may reconnect the account at any time, which overwrites the credential without the lease. */
module CredentialRefresh {
  import opened Leases
  import opened MailRepositories

  datatype Credential = Credential(access: string, refresh: string, expiresAt: Time, scopes: set<string>)

  /** The provider's answer; an empty refresh token or scope list means no new one. */
  datatype Tokens = Tokens(access: string, refresh: string, expiresAt: Time, scopes: set<string>)

  datatype Account = Account(row: Register<AccountColumns>, credential: Option<Credential>)

  /** What happens to the account, one committed statement at a time. Read has no effect. */
  datatype Action =
    | Take(worker: Worker, now: Time, duration: int)
    | Read(worker: Worker, version: nat)
    | Finalize(worker: Worker, version: nat, sent: string, tokens: Tokens)
    | Release(worker: Worker, version: nat)
    | Reconnect(credential: Credential)

  /** Only the columns that the answer brings are assigned. */
  function Written(c: Credential, t: Tokens): Credential {
    Credential(t.access, if t.refresh != "" then t.refresh else c.refresh, t.expiresAt,
               if t.scopes != {} then t.scopes else c.scopes)
  }

  /** What an action does to the account row; reading and reconnecting leave it alone. */
  function Statement(a: Action): Op<AccountColumns> {
    match a
    case Take(w, now, duration) => AcquireRefreshOp(w, now, duration)
    case Read(_, _) => Skip
    case Finalize(w, v, _, _) => FinalizeRefreshOp(w, v)
    case Release(w, v) => ReleaseRefreshOp(w, v)
    case Reconnect(_) => Skip
  }

  predicate Effective(s: Account, a: Action) {
    Accepts(s.row, Statement(a))
  }

  function Step(s: Account, a: Action): Account {
    Account(Apply(s.row, Statement(a)),
            match a
            case Finalize(_, _, _, tokens) =>
              if Effective(s, a) && s.credential.Some? then Some(Written(s.credential.value, tokens)) else s.credential
            case Reconnect(c) => Some(c)
            case _ => s.credential)
  }

  function Run(s: Account, actions: seq<Action>): Account {
    if actions == [] then s else Step(Run(s, actions[..|actions| - 1]), actions[|actions| - 1])
  }

  function Generation(s: Account): nat { s.row.payload.generation }

  function StoredRefresh(s: Account): Option<string> {
    if s.credential.Some? then Some(s.credential.value.refresh) else None
  }

  lemma RunAppend(s: Account, actions: seq<Action>, a: Action)
    ensures Run(s, actions + [a]) == Step(Run(s, actions), a)
  {
    assert (actions + [a])[..|actions|] == actions;
  }

  // --- the account row is a fenced register ---------------------------------------------

  function Statements(actions: seq<Action>): (ops: seq<Op<AccountColumns>>)
    ensures |ops| == |actions| && forall i :: 0 <= i < |ops| ==> ops[i] == Statement(actions[i])
  {
    seq(|actions|, i requires 0 <= i < |actions| => Statement(actions[i]))
  }

  lemma {:induction false} RowIsTheRegister(s: Account, actions: seq<Action>, n: nat)
    requires n <= |actions|
    ensures Run(s, actions[..n]).row == At(s.row, Statements(actions), n)
  {
    if n > 0 {
      RowIsTheRegister(s, actions, n - 1);
      assert actions[..n][..n - 1] == actions[..n - 1];
    }
  }

  // --- the credential is the fold of refreshes and reconnects ---------------------------

  /** A write to the credential row. */
  datatype Change = Renewed(tokens: Tokens) | Overwritten(credential: Credential)

  /** The writes that took effect, in order. */
  function Changes(s: Account, actions: seq<Action>): seq<Change> {
    if actions == [] then []
    else
      var front, last := actions[..|actions| - 1], actions[|actions| - 1];
      if last.Finalize? && Effective(Run(s, front), last) then Changes(s, front) + [Renewed(last.tokens)]
      else if last.Reconnect? then Changes(s, front) + [Overwritten(last.credential)]
      else Changes(s, front)
  }

  function ChangedBy(c: Option<Credential>, changes: seq<Change>): Option<Credential> {
    if changes == [] then c
    else
      var before := ChangedBy(c, changes[..|changes| - 1]);
      match changes[|changes| - 1]
      case Overwritten(credential) => Some(credential)
      case Renewed(tokens) => if before.Some? then Some(Written(before.value, tokens)) else None
  }

  function CountRefreshes(changes: seq<Change>): nat {
    if changes == [] then 0
    else CountRefreshes(changes[..|changes| - 1]) + (if changes[|changes| - 1].Renewed? then 1 else 0)
  }

  /** The generation is the initial one plus the successful refreshes, and counts no reconnect; the
      stored credential is what exactly the refreshes and the reconnects wrote, in that order. */
  lemma {:induction false} GenerationCountsTheRefreshes(s: Account, actions: seq<Action>)
    ensures Generation(Run(s, actions)) == Generation(s) + CountRefreshes(Changes(s, actions))
    ensures Run(s, actions).credential == ChangedBy(s.credential, Changes(s, actions))
  {
    if actions != [] {
      var front, last := actions[..|actions| - 1], actions[|actions| - 1];
      GenerationCountsTheRefreshes(s, front);
      var before, after := Changes(s, front), Changes(s, actions);
      if |after| > |before| {
        assert after[..|after| - 1] == before;
      }
    }
  }

  /** A write that brings a refresh token of its own. */
  predicate BringsAToken(change: Change) {
    change.Renewed? ==> change.tokens.refresh != ""
  }

  function TokenOf(change: Change): string {
    if change.Renewed? then change.tokens.refresh else change.credential.refresh
  }

  function AccessOf(change: Change): string {
    if change.Renewed? then change.tokens.access else change.credential.access
  }

  function ExpiryOf(change: Change): Time {
    if change.Renewed? then change.tokens.expiresAt else change.credential.expiresAt
  }

  /** A write that brings scopes of its own; a reconnect replaces them even by none. */
  predicate BringsScopes(change: Change) {
    change.Renewed? ==> change.tokens.scopes != {}
  }

  function ScopesOf(change: Change): set<string> {
    if change.Renewed? then change.tokens.scopes else change.credential.scopes
  }

  /** The last write that brought a refresh token, and the last that brought scopes. */
  predicate LastToken(changes: seq<Change>, k: int) {
    && 0 <= k < |changes| && BringsAToken(changes[k])
    && forall j :: k < j < |changes| ==> !BringsAToken(changes[j])
  }

  predicate LastScopes(changes: seq<Change>, k: int) {
    && 0 <= k < |changes| && BringsScopes(changes[k])
    && forall j :: k < j < |changes| ==> !BringsScopes(changes[j])
  }

  lemma {:induction false} TokenIsTheLastBrought(c: Option<Credential>, changes: seq<Change>, k: int)
    requires ChangedBy(c, changes).Some?
    ensures LastToken(changes, k) ==> ChangedBy(c, changes).value.refresh == TokenOf(changes[k])
    ensures (forall change :: change in changes ==> !BringsAToken(change)) ==>
              c.Some? && ChangedBy(c, changes).value.refresh == c.value.refresh
  {
    if changes != [] {
      var n := |changes| - 1;
      assert changes[n] in changes;
      if changes[n].Renewed? && !BringsAToken(changes[n]) {
        TokenIsTheLastBrought(c, changes[..n], k);
      }
    }
  }

  lemma {:induction false} ScopesAreTheLastBrought(c: Option<Credential>, changes: seq<Change>, k: int)
    requires ChangedBy(c, changes).Some?
    ensures LastScopes(changes, k) ==> ChangedBy(c, changes).value.scopes == ScopesOf(changes[k])
    ensures (forall change :: change in changes ==> !BringsScopes(change)) ==>
              c.Some? && ChangedBy(c, changes).value.scopes == c.value.scopes
  {
    if changes != [] {
      var n := |changes| - 1;
      assert changes[n] in changes;
      if changes[n].Renewed? && !BringsScopes(changes[n]) {
        ScopesAreTheLastBrought(c, changes[..n], k);
      }
    }
  }

  /** The stored refresh token is the last one that a refresh or a reconnect brought, or the first if
      none did, and the same goes for the scopes; access token and expiry are those of the last write. */
  lemma StoredTokensAreTheLastWritten(c: Option<Credential>, changes: seq<Change>)
    requires ChangedBy(c, changes).Some?
    ensures var now := ChangedBy(c, changes).value;
            && (forall k :: LastToken(changes, k) ==> now.refresh == TokenOf(changes[k]))
            && ((forall change :: change in changes ==> !BringsAToken(change)) ==>
                  c.Some? && now.refresh == c.value.refresh)
            && (forall k :: LastScopes(changes, k) ==> now.scopes == ScopesOf(changes[k]))
            && ((forall change :: change in changes ==> !BringsScopes(change)) ==>
                  c.Some? && now.scopes == c.value.scopes)
            && (changes != [] ==>
                  now.access == AccessOf(changes[|changes| - 1]) && now.expiresAt == ExpiryOf(changes[|changes| - 1]))
  {
    TokenIsTheLastBrought(c, changes, -1);
    ScopesAreTheLastBrought(c, changes, -1);
    forall k | LastToken(changes, k) ensures ChangedBy(c, changes).value.refresh == TokenOf(changes[k]) {
      TokenIsTheLastBrought(c, changes, k);
    }
    forall k | LastScopes(changes, k) ensures ChangedBy(c, changes).value.scopes == ScopesOf(changes[k]) {
      ScopesAreTheLastBrought(c, changes, k);
    }
  }

  // --- what the lease shields -----------------------------------------------------------

  /** Action j granted the lease version to the worker. */
  predicate Granted(s: Account, actions: seq<Action>, j: nat, worker: Worker, version: nat)
    requires j < |actions|
  {
    && actions[j].Take? && actions[j].worker == worker && Effective(Run(s, actions[..j]), actions[j])
    && Run(s, actions[..j + 1]).row.lease.version == version
  }

  lemma GrantedIsAGrant(s: Account, actions: seq<Action>, j: nat, worker: Worker, version: nat)
    requires j < |actions| && Granted(s, actions, j, worker, version)
    ensures Grants(s.row, Statements(actions), j) && GrantedVersion(s.row, Statements(actions), j) == version
    ensures Statements(actions)[j].worker == worker
  {
    RowIsTheRegister(s, actions, j);
    RowIsTheRegister(s, actions, j + 1);
  }

  lemma VersionsGrow(s: Account, actions: seq<Action>, i: nat, j: nat)
    requires i <= j <= |actions|
    ensures Run(s, actions[..i]).row.lease.version <= Run(s, actions[..j]).row.lease.version
  {
    RowIsTheRegister(s, actions, i);
    RowIsTheRegister(s, actions, j);
    VersionNeverDecreases(s.row, Statements(actions), i, j);
  }

  lemma HeldFromTheGrantOn(s: Account, actions: seq<Action>, j: nat, m: nat, n: nat, worker: Worker, version: nat)
    requires j < m <= n <= |actions| && Granted(s, actions, j, worker, version)
    requires HoldsLease(Run(s, actions[..n]), worker, version)
    ensures HoldsLease(Run(s, actions[..m]), worker, version)
  {
    GrantedIsAGrant(s, actions, j, worker, version);
    RowIsTheRegister(s, actions, m);
    RowIsTheRegister(s, actions, n);
    HeldThroughout(s.row, Statements(actions), j, m, n);
  }

  /** The last credential that a reconnect stored, if any. */
  function Reconnected(actions: seq<Action>, first: Option<Credential>): Option<Credential> {
    if actions == [] then first
    else
      var last := actions[|actions| - 1];
      if last.Reconnect? then Some(last.credential) else Reconnected(actions[..|actions| - 1], first)
  }

  lemma {:induction false} ReconnectedOrBefore(actions: seq<Action>, first: Option<Credential>)
    ensures Reconnected(actions, first)
            == if Reconnected(actions, None).Some? then Reconnected(actions, None) else first
  {
    if actions != [] {
      ReconnectedOrBefore(actions[..|actions| - 1], first);
    }
  }

  /** As long as the lease is held, the account row has not changed since it was granted, and the
      credential only by reconnects. */
  lemma {:induction false} OnlyAReconnectGetsPastTheLease(s: Account, actions: seq<Action>, j: nat, m: nat, n: nat,
      worker: Worker, version: nat)
    requires j < m <= n <= |actions| && Granted(s, actions, j, worker, version)
    requires HoldsLease(Run(s, actions[..n]), worker, version)
    ensures Run(s, actions[..n]).row == Run(s, actions[..m]).row
    ensures Run(s, actions[..n]).credential == Reconnected(actions[m..n], Run(s, actions[..m]).credential)
    decreases n - m
  {
    if m < n {
      HeldFromTheGrantOn(s, actions, j, n - 1, n, worker, version);
      OnlyAReconnectGetsPastTheLease(s, actions, j, m, n - 1, worker, version);
      VersionsGrow(s, actions, j + 1, n - 1);
      assert actions[..n][..n - 1] == actions[..n - 1];
      assert actions[m..n][..n - 1 - m] == actions[m..n - 1];
    }
  }

  // --- the protocol ---------------------------------------------------------------------

  /** Where a call last read the credential. */
  function LastRead(actions: seq<Action>, worker: Worker, version: nat): (r: Option<nat>)
    ensures r.Some? ==> r.value < |actions| && actions[r.value] == Read(worker, version)
    ensures r.Some? ==> forall k :: r.value < k < |actions| ==> actions[k] != Read(worker, version)
  {
    if actions == [] then None
    else if actions[|actions| - 1] == Read(worker, version) then Some(|actions| - 1)
    else LastRead(actions[..|actions| - 1], worker, version)
  }

  /** A refresh as the method issues it: under a lease that action j granted, after a generation check
      against what its caller expected, with an answer to the refresh token it last read. */
  predicate FollowsGrant(s: Account, actions: seq<Action>, i: nat, bound: Option<nat>, j: nat)
    requires i < |actions| && actions[i].Finalize?
  {
    var r := LastRead(actions[..i], actions[i].worker, actions[i].version);
    && r.Some? && j < r.value
    && Granted(s, actions, j, actions[i].worker, actions[i].version)
    && (bound.Some? ==> Generation(Run(s, actions[..j + 1])) <= bound.value)
    && StoredRefresh(Run(s, actions[..r.value])) == Some(actions[i].sent)
  }

  /** Any refresh that takes effect at action i follows the method. */
  predicate Justified(s: Account, actions: seq<Action>, i: nat, bound: Option<nat>)
    requires i < |actions|
  {
    actions[i].Finalize? && Effective(Run(s, actions[..i]), actions[i]) ==>
      exists j :: 0 <= j < i && FollowsGrant(s, actions, i, bound, j)
  }

  /** Every refresh in the run follows the method, with no caller expecting more than the bound. */
  ghost predicate Protocol(s: Account, actions: seq<Action>, bound: Option<nat>) {
    forall i :: 0 <= i < |actions| ==> Justified(s, actions, i, bound)
  }

  /** The credential that a reconnect stored after the call's last read, if any. */
  function ReconnectedSinceRead(actions: seq<Action>, i: nat): Option<Credential>
    requires i < |actions| && actions[i].Finalize?
  {
    var r := LastRead(actions[..i], actions[i].worker, actions[i].version);
    if r.Some? then Reconnected(actions[r.value..i], None) else None
  }

  lemma EffectiveFinaliseIsCurrent(s: Account, actions: seq<Action>, i: nat, bound: Option<nat>)
    requires i < |actions| && Justified(s, actions, i, bound)
    requires actions[i].Finalize? && Effective(Run(s, actions[..i]), actions[i])
    ensures bound.Some? ==> Generation(Run(s, actions[..i])) <= bound.value
    ensures StoredRefresh(Run(s, actions[..i]))
            == if ReconnectedSinceRead(actions, i).Some? then Some(ReconnectedSinceRead(actions, i).value.refresh)
               else Some(actions[i].sent)
  {
    var w, v := actions[i].worker, actions[i].version;
    var j :| 0 <= j < i && FollowsGrant(s, actions, i, bound, j);
    var r := LastRead(actions[..i], w, v).value;
    OnlyAReconnectGetsPastTheLease(s, actions, j, j + 1, i, w, v);
    OnlyAReconnectGetsPastTheLease(s, actions, j, r, i, w, v);
    ReconnectedOrBefore(actions[r..i], Run(s, actions[..r]).credential);
  }

  /** A refresh that takes effect was bought with the refresh token that is stored at that very moment,
      however long the provider took and whoever else tried to refresh, if and only if no reconnect
      after its last read left a different one stored. */
  lemma RefreshAnswersTheStoredTokenIff(s: Account, actions: seq<Action>, i: nat, bound: Option<nat>)
    requires Protocol(s, actions, bound) && i < |actions|
    requires actions[i].Finalize? && Effective(Run(s, actions[..i]), actions[i])
    ensures var reconnected := ReconnectedSinceRead(actions, i);
            StoredRefresh(Run(s, actions[..i])) == Some(actions[i].sent)
            <==> reconnected.None? || reconnected.value.refresh == actions[i].sent
  {
    EffectiveFinaliseIsCurrent(s, actions, i, bound);
  }

  /** Callers that expect at most generation g never take it beyond g + 1, whatever expires, whoever
      takes over and whoever reconnects: however many find the same credential stale, one refresh
      happens. */
  lemma {:induction false} GuardedCallersRefreshOnce(s: Account, actions: seq<Action>, g: nat, n: nat)
    requires Protocol(s, actions, Some(g)) && n <= |actions|
    ensures Generation(Run(s, actions[..n])) <= if Generation(s) > g then Generation(s) else g + 1
  {
    if n > 0 {
      GuardedCallersRefreshOnce(s, actions, g, n - 1);
      assert actions[..n][..n - 1] == actions[..n - 1];
      if actions[n - 1].Finalize? && Effective(Run(s, actions[..n - 1]), actions[n - 1]) {
        EffectiveFinaliseIsCurrent(s, actions, n - 1, Some(g));
      }
    }
  }

  /** An unlocked account with a credential that can take another refresh. */
  predicate Ready(s: Account) {
    s.row.lease.lockedBy.None? && s.credential.Some?
  }

  lemma JustifiedStays(s: Account, actions: seq<Action>, more: seq<Action>, i: nat, bound: Option<nat>)
    requires i < |actions| && Justified(s, actions, i, bound) && actions <= more
    ensures Justified(s, more, i, bound)
  {
    assert more[..i] == actions[..i];
    if actions[i].Finalize? && Effective(Run(s, actions[..i]), actions[i]) {
      var j :| 0 <= j < i && FollowsGrant(s, actions, i, bound, j);
      var r := LastRead(actions[..i], actions[i].worker, actions[i].version);
      assert more[..j] == actions[..j] && more[..j + 1] == actions[..j + 1] && more[..r.value] == actions[..r.value];
      assert FollowsGrant(s, more, i, bound, j);
    }
  }

  lemma ProtocolExtends(s: Account, actions: seq<Action>, a: Action, bound: Option<nat>)
    requires Protocol(s, actions, bound) && Justified(s, actions + [a], |actions|, bound)
    ensures Protocol(s, actions + [a], bound)
  {
    forall i | 0 <= i < |actions| ensures Justified(s, actions + [a], i, bound) {
      JustifiedStays(s, actions, actions + [a], i, bound);
    }
  }

  /** Take the lease and read. */
  function Begun(s: Account, actions: seq<Action>): seq<Action> {
    actions + [Take(0, 0, 0)] + [Read(0, Run(s, actions).row.lease.version + 1)]
  }

  lemma CallBegins(s: Account, actions: seq<Action>, bound: Option<nat>)
    requires Protocol(s, actions, bound) && Ready(Run(s, actions))
    ensures Protocol(s, Begun(s, actions), bound)
    ensures var now := Run(s, Begun(s, actions));
            && HoldsLease(now, 0, Run(s, actions).row.lease.version + 1)
            && now.credential == Run(s, actions).credential && Generation(now) == Generation(Run(s, actions))
  {
    hide Protocol, Run, LastRead;
    var v := Run(s, actions).row.lease.version + 1;
    var taken := actions + [Take(0, 0, 0)];
    RunAppend(s, actions, Take(0, 0, 0));
    NotAFinalize(s, actions, Take(0, 0, 0), bound);
    RunAppend(s, taken, Read(0, v));
    NotAFinalize(s, taken, Read(0, v), bound);
    hide Justified;
    ProtocolExtends(s, actions, Take(0, 0, 0), bound);
    ProtocolExtends(s, taken, Read(0, v), bound);
  }

  /** The answer to what was read, after reconnects or none. */
  lemma CallEnds(s: Account, actions: seq<Action>, between: seq<Action>, tokens: Tokens, bound: Option<nat>)
    requires Ready(Run(s, actions)) && (bound.Some? ==> Generation(Run(s, actions)) <= bound.value)
    requires |between| <= 1 && (forall i :: 0 <= i < |between| ==> between[i].Reconnect?)
    requires Protocol(s, Begun(s, actions) + between, bound)
    ensures var v, sent := Run(s, actions).row.lease.version + 1, Run(s, actions).credential.value.refresh;
            var last := Finalize(0, v, sent, tokens);
            Justified(s, Begun(s, actions) + between + [last], |Begun(s, actions) + between|, bound)
  {
    var n, v, sent := |actions|, Run(s, actions).row.lease.version + 1, Run(s, actions).credential.value.refresh;
    var begun := Begun(s, actions);
    var i := |begun + between|;
    var last := Finalize(0, v, sent, tokens);
    var more := begun + between + [last];
    CallIsGranted(s, actions, more);
    assert more[..i] == begun + between;
    assert begun + between == actions + [Take(0, 0, 0)] + [Read(0, v)] + between;
    if between != [] {
      assert between == [between[0]];
      assert (begun + between)[..n + 2] == begun;
    } else {
      assert begun + between == begun;
    }
    assert LastRead(begun, 0, v) == Some(n + 1);
    assert LastRead(more[..i], 0, v) == Some(n + 1);
    assert FollowsGrant(s, more, i, bound, n);
  }

  lemma CallIsGranted(s: Account, actions: seq<Action>, more: seq<Action>)
    requires Ready(Run(s, actions)) && Begun(s, actions) <= more
    ensures Granted(s, more, |actions|, 0, Run(s, actions).row.lease.version + 1)
    ensures Run(s, more[..|actions| + 1]).credential == Run(s, actions).credential
    ensures Generation(Run(s, more[..|actions| + 1])) == Generation(Run(s, actions))
  {
    var n := |actions|;
    assert Begun(s, actions)[n] == Take(0, 0, 0);
    assert more[..n] == actions && more[..n + 1] == actions + [Take(0, 0, 0)];
    RunAppend(s, actions, Take(0, 0, 0));
  }

  /** Once through the method, undisturbed. */
  lemma OneMoreRefresh(s: Account, actions: seq<Action>, bound: Option<nat>) returns (more: seq<Action>)
    requires Protocol(s, actions, bound) && Ready(Run(s, actions))
    requires bound.Some? ==> Generation(Run(s, actions)) <= bound.value
    ensures Protocol(s, more, bound) && Ready(Run(s, more))
    ensures Generation(Run(s, more)) == Generation(Run(s, actions)) + 1
  {
    hide Protocol, Justified, Begun, Run;
    var begun, tokens := Begun(s, actions), Tokens("", "", 0, {});
    CallBegins(s, actions, bound);
    assert begun + [] == begun;
    CallEnds(s, actions, [], tokens, bound);
    var last := Finalize(0, Run(s, actions).row.lease.version + 1, Run(s, actions).credential.value.refresh, tokens);
    more := begun + [last];
    RunAppend(s, begun, last);
    ProtocolExtends(s, begun, last, bound);
  }

  /** The last action refreshes with an answer to a token that is no longer stored, and what a reconnect
      stored in its place is gone, counted by no generation. */
  ghost predicate LosesAReconnect(s: Account, actions: seq<Action>, stored: Credential) {
    && actions != []
    && var n := |actions| - 1;
       var before, now := Run(s, actions[..n]), Run(s, actions);
       && actions[n].Finalize? && Effective(before, actions[n])
       && before.credential == Some(stored) && stored.refresh != actions[n].sent
       && now.credential.Some? && now.credential.value.refresh != stored.refresh
       && CountRefreshes(Changes(s, actions)) + 1 == |Changes(s, actions)|
       && Generation(now) == Generation(s) + |Changes(s, actions)| - 1
  }

  /** A reconnect during the provider call is lost: the refresh still takes effect and overwrites it. */
  lemma AReconnectCanBeLost(s: Account, stored: Credential, tokens: Tokens)
    requires Ready(s) && stored.refresh != s.credential.value.refresh
    requires tokens.refresh != "" && tokens.refresh != stored.refresh
    ensures exists actions :: Protocol(s, actions, Some(Generation(s))) && LosesAReconnect(s, actions, stored)
  {
    var bound, begun, again := Some(Generation(s)), Begun(s, []), Reconnect(stored);
    assert Protocol(s, [], bound) && Run(s, []) == s;
    hide Protocol, Justified, Run, Changes, CountRefreshes;
    NotAFinalize(s, begun, again, bound);
    CallBegins(s, [], bound);
    RunAppend(s, begun, again);
    ProtocolExtends(s, begun, again, bound);
    CallEnds(s, [], [again], tokens, bound);
    var last := Finalize(0, s.row.lease.version + 1, s.credential.value.refresh, tokens);
    var actions := begun + [again] + [last];
    RunAppend(s, begun + [again], last);
    ProtocolExtends(s, begun + [again], last, bound);
    assert actions[..|actions| - 1] == begun + [again];
    OneOfTwoCounts(s, stored, tokens);
    assert LosesAReconnect(s, actions, stored);
  }

  lemma ChangesAppend(s: Account, actions: seq<Action>, a: Action)
    ensures Changes(s, actions + [a])
            == if a.Finalize? && Effective(Run(s, actions), a) then Changes(s, actions) + [Renewed(a.tokens)]
               else if a.Reconnect? then Changes(s, actions) + [Overwritten(a.credential)]
               else Changes(s, actions)
  {
    assert (actions + [a])[..|actions|] == actions;
  }

  lemma CountAppends(changes: seq<Change>, c: Change)
    ensures CountRefreshes(changes + [c]) == CountRefreshes(changes) + (if c.Renewed? then 1 else 0)
  {
    assert (changes + [c])[..|changes|] == changes;
  }

  lemma OneOfTwoCounts(s: Account, stored: Credential, tokens: Tokens)
    requires Ready(s)
    ensures var begun := Begun(s, []);
            var last := Finalize(0, s.row.lease.version + 1, s.credential.value.refresh, tokens);
            Changes(s, begun + [Reconnect(stored)] + [last]) == [Overwritten(stored)] + [Renewed(tokens)]
    ensures CountRefreshes([Overwritten(stored)] + [Renewed(tokens)]) == 1
  {
    hide Changes, CountRefreshes, LastRead;
    var begun := Begun(s, []);
    var last := Finalize(0, s.row.lease.version + 1, s.credential.value.refresh, tokens);
    NothingChangedYet(s);
    CallBegins(s, [], None);
    RunAppend(s, begun, Reconnect(stored));
    ChangesAppend(s, [], Take(0, 0, 0));
    ChangesAppend(s, [] + [Take(0, 0, 0)], Read(0, s.row.lease.version + 1));
    ChangesAppend(s, begun, Reconnect(stored));
    ChangesAppend(s, begun + [Reconnect(stored)], last);
    assert [] + [Overwritten(stored)] == [Overwritten(stored)];
    CountAppends([], Overwritten(stored));
    CountAppends([Overwritten(stored)], Renewed(tokens));
  }

  lemma NothingChangedYet(s: Account)
    ensures Run(s, []) == s && Changes(s, []) == [] && CountRefreshes([]) == 0
    ensures Protocol(s, [], None)
  {
  }

  lemma {:induction false} RefreshesAddUp(s: Account, bound: Option<nat>, n: nat) returns (actions: seq<Action>)
    requires Ready(s) && (bound.Some? ==> Generation(s) + n <= bound.value + 1)
    ensures Protocol(s, actions, bound) && Ready(Run(s, actions)) && Generation(Run(s, actions)) == Generation(s) + n
  {
    if n == 0 {
      actions := [];
    } else {
      actions := RefreshesAddUp(s, bound, n - 1);
      actions := OneMoreRefresh(s, actions, bound);
    }
  }

  ghost predicate NeverBeyond(s: Account, bound: Option<nat>, g: nat) {
    forall actions :: Protocol(s, actions, bound) ==> Generation(Run(s, actions)) <= g + 1
  }

  /** The single refresh is the callers' guard at work: from a generation no later than g, it holds for
      every run if and only if each caller passes an expectation, and none above g. A caller that
      passes none, as the folder sync does, may refresh again what was just refreshed. */
  lemma RefreshesOnceIffGuarded(s: Account, bound: Option<nat>, g: nat)
    requires Ready(s) && Generation(s) <= g
    ensures NeverBeyond(s, bound, g) <==> bound.Some? && bound.value <= g
  {
    if bound.Some? && bound.value <= g {
      forall actions | Protocol(s, actions, bound) ensures Generation(Run(s, actions)) <= g + 1 {
        GuardedCallersRefreshOnce(s, actions, bound.value, |actions|);
        assert actions[..|actions|] == actions;
      }
    } else {
      var actions := RefreshesAddUp(s, bound, g + 2 - Generation(s));
      assert Protocol(s, actions, bound) && Generation(Run(s, actions)) > g + 1;
    }
  }

  // --- the method -----------------------------------------------------------------------

  datatype Outcome =
    | Reused(credential: Credential)
    | Refreshed(tokens: Tokens)
    | LeaseHeld | NoCredential | Undecryptable | ProviderFailed | StaleWorker

  /** The outcome and the lease version the call was granted, if any. */
  datatype Report = Report(outcome: Outcome, version: Option<nat>)

  /** What others do before each statement of the call, the clock, and whether the stored token can be
      decrypted and what the provider says to it. */
  datatype World = World(others: nat -> seq<Action>, clock: Time, decrypts: bool, provider: string -> Option<Tokens>)

  class MailAccount {
    const row: MailAccountRow
    var credential: Option<Credential>
    const initial: Account
    const bound: Option<nat>
    var trace: seq<Action>

    constructor (credential: Option<Credential>, bound: Option<nat>)
      ensures AsRun() && trace == [] && this.bound == bound && this.credential == credential && fresh(row)
    {
      row := new MailAccountRow();
      this.credential, this.bound := credential, bound;
      initial := Account(Register(Lease(None, None, 1), AccountColumns(1)), credential);
      trace := [];
    }

    function Now(): Account
      reads this, row
    {
      Account(row.Row(), credential)
    }

    /** The account is what its callers and its user made of it, all refreshes by the method. */
    ghost predicate AsRun()
      reads this, row
    {
      Now() == Run(initial, trace) && Protocol(initial, trace, bound)
    }

    method Perform(a: Action) returns (ok: bool)
      requires AsRun() && Justified(initial, trace + [a], |trace|, bound)
      modifies this, row
      ensures AsRun() && trace == old(trace) + [a]
      ensures Now() == Step(old(Now()), a) && ok == Effective(old(Now()), a)
    {
      hide Protocol, Justified, Run;
      RunAppend(initial, trace, a);
      ProtocolExtends(initial, trace, a, bound);
      match a {
      case Take(w, now, duration) =>
        var granted := row.AcquireRefreshLease(w, now, duration);
        ok := granted.Some?;
      case Read(_, _) =>
        ok := false;
      case Reconnect(stored) =>
        ok := false;
        credential := Some(stored);
      case Finalize(w, v, _, tokens) =>
        ok := row.FinalizeRefreshLease(w, v);
        if ok && credential.Some? {
          credential := Some(Written(credential.value, tokens));
        }
      case Release(w, v) =>
        ok := row.ReleaseRefreshLease(w, v);
      }
      trace := trace + [a];
    }

    /** The user reconnects the account: the credential is replaced, or created if there was none, with no
        lease and no new generation. */
    method ConnectAccount(stored: Credential)
      requires AsRun()
      modifies this, row
      ensures AsRun() && trace == old(trace) + [Reconnect(stored)]
      ensures credential == Some(stored) && row.Row() == old(row.Row())
    {
      hide Protocol, Run;
      NotAFinalize(initial, trace, Reconnect(stored), bound);
      var _ := Perform(Reconnect(stored));
    }

    /** Other statements, reconnects among them; a call never acts under another's lease version. */
    method Others(wanted: seq<Action>, version: Option<nat>)
      requires AsRun()
      modifies this, row
      ensures AsRun() && old(trace) <= trace
      ensures version.Some? ==> forall i :: |old(trace)| <= i < |trace| ==> Foreign(trace[i], version.value)
      ensures forall i :: |old(trace)| <= i < |trace| ==> trace[i] in wanted
      ensures Generation(old(Now())) <= Generation(Now())
      ensures wanted == [] ==> Now() == old(Now())
    {
      hide Protocol, Justified, Run;
      for i := 0 to |wanted|
        invariant AsRun() && old(trace) <= trace && Generation(old(Now())) <= Generation(Now())
        invariant version.Some? ==> forall k :: |old(trace)| <= k < |trace| ==> Foreign(trace[k], version.value)
        invariant forall k :: |old(trace)| <= k < |trace| ==> trace[k] in wanted
        invariant wanted == [] ==> Now() == old(Now())
      {
        if Justified(initial, trace + [wanted[i]], |trace|, bound)
            && (version.Some? ==> Foreign(wanted[i], version.value)) {
          var _ := Perform(wanted[i]);
        }
      }
    }

    /** Give the lease back, wherever it is by now. */
    method GiveBack(worker: Worker, version: nat)
      requires AsRun()
      modifies this, row
      ensures AsRun() && trace == old(trace) + [Release(worker, version)]
      ensures !HoldsLease(Now(), worker, version) && Generation(Now()) == Generation(old(Now()))
      ensures credential == old(credential)
    {
      hide Protocol, Run;
      NotAFinalize(initial, trace, Release(worker, version), bound);
      var _ := Perform(Release(worker, version));
    }

    /** What holds while the call is under its lease: the grant, and no refresh by it so far. */
    ghost predicate UnderLease(worker: Worker, version: nat, at: nat, seen: nat)
      reads this, row
    {
      && AsRun() && at < |trace| && Granted(initial, trace, at, worker, version)
      && Generation(Run(initial, trace[..at + 1])) == seen && NoRefreshUnder(initial, trace, version)
    }

    /** Others, under the lease. */
    method Meanwhile(wanted: seq<Action>, worker: Worker, version: nat, ghost at: nat, ghost seen: nat)
      requires UnderLease(worker, version, at, seen)
      modifies this, row
      ensures UnderLease(worker, version, at, seen) && old(trace) <= trace
      ensures Generation(old(Now())) <= Generation(Now())
      ensures forall i :: |old(trace)| <= i < |trace| ==> Foreign(trace[i], version)
      ensures old(Lapsed(Now(), worker, version)) ==> Lapsed(Now(), worker, version)
      ensures forall until :: old(HoldsUntil(Now(), worker, version, until)) && Unhurried(wanted, until) ==>
                HoldsUntil(Now(), worker, version, until)
    {
      hide Protocol, Justified, Run, Granted, Lapsed, HoldsUntil;
      Others(wanted, Some(version));
      forall until | old(HoldsUntil(Now(), worker, version, until)) && Unhurried(wanted, until)
        ensures HoldsUntil(Now(), worker, version, until)
      {
        HoldsOn(initial, old(trace), trace, worker, version, until);
      }
      LeaseCarriesOver(initial, old(trace), trace, worker, version, at);
      if old(Lapsed(Now(), worker, version)) {
        LapsedStays(initial, old(trace), trace, worker, version);
      }
    }

    method Forgo(worker: Worker, version: nat, ghost at: nat, ghost seen: nat)
      requires UnderLease(worker, version, at, seen)
      modifies this, row
      ensures UnderLease(worker, version, at, seen) && old(trace) <= trace && Lapsed(Now(), worker, version)
      ensures Generation(Now()) == Generation(old(Now())) && credential == old(credential)
    {
      hide Protocol, Justified, Run;
      ghost var before := trace;
      GiveBack(worker, version);
      LeaseCarriesOver(initial, before, trace, worker, version, at);
      VersionsGrow(initial, trace, at + 1, |trace|);
      assert trace[..|trace|] == trace;
    }

    method ReadCredential(worker: Worker, version: nat, ghost at: nat, ghost seen: nat)
        returns (stored: Option<Credential>)
      requires UnderLease(worker, version, at, seen)
      modifies this, row
      ensures UnderLease(worker, version, at, seen) && old(trace) <= trace
      ensures stored == credential == old(credential) && row.Row() == old(row.Row())
      ensures stored.Some? ==> WasRead(initial, trace, worker, version, at, stored.value.refresh)
      ensures Now() == old(Now())
    {
      hide Protocol, Justified, Granted;
      ghost var before := trace;
      stored := credential;
      NotAFinalize(initial, trace, Read(worker, version), bound);
      var _ := Perform(Read(worker, version));
      assert trace[..|before|] == before;
      LeaseCarriesOver(initial, before, trace, worker, version, at);
    }

    /** The part of the call after the lease was granted. A call that found a newer generation but no
        credential has given its lease back; should a reconnect bring one just then, it goes on, and
        its refresh is refused. */
    method RefreshUnderLease(worker: Worker, version: nat, seen: nat, expected: Option<nat>, world: World,
        ghost at: nat) returns (r: Report)
      requires UnderLease(worker, version, at, seen)
      requires Generation(Now()) >= seen && (bound.Some? ==> expected.Some? && expected.value <= bound.value)
      modifies this, row
      ensures AsRun() && old(trace) <= trace && r.version == Some(version)
      ensures r.outcome.Refreshed? ==> EndsRefreshed(initial, trace, worker, version, r.outcome.tokens, world)
      ensures !r.outcome.Refreshed? ==> NoRefreshUnder(initial, trace, version)
      ensures Lapsed(Now(), worker, version) && !r.outcome.LeaseHeld?
      ensures r.outcome.Reused? ==>
                expected.Some? && Generation(Now()) > expected.value && credential == Some(r.outcome.credential)
      ensures forall until ::
                && old(HoldsUntil(Now(), worker, version, until)) && Unhurried(world.others(5), until)
                && (expected.None? || seen <= expected.value) && old(Answers(world, credential)) ==>
                  r.outcome == Refreshed(old(AnswerTo(world, credential)))
    {
      hide Protocol, Justified, Run, Granted, NoRefreshUnder, Lapsed, WasRead, Unhurried;
      if expected.Some? && seen > expected.value {
        Forgo(worker, version, at, seen);
        if credential.Some? {
          return Report(Reused(credential.value), Some(version));
        }
        Meanwhile(world.others(6), worker, version, at, seen);
      }
      var stored := ReadCredential(worker, version, at, seen);
      if stored.None? {
        Forgo(worker, version, at, seen);
        return Report(NoCredential, Some(version));
      }
      if !world.decrypts {
        Forgo(worker, version, at, seen);
        return Report(Undecryptable, Some(version));
      }
      // The provider call: no transaction is open, anything may happen.
      ghost var before := trace;
      Meanwhile(world.others(5), worker, version, at, seen);
      ReadCarriesOver(initial, before, trace, worker, version, at, stored.value.refresh);
      var answer := world.provider(stored.value.refresh);
      if answer.None? {
        Forgo(worker, version, at, seen);
        return Report(ProviderFailed, Some(version));
      }
      var ok := Complete(worker, version, stored.value.refresh, answer.value, at, seen, world);
      r := Report(if ok then Refreshed(answer.value) else StaleWorker, Some(version));
    }

    /** The compare-and-set, and the credential in the same transaction. */
    method Complete(worker: Worker, version: nat, sent: string, tokens: Tokens, ghost at: nat, ghost seen: nat,
        ghost world: World)
      returns (ok: bool)
      requires UnderLease(worker, version, at, seen) && WasRead(initial, trace, worker, version, at, sent)
      requires bound.Some? && !Lapsed(Now(), worker, version) ==> seen <= bound.value
      requires world.decrypts && world.provider(sent) == Some(tokens)
      modifies this, row
      ensures AsRun() && old(trace) <= trace && Lapsed(Now(), worker, version)
      ensures ok ==> EndsRefreshed(initial, trace, worker, version, tokens, world)
      ensures !ok ==> NoRefreshUnder(initial, trace, version)
      ensures ok <==> old(HoldsLease(Now(), worker, version))
    {
      hide Protocol, Run, Justified;
      ghost var before := trace;
      var a := Finalize(worker, version, sent, tokens);
      ReadJustifies(initial, trace, a, at, bound);
      ReadIsStillStored(initial, trace, worker, version, at, sent);
      VersionsGrowTo(initial, trace, at + 1);
      ok := Perform(a);
      assert trace[..|before|] == before;
      if !ok {
        RefusedIsNoRefresh(initial, before, a);
      }
    }

    /** The stored credential, if it is newer than expected. */
    method NewerThan(expected: Option<nat>, wanted: seq<Action>) returns (newer: Option<Credential>)
      requires AsRun()
      modifies this, row
      ensures AsRun() && old(trace) <= trace
      ensures newer.Some? ==> expected.Some? && Generation(Now()) > expected.value && credential == newer
      ensures wanted == [] ==>
                Now() == old(Now())
                && newer == if expected.Some? && row.credentialGeneration > expected.value then credential else None
    {
      hide Protocol, Justified, Run;
      if expected.Some? && row.credentialGeneration > expected.value {
        Others(wanted, None);
        return credential;
      }
      return None;
    }

    /** One call. At most one refresh takes effect under its lease, exactly if it says so; whatever the
        outcome it holds no lease afterwards; a reused credential is newer than what was expected. With a
        free lease, a credential no newer than expected and a provider that answers it does refresh, unless
        somebody's clock runs past the end of the lease meanwhile; against an unexpired lease it does not. */
    method RefreshMailAccountCredentials(worker: Worker, expected: Option<nat>, duration: int, world: World)
        returns (r: Report)
      requires AsRun() && (bound.Some? ==> expected.Some? && expected.value <= bound.value)
      modifies this, row
      ensures AsRun() && old(trace) <= trace
      ensures r.outcome.Refreshed? ==>
                r.version.Some?
                && EndsRefreshed(initial, trace, worker, r.version.value, r.outcome.tokens, world)
      ensures !r.outcome.Refreshed? && r.version.Some? ==> NoRefreshUnder(initial, trace, r.version.value)
      ensures r.version.Some? ==> !HoldsLease(Now(), worker, r.version.value)
      ensures r.outcome.LeaseHeld? ==> r.version.None?
      ensures r.outcome.Reused? ==>
                expected.Some? && Generation(Now()) > expected.value && credential == Some(r.outcome.credential)
      ensures NobodyBefore(world) ==>
                (r.version.Some? <==>
                   && !(expected.Some? && old(row.credentialGeneration) > expected.value && old(credential).Some?)
                   && (old(row.refreshLockedBy).None?
                       || (old(row.refreshLockedUntil).Some? && old(row.refreshLockedUntil).value < world.clock)))
      ensures NobodyBefore(world) && r.version.Some? && Unhurried(world.others(5), world.clock + duration)
              && (expected.None? || old(row.credentialGeneration) <= expected.value)
              && old(Answers(world, credential)) ==>
                r.outcome == Refreshed(old(AnswerTo(world, credential)))
      ensures NobodyBefore(world) && expected.Some? && old(row.credentialGeneration) > expected.value
              && old(credential).Some? ==>
                r.outcome == Reused(old(credential).value)
    {
      hide Protocol, Justified, Run, Unhurried, EndsRefreshed, NoRefreshUnder, Granted, Answers;
      Others(world.others(0), None);
      var newer := NewerThan(expected, world.others(1));
      if newer.Some? {
        return Report(Reused(newer.value), None);
      }
      Others(world.others(2), None);
      ghost var before := trace;
      var seen, version := row.credentialGeneration, row.refreshLeaseVersion + 1;
      NotAFinalize(initial, trace, Take(worker, world.clock, duration), bound);
      var granted := Perform(Take(worker, world.clock, duration));
      if !granted {
        Others(world.others(3), None);
        newer := NewerThan(expected, world.others(4));
        return Report(if newer.Some? then Reused(newer.value) else LeaseHeld, None);
      }
      GrantStartsTheLease(initial, before, Take(worker, world.clock, duration));
      r := RefreshUnderLease(worker, version, seen, expected, world, |before|);
    }
  }

  predicate NobodyBefore(world: World) {
    world.others(0) == [] && world.others(1) == [] && world.others(2) == []
  }

  /** Nobody who tries to take the lease meanwhile has a clock beyond this instant. */
  predicate Unhurried(wanted: seq<Action>, until: Time) {
    forall a :: a in wanted && a.Take? ==> a.now <= until
  }

  predicate HoldsUntil(s: Account, worker: Worker, version: nat, until: Time) {
    s.row.lease == Lease(Some(worker), Some(until), version)
  }

  /** The stored refresh token can be decrypted and the provider accepts it. */
  predicate Answers(world: World, credential: Option<Credential>) {
    credential.Some? && world.decrypts && world.provider(credential.value.refresh).Some?
  }

  function AnswerTo(world: World, credential: Option<Credential>): Tokens
    requires Answers(world, credential)
  {
    world.provider(credential.value.refresh).value
  }

  /** A lease lasts as long as its duration says, whatever others try under their own versions. */
  lemma {:induction false} HoldsOn(s: Account, actions: seq<Action>, more: seq<Action>, worker: Worker, version: nat,
      until: Time)
    requires actions <= more && HoldsUntil(Run(s, actions), worker, version, until)
    requires forall i :: |actions| <= i < |more| ==>
               Foreign(more[i], version) && (more[i].Take? ==> more[i].now <= until)
    ensures HoldsUntil(Run(s, more), worker, version, until)
    decreases |more|
  {
    if |actions| == |more| {
      assert actions == more;
    } else {
      HoldsOn(s, actions, more[..|more| - 1], worker, version, until);
    }
  }

  /** The refresh token that the call last read under its lease. */
  predicate WasRead(s: Account, actions: seq<Action>, worker: Worker, version: nat, at: nat, refresh: string) {
    var r := LastRead(actions, worker, version);
    r.Some? && at < r.value && StoredRefresh(Run(s, actions[..r.value])) == Some(refresh)
  }

  /** The lease is not the call's any more, nor will it ever be. */
  predicate Lapsed(s: Account, worker: Worker, version: nat) {
    s.row.lease.version >= version && !HoldsLease(s, worker, version)
  }

  lemma {:induction false} LapsedStays(s: Account, actions: seq<Action>, more: seq<Action>, worker: Worker,
        version: nat)
    requires actions <= more && Lapsed(Run(s, actions), worker, version)
    ensures Lapsed(Run(s, more), worker, version)
    decreases |more|
  {
    if |actions| == |more| {
      assert actions == more;
    } else {
      LapsedStays(s, actions, more[..|more| - 1], worker, version);
    }
  }

  lemma {:induction false} CredentialStays(s: Account, actions: seq<Action>, n: nat)
    requires n <= |actions| && Run(s, actions[..n]).credential.Some?
    ensures Run(s, actions).credential.Some?
    decreases |actions|
  {
    if n == |actions| {
      assert actions[..n] == actions;
    } else {
      assert actions[..|actions| - 1][..n] == actions[..n];
      CredentialStays(s, actions[..|actions| - 1], n);
    }
  }

  lemma ReadIsStillStored(s: Account, actions: seq<Action>, worker: Worker, version: nat, at: nat, refresh: string)
    requires WasRead(s, actions, worker, version, at, refresh)
    ensures Run(s, actions).credential.Some?
  {
    CredentialStays(s, actions, LastRead(actions, worker, version).value);
  }

  lemma VersionsGrowTo(s: Account, actions: seq<Action>, i: nat)
    requires i <= |actions|
    ensures Run(s, actions[..i]).row.lease.version <= Run(s, actions).row.lease.version
  {
    VersionsGrow(s, actions, i, |actions|);
    assert actions[..|actions|] == actions;
  }

  lemma NotAFinalize(s: Account, actions: seq<Action>, a: Action, bound: Option<nat>)
    requires !a.Finalize?
    ensures Justified(s, actions + [a], |actions|, bound)
  {
  }

  lemma LeaseCarriesOver(s: Account, actions: seq<Action>, more: seq<Action>, worker: Worker, version: nat, at: nat)
    requires at < |actions| && actions <= more && Granted(s, actions, at, worker, version)
                 && NoRefreshUnder(s, actions, version)
    requires forall i :: |actions| <= i < |more| ==> Foreign(more[i], version) || !more[i].Finalize?
    ensures Granted(s, more, at, worker, version) && NoRefreshUnder(s, more, version)
    ensures Run(s, more[..at + 1]) == Run(s, actions[..at + 1])
  {
    assert more[..at] == actions[..at] && more[..at + 1] == actions[..at + 1];
    forall i | 0 <= i < |more| && more[i].Finalize? && more[i].version == version
      ensures !Effective(Run(s, more[..i]), more[i])
    {
      assert i < |actions| && more[..i] == actions[..i];
    }
  }

  lemma {:induction false} ReadCarriesOver(s: Account, actions: seq<Action>, more: seq<Action>, worker: Worker,
      version: nat, at: nat, refresh: string)
    requires actions <= more && WasRead(s, actions, worker, version, at, refresh)
    requires forall i :: |actions| <= i < |more| ==> Foreign(more[i], version)
    ensures WasRead(s, more, worker, version, at, refresh)
    decreases |more|
  {
    if |actions| == |more| {
      assert actions == more;
    } else {
      var front := more[..|more| - 1];
      ReadCarriesOver(s, actions, front, worker, version, at, refresh);
      var r := LastRead(front, worker, version).value;
      assert front[..r] == more[..r];
    }
  }

  lemma ReadJustifies(s: Account, actions: seq<Action>, a: Action, at: nat, bound: Option<nat>)
    requires a.Finalize? && at < |actions| && Granted(s, actions, at, a.worker, a.version)
    requires WasRead(s, actions, a.worker, a.version, at, a.sent)
    requires bound.Some? && !Lapsed(Run(s, actions), a.worker, a.version) ==>
               Generation(Run(s, actions[..at + 1])) <= bound.value
    ensures Justified(s, actions + [a], |actions|, bound)
  {
    var more, n := actions + [a], |actions|;
    assert more[..n] == actions;
    if Effective(Run(s, actions), a) {
      var r := LastRead(actions, a.worker, a.version).value;
      assert more[..r] == actions[..r] && more[..at] == actions[..at] && more[..at + 1] == actions[..at + 1];
      assert Granted(s, more, at, a.worker, a.version);
      assert FollowsGrant(s, more, n, bound, at);
    }
  }

  lemma RefusedIsNoRefresh(s: Account, actions: seq<Action>, a: Action)
    requires a.Finalize? && NoRefreshUnder(s, actions, a.version) && !Effective(Run(s, actions), a)
    ensures NoRefreshUnder(s, actions + [a], a.version)
  {
    var more := actions + [a];
    assert more[..|actions|] == actions;
    forall i | 0 <= i < |actions| ensures more[..i] == actions[..i] {
    }
  }

  /** Before a version is granted nothing happens under it. */
  lemma NothingUnderAFutureVersion(s: Account, actions: seq<Action>, version: nat)
    requires Run(s, actions).row.lease.version < version
    ensures NoRefreshUnder(s, actions, version)
  {
    assert actions[..|actions|] == actions;
    forall i | 0 <= i < |actions| ensures Run(s, actions[..i]).row.lease.version < version {
      VersionsGrow(s, actions, i, |actions|);
    }
  }

  lemma GrantStartsTheLease(s: Account, actions: seq<Action>, a: Action)
    requires a.Take? && Effective(Run(s, actions), a)
    ensures var more, version := actions + [a], Run(s, actions).row.lease.version + 1;
            && Granted(s, more, |actions|, a.worker, version) && NoRefreshUnder(s, more, version)
            && Generation(Run(s, more[..|actions| + 1])) == Generation(Run(s, actions))
  {
    var more := actions + [a];
    assert more[..|actions|] == actions && more[..|actions| + 1] == more;
    RunAppend(s, actions, a);
    NothingUnderAFutureVersion(s, actions, Run(s, actions).row.lease.version + 1);
    forall i | 0 <= i < |actions| ensures more[..i] == actions[..i] {
    }
  }

  /** Not a statement of the call that was granted this version; versions are granted once. */
  predicate Foreign(a: Action, version: nat) {
    match a
    case Take(_, _, _) => true
    case Reconnect(_) => true
    case _ => a.version != version
  }

  predicate HoldsLease(s: Account, worker: Worker, version: nat) {
    s.row.lease.lockedBy == Some(worker) && s.row.lease.version == version
  }

  /** Column by column: the new access token with its expiry, and the refresh token and the scopes that the
      provider sent, or those stored before if it sent none. */
  ghost predicate StoresAnswer(stored: Credential, was: Credential, tokens: Tokens) {
    && stored.access == tokens.access && stored.expiresAt == tokens.expiresAt
    && stored.refresh == (if tokens.refresh == "" then was.refresh else tokens.refresh)
    && stored.scopes == (if tokens.scopes == {} then was.scopes else tokens.scopes)
  }

  /** The last action is the refresh this call announces: it took effect, with the provider's answer to
      the refresh token that the call last read; that answer is what is stored now, over whatever was
      stored then. */
  ghost predicate EndsRefreshed(s: Account, actions: seq<Action>, worker: Worker, version: nat, tokens: Tokens,
      world: World) {
    && actions != []
    && var n := |actions| - 1;
       var before, last := Run(s, actions[..n]), actions[n];
       && last.Finalize? && last.worker == worker && last.version == version && last.tokens == tokens
       && world.decrypts && world.provider(last.sent) == Some(tokens)
       && WasRead(s, actions[..n], worker, version, 0, last.sent)
       && Effective(before, last) && before.credential.Some?
       && Run(s, actions).credential.Some?
       && StoresAnswer(Run(s, actions).credential.value, before.credential.value, tokens)
       && Generation(Run(s, actions)) == Generation(before) + 1
  }

  ghost predicate NoRefreshUnder(s: Account, actions: seq<Action>, version: nat) {
    forall i :: 0 <= i < |actions| && actions[i].Finalize? && actions[i].version == version ==>
      !Effective(Run(s, actions[..i]), actions[i])
  }
}
