/** Sessions, password resets and the login lockout (internal/core/auth/service.go).  Times are
    seconds; transactions take effect as a whole or not at all. */
module Auth {
  import opened Common

  datatype User = User(failedAttempts: nat, lockedUntil: Option<int>)

  datatype RefreshToken = RefreshToken(user: string, expiresAt: int, createdAt: int, revoked: bool)

  datatype ResetToken = ResetToken(user: string, expiresAt: int, used: bool)

  type Sessions = map<string, RefreshToken>
  type Resets = map<string, ResetToken>

  datatype State = State(users: map<string, User>, sessions: Sessions, resets: Resets)

  const MAX_SESSIONS := 5
  const MAX_FAILURES := 5
  const LOCKOUT := 900
  const REFRESH_LIFE := 604_800
  const RESET_LIFE := 3_600

  // ----- sessions -------------------------------------------------------------------------

  function Active(ss: Sessions, user: string, now: int): set<string> {
    set t | t in ss && ss[t].user == user && !ss[t].revoked && ss[t].expiresAt > now
  }

  // What GetActiveRefreshTokens may return: the active tokens, oldest first.
  ghost predicate IsListing(ss: Sessions, user: string, now: int, listing: seq<string>) {
    && (forall t :: t in listing <==> t in Active(ss, user, now))
    && (forall i, j :: 0 <= i < j < |listing| ==> listing[i] != listing[j])
    && (forall i, j :: 0 <= i < j < |listing| ==>
          listing[i] in ss && listing[j] in ss && ss[listing[i]].createdAt <= ss[listing[j]].createdAt)
  }

  function Revoked(ss: Sessions, tokens: seq<string>): Sessions {
    map t | t in ss :: if t in tokens then ss[t].(revoked := true) else ss[t]
  }

  // The tokens enforceMaxSessions revokes.
  function Excess(listing: seq<string>): seq<string> {
    if |listing| >= MAX_SESSIONS then listing[..|listing| - (MAX_SESSIONS - 1)] else []
  }

  function Opened(ss: Sessions, listing: seq<string>, token: string, user: string, now: int): Sessions {
    Revoked(ss, Excess(listing))[token := RefreshToken(user, now + REFRESH_LIFE, now, false)]
  }

  // ----- the calls ------------------------------------------------------------------------

  // What one call meets: the stored record found (broken: by a lookup that failed), whether the
  // password check, the user update, the access token and the transaction work, the new random
  // token, and the active tokens as listed inside the transaction.
  datatype Env = Env(found: bool, broken: bool, passwordOk: bool, updateOk: bool, jwtOk: bool, txOk: bool,
                     minted: Option<string>, listing: seq<string>)

  datatype Call =
    | Login(user: string, now: int, env: Env)
    | Refresh(token: string, now: int, env: Env)
    | Logout(token: string, now: int, env: Env)
    | RequestReset(user: string, now: int, env: Env)
    | ConfirmReset(token: string, now: int, env: Env)

  predicate Locked(u: User, now: int) {
    u.lockedUntil.Some? && u.lockedUntil.value > now
  }

  function Failed(u: User, now: int): User {
    var n := u.failedAttempts + 1;
    User(n, if n >= MAX_FAILURES then Some(now + LOCKOUT) else u.lockedUntil)
  }

  function LoginStep(s: State, user: string, now: int, env: Env): (Status, State) {
    if !env.found || user !in s.users || Locked(s.users[user], now) then (Unauthorized, s)
    else
      var u := s.users[user];
      if !env.passwordOk then
        if env.updateOk then (Unauthorized, s.(users := s.users[user := Failed(u, now)])) else (Internal, s)
      else if (u.failedAttempts > 0 || u.lockedUntil.Some?) && !env.updateOk then (Internal, s)
      else
        var s1 := s.(users := s.users[user := User(0, None)]);
        if !env.jwtOk || env.minted.None? || !env.txOk || env.minted.value in s.sessions then (Internal, s1)
        else (Ok, s1.(sessions := Opened(s.sessions, env.listing, env.minted.value, user, now)))
  }

  function RefreshStep(s: State, token: string, now: int, env: Env): (Status, State) {
    if token !in s.sessions || s.sessions[token].revoked || now > s.sessions[token].expiresAt || !env.found then
      (Unauthorized, s)
    else if !env.jwtOk || env.minted.None? || !env.txOk || env.minted.value in s.sessions then (Internal, s)
    else
      var renewed := Opened(s.sessions, env.listing, env.minted.value, s.sessions[token].user, now);
      (Ok, s.(sessions := Revoked(renewed, [token])))
  }

  function LogoutStep(s: State, token: string, env: Env): (Status, State) {
    if token !in s.sessions then (Ok, s)
    else if !env.updateOk then (Internal, s)
    else (Ok, s.(sessions := Revoked(s.sessions, [token])))
  }

  function Spent(rs: Resets, user: string): Resets {
    map t | t in rs :: if rs[t].user == user then rs[t].(used := true) else rs[t]
  }

  function RequestResetStep(s: State, user: string, now: int, env: Env): (Status, State) {
    if !env.found then (if env.broken then Internal else Ok, s)  // Ok: a dummy token for an unknown address
    else if env.minted.None? || !env.txOk || env.minted.value in s.resets then (Internal, s)
    else (Ok, s.(resets := Spent(s.resets, user)[env.minted.value := ResetToken(user, now + RESET_LIFE, false)]))
  }

  function ConfirmResetStep(s: State, token: string, now: int, env: Env): (Status, State) {
    if token !in s.resets || s.resets[token].used || now > s.resets[token].expiresAt then (BadRequest, s)
    else if !env.txOk then (Internal, s)
    else
      var user := s.resets[token].user;
      (Ok, s.(resets := s.resets[token := s.resets[token].(used := true)],
              sessions := map t | t in s.sessions ::
                if s.sessions[t].user == user then s.sessions[t].(revoked := true) else s.sessions[t]))
  }

  function Step(s: State, call: Call): (Status, State) {
    match call
    case Login(user, now, env) => LoginStep(s, user, now, env)
    case Refresh(token, now, env) => RefreshStep(s, token, now, env)
    case Logout(token, _, env) => LogoutStep(s, token, env)
    case RequestReset(user, now, env) => RequestResetStep(s, user, now, env)
    case ConfirmReset(token, now, env) => ConfirmResetStep(s, token, now, env)
  }

  // The listing a call sees is a listing of its user's active tokens.
  ghost predicate Listed(s: State, call: Call) {
    match call
    case Login(user, now, env) => IsListing(s.sessions, user, now, env.listing)
    case Refresh(token, now, env) =>
      token in s.sessions ==> IsListing(s.sessions, s.sessions[token].user, now, env.listing)
    case _ => true
  }

  ghost function Run(s: State, calls: seq<Call>): State
    decreases |calls|
  {
    if calls == [] then s
    else Run(if Listed(s, calls[0]) then Step(s, calls[0]).1 else s, calls[1..])
  }

  ghost predicate Timed(clock: int, calls: seq<Call>) {
    && (calls != [] ==> clock <= calls[0].now)
    && forall i :: 0 < i < |calls| ==> calls[i - 1].now <= calls[i].now
  }

  // ----- at most five sessions ------------------------------------------------------------

  ghost predicate Bounded(s: State, now: int) {
    forall user :: |Active(s.sessions, user, now)| <= MAX_SESSIONS
  }

  lemma SubsetSize<T>(a: set<T>, b: set<T>)
    requires a <= b
    ensures |a| <= |b|
  {
    assert b == a + (b - a);
  }

  lemma {:induction false} DistinctSize(s: seq<string>, all: set<string>)
    requires forall i, j :: 0 <= i < j < |s| ==> s[i] != s[j]
    requires forall t :: t in all <==> t in s
    ensures |all| == |s|
  {
    if s == [] {
      assert all == {};
    } else {
      assert s == [s[0]] + s[1..];
      DistinctSize(s[1..], all - {s[0]});
    }
  }

  // What stays active is the tail of the listing.
  lemma KeptIsTail(ss: Sessions, user: string, now: int, listing: seq<string>)
    requires IsListing(ss, user, now, listing)
    ensures var kept := listing[|Excess(listing)|..];
      forall t :: t in Active(Revoked(ss, Excess(listing)), user, now) <==> t in kept
  {
    var cut := Excess(listing);
    var kept := listing[|cut|..];
    ActiveAfterRevoking(ss, cut, user, now);
    hide Active, Revoked;
    assert listing == cut + kept;
    forall t | t in kept ensures t !in cut {
      var j :| 0 <= j < |kept| && kept[j] == t;
      forall i | 0 <= i < |cut| ensures cut[i] != t {
        assert listing[i] != listing[|cut| + j];
      }
    }
  }

  lemma ActiveAfterRevoking(ss: Sessions, tokens: seq<string>, user: string, now: int)
    ensures forall t :: t in Active(Revoked(ss, tokens), user, now) <==> t in Active(ss, user, now) && t !in tokens
  {
  }

  // After the excess is revoked at most four of the user's sessions are active, and none of
  // the survivors is older than a revoked one.
  lemma EnforceLeavesFour(ss: Sessions, user: string, now: int, listing: seq<string>)
    requires IsListing(ss, user, now, listing)
    ensures |Active(Revoked(ss, Excess(listing)), user, now)| <= MAX_SESSIONS - 1
    ensures forall x, y :: x in Excess(listing) && y in Active(Revoked(ss, Excess(listing)), user, now) ==>
              x in ss && y in ss && ss[x].createdAt <= ss[y].createdAt
  {
    KeptIsTail(ss, user, now, listing);
    var n := |Excess(listing)|;
    var kept, after := listing[n..], Active(Revoked(ss, Excess(listing)), user, now);
    hide Active, Revoked;
    DistinctSize(kept, after);
    forall x, y | x in Excess(listing) && y in after ensures x in ss && y in ss && ss[x].createdAt <= ss[y].createdAt {
      var i :| 0 <= i < n && listing[i] == x;
      var j :| 0 <= j < |kept| && kept[j] == y;
      assert listing[n + j] == y;
    }
  }

  lemma RevokingShrinks(ss: Sessions, tokens: seq<string>, user: string, now: int)
    ensures Active(Revoked(ss, tokens), user, now) <= Active(ss, user, now)
  {
  }

  lemma OpenKeepsBound(ss: Sessions, listing: seq<string>, token: string, owner: string, now: int, user: string)
    requires IsListing(ss, owner, now, listing) && token !in ss
    requires |Active(ss, user, now)| <= MAX_SESSIONS
    ensures |Active(Opened(ss, listing, token, owner, now), user, now)| <= MAX_SESSIONS
  {
    var after := Active(Opened(ss, listing, token, owner, now), user, now);
    var cut := Active(Revoked(ss, Excess(listing)), user, now);
    if user == owner {
      EnforceLeavesFour(ss, user, now, listing);
      assert after <= cut + {token};
      SubsetSize(after, cut + {token});
    } else {
      RevokingShrinks(ss, Excess(listing), user, now);
      assert after <= Active(ss, user, now);
      SubsetSize(after, Active(ss, user, now));
    }
  }

  lemma StepKeepsBound(s: State, call: Call)
    requires Bounded(s, call.now) && Listed(s, call)
    ensures Bounded(Step(s, call).1, call.now)
  {
    var s' := Step(s, call).1;
    forall user ensures |Active(s'.sessions, user, call.now)| <= MAX_SESSIONS {
      assert |Active(s.sessions, user, call.now)| <= MAX_SESSIONS;
      if s'.sessions == s.sessions {
      } else if call.Login? {
        OpenKeepsBound(s.sessions, call.env.listing, call.env.minted.value, call.user, call.now, user);
      } else if call.Refresh? {
        var owner := s.sessions[call.token].user;
        OpenKeepsBound(s.sessions, call.env.listing, call.env.minted.value, owner, call.now, user);
        var renewed := Opened(s.sessions, call.env.listing, call.env.minted.value, owner, call.now);
        RevokingShrinks(renewed, [call.token], user, call.now);
        SubsetSize(Active(s'.sessions, user, call.now), Active(renewed, user, call.now));
      } else {
        assert Active(s'.sessions, user, call.now) <= Active(s.sessions, user, call.now);
        SubsetSize(Active(s'.sessions, user, call.now), Active(s.sessions, user, call.now));
      }
    }
  }

  lemma BoundedLater(s: State, t: int, u: int)
    requires Bounded(s, t) && t <= u
    ensures Bounded(s, u)
  {
    forall user ensures |Active(s.sessions, user, u)| <= MAX_SESSIONS {
      assert Active(s.sessions, user, u) <= Active(s.sessions, user, t);
      SubsetSize(Active(s.sessions, user, u), Active(s.sessions, user, t));
    }
  }

  // Over every run a user has at most five active sessions, at the end and at any later time.
  lemma {:induction false} FiveSessionsAtMost(s: State, clock: int, calls: seq<Call>)
    requires Bounded(s, clock) && Timed(clock, calls)
    ensures Bounded(Run(s, calls), if calls == [] then clock else calls[|calls| - 1].now)
    decreases |calls|
  {
    if calls != [] {
      BoundedLater(s, clock, calls[0].now);
      forall i | 0 < i < |calls[1..]| ensures calls[1..][i - 1].now <= calls[1..][i].now {
        assert calls[1..][i] == calls[i + 1] && calls[1..][i - 1] == calls[i];
      }
      if Listed(s, calls[0]) {
        StepKeepsBound(s, calls[0]);
        FiveSessionsAtMost(Step(s, calls[0]).1, calls[0].now, calls[1..]);
      } else {
        FiveSessionsAtMost(s, calls[0].now, calls[1..]);
      }
    }
  }

  // ----- the life of a session ------------------------------------------------------------

  // A token is active for its user until its end, and for nobody else.
  ghost predicate LivesFor(ss: Sessions, token: string, user: string, end: int) {
    forall u, t :: token in Active(ss, u, t) <==> u == user && t < end
  }

  ghost predicate SameFor(before: Sessions, after: Sessions, user: string) {
    forall t :: Active(after, user, t) == Active(before, user, t)
  }

  // A new session joins the user's others, of which the oldest beyond four go.
  ghost predicate Joins(before: Sessions, after: Sessions, token: string, user: string, now: int) {
    var was, left := Active(before, user, now), Active(after, user, now);
    && LivesFor(after, token, user, now + REFRESH_LIFE)
    && (forall u :: u != user ==> SameFor(before, after, u))
    && left - {token} <= was && |left| == 1 + (if |was| < MAX_SESSIONS then |was| else MAX_SESSIONS - 1)
    && forall x, y :: x in was - left && y in left - {token} ==> before[x].createdAt <= before[y].createdAt
  }

  lemma OpenedJoins(ss: Sessions, listing: seq<string>, token: string, user: string, now: int)
    requires IsListing(ss, user, now, listing) && token !in ss
    ensures Joins(ss, Opened(ss, listing, token, user, now), token, user, now)
  {
    var after := Opened(ss, listing, token, user, now);
    var was, left := Active(ss, user, now), Active(after, user, now);
    var cut := Active(Revoked(ss, Excess(listing)), user, now);
    OpenedOthers(ss, listing, token, user, now);
    OpenedActive(ss, listing, token, user, now);
    CutSize(ss, user, now, listing);
    ActiveAfterRevoking(ss, Excess(listing), user, now);
    EnforceLeavesFour(ss, user, now, listing);
    hide Active, Revoked, Opened, LivesFor, SameFor, IsListing, Excess;
    assert left - {token} == cut;
  }

  lemma CutSize(ss: Sessions, user: string, now: int, listing: seq<string>)
    requires IsListing(ss, user, now, listing)
    ensures var was := |Active(ss, user, now)|;
      |Active(Revoked(ss, Excess(listing)), user, now)| == if was < MAX_SESSIONS then was else MAX_SESSIONS - 1
  {
    KeptIsTail(ss, user, now, listing);
    var kept := listing[|Excess(listing)|..];
    DistinctSize(listing, Active(ss, user, now));
    DistinctSize(kept, Active(Revoked(ss, Excess(listing)), user, now));
    hide Active, Revoked, IsListing;
  }

  lemma OpenedActive(ss: Sessions, listing: seq<string>, token: string, user: string, now: int)
    requires token !in ss
    ensures var cut := Active(Revoked(ss, Excess(listing)), user, now);
      && token !in cut && token !in Active(ss, user, now)
      && Active(Opened(ss, listing, token, user, now), user, now) == cut + {token}
  {
  }

  lemma OpenedOthers(ss: Sessions, listing: seq<string>, token: string, user: string, now: int)
    requires IsListing(ss, user, now, listing) && token !in ss
    ensures var after := Opened(ss, listing, token, user, now);
      && LivesFor(after, token, user, now + REFRESH_LIFE)
      && forall u :: u != user ==> SameFor(ss, after, u)
  {
    var after := Opened(ss, listing, token, user, now);
    forall u, t | u != user ensures Active(after, u, t) == Active(ss, u, t) {
      forall x | x in ss && ss[x].user == u ensures after[x] == ss[x] {
        assert x in listing ==> x in Active(ss, user, now);
      }
    }
  }

  // Exactly when a login succeeds, and what it leaves: a session of a week and an account in
  // good standing.  No other answer opens or ends a session.
  lemma LoginIff(s: State, call: Call)
    requires call.Login? && Listed(s, call)
    ensures var (status, s') := Step(s, call);
      var user, now, env := call.user, call.now, call.env;
      var open := env.found && user in s.users && !Locked(s.users[user], now);
      && (status == Ok <==>
            (open && env.passwordOk && env.jwtOk && env.txOk && env.minted.Some? && env.minted.value !in s.sessions
             && (s.users[user].failedAttempts > 0 || s.users[user].lockedUntil.Some? ==> env.updateOk)))
      && (if status == Ok then Joins(s.sessions, s'.sessions, env.minted.value, user, now)
          else s'.sessions == s.sessions)
      && (forall u :: u != user ==> (u in s'.users <==> u in s.users) && (u in s.users ==> s'.users[u] == s.users[u]))
      && (status == Ok || (open && env.passwordOk && env.updateOk) ==>
            user in s'.users && s'.users[user] == User(0, None))
  {
    if Step(s, call).0 == Ok {
      OpenedJoins(s.sessions, call.env.listing, call.env.minted.value, call.user, call.now);
    }
    hide Joins, Opened;
  }

  // Exactly when a refresh succeeds, and what it leaves: the presented token is dead for good,
  // its user has a new one for a week.
  lemma RefreshIff(s: State, call: Call)
    requires call.Refresh? && Listed(s, call)
    ensures var (status, s') := Step(s, call);
      var used, now, env := call.token, call.now, call.env;
      && (status == Ok <==>
            (used in s.sessions && !s.sessions[used].revoked && now <= s.sessions[used].expiresAt
             && env.found && env.jwtOk && env.txOk && env.minted.Some? && env.minted.value !in s.sessions))
      && (status != Ok ==> s'.sessions == s.sessions)
      && (status == Ok ==>
            var user, renewed := s.sessions[used].user, env.minted.value;
            && LivesFor(s'.sessions, renewed, user, now + REFRESH_LIFE)
            && (forall u, t :: used !in Active(s'.sessions, u, t))
            && (forall u :: u != user ==> SameFor(s.sessions, s'.sessions, u))
            && exists joined :: Joins(s.sessions, joined, renewed, user, now)
                 && Active(s'.sessions, user, now) == Active(joined, user, now) - {used})
  {
    if Step(s, call).0 == Ok {
      var user := s.sessions[call.token].user;
      var joined := Opened(s.sessions, call.env.listing, call.env.minted.value, user, call.now);
      OpenedJoins(s.sessions, call.env.listing, call.env.minted.value, user, call.now);
      RevokedOne(joined, call.token, call.env.minted.value, user, call.now + REFRESH_LIFE);
      RevokedOthers(s.sessions, joined, call.token, user);
      assert Step(s, call).1.sessions == Revoked(joined, [call.token]);
      hide Opened, Revoked, Active;
    }
  }

  lemma RevokedOne(ss: Sessions, token: string, other: string, user: string, end: int)
    requires token in ss && other != token && LivesFor(ss, other, user, end)
    ensures var ss' := Revoked(ss, [token]);
      && LivesFor(ss', other, user, end)
      && (forall u, t :: Active(ss', u, t) == Active(ss, u, t) - {token})
  {
    forall u, t ensures Active(Revoked(ss, [token]), u, t) == Active(ss, u, t) - {token} {
      ActiveAfterRevoking(ss, [token], u, t);
    }
  }

  lemma RevokedOthers(before: Sessions, ss: Sessions, token: string, user: string)
    requires token in ss && ss[token].user == user && forall u :: u != user ==> SameFor(before, ss, u)
    ensures forall u :: u != user ==> SameFor(before, Revoked(ss, [token]), u)
  {
    forall u, t | u != user ensures Active(Revoked(ss, [token]), u, t) == Active(before, u, t) {
      assert SameFor(before, ss, u);
      ActiveAfterRevoking(ss, [token], u, t);
    }
  }

  // A logout ends exactly the presented session, and only a failed write keeps it.
  lemma LogoutIff(s: State, call: Call)
    requires call.Logout?
    ensures var (status, s') := Step(s, call);
      && (status == Ok <==> (call.token in s.sessions ==> call.env.updateOk))
      && forall u, t :: Active(s'.sessions, u, t) ==
           Active(s.sessions, u, t) - if status == Ok then {call.token} else {}
  {
    forall u, t ensures Active(Revoked(s.sessions, [call.token]), u, t) == Active(s.sessions, u, t) - {call.token} {
      ActiveAfterRevoking(s.sessions, [call.token], u, t);
    }
  }

  // ----- rotation -------------------------------------------------------------------------

  // Successful rotations of a token along a run.
  ghost function Rotations(s: State, calls: seq<Call>, token: string): nat
    decreases |calls|
  {
    if calls == [] then 0
    else if !Listed(s, calls[0]) then Rotations(s, calls[1..], token)
    else
      var (status, s') := Step(s, calls[0]);
      (if calls[0].Refresh? && calls[0].token == token && status == Ok then 1 else 0) + Rotations(s', calls[1..], token)
  }

  lemma {:induction false} RevokedIsFinal(s: State, calls: seq<Call>, token: string)
    requires token in s.sessions && s.sessions[token].revoked
    ensures Rotations(s, calls, token) == 0
    decreases |calls|
  {
    if calls != [] {
      if Listed(s, calls[0]) {
        var s' := Step(s, calls[0]).1;
        assert token in s'.sessions && s'.sessions[token].revoked;
        RevokedIsFinal(s', calls[1..], token);
      } else {
        RevokedIsFinal(s, calls[1..], token);
      }
    }
  }

  // Over every run a refresh token is rotated successfully at most once.
  lemma {:induction false} RotatedAtMostOnce(s: State, calls: seq<Call>, token: string)
    ensures Rotations(s, calls, token) <= 1
    decreases |calls|
  {
    if calls != [] {
      if Listed(s, calls[0]) {
        var (status, s') := Step(s, calls[0]);
        if calls[0].Refresh? && calls[0].token == token && status == Ok {
          RevokedIsFinal(s', calls[1..], token);
        } else {
          RotatedAtMostOnce(s', calls[1..], token);
        }
      } else {
        RotatedAtMostOnce(s, calls[1..], token);
      }
    }
  }

  // ----- password resets ------------------------------------------------------------------

  ghost predicate OneReset(s: State) {
    forall t, u :: (t in s.resets && u in s.resets && !s.resets[t].used && !s.resets[u].used
      && s.resets[t].user == s.resets[u].user) ==> t == u
  }

  // Over every run a user has at most one unused reset token.
  lemma {:induction false} OneUnusedReset(s: State, calls: seq<Call>)
    requires OneReset(s)
    ensures OneReset(Run(s, calls))
    decreases |calls|
  {
    if calls != [] {
      var next := if Listed(s, calls[0]) then Step(s, calls[0]).1 else s;
      StepKeepsOneReset(s, calls[0]);
      hide OneReset, Step, Listed;
      OneUnusedReset(next, calls[1..]);
    }
  }

  lemma StepKeepsOneReset(s: State, call: Call)
    requires OneReset(s)
    ensures OneReset(Step(s, call).1)
  {
    hide Revoked, Opened, Failed, Locked;
  }

  // A confirmed reset uses up its token and leaves its user without any active session.
  lemma ConfirmedResetEndsSessions(s: State, call: Call, now: int)
    requires call.ConfirmReset? && Step(s, call).0 == Ok
    ensures var s' := Step(s, call).1;
      && s'.resets[call.token].used
      && Active(s'.sessions, s.resets[call.token].user, now) == {}
      && forall user :: user != s.resets[call.token].user ==>
           Active(s'.sessions, user, now) == Active(s.sessions, user, now)
  {
  }

  // The reset tokens with which a user's password can be changed.
  function Usable(s: State, user: string, now: int): set<string> {
    set t | t in s.resets && s.resets[t].user == user && !s.resets[t].used && now <= s.resets[t].expiresAt
  }

  // A request leaves its user exactly the new token, for an hour; what was there stays with
  // everyone else, and with everyone if the request did not get that far.
  lemma RequestLeavesOne(s: State, call: Call)
    requires call.RequestReset?
    ensures var (status, s') := Step(s, call);
      var stored := call.env.found && call.env.minted.Some? && call.env.txOk && call.env.minted.value !in s.resets;
      && (status == Ok <==> stored || (!call.env.found && !call.env.broken))
      && forall user, t :: Usable(s', user, t) ==
           if !stored || user != call.user then Usable(s, user, t)
           else if t <= call.now + RESET_LIFE then {call.env.minted.value} else {}
  {
  }

  // A confirmation works exactly with a usable token, which it uses up.
  lemma ConfirmIff(s: State, call: Call)
    requires call.ConfirmReset?
    ensures var (status, s') := Step(s, call);
      && (status == Ok <==> call.env.txOk && exists user :: call.token in Usable(s, user, call.now))
      && forall user, t :: Usable(s', user, t) == Usable(s, user, t) - if status == Ok then {call.token} else {}
  {
    var (status, s') := Step(s, call);
    if call.token in s.resets {
      var user := s.resets[call.token].user;
      assert status == Ok ==> call.token in Usable(s, user, call.now);
    }
  }

  ghost function Confirmations(s: State, calls: seq<Call>, token: string): nat
    decreases |calls|
  {
    if calls == [] then 0
    else if !Listed(s, calls[0]) then Confirmations(s, calls[1..], token)
    else
      var (status, s') := Step(s, calls[0]);
      (if calls[0].ConfirmReset? && calls[0].token == token && status == Ok then 1 else 0)
      + Confirmations(s', calls[1..], token)
  }

  lemma {:induction false} UsedIsFinal(s: State, calls: seq<Call>, token: string)
    requires token in s.resets && s.resets[token].used
    ensures Confirmations(s, calls, token) == 0
    decreases |calls|
  {
    if calls != [] {
      var next := if Listed(s, calls[0]) then Step(s, calls[0]).1 else s;
      assert token in next.resets && next.resets[token].used;
      UsedIsFinal(next, calls[1..], token);
    }
  }

  // Over every run a reset token changes a password at most once.
  lemma {:induction false} ConfirmedAtMostOnce(s: State, calls: seq<Call>, token: string)
    ensures Confirmations(s, calls, token) <= 1
    decreases |calls|
  {
    if calls != [] {
      var (status, s') := Step(s, calls[0]);
      if Listed(s, calls[0]) && calls[0].ConfirmReset? && calls[0].token == token && status == Ok {
        UsedIsFinal(s', calls[1..], token);
      } else {
        ConfirmedAtMostOnce(if Listed(s, calls[0]) then s' else s, calls[1..], token);
      }
    }
  }

  // ----- lockout --------------------------------------------------------------------------

  // One password attempt on an account: when, whether the password is right, and whether the
  // user record can be written.
  datatype Attempt = Attempt(now: int, correct: bool, saved: bool)

  function Attempted(u: User, a: Attempt): User {
    if Locked(u, a.now) || !a.saved then u
    else if a.correct then User(0, None)
    else Failed(u, a.now)
  }

  // Password checks that fail: the password is compared, which a locked account is spared.
  function FailedChecks(u: User, attempts: seq<Attempt>): nat
    decreases |attempts|
  {
    if attempts == [] then 0
    else (if !Locked(u, attempts[0].now) && !attempts[0].correct then 1 else 0)
         + FailedChecks(Attempted(u, attempts[0]), attempts[1..])
  }

  // ... and those of them whose outcome could not be stored.
  function UnsavedChecks(u: User, attempts: seq<Attempt>): nat
    decreases |attempts|
  {
    if attempts == [] then 0
    else (if !Locked(u, attempts[0].now) && !attempts[0].correct && !attempts[0].saved then 1 else 0)
         + UnsavedChecks(Attempted(u, attempts[0]), attempts[1..])
  }

  ghost predicate Consistent(u: User) {
    u.failedAttempts >= MAX_FAILURES <==> u.lockedUntil.Some?
  }

  // Failed checks an account still allows from time t to time end.
  function Allowance(u: User, t: int, end: int): int {
    if u.failedAttempts < MAX_FAILURES then MAX_FAILURES - u.failedAttempts + (end - t) / LOCKOUT
    else
      var open := if u.lockedUntil.Some? && u.lockedUntil.value > t then u.lockedUntil.value else t;
      if end < open then 0 else 1 + (end - open) / LOCKOUT
  }

  lemma DivMonotone(a: int, b: int)
    requires a <= b
    ensures a / LOCKOUT <= b / LOCKOUT
  {
  }

  lemma AttemptUsesAllowance(u: User, a: Attempt, end: int)
    requires Consistent(u) && !a.correct && a.now <= end
    ensures Consistent(Attempted(u, a))
    ensures (if !Locked(u, a.now) && a.saved then 1 else 0) + Allowance(Attempted(u, a), a.now, end)
      <= Allowance(u, a.now, end)
  {
  }

  lemma AllowanceShrinks(u: User, t: int, t': int, end: int)
    requires t <= t' <= end
    ensures Allowance(u, t', end) <= Allowance(u, t, end)
  {
    DivMonotone(end - t', end - t);
    if u.lockedUntil.Some? {
      var waiting := if t' < u.lockedUntil.value then u.lockedUntil.value - t' else 0;
      DivMonotone(end - t', end - u.lockedUntil.value + waiting);
    }
  }

  ghost predicate InWindow(start: int, end: int, attempts: seq<Attempt>) {
    && (forall i :: 0 <= i < |attempts| ==> start <= attempts[i].now <= end && !attempts[i].correct)
    && forall i :: 0 < i < |attempts| ==> attempts[i - 1].now <= attempts[i].now
  }

  lemma {:induction false} ChecksWithinAllowance(u: User, start: int, end: int, attempts: seq<Attempt>)
    requires Consistent(u) && InWindow(start, end, attempts) && start <= end
    ensures FailedChecks(u, attempts) <= Allowance(u, start, end) + UnsavedChecks(u, attempts)
    decreases |attempts|
  {
    if attempts != [] {
      var a, rest := attempts[0], attempts[1..];
      AllowanceShrinks(u, start, a.now, end);
      AttemptUsesAllowance(u, a, end);
      forall i | 0 < i < |rest| ensures rest[i - 1].now <= rest[i].now {
        assert rest[i - 1] == attempts[i] && rest[i] == attempts[i + 1];
      }
      NotBefore(start, end, attempts);
      ChecksWithinAllowance(Attempted(u, a), a.now, end, rest);
    }
  }

  lemma {:induction false} NotBefore(start: int, end: int, attempts: seq<Attempt>)
    requires InWindow(start, end, attempts) && attempts != []
    ensures InWindow(attempts[0].now, end, attempts[1..])
  {
    forall i | 0 <= i < |attempts| ensures attempts[0].now <= attempts[i].now {
      var k := 0;
      while k < i
        invariant 0 <= k <= i && attempts[0].now <= attempts[k].now
      {
        k := k + 1;
      }
    }
    var rest := attempts[1..];
    assert forall i :: 0 <= i < |rest| ==> rest[i] == attempts[i + 1];
    forall i | 0 < i < |rest| ensures rest[i - 1].now <= rest[i].now {
      assert attempts[i].now <= attempts[i + 1].now;
    }
  }

  // In any window without a correct password, failed checks number at most five plus one for
  // every fifteen minutes, plus those whose outcome could not be stored.
  lemma GuessesAreBounded(u: User, start: int, end: int, attempts: seq<Attempt>)
    requires Consistent(u) && InWindow(start, end, attempts) && start <= end
    ensures FailedChecks(u, attempts) <= MAX_FAILURES + (end - start) / LOCKOUT + UnsavedChecks(u, attempts)
  {
    ChecksWithinAllowance(u, start, end, attempts);
    if u.failedAttempts >= MAX_FAILURES && u.lockedUntil.Some? && u.lockedUntil.value > start {
      DivMonotone(end - u.lockedUntil.value, end - start);
    }
  }

  // An account lets that many checks through: failing whenever it is open uses its allowance
  // up, and checks that cannot be stored come on top.
  lemma {:induction false} AllowanceIsReached(u: User, start: int, end: int, unsaved: nat)
    returns (attempts: seq<Attempt>)
    requires Consistent(u) && start <= end && (unsaved > 0 ==> !Locked(u, end))
    ensures InWindow(start, end, attempts) && UnsavedChecks(u, attempts) == unsaved
    ensures Allowance(u, start, end) >= 0
    ensures FailedChecks(u, attempts) == Allowance(u, start, end) + unsaved
    decreases unsaved, Allowance(u, start, end)
  {
    var open := if Locked(u, start) then u.lockedUntil.value else start;
    if open > end {
      return [];
    }
    var a := Attempt(open, false, unsaved == 0);
    AllowanceSpent(u, start, a, end);
    var rest;
    if unsaved > 0 {
      rest := AllowanceIsReached(u, open, end, unsaved - 1);
    } else {
      rest := AllowanceIsReached(Attempted(u, a), open, end, 0);
    }
    attempts := [a] + rest;
    assert attempts[1..] == rest;
    InWindowCons(start, end, a, rest);
  }

  lemma AllowanceSpent(u: User, start: int, a: Attempt, end: int)
    requires Consistent(u) && !a.correct && start <= a.now <= end
    requires a.now == if Locked(u, start) then u.lockedUntil.value else start
    ensures !Locked(u, a.now) && Allowance(u, a.now, end) == Allowance(u, start, end) > 0
    ensures a.saved ==> Allowance(Attempted(u, a), a.now, end) == Allowance(u, start, end) - 1
    ensures Consistent(Attempted(u, a))
  {
  }

  lemma InWindowCons(start: int, end: int, a: Attempt, rest: seq<Attempt>)
    requires start <= a.now <= end && !a.correct && InWindow(a.now, end, rest)
    ensures InWindow(start, end, [a] + rest)
  {
    var all := [a] + rest;
    forall i | 0 < i < |all| ensures all[i - 1].now <= all[i].now {
      if i > 1 {
        assert rest[i - 2].now <= rest[i - 1].now;
      }
    }
  }

  // So the bound is exact: on an account in good standing some window of that length meets it,
  // with any number of unsaved checks.
  lemma BoundIsReached(start: int, end: int, unsaved: nat) returns (attempts: seq<Attempt>)
    requires start <= end
    ensures InWindow(start, end, attempts) && UnsavedChecks(User(0, None), attempts) == unsaved
    ensures FailedChecks(User(0, None), attempts) == MAX_FAILURES + (end - start) / LOCKOUT + unsaved
  {
    attempts := AllowanceIsReached(User(0, None), start, end, unsaved);
  }

  // The attempts on one account among the calls of a run.
  ghost function AttemptsOn(s: State, calls: seq<Call>, user: string): seq<Attempt>
    decreases |calls|
  {
    if calls == [] then []
    else if !Listed(s, calls[0]) then AttemptsOn(s, calls[1..], user)
    else
      var c := calls[0];
      (if c.Login? && c.user == user && c.env.found then [Attempt(c.now, c.env.passwordOk, c.env.updateOk)] else [])
      + AttemptsOn(Step(s, c).1, calls[1..], user)
  }

  function AttemptedAll(u: User, attempts: seq<Attempt>): User
    decreases |attempts|
  {
    if attempts == [] then u else AttemptedAll(Attempted(u, attempts[0]), attempts[1..])
  }

  // An account goes through its attempts and nothing else, and stays consistent: so the bound
  // holds from every state the service can reach.
  lemma {:induction false} AccountFollowsAttempts(s: State, calls: seq<Call>, user: string)
    requires user in s.users && Consistent(s.users[user])
    ensures var s' := Run(s, calls);
      && user in s'.users && Consistent(s'.users[user])
      && s'.users[user] == AttemptedAll(s.users[user], AttemptsOn(s, calls, user))
    decreases |calls|
  {
    if calls != [] {
      if Listed(s, calls[0]) {
        var s' := Step(s, calls[0]).1;
        AccountFollowsAttempts(s', calls[1..], user);
        var c := calls[0];
        if c.Login? && c.user == user && c.env.found {
          var a := Attempt(c.now, c.env.passwordOk, c.env.updateOk);
          assert s'.users[user] == Attempted(s.users[user], a);
          assert AttemptsOn(s, calls, user)[1..] == AttemptsOn(s', calls[1..], user);
        } else {
          assert AttemptsOn(s, calls, user) == AttemptsOn(s', calls[1..], user);
          assert s'.users[user] == s.users[user];
        }
      } else {
        AccountFollowsAttempts(s, calls[1..], user);
      }
    }
  }

  // Whatever a run has done to an account before a window without a correct password begins.
  lemma LockoutHolds(s: State, before: seq<Call>, window: seq<Call>, user: string, start: int, end: int)
    requires user in s.users && Consistent(s.users[user]) && start <= end
    requires InWindow(start, end, AttemptsOn(Run(s, before), window, user))
    ensures var s1 := Run(s, before);
      && user in s1.users
      && FailedChecks(s1.users[user], AttemptsOn(s1, window, user))
         <= MAX_FAILURES + (end - start) / LOCKOUT + UnsavedChecks(s1.users[user], AttemptsOn(s1, window, user))
  {
    AccountFollowsAttempts(s, before, user);
    var s1 := Run(s, before);
    GuessesAreBounded(s1.users[user], start, end, AttemptsOn(s1, window, user));
  }

  // ----- the service object ---------------------------------------------------------------

  class AuthService {
    var users: map<string, User>
    var sessions: Sessions
    var resets: Resets

    ghost function View(): State
      reads this
    {
      State(users, sessions, resets)
    }

    constructor (users: map<string, User>)
      ensures View() == State(users, map[], map[])
    {
      this.users := users;
      sessions, resets := map[], map[];
    }

    // RevokeRefreshToken finds revoked tokens too, so revoking twice is no error.
    method RevokeRefreshToken(token: string)
      modifies this`sessions
      ensures sessions == Revoked(old(sessions), [token])
    {
      if token in sessions {
        sessions := sessions[token := sessions[token].(revoked := true)];
      }
    }

    method EnforceMaxSessions(listing: seq<string>)
      modifies this`sessions
      ensures sessions == Revoked(old(sessions), Excess(listing))
    {
      if |listing| >= MAX_SESSIONS {
        var excessCount := |listing| - (MAX_SESSIONS - 1);
        for i := 0 to excessCount
          invariant sessions == Revoked(old(sessions), listing[..i])
        {
          assert listing[..i + 1] == listing[..i] + [listing[i]];
          RevokeRefreshToken(listing[i]);
        }
      }
    }

    method Login(user: string, now: int, env: Env) returns (status: Status)
      requires Listed(View(), Call.Login(user, now, env))
      modifies this
      ensures (status, View()) == Step(old(View()), Call.Login(user, now, env))
      ensures Bounded(old(View()), now) ==> Bounded(View(), now)
    {
      if Bounded(View(), now) {
        StepKeepsBound(View(), Call.Login(user, now, env));
      }
      hide Bounded, Listed;
      if !env.found || user !in users {
        return Unauthorized;
      }
      var u := users[user];
      if u.lockedUntil.Some? && u.lockedUntil.value > now {
        return Unauthorized;
      }
      if !env.passwordOk {
        u := u.(failedAttempts := u.failedAttempts + 1);
        if u.failedAttempts >= MAX_FAILURES {
          u := u.(lockedUntil := Some(now + LOCKOUT));
        }
        if !env.updateOk {
          return Internal;
        }
        users := users[user := u];
        return Unauthorized;
      }
      if u.failedAttempts > 0 || u.lockedUntil.Some? {
        if !env.updateOk {
          return Internal;
        }
        users := users[user := User(0, None)];
      }
      assert users == old(users)[user := User(0, None)];
      if !env.jwtOk || env.minted.None? {
        return Internal;
      }
      if !env.txOk || env.minted.value in sessions {
        return Internal;
      }
      EnforceMaxSessions(env.listing);
      sessions := sessions[env.minted.value := RefreshToken(user, now + REFRESH_LIFE, now, false)];
      return Ok;
    }

    method RefreshSession(token: string, now: int, env: Env) returns (status: Status)
      requires Listed(View(), Call.Refresh(token, now, env))
      modifies this
      ensures (status, View()) == Step(old(View()), Call.Refresh(token, now, env))
      ensures Bounded(old(View()), now) ==> Bounded(View(), now)
      ensures status == Ok ==> token in sessions && sessions[token].revoked
    {
      if Bounded(View(), now) {
        StepKeepsBound(View(), Call.Refresh(token, now, env));
      }
      hide Bounded, Listed;
      if token !in sessions || sessions[token].revoked || now > sessions[token].expiresAt {
        return Unauthorized;
      }
      if !env.found {
        return Unauthorized;
      }
      if !env.jwtOk || env.minted.None? {
        return Internal;
      }
      if !env.txOk || env.minted.value in sessions {
        return Internal;
      }
      var user := sessions[token].user;
      EnforceMaxSessions(env.listing);
      sessions := sessions[env.minted.value := RefreshToken(user, now + REFRESH_LIFE, now, false)];
      RevokeRefreshToken(token);
      return Ok;
    }

    method Logout(token: string, now: int, env: Env) returns (status: Status)
      modifies this
      ensures (status, View()) == Step(old(View()), Call.Logout(token, now, env))
    {
      if token !in sessions {
        return Ok;
      }
      if !env.updateOk {
        return Internal;
      }
      RevokeRefreshToken(token);
      return Ok;
    }

    method RequestPasswordReset(user: string, now: int, env: Env) returns (status: Status)
      requires OneReset(View())
      modifies this
      ensures (status, View()) == Step(old(View()), Call.RequestReset(user, now, env))
      ensures OneReset(View())
    {
      if !env.found {
        return if env.broken then Internal else Ok;
      }
      if env.minted.None? || !env.txOk || env.minted.value in resets {
        return Internal;
      }
      resets := Spent(resets, user);
      resets := resets[env.minted.value := ResetToken(user, now + RESET_LIFE, false)];
      return Ok;
    }

    method ConfirmPasswordReset(token: string, now: int, env: Env) returns (status: Status)
      modifies this
      ensures (status, View()) == Step(old(View()), Call.ConfirmReset(token, now, env))
      ensures status == Ok ==> Active(sessions, old(resets)[token].user, now) == {}
    {
      if token !in resets || resets[token].used || now > resets[token].expiresAt {
        return BadRequest;
      }
      if !env.txOk {
        return Internal;
      }
      var user := resets[token].user;
      resets := resets[token := resets[token].(used := true)];
      sessions := map t | t in sessions ::
        if sessions[t].user == user then sessions[t].(revoked := true) else sessions[t];
      return Ok;
    }
  }
}
