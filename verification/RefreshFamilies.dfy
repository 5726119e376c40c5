/**
  Refresh-token families: a login opens a family, each rotation replaces its one live token, and the
  reuse of any other token closes the family for good.
*/
module RefreshFamilies {
  import opened Results

  /** A stored token; its id is its index, standing for the hash of a fresh random token. */
  datatype Token = Token(user: nat, family: nat, expiresAt: int, rotated: bool, revoked: bool)

  /** Families are numbered as they are opened. */
  datatype State = State(tokens: seq<Token>, families: nat)

  datatype AuthError = InvalidCredentials | RefreshInvalid | RefreshReused | RefreshExpired

  predicate Live(t: Token) { !t.rotated && !t.revoked }

  function RevokeWhere(tokens: seq<Token>, p: Token -> bool): (r: seq<Token>)
    ensures |r| == |tokens|
    ensures forall i :: 0 <= i < |tokens| ==> r[i] == if p(tokens[i]) then tokens[i].(revoked := true) else tokens[i]
  {
    seq(|tokens|, i requires 0 <= i < |tokens| => if p(tokens[i]) then tokens[i].(revoked := true) else tokens[i])
  }

  function RevokeFamily(tokens: seq<Token>, user: nat, family: nat): seq<Token> {
    RevokeWhere(tokens, (t: Token) => t.user == user && t.family == family)
  }

  function RevokeFamilyOfAny(tokens: seq<Token>, family: nat): seq<Token> {
    RevokeWhere(tokens, (t: Token) => t.family == family)
  }

  function LoggedIn(s: State, user: nat, expiresAt: int): State {
    State(s.tokens + [Token(user, s.families, expiresAt, false, false)], s.families + 1)
  }

  /** `rotate_refresh`. The reuse branch commits its revocation; the other failures leave the rows alone,
      a rotation that finds the user inactive being rolled back. */
  function Rotated(s: State, token: nat, now: int, userActive: bool, expiresAt: int): (State, Result<nat, AuthError>) {
    if token >= |s.tokens| then (s, Failure(RefreshInvalid))
    else
      var record := s.tokens[token];
      if record.revoked || record.rotated then
        (s.(tokens := RevokeFamily(s.tokens, record.user, record.family)), Failure(RefreshReused))
      else if record.expiresAt <= now then (s, Failure(RefreshExpired))
      else if !userActive then (s, Failure(RefreshInvalid))
      else
        (s.(tokens := s.tokens[token := record.(rotated := true)]
                      + [Token(record.user, record.family, expiresAt, false, false)]),
         Success(|s.tokens|))
  }

  /** `logout`: by token if one is given, else by family. */
  function LoggedOut(s: State, token: Option<nat>, family: Option<nat>): State {
    if token.Some? then
      if token.value < |s.tokens| then
        s.(tokens := RevokeFamily(s.tokens, s.tokens[token.value].user, s.tokens[token.value].family))
      else s
    else if family.Some? then s.(tokens := RevokeFamilyOfAny(s.tokens, family.value))
    else s
  }

  function AllRevoked(s: State, user: nat, keep: Option<nat>): State {
    s.(tokens := RevokeWhere(s.tokens, (t: Token) => t.user == user && keep != Some(t.family)))
  }

  datatype Action =
    | Login(user: nat, expiresAt: int)
    | Rotate(token: nat, now: int, userActive: bool, newExpiry: int)
    | Logout(presented: Option<nat>, family: Option<nat>)
    | RevokeAll(owner: nat, keep: Option<nat>)

  function Perform(s: State, a: Action): State {
    match a
    case Login(user, expiresAt) => LoggedIn(s, user, expiresAt)
    case Rotate(token, now, userActive, newExpiry) => Rotated(s, token, now, userActive, newExpiry).0
    case Logout(token, family) => LoggedOut(s, token, family)
    case RevokeAll(user, keep) => AllRevoked(s, user, keep)
  }

  function Replay(s: State, acts: seq<Action>): State
    decreases |acts|
  {
    if acts == [] then s else Replay(Perform(s, acts[0]), acts[1..])
  }

  const NO_TOKENS := State([], 0)

  /** One user and at most one live token per family; an unrevoked family has its live token last. */
  ghost predicate Inv(s: State) {
    && (forall i :: 0 <= i < |s.tokens| ==> s.tokens[i].family < s.families)
    && (forall i, j :: 0 <= i < j < |s.tokens| && s.tokens[i].family == s.tokens[j].family ==>
          s.tokens[i].user == s.tokens[j].user)
    && (forall i, j :: 0 <= i < j < |s.tokens| && s.tokens[i].family == s.tokens[j].family ==>
          !(Live(s.tokens[i]) && Live(s.tokens[j])))
  }

  /** No token of the family is unrevoked. */
  ghost predicate Dead(s: State, family: nat) {
    && family < s.families
    && forall i :: 0 <= i < |s.tokens| && s.tokens[i].family == family ==> s.tokens[i].revoked
  }

  lemma RevokingKeepsInv(s: State, p: Token -> bool)
    requires Inv(s)
    ensures Inv(s.(tokens := RevokeWhere(s.tokens, p)))
  {
  }

  lemma RotationKeepsInv(s: State, token: nat, expiresAt: int)
    requires Inv(s) && token < |s.tokens| && Live(s.tokens[token])
    ensures var record := s.tokens[token];
            Inv(s.(tokens := s.tokens[token := record.(rotated := true)]
                             + [Token(record.user, record.family, expiresAt, false, false)]))
  {
    var record := s.tokens[token];
    assert forall i :: 0 <= i < |s.tokens| && i != token && s.tokens[i].family == record.family ==>
        !Live(s.tokens[i]) && s.tokens[i].user == record.user;
  }

  lemma PerformKeepsInv(s: State, a: Action)
    requires Inv(s)
    ensures Inv(Perform(s, a))
  {
    match a
    case Login(_, _) =>
    case Rotate(token, now, userActive, newExpiry) =>
      if token < |s.tokens| {
        if Live(s.tokens[token]) {
          RotationKeepsInv(s, token, newExpiry);
        } else {
          var record := s.tokens[token];
          RevokingKeepsInv(s, (t: Token) => t.user == record.user && t.family == record.family);
        }
      }
    case Logout(token, family) =>
      if token.Some? && token.value < |s.tokens| {
        var record := s.tokens[token.value];
        RevokingKeepsInv(s, (t: Token) => t.user == record.user && t.family == record.family);
      } else if family.Some? {
        RevokingKeepsInv(s, (t: Token) => t.family == family.value);
      }
    case RevokeAll(user, keep) => RevokingKeepsInv(s, (t: Token) => t.user == user && keep != Some(t.family));
  }

  /** A dead family stays dead: nothing revives a token, and only a live token can be rotated. */
  lemma PerformKeepsDead(s: State, a: Action, family: nat)
    requires Inv(s) && Dead(s, family)
    ensures Dead(Perform(s, a), family)
  {
  }

  lemma {:induction false} ReplayKeeps(s: State, acts: seq<Action>)
    requires Inv(s)
    ensures Inv(Replay(s, acts))
    ensures |s.tokens| <= |Replay(s, acts).tokens|
    ensures forall i :: 0 <= i < |s.tokens| ==> Replay(s, acts).tokens[i].family == s.tokens[i].family
    ensures forall family: nat :: Dead(s, family) ==> Dead(Replay(s, acts), family)
    decreases |acts|
  {
    if acts != [] {
      PerformKeepsInv(s, acts[0]);
      forall family: nat | Dead(s, family) ensures Dead(Perform(s, acts[0]), family) {
        PerformKeepsDead(s, acts[0], family);
      }
      ReplayKeeps(Perform(s, acts[0]), acts[1..]);
    }
  }

  /** Over every history, a family has at most one live token. */
  lemma {:induction false} AtMostOneLiveToken(acts: seq<Action>, i: nat, j: nat)
    requires var s := Replay(NO_TOKENS, acts);
             i < |s.tokens| && j < |s.tokens| && s.tokens[i].family == s.tokens[j].family &&
             Live(s.tokens[i]) && Live(s.tokens[j])
    ensures i == j
  {
    ReplayKeeps(NO_TOKENS, acts);
  }

  /** Presenting a token that is no longer live closes its family at once and for ever: whatever happens
      afterwards, no token of the family is accepted again. */
  lemma ReuseClosesFamily(acts: seq<Action>, token: nat, now: int, active: bool, expiry: int, later: seq<Action>,
                          other: nat, now': int, active': bool, expiry': int)
    requires var s := Replay(NO_TOKENS, acts); token < |s.tokens| && !Live(s.tokens[token])
    ensures var s := Replay(NO_TOKENS, acts);
            var (t, outcome) := Rotated(s, token, now, active, expiry);
            var u := Replay(t, later);
            && outcome == Failure(RefreshReused)
            && Dead(t, s.tokens[token].family) && Dead(u, s.tokens[token].family)
            && (other < |u.tokens| && u.tokens[other].family == s.tokens[token].family ==>
                  Rotated(u, other, now', active', expiry').1 == Failure(RefreshReused))
  {
    var s := Replay(NO_TOKENS, acts);
    ReplayKeeps(NO_TOKENS, acts);
    var t := Rotated(s, token, now, active, expiry).0;
    PerformKeepsInv(s, Rotate(token, now, active, expiry));
    var family := s.tokens[token].family;
    forall i | 0 <= i < |t.tokens| && t.tokens[i].family == family ensures t.tokens[i].revoked {
      assert s.tokens[i].family == s.tokens[token].family;
      assert i < token ==> s.tokens[i].user == s.tokens[token].user;
      assert token < i ==> s.tokens[token].user == s.tokens[i].user;
    }
    assert Dead(t, family);
    ReplayKeeps(t, later);
  }

  /** A rotation succeeds exactly for the family's live token, unexpired and with an active user; then
      the new token is the family's only live one. */
  lemma RotationHandsOver(s: State, token: nat, now: int, active: bool, expiry: int)
    requires Inv(s)
    ensures var (t, outcome) := Rotated(s, token, now, active, expiry);
            && (outcome.Success? <==>
                token < |s.tokens| && Live(s.tokens[token]) && s.tokens[token].expiresAt > now && active)
            && (outcome.Success? ==>
                  && outcome.value < |t.tokens| && Live(t.tokens[outcome.value])
                  && t.tokens[outcome.value].family == s.tokens[token].family
                  && (forall i :: 0 <= i < |t.tokens| && t.tokens[i].family == s.tokens[token].family ==>
                        Live(t.tokens[i]) ==> i == outcome.value))
            && (outcome.Failure? && outcome.error != RefreshReused ==> t == s)
  {
    if token < |s.tokens| && Live(s.tokens[token]) {
      assert forall i :: 0 <= i < token && s.tokens[i].family == s.tokens[token].family ==> !Live(s.tokens[i]);
    }
  }

  // ----- what each operation does to every row -----

  /** A login opens a family of its own with one live token and changes no other row. */
  lemma LoginOpens(s: State, user: nat, expiresAt: int)
    requires Inv(s)
    ensures var t := Perform(s, Login(user, expiresAt));
            && t.tokens == s.tokens + [Token(user, s.families, expiresAt, false, false)]
            && t.families == s.families + 1
            && forall i :: 0 <= i < |s.tokens| ==> s.tokens[i].family != s.families
  {
  }

  /** A rotation that succeeds marks the presented token as rotated, adds one for the same user and family, and changes
      no other row. What is no token, or whose user is inactive, is invalid; a rotated or revoked one is reuse, before
      its age is looked at. */
  lemma RotationOutcome(s: State, token: nat, now: int, active: bool, expiry: int)
    ensures var (t, outcome) := Rotated(s, token, now, active, expiry);
            if token >= |s.tokens| then t == s && outcome == Failure(RefreshInvalid)
            else
              var row := s.tokens[token];
              if row.rotated || row.revoked then
                outcome == Failure(RefreshReused) && t.families == s.families && |t.tokens| == |s.tokens|
                && forall i :: 0 <= i < |s.tokens| ==>
                     t.tokens[i] == if s.tokens[i].user == row.user && s.tokens[i].family == row.family
                                    then s.tokens[i].(revoked := true) else s.tokens[i]
              else if row.expiresAt <= now then t == s && outcome == Failure(RefreshExpired)
              else if !active then t == s && outcome == Failure(RefreshInvalid)
              else
                && outcome == Success(|s.tokens|) && t.families == s.families && |t.tokens| == |s.tokens| + 1
                && t.tokens[|s.tokens|] == Token(row.user, row.family, expiry, false, false)
                && t.tokens[token] == Token(row.user, row.family, row.expiresAt, true, false)
                && forall i :: 0 <= i < |s.tokens| && i != token ==> t.tokens[i] == s.tokens[i]
  {
  }

  /** Tokens of other families are as they were, and those of the family are revoked and otherwise as they were. */
  ghost predicate ClosesFamily(s: State, t: State, family: nat) {
    && t.families == s.families && |t.tokens| == |s.tokens|
    && forall i :: 0 <= i < |s.tokens| ==>
         && (s.tokens[i].family != family ==> t.tokens[i] == s.tokens[i])
         && (s.tokens[i].family == family ==>
               t.tokens[i] == Token(s.tokens[i].user, family, s.tokens[i].expiresAt, s.tokens[i].rotated, true))
  }

  lemma OneUserPerFamily(s: State, i: nat, j: nat)
    requires Inv(s) && i < |s.tokens| && j < |s.tokens| && s.tokens[i].family == s.tokens[j].family
    ensures s.tokens[i].user == s.tokens[j].user
  {
  }

  /** Logging out with a stored token revokes its family and nothing else. */
  lemma LogoutClosesFamily(s: State, token: nat, family: Option<nat>)
    requires Inv(s) && token < |s.tokens|
    ensures var t := Perform(s, Logout(Some(token), family));
            ClosesFamily(s, t, s.tokens[token].family) && Dead(t, s.tokens[token].family)
  {
    forall i | 0 <= i < |s.tokens| && s.tokens[i].family == s.tokens[token].family
      ensures s.tokens[i].user == s.tokens[token].user
    {
      OneUserPerFamily(s, i, token);
    }
  }

  /** Logging out by family alone revokes that family and nothing else. */
  lemma LogoutByFamily(s: State, family: nat)
    ensures ClosesFamily(s, Perform(s, Logout(None, Some(family))), family)
  {
  }

  /** A token that is not stored, and neither token nor family, change nothing. */
  lemma LogoutOfNothing(s: State, token: Option<nat>, family: Option<nat>)
    requires if token.Some? then token.value >= |s.tokens| else family.None?
    ensures Perform(s, Logout(token, family)) == s
  {
  }

  /** Hence after a logout no later history accepts any token of the family. */
  lemma {:induction false} LoggedOutForGood(acts: seq<Action>, token: nat, later: seq<Action>, other: nat, now: int,
                                            active: bool, expiry: int)
    requires token < |Replay(NO_TOKENS, acts).tokens|
    ensures var s := Replay(NO_TOKENS, acts);
            var u := Replay(Perform(s, Logout(Some(token), None)), later);
            other < |u.tokens| && u.tokens[other].family == s.tokens[token].family ==>
              Rotated(u, other, now, active, expiry).1 == Failure(RefreshReused)
  {
    var s := Replay(NO_TOKENS, acts);
    ReplayKeeps(NO_TOKENS, acts);
    LogoutClosesFamily(s, token, None);
    var t := Perform(s, Logout(Some(token), None));
    PerformKeepsInv(s, Logout(Some(token), None));
    ReplayKeeps(t, later);
    var u := Replay(t, later);
    assert Dead(u, s.tokens[token].family);
    RotationOutcome(u, other, now, active, expiry);
  }

  /** Revoking a user's sessions revokes each token of the user outside the kept family and changes no other. */
  lemma RevokeAllOutcome(s: State, user: nat, keep: Option<nat>)
    ensures var t := Perform(s, RevokeAll(user, keep));
            && t.families == s.families && |t.tokens| == |s.tokens|
            && forall i :: 0 <= i < |s.tokens| ==>
                 t.tokens[i] == if s.tokens[i].user == user && (keep == None || s.tokens[i].family != keep.value)
                                then s.tokens[i].(revoked := true) else s.tokens[i]
  {
  }

  /** The rows, rewritten in place. */
  class Sessions {
    var tokens: seq<Token>
    var families: nat

    constructor ()
      ensures View() == NO_TOKENS
    {
      tokens, families := [], 0;
    }

    function View(): State
      reads this
    {
      State(tokens, families)
    }

    method Login(user: nat, expiresAt: int) returns (token: nat)
      modifies this
      ensures View() == LoggedIn(old(View()), user, expiresAt) && token == old(|tokens|)
    {
      token := |tokens|;
      tokens := tokens + [Token(user, families, expiresAt, false, false)];
      families := families + 1;
    }

    method RevokeFamilyRows(user: nat, family: nat)
      modifies this`tokens
      ensures tokens == RevokeFamily(old(tokens), user, family)
    {
      ghost var was, goal := tokens, RevokeFamily(tokens, user, family);
      var i := 0;
      while i < |tokens|
        invariant 0 <= i <= |tokens| == |was|
        invariant forall j :: 0 <= j < i ==> tokens[j] == goal[j]
        invariant forall j :: i <= j < |tokens| ==> tokens[j] == was[j]
      {
        if tokens[i].user == user && tokens[i].family == family && !tokens[i].revoked {
          tokens := tokens[i := tokens[i].(revoked := true)];
        }
        i := i + 1;
      }
      assert tokens == goal;
    }

    method RotateRefresh(token: nat, now: int, userActive: bool, expiresAt: int) returns (r: Result<nat, AuthError>)
      modifies this
      ensures (View(), r) == Rotated(old(View()), token, now, userActive, expiresAt)
    {
      if token >= |tokens| {
        return Failure(RefreshInvalid);
      }
      var record := tokens[token];
      if record.revoked || record.rotated {
        RevokeFamilyRows(record.user, record.family);
        return Failure(RefreshReused);
      }
      if record.expiresAt <= now {
        return Failure(RefreshExpired);
      }
      var saved := tokens;
      tokens := tokens[token := record.(rotated := true)];
      if !userActive {
        tokens := saved;
        return Failure(RefreshInvalid);
      }
      r := Success(|tokens|);
      tokens := tokens + [Token(record.user, record.family, expiresAt, false, false)];
    }

    method Logout(token: Option<nat>, family: Option<nat>)
      modifies this
      ensures View() == LoggedOut(old(View()), token, family)
    {
      if token.Some? {
        if token.value < |tokens| {
          RevokeFamilyRows(tokens[token.value].user, tokens[token.value].family);
        }
      } else if family.Some? {
        RevokeAnyUser(family.value);
      }
    }

    method RevokeAnyUser(family: nat)
      modifies this`tokens
      ensures tokens == RevokeFamilyOfAny(old(tokens), family)
    {
      ghost var was, goal := tokens, RevokeFamilyOfAny(tokens, family);
      var i := 0;
      while i < |tokens|
        invariant 0 <= i <= |tokens| == |was|
        invariant forall j :: 0 <= j < i ==> tokens[j] == goal[j]
        invariant forall j :: i <= j < |tokens| ==> tokens[j] == was[j]
      {
        if tokens[i].family == family && !tokens[i].revoked {
          tokens := tokens[i := tokens[i].(revoked := true)];
        }
        i := i + 1;
      }
      assert tokens == goal;
    }

    /** `revoke_all_sessions`, sparing one family if it is named. */
    method RevokeAllSessions(user: nat, keep: Option<nat>)
      modifies this`tokens
      ensures View() == AllRevoked(old(View()), user, keep)
    {
      ghost var was, goal := tokens, AllRevoked(View(), user, keep).tokens;
      var i := 0;
      while i < |tokens|
        invariant 0 <= i <= |tokens| == |was|
        invariant forall j :: 0 <= j < i ==> tokens[j] == goal[j]
        invariant forall j :: i <= j < |tokens| ==> tokens[j] == was[j]
      {
        if tokens[i].user == user && !tokens[i].revoked && (keep.None? || tokens[i].family != keep.value) {
          tokens := tokens[i := tokens[i].(revoked := true)];
        }
        i := i + 1;
      }
      assert tokens == goal;
    }
  }
}
