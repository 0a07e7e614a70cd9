/**
 apps/users/views.py: QR login. The desktop initiates a token, an authenticated user confirms it,
 and the desktop polls until it is handed a session.

 Requests are atomic and see one reading of the clock (seconds). `secrets.token_urlsafe` never
 repeats a token, so `issued` remembers all of them.
*/
module QrLogin {
  import opened Wrappers

  const EXPIRY_SECONDS: nat := 300

  datatype Status = Pending | Approved | Consumed

  datatype Row = Row(user: Option<int>, status: Status, expiresAt: nat)

  datatype State = State(tokens: map<int, Row>, issued: set<int>, clock: nat)

  const INITIAL := State(map[], {}, 0)

  /** A missing "token" field is None. */
  datatype Step =
    | Initiate(token: int)
    | Confirm(presented: Option<int>, user: int)
    | Poll(presented: Option<int>)
    | DeleteUser(user: int)
    | Tick(elapsed: nat)

  datatype Response =
    | Created(expiresIn: nat)
    | Refused
    | ApprovedNow
    | StillPending
    | Session(user: int)
    | NoResponse

  predicate Enabled(s: State, step: Step) {
    step.Initiate? ==> step.token !in s.issued
  }

  predicate IsExpired(s: State, token: int)
    requires token in s.tokens
  {
    s.clock >= s.tokens[token].expiresAt
  }

  function WithoutUser(tokens: map<int, Row>, user: int): map<int, Row> {
    map t | t in tokens && tokens[t].user != Some(user) :: tokens[t]
  }

  function Apply(s: State, step: Step): (State, Response) {
    match step
    case Initiate(token) =>
      (s.(tokens := s.tokens[token := Row(None, Pending, s.clock + EXPIRY_SECONDS)], issued := s.issued + {token}),
       Created(EXPIRY_SECONDS))
    case Confirm(presented, user) =>
      if presented.None? || presented.value !in s.tokens || s.tokens[presented.value].status != Pending
      then (s, Refused)
      else if IsExpired(s, presented.value) then (s.(tokens := s.tokens - {presented.value}), Refused)
      else
        var approved := s.tokens[presented.value].(user := Some(user), status := Approved);
        (s.(tokens := s.tokens[presented.value := approved]), ApprovedNow)
    case Poll(presented) =>
      if presented.None? || presented.value !in s.tokens || s.tokens[presented.value].status == Consumed
      then (s, Refused)
      else if IsExpired(s, presented.value) then (s.(tokens := s.tokens - {presented.value}), Refused)
      else if s.tokens[presented.value].status == Pending then (s, StillPending)
      else if s.tokens[presented.value].user.None? then (s, Refused)
      else (s.(tokens := s.tokens[presented.value := s.tokens[presented.value].(status := Consumed)]),
            Session(s.tokens[presented.value].user.value))
    case DeleteUser(user) => (s.(tokens := WithoutUser(s.tokens, user)), NoResponse)
    case Tick(elapsed) => (s.(clock := s.clock + elapsed), NoResponse)
  }

  class QrTokens {
    var tokens: map<int, Row>
    ghost var issued: set<int>

    ghost function Model(now: nat): State
      reads this
    {
      State(tokens, issued, now)
    }

    /** `QRLoginInitiateView.post` */
    method InitiateLogin(token: int, now: nat) returns (r: Response)
      modifies this
      ensures (Model(now), r) == Apply(old(Model(now)), Initiate(token))
    {
      tokens := tokens[token := Row(None, Pending, now + EXPIRY_SECONDS)];
      issued := issued + {token};
      r := Created(EXPIRY_SECONDS);
    }

    /** `QRLoginConfirmView.post` */
    method ConfirmLogin(presented: Option<int>, user: int, now: nat) returns (r: Response)
      modifies this`tokens
      ensures (Model(now), r) == Apply(old(Model(now)), Confirm(presented, user))
    {
      if presented.None? {
        return Refused;
      }
      var token := presented.value;
      if token !in tokens || tokens[token].status != Pending {
        return Refused;
      }
      if now >= tokens[token].expiresAt {
        tokens := tokens - {token};
        return Refused;
      }
      var qr := tokens[token].(user := Some(user));
      qr := qr.(status := Approved);
      tokens := tokens[token := qr];
      r := ApprovedNow;
    }

    /** `QRLoginStatusView.get` */
    method PollLogin(presented: Option<int>, now: nat) returns (r: Response)
      modifies this`tokens
      ensures (Model(now), r) == Apply(old(Model(now)), Poll(presented))
    {
      if presented.None? {
        return Refused;
      }
      var token := presented.value;
      if token !in tokens || tokens[token].status == Consumed {
        return Refused;
      }
      if now >= tokens[token].expiresAt {
        tokens := tokens - {token};
        return Refused;
      }
      if tokens[token].status == Pending {
        return StillPending;
      }
      var user := tokens[token].user;
      if user.None? {
        return Refused;
      }
      tokens := tokens[token := tokens[token].(status := Consumed)];
      r := Session(user.value);
    }
  }

  // ---------------------------------------------------------------------------
  // Runs
  // ---------------------------------------------------------------------------

  ghost predicate IsRun(states: seq<State>, steps: seq<Step>) {
    && |states| == |steps| + 1
    && states[0] == INITIAL
    && forall k {:trigger steps[k]} :: 0 <= k < |steps| ==>
         Enabled(states[k], steps[k]) && states[k + 1] == Apply(states[k], steps[k]).0
  }

  /** Step k hands a session of the user to whoever polls the token. */
  ghost predicate Yields(states: seq<State>, steps: seq<Step>, k: int, token: int, user: int) {
    && |states| == |steps| + 1 && 0 <= k < |steps|
    && steps[k] == Poll(Some(token)) && Apply(states[k], steps[k]).1 == Session(user)
  }

  /** Step k is the user's confirmation of the token, and it is accepted. */
  ghost predicate Confirms(states: seq<State>, steps: seq<Step>, k: int, token: int, user: int) {
    && |states| == |steps| + 1 && 0 <= k < |steps|
    && steps[k] == Confirm(Some(token), user) && Apply(states[k], steps[k]).1 == ApprovedNow
  }

  /** The token can never again be confirmed. */
  ghost predicate Decided(s: State, token: int) {
    token in s.issued && (token in s.tokens ==> s.tokens[token].status != Pending)
  }

  /** The token is consumed or gone. */
  ghost predicate Spent(s: State, token: int) {
    token in s.issued && (token in s.tokens ==> s.tokens[token].status == Consumed)
  }

  lemma {:induction false} StepKeepsSpent(s: State, step: Step, token: int)
    requires Enabled(s, step)
    ensures Spent(s, token) ==> Spent(Apply(s, step).0, token)
    ensures Decided(s, token) ==> Decided(Apply(s, step).0, token)
  {
  }

  lemma {:induction false} StaysSpent(states: seq<State>, steps: seq<Step>, i: nat, k: nat, token: int)
    requires IsRun(states, steps) && i <= k < |states|
    ensures Spent(states[i], token) ==> Spent(states[k], token)
    ensures Decided(states[i], token) ==> Decided(states[k], token)
    decreases k
  {
    if i < k {
      StaysSpent(states, steps, i, k - 1, token);
      var step := steps[k - 1];
      StepKeepsSpent(states[k - 1], step, token);
    }
  }

  /** Rows come only from issued tokens, and carry a user once they are past pending. */
  ghost predicate Valid(s: State) {
    forall t :: t in s.tokens ==> t in s.issued && (s.tokens[t].user.None? <==> s.tokens[t].status == Pending)
  }

  lemma {:induction false} RunValid(states: seq<State>, steps: seq<Step>, k: nat)
    requires IsRun(states, steps) && k < |states|
    ensures Valid(states[k])
  {
    if k == 0 {
    } else {
      RunValid(states, steps, k - 1);
      var step := steps[k - 1];
      assert states[k] == Apply(states[k - 1], step).0;
    }
  }

  /** A token yields at most one session. */
  lemma {:induction false} YieldsOnce(states: seq<State>, steps: seq<Step>, j: nat, k: nat, token: int, u: int, v: int)
    requires IsRun(states, steps) && Yields(states, steps, j, token, u) && Yields(states, steps, k, token, v)
    ensures j == k && u == v
  {
    RunValid(states, steps, j);
    RunValid(states, steps, k);
    if j < k {
      assert Spent(states[j + 1], token);
      StaysSpent(states, steps, j + 1, k, token);
    } else if k < j {
      assert Spent(states[k + 1], token);
      StaysSpent(states, steps, k + 1, j, token);
    }
  }

  /** At most one confirmation of a token is ever accepted. */
  lemma {:induction false} ConfirmedOnce(states: seq<State>, steps: seq<Step>, j: nat, k: nat, token: int, u: int,
                                         v: int)
    requires IsRun(states, steps) && Confirms(states, steps, j, token, u) && Confirms(states, steps, k, token, v)
    ensures j == k && u == v
  {
    RunValid(states, steps, j);
    RunValid(states, steps, k);
    if j < k {
      assert Decided(states[j + 1], token);
      StaysSpent(states, steps, j + 1, k, token);
    } else if k < j {
      assert Decided(states[k + 1], token);
      StaysSpent(states, steps, k + 1, j, token);
    }
  }

  /** Where a token's row comes from: its issue, and the confirmation that approved it. */
  lemma {:induction false} Story(states: seq<State>, steps: seq<Step>, k: nat, token: int) returns (i: nat, j: nat)
    requires IsRun(states, steps) && k < |states| && token in states[k].tokens
    ensures i < k && steps[i] == Initiate(token)
            && states[k].tokens[token].expiresAt == states[i].clock + 300
    ensures states[k].tokens[token].status != Pending ==>
              && states[k].tokens[token].user.Some? && i < j < k
              && Confirms(states, steps, j, token, states[k].tokens[token].user.value)
              && states[j].clock < states[k].tokens[token].expiresAt
  {
    RunValid(states, steps, k);
    var s, step := states[k - 1], steps[k - 1];
    assert states[k] == Apply(s, step).0;
    RunValid(states, steps, k - 1);
    if token !in s.tokens {
      i, j := k - 1, k - 1;
    } else {
      i, j := Story(states, steps, k - 1, token);
      if s.tokens[token].status == Pending && states[k].tokens[token].status != Pending {
        j := k - 1;
      } else {
        assert states[k].tokens[token].user == s.tokens[token].user;
      }
    }
  }

  /**
   A session is handed out only for a token that was initiated and then confirmed while pending,
   only as the one user who confirmed it, and only before its expiry.
  */
  lemma {:induction false} SessionStory(states: seq<State>, steps: seq<Step>, k: nat, token: int, user: int)
    returns (i: nat, j: nat)
    requires IsRun(states, steps) && Yields(states, steps, k, token, user)
    ensures i < j < k && steps[i] == Initiate(token) && Confirms(states, steps, j, token, user)
    ensures forall m, v :: Confirms(states, steps, m, token, v) ==> m == j && v == user
    ensures states[k].clock < states[i].clock + 300
  {
    i, j := Story(states, steps, k, token);
    forall m, v | Confirms(states, steps, m, token, v)
      ensures m == j && v == user
    {
      ConfirmedOnce(states, steps, m, j, token, v, user);
    }
  }

  /** A token that is consumed or deleted never yields again. */
  lemma {:induction false} SpentNeverYields(states: seq<State>, steps: seq<Step>, i: nat, k: nat, token: int, user: int)
    requires IsRun(states, steps) && i <= k < |steps| && Spent(states[i], token)
    ensures !Yields(states, steps, k, token, user)
  {
    StaysSpent(states, steps, i, k, token);
  }

  /** An approved token that is polled before its expiry does yield its user's session. */
  lemma {:induction false} ApprovedYields(states: seq<State>, steps: seq<Step>, k: nat, token: int)
    requires IsRun(states, steps) && k < |steps| && steps[k] == Poll(Some(token))
    requires token in states[k].tokens && states[k].tokens[token].status == Approved && !IsExpired(states[k], token)
    ensures states[k].tokens[token].user.Some? && Yields(states, steps, k, token, states[k].tokens[token].user.value)
  {
    RunValid(states, steps, k);
  }
}
