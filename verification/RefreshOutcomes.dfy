/** How a refresh ends and what each commit does to the session rows. */
module RefreshOutcomes {
  import opened Common
  import opened RefreshFamilies

  // ---------------------------------------------------------------- which end a refresh comes to

  /** The token's row as a refresh found it under the lock, and when. */
  datatype Reading = Reading(row: Session, at: int)

  function ReadBy(w: World, a: Action, t: nat): Option<Reading> {
    if a.Proceed? && a.t == t && t in w.txs && w.txs[t].Refresh?
      && w.txs[t].pc.ReadSession? && w.txs[t].token in w.sessions
    then Some(Reading(w.sessions[w.txs[t].token], a.now)) else None
  }

  /** What `t` reads in the course of a schedule, if it gets as far. */
  function FirstReading(w: World, schedule: seq<Action>, t: nat): Option<Reading>
    decreases |schedule|
  {
    if schedule == [] then None
    else if ReadBy(w, schedule[0], t).Some? then ReadBy(w, schedule[0], t)
    else FirstReading(After(w, schedule[0]), schedule[1..], t)
  }

  ghost predicate Follows(w: World, t: nat, read: Option<Reading>) {
    && t in w.txs && w.txs[t].Refresh?
    && (read.None? ==> w.txs[t].pc.LookUp? || w.txs[t].pc.LockOwner? || w.txs[t].pc.ReadSession?
                       || w.txs[t].pc == RefreshEnded(Refused) || w.txs[t].pc == RefreshEnded(Aborted))
    && (read.Some? ==>
          if read.value.row.status == ACTIVE && read.value.row.expiresAt > read.value.at
          then w.txs[t].pc.InsertSuccessor? || w.txs[t].pc.MarkRotated? || w.txs[t].pc.CommitRotation?
               || w.txs[t].pc == RefreshEnded(Rotated) || w.txs[t].pc == RefreshEnded(Aborted)
          else w.txs[t].pc.Compromise? || w.txs[t].pc.CommitCompromise?
               || w.txs[t].pc == RefreshEnded(Reused) || w.txs[t].pc == RefreshEnded(Aborted))
  }

  lemma {:induction false} StepFollows(w: World, a: Action, t: nat, read: Option<Reading>)
    requires Follows(w, t, read)
    ensures Follows(After(w, a), t, if read.Some? then read else ReadBy(w, a, t))
  {
    if !ActsFor(a, t) { OtherActionsKeepTx(w, a, t); }
  }

  lemma {:induction false} RunFollows(w: World, schedule: seq<Action>, t: nat, read: Option<Reading>)
    requires Follows(w, t, read)
    ensures Follows(Run(w, schedule), t, if read.Some? then read else FirstReading(w, schedule, t))
    decreases |schedule|
  {
    if schedule != [] {
      StepFollows(w, schedule[0], t, read);
      RunFollows(After(w, schedule[0]), schedule[1..], t, if read.Some? then read else ReadBy(w, schedule[0], t));
    }
  }

  /** In any schedule a refresh rotates only a token that was ACTIVE and unexpired when it read it under the
      lock, and compromises a family only over one that was not. */
  lemma {:induction false} RefreshEndsAsRead(w: World, t: nat, token: nat, successor: nat, expiresAt: int,
                                             schedule: seq<Action>)
    requires t !in w.txs && successor !in w.issued
    ensures var w1 := After(w, BeginRefresh(t, token, successor, expiresAt));
      var w', read := Run(w1, schedule), FirstReading(w1, schedule, t);
      && t in w'.txs && w'.txs[t].Refresh?
      && (w'.txs[t].pc == RefreshEnded(Rotated) ==>
            read.Some? && read.value.row.status == ACTIVE && read.value.row.expiresAt > read.value.at)
      && (w'.txs[t].pc == RefreshEnded(Reused) ==>
            read.Some? && (read.value.row.status != ACTIVE || read.value.row.expiresAt <= read.value.at))
  {
    RunFollows(After(w, BeginRefresh(t, token, successor, expiresAt)), schedule, t, None);
  }

  // ---------------------------------------------------------------- what a commit writes

  function RotatedRows(sessions: Sessions, token: nat, successor: nat, expiresAt: int): Sessions
    requires token in sessions
  {
    var row := sessions[token];
    sessions[token := row.(status := ROTATED, replacedBy := Some(successor))]
            [successor := Session(row.user, row.family, ACTIVE, expiresAt, None)]
  }

  /** `new_` differs from `old_` at most in the status of some rows, which is now `status`. */
  ghost predicate Marked(old_: Sessions, new_: Sessions, rows: set<nat>, status: Status) {
    && new_.Keys == old_.Keys
    && forall s :: s in old_ ==> new_[s] == if s in rows then old_[s].(status := status) else old_[s]
  }

  function FamilyRows(sessions: Sessions, family: nat): set<nat> {
    set s | s in sessions && sessions[s].family == family
  }

  lemma {:induction false} RotationRows(w: World, t: nat, now: int)
    requires t in w.txs && w.txs[t].Refresh? && w.txs[t].pc.CommitRotation? && TxOk(w, t, w.txs[t])
    ensures var w', x := After(w, Proceed(t, now)), w.txs[t];
      && x.token in w.sessions && x.successor !in w.sessions
      && w'.sessions == RotatedRows(w.sessions, x.token, x.successor, x.expiresAt)
  {
    var x := w.txs[t];
    assert w.sessions + x.writes == RotatedRows(w.sessions, x.token, x.successor, x.expiresAt);
  }

  lemma {:induction false} CompromiseRows(w: World, t: nat, now: int)
    requires t in w.txs && w.txs[t].Refresh? && w.txs[t].pc.CommitCompromise? && TxOk(w, t, w.txs[t])
    ensures var w', x := After(w, Proceed(t, now)), w.txs[t];
      && x.token in w.sessions
      && Marked(w.sessions, w'.sessions, FamilyRows(w.sessions, w.sessions[x.token].family), COMPROMISED)
  {
  }

  /** The step with which a refresh ends: a rotation replaces the token's row and adds its successor, a
      detected reuse marks the rows of the family and no others, and any other end changes no row. */
  lemma {:induction false} RefreshRows(w: World, t: nat, now: int)
    requires Inv(w) && t in w.txs && w.txs[t].Refresh? && !w.txs[t].pc.RefreshEnded?
    ensures var w', x := After(w, Proceed(t, now)), w.txs[t];
      && t in w'.txs && w'.txs[t].Refresh?
      && (w'.txs[t].pc == RefreshEnded(Rotated) ==>
            && x.token in w.sessions && x.successor !in w.sessions
            && w'.sessions == RotatedRows(w.sessions, x.token, x.successor, x.expiresAt))
      && (w'.txs[t].pc == RefreshEnded(Reused) ==>
            && x.token in w.sessions
            && Marked(w.sessions, w'.sessions, FamilyRows(w.sessions, w.sessions[x.token].family), COMPROMISED))
      && (w'.txs[t].pc != RefreshEnded(Rotated) && w'.txs[t].pc != RefreshEnded(Reused) ==>
            w'.sessions == w.sessions)
  {
    assert TxOk(w, t, w.txs[t]);
    if w.txs[t].pc.CommitRotation? {
      RotationRows(w, t, now);
    } else if w.txs[t].pc.CommitCompromise? {
      CompromiseRows(w, t, now);
    }
  }

  // ---------------------------------------------------------------- a live token is rotated

  predicate IsStep(a: Action, t: nat) { a.Proceed? && a.t == t }

  /** How many statements of `t` a schedule runs. */
  function Steps(schedule: seq<Action>, t: nat): nat {
    if schedule == [] then 0 else (if IsStep(schedule[0], t) then 1 else 0) + Steps(schedule[1..], t)
  }

  /** Nothing aborts `t`, and its statements run before the row expires. */
  predicate InTime(a: Action, t: nat, row: Session) {
    a != Abort(t) && (IsStep(a, t) ==> a.now < row.expiresAt)
  }

  /** Refresh `t` of a token whose row is `row`, `n` statements after it had locked the owner. */
  ghost predicate Rotating(w: World, t: nat, start: Tx, row: Session, n: nat)
    requires start.Refresh?
  {
    && t in w.txs && w.txs[t].Refresh? && w.txs[t].token == start.token && w.txs[t].successor == start.successor
    && w.txs[t].expiresAt == start.expiresAt
    && (n < 4 ==> start.token in w.sessions && w.sessions[start.token] == row)
    && w.txs[t].pc == (if n == 0 then ReadSession else if n == 1 then InsertSuccessor(row)
                       else if n == 2 then MarkRotated(row) else if n == 3 then CommitRotation(row)
                       else RefreshEnded(Rotated))
  }

  lemma {:induction false} OwnStepRotates(w: World, a: Action, t: nat, start: Tx, row: Session, n: nat)
    requires Inv(w) && start.Refresh? && Rotating(w, t, start, row, n) && row.status == ACTIVE
    requires IsStep(a, t) && a.now < row.expiresAt
    ensures Rotating(After(w, a), t, start, row, n + 1)
  {
    assert TxOk(w, t, w.txs[t]);
  }

  lemma {:induction false} OthersKeepRotating(w: World, a: Action, t: nat, start: Tx, row: Session, n: nat)
    requires Inv(w) && start.Refresh? && Rotating(w, t, start, row, n) && InTime(a, t, row) && !IsStep(a, t)
    ensures Rotating(After(w, a), t, start, row, n)
  {
    assert TxOk(w, t, w.txs[t]);
    if ActsFor(a, t) {
      assert After(w, a) == w;
    } else {
      OtherActionsKeepTx(w, a, t);
      if n < 4 && !a.Login? { LockedRowsStay(w, a, t, w.txs[t].owner); }
    }
  }

  lemma {:induction false} RunRotates(w: World, schedule: seq<Action>, t: nat, start: Tx, row: Session, n: nat)
    requires Inv(w) && start.Refresh? && Rotating(w, t, start, row, n) && row.status == ACTIVE
    requires forall a :: a in schedule ==> InTime(a, t, row)
    ensures Rotating(Run(w, schedule), t, start, row, n + Steps(schedule, t))
    decreases |schedule|
  {
    if schedule != [] {
      var a := schedule[0];
      assert InTime(a, t, row);
      StepKeepsInv(w, a);
      if IsStep(a, t) { OwnStepRotates(w, a, t, start, row, n); } else { OthersKeepRotating(w, a, t, start, row, n); }
      RunRotates(After(w, a), schedule[1..], t, start, row, if IsStep(a, t) then n + 1 else n);
    }
  }

  /** A refresh that holds its user's row and presents an ACTIVE token rotates it whatever runs beside it, as long
      as nothing aborts it and it runs before the expiry: its fourth statement commits the two rows. */
  lemma {:induction false} LiveRefreshRotates(w: World, schedule: seq<Action>, t: nat, now: int)
    requires Inv(w) && t in w.txs && w.txs[t].Refresh? && w.txs[t].pc.ReadSession? && w.txs[t].token in w.sessions
    requires w.sessions[w.txs[t].token].status == ACTIVE && now < w.sessions[w.txs[t].token].expiresAt
    requires forall a :: a in schedule ==> InTime(a, t, w.sessions[w.txs[t].token])
    ensures var w1 := Run(w, schedule);
      var w2, x := After(w1, Proceed(t, now)), w.txs[t];
      && t in w1.txs && w1.txs[t].Refresh?
      && (Steps(schedule, t) >= 4 <==> w1.txs[t].pc == RefreshEnded(Rotated))
      && (Steps(schedule, t) < 4 ==>
            x.token in w1.sessions && w1.sessions[x.token] == w.sessions[x.token] && x.successor !in w1.sessions)
      && (Steps(schedule, t) == 3 ==>
            && t in w2.txs && w2.txs[t].Refresh? && w2.txs[t].pc == RefreshEnded(Rotated)
            && w2.sessions == RotatedRows(w1.sessions, x.token, x.successor, x.expiresAt))
  {
    var x := w.txs[t];
    var w1 := Run(w, schedule);
    RunKeepsInv(w, schedule);
    RunRotates(w, schedule, t, x, w.sessions[x.token], 0);
    assert TxOk(w1, t, w1.txs[t]);
    if Steps(schedule, t) == 3 {
      OwnStepRotates(w1, Proceed(t, now), t, x, w.sessions[x.token], 3);
      RefreshRows(w1, t, now);
    }
  }

  // ---------------------------------------------------------------- a refresh on its own

  function Proceeds(t: nat, now: int, n: nat): seq<Action> {
    if n == 0 then [] else [Proceed(t, now)] + Proceeds(t, now, n - 1)
  }

  lemma {:induction false} ProceedFirst(w: World, t: nat, now: int, n: nat)
    requires n > 0
    ensures Run(w, Proceeds(t, now, n)) == Run(After(w, Proceed(t, now)), Proceeds(t, now, n - 1))
  {
    assert Proceeds(t, now, n)[1..] == Proceeds(t, now, n - 1);
  }

  lemma {:induction false} EndedStays(w: World, t: nat, now: int, n: nat)
    requires t in w.txs && w.txs[t].Refresh? && w.txs[t].pc.RefreshEnded?
    ensures Run(w, Proceeds(t, now, n)) == w
  {
    if n > 0 { ProceedFirst(w, t, now, n); EndedStays(w, t, now, n - 1); }
  }

  lemma {:induction false} ProceedsInTime(t: nat, now: int, n: nat, row: Session)
    requires now < row.expiresAt
    ensures forall a :: a in Proceeds(t, now, n) ==> InTime(a, t, row)
    ensures Steps(Proceeds(t, now, n), t) == n
  {
    if n > 0 {
      ProceedsInTime(t, now, n - 1, row);
      assert Proceeds(t, now, n)[1..] == Proceeds(t, now, n - 1);
    }
  }

  lemma {:induction false} RunSnoc(w: World, schedule: seq<Action>, a: Action)
    ensures Run(w, schedule + [a]) == After(Run(w, schedule), a)
    decreases |schedule|
  {
    if schedule == [] {
      assert schedule + [a] == [a];
      assert Run(w, [a]) == Run(After(w, a), []);
    } else {
      assert (schedule + [a])[0] == schedule[0] && (schedule + [a])[1..] == schedule[1..] + [a];
      RunSnoc(After(w, schedule[0]), schedule[1..], a);
    }
  }

  lemma {:induction false} ProceedsSnoc(t: nat, now: int, n: nat)
    ensures Proceeds(t, now, n + 1) == Proceeds(t, now, n) + [Proceed(t, now)]
  {
    if n > 0 { ProceedsSnoc(t, now, n - 1); }
  }

  /** Up to the moment it holds the user's row and has not read the token's. */
  lemma {:induction false} ReachesLock(w: World, t: nat, token: nat, successor: nat, expiresAt: int, now: int)
    requires Inv(w) && t !in w.txs && successor !in w.issued
    requires token in w.sessions && w.sessions[token].user !in w.userLock
    ensures var owner := w.sessions[token].user;
      var w1 := After(w, BeginRefresh(t, token, successor, expiresAt));
      var w3 := After(After(w1, Proceed(t, now)), Proceed(t, now));
      && Run(w1, Proceeds(t, now, 6)) == Run(w3, Proceeds(t, now, 4))
      && Inv(w3) && w3.sessions == w.sessions && t in w3.txs
      && w3.txs[t] == Refresh(token, successor, expiresAt, owner, map[],
                              if owner in w.users && w.users[owner] then ReadSession else RefreshEnded(Refused))
  {
    var w1 := After(w, BeginRefresh(t, token, successor, expiresAt));
    var w2 := After(w1, Proceed(t, now));
    StepKeepsInv(w, BeginRefresh(t, token, successor, expiresAt));
    StepKeepsInv(w1, Proceed(t, now));
    StepKeepsInv(w2, Proceed(t, now));
    ReachesOwner(w, t, token, successor, expiresAt, now);
    LocksOwner(w2, t, now);
    ProceedFirst(w1, t, now, 6);
    ProceedFirst(w2, t, now, 5);
  }

  lemma {:induction false} ReachesOwner(w: World, t: nat, token: nat, successor: nat, expiresAt: int, now: int)
    requires t !in w.txs && successor !in w.issued && token in w.sessions
    ensures var w2 := After(After(w, BeginRefresh(t, token, successor, expiresAt)), Proceed(t, now));
      && w2.sessions == w.sessions && w2.users == w.users && w2.userLock == w.userLock && t in w2.txs
      && w2.txs[t] == Refresh(token, successor, expiresAt, w.sessions[token].user, map[], LockOwner)
  {
  }

  lemma {:induction false} LocksOwner(w: World, t: nat, now: int)
    requires t in w.txs && w.txs[t].Refresh? && w.txs[t].pc.LockOwner? && w.txs[t].owner !in w.userLock
    requires w.txs[t].writes == map[]
    ensures var w', x := After(w, Proceed(t, now)), w.txs[t];
      && w'.sessions == w.sessions && t in w'.txs
      && w'.txs[t] == x.(pc := if x.owner in w.users && w.users[x.owner] then ReadSession else RefreshEnded(Refused))
  {
  }

  /** From the lock on, with a token that is not to be rotated. */
  lemma {:induction false} ReuseFromLock(w: World, t: nat, now: int)
    requires Inv(w) && t in w.txs && w.txs[t].Refresh? && w.txs[t].pc.ReadSession? && w.txs[t].token in w.sessions
    requires w.sessions[w.txs[t].token].status != ACTIVE || w.sessions[w.txs[t].token].expiresAt <= now
    ensures var w', family := Run(w, Proceeds(t, now, 4)), w.sessions[w.txs[t].token].family;
      && t in w'.txs && w'.txs[t].Refresh? && w'.txs[t].pc == RefreshEnded(Reused)
      && Marked(w.sessions, w'.sessions, FamilyRows(w.sessions, family), COMPROMISED)
  {
    var w1 := After(w, Proceed(t, now));
    var w2 := After(w1, Proceed(t, now));
    StepKeepsInv(w, Proceed(t, now));
    StepKeepsInv(w1, Proceed(t, now));
    ProceedFirst(w, t, now, 4);
    ProceedFirst(w1, t, now, 3);
    ProceedFirst(w2, t, now, 2);
    RefreshRows(w2, t, now);
    EndedStays(After(w2, Proceed(t, now)), t, now, 1);
  }

  /** A refresh that nothing runs beside, exactly: refused for an unknown token or an inactive user, a rotation
      of an ACTIVE token before its expiry, and otherwise the whole family compromised. */
  lemma {:induction false} RefreshAlone(w: World, t: nat, token: nat, successor: nat, expiresAt: int, now: int)
    requires Inv(w) && t !in w.txs && successor !in w.issued
    requires token in w.sessions ==> w.sessions[token].user !in w.userLock
    ensures var w' := Run(After(w, BeginRefresh(t, token, successor, expiresAt)), Proceeds(t, now, 6));
      && t in w'.txs && w'.txs[t].Refresh?
      && if token !in w.sessions then w'.txs[t].pc == RefreshEnded(Refused) && w'.sessions == w.sessions
         else
           var row := w.sessions[token];
           if row.user !in w.users || !w.users[row.user]
           then w'.txs[t].pc == RefreshEnded(Refused) && w'.sessions == w.sessions
           else if row.status == ACTIVE && now < row.expiresAt
           then
             && w'.txs[t].pc == RefreshEnded(Rotated)
             && w'.sessions == RotatedRows(w.sessions, token, successor, expiresAt)
           else
             && w'.txs[t].pc == RefreshEnded(Reused)
             && Marked(w.sessions, w'.sessions, FamilyRows(w.sessions, row.family), COMPROMISED)
  {
    var w1 := After(w, BeginRefresh(t, token, successor, expiresAt));
    if token !in w.sessions {
      ProceedFirst(w1, t, now, 6);
      EndedStays(After(w1, Proceed(t, now)), t, now, 5);
    } else {
      ReachesLock(w, t, token, successor, expiresAt, now);
      var w3 := After(After(w1, Proceed(t, now)), Proceed(t, now));
      if w3.txs[t].pc.RefreshEnded? {
        EndedStays(w3, t, now, 4);
      } else if w.sessions[token].status == ACTIVE && now < w.sessions[token].expiresAt {
        ProceedsInTime(t, now, 3, w.sessions[token]);
        LiveRefreshRotates(w3, Proceeds(t, now, 3), t, now);
        ProceedsSnoc(t, now, 3);
        RunSnoc(w3, Proceeds(t, now, 3), Proceed(t, now));
        RotationAlone(w3, t, now);
      } else {
        ReuseFromLock(w3, t, now);
      }
    }
  }

  /** Its first three statements change no committed row. */
  lemma {:induction false} RotationAlone(w: World, t: nat, now: int)
    requires Inv(w) && t in w.txs && w.txs[t].Refresh? && w.txs[t].pc.ReadSession? && w.txs[t].token in w.sessions
    requires w.sessions[w.txs[t].token].status == ACTIVE && now < w.sessions[w.txs[t].token].expiresAt
    ensures Run(w, Proceeds(t, now, 3)).sessions == w.sessions
  {
    ProceedFirst(w, t, now, 3);
    ProceedFirst(After(w, Proceed(t, now)), t, now, 2);
    ProceedFirst(After(After(w, Proceed(t, now)), Proceed(t, now)), t, now, 1);
  }

  // ---------------------------------------------------------------- logout

  function ActiveRows(sessions: Sessions, user: nat, families: set<nat>): set<nat> {
    set s | s in sessions && sessions[s].user == user && sessions[s].status == ACTIVE && sessions[s].family in families
  }

  /** The families a logout with `token` reaches: the token's own, if it belongs to the user. */
  function FamilyOfToken(sessions: Sessions, user: nat, token: nat): set<nat>
    requires token in sessions
  {
    if sessions[token].user == user then {sessions[token].family} else {}
  }

  ghost predicate Reaches(w: World, t: nat, user: nat, token: nat, families: set<nat>) {
    && t in w.txs && w.txs[t].Revoke? && w.txs[t].user == user && w.txs[t].target == Some(token)
    && token in w.sessions && FamilyOfToken(w.sessions, user, token) == families
    && (w.txs[t].revokePc.CommitRevoke? ==> w.txs[t].families == families)
  }

  lemma {:induction false} TargetIsToken(sessions: Sessions, user: nat, token: nat)
    requires token in sessions
    ensures TargetFamilies(sessions, user, Some(token)) == FamilyOfToken(sessions, user, token)
  {
    if sessions[token].user == user { TargetKnown(sessions, user, Some(token), token); }
  }

  lemma {:induction false} StepReaches(w: World, a: Action, t: nat, user: nat, token: nat, families: set<nat>)
    requires Inv(w) && Reaches(w, t, user, token, families)
    ensures Reaches(After(w, a), t, user, token, families)
  {
    StepNeverRevives(w, a);
    TargetIsToken(w.sessions, user, token);
    if !ActsFor(a, t) { OtherActionsKeepTx(w, a, t); }
  }

  lemma {:induction false} RunReaches(w: World, schedule: seq<Action>, t: nat, user: nat, token: nat,
                                      families: set<nat>)
    requires Inv(w) && Reaches(w, t, user, token, families)
    ensures Reaches(Run(w, schedule), t, user, token, families)
    decreases |schedule|
  {
    if schedule != [] {
      StepKeepsInv(w, schedule[0]);
      StepReaches(w, schedule[0], t, user, token, families);
      RunReaches(After(w, schedule[0]), schedule[1..], t, user, token, families);
    }
  }

  /** The commit of a logout or password change marks the user's ACTIVE rows of the selected families REVOKED
      and changes nothing else. */
  lemma {:induction false} RevokeRows(w: World, t: nat, now: int)
    requires Inv(w) && t in w.txs && w.txs[t].Revoke? && w.txs[t].revokePc.CommitRevoke?
    ensures var w', x := After(w, Proceed(t, now)), w.txs[t];
      && t in w'.txs && w'.txs[t].Revoke? && w'.txs[t].revokePc == RevokeEnded(true)
      && Marked(w.sessions, w'.sessions, ActiveRows(w.sessions, x.user, x.families), REVOKED)
  {
    assert TxOk(w, t, w.txs[t]);
  }

  /** Whatever runs between, a logout with a known token marks exactly the ACTIVE sessions of the token's family
      REVOKED when it commits, and none at all when the token belongs to somebody else. */
  lemma {:induction false} LogoutRevokesFamily(w: World, t: nat, user: nat, token: nat, schedule: seq<Action>, now: int)
    requires Inv(w) && t !in w.txs && token in w.sessions
    requires var w1 := Run(After(w, BeginRevoke(t, user, Some(token))), schedule);
      t in w1.txs && w1.txs[t].Revoke? && w1.txs[t].revokePc.CommitRevoke?
    ensures var w1 := Run(After(w, BeginRevoke(t, user, Some(token))), schedule);
      var w2 := After(w1, Proceed(t, now));
      && t in w2.txs && w2.txs[t].Revoke? && w2.txs[t].revokePc == RevokeEnded(true)
      && Marked(w1.sessions, w2.sessions,
                ActiveRows(w1.sessions, user, FamilyOfToken(w.sessions, user, token)), REVOKED)
  {
    var begun := After(w, BeginRevoke(t, user, Some(token)));
    StepKeepsInv(w, BeginRevoke(t, user, Some(token)));
    RunKeepsInv(begun, schedule);
    RunReaches(begun, schedule, t, user, token, FamilyOfToken(w.sessions, user, token));
    RevokeRows(Run(begun, schedule), t, now);
  }

  // ---------------------------------------------------------------- aborts and account changes

  /** An abort ends what has not ended, with no row changed and every lock given back, and leaves what has ended. */
  lemma {:induction false} AbortOutcome(w: World, t: nat)
    requires t in w.txs
    ensures var w' := After(w, Abort(t));
      && w'.sessions == w.sessions && w'.users == w.users && t in w'.txs
      && if w.txs[t].Refresh? then
           if w.txs[t].pc.RefreshEnded? then w' == w
           else w'.txs[t].Refresh? && w'.txs[t].pc == RefreshEnded(Aborted) && forall u :: !Holds(w', t, u)
         else
           if w.txs[t].revokePc.RevokeEnded? then w' == w
           else w'.txs[t].Revoke? && w'.txs[t].revokePc == RevokeEnded(false) && forall u :: !Holds(w', t, u)
  {
  }

  /** An account is switched on or off exactly when no transaction holds its row, so a refresh that has found its
      user active is not overtaken. */
  lemma {:induction false} AccountChange(w: World, user: nat, isActive: bool)
    ensures var w' := After(w, SetUserActive(user, isActive));
      && w'.sessions == w.sessions && w'.txs == w.txs
      && w'.users == if user in w.userLock then w.users else w.users[user := isActive]
  {
  }

  /** In any run a user's account stays as it is while one transaction keeps the row. */
  lemma {:induction false} LockedAccountStays(w: World, a: Action, t: nat, user: nat)
    requires Holds(w, t, user)
    ensures user in w.users ==> user in After(w, a).users && After(w, a).users[user] == w.users[user]
  {
    if a.Proceed? && a.t in w.txs { TransactionsKeepUsers(w, a.t, w.txs[a.t], a.now); }
  }
}
