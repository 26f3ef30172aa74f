/** Refresh-token families under concurrent logins, rotations, logouts and password changes. */
module RefreshFamilies {
  // Rotation, logout and password change lock the user's row before they touch its sessions; a
  // login inserts a session of a new family without that lock. Each transaction is a sequence of
  // statements that see committed rows; its writes become visible at commit. A session is named
  // by its id, which also stands for its unique token hash.

  import opened Common
  import opened Sorting

  datatype Status = ACTIVE | ROTATED | REVOKED | COMPROMISED

  /** A row of `refresh_token_sessions`. */
  datatype Session = Session(user: nat, family: nat, status: Status, expiresAt: int, replacedBy: Option<nat>)

  type Sessions = map<nat, Session>

  datatype RefreshResult = Refused | Rotated | Reused | Aborted

  datatype RefreshPc =
    | LookUp
    | LockOwner
    | ReadSession
    | InsertSuccessor(row: Session)
    | MarkRotated(row: Session)
    | CommitRotation(row: Session)
    | Compromise(family: nat)
    | CommitCompromise(family: nat)
    | RefreshEnded(result: RefreshResult)

  datatype RevokePc = LockUser | RevokeActive | CommitRevoke | RevokeEnded(committed: bool)

  datatype Tx =
    | Refresh(token: nat, successor: nat, expiresAt: int, owner: nat, writes: Sessions, pc: RefreshPc)
    /** Logout of one token's family, or of everything (`target == None`: revoke-all, password change). */
    | Revoke(user: nat, target: Option<nat>, families: set<nat>, writes: Sessions, revokePc: RevokePc)

  /** `issued` holds every id generated so far, so that new ids are new. */
  datatype World = World(
    users: map<nat, bool>, sessions: Sessions, txs: map<nat, Tx>, userLock: map<nat, nat>, issued: set<nat>)

  datatype Action =
    | Login(user: nat, id: nat, family: nat, expiresAt: int)
    | SetUserActive(user: nat, isActive: bool)
    | BeginRefresh(t: nat, token: nat, successor: nat, expiresAt: int)
    | BeginRevoke(t: nat, user: nat, target: Option<nat>)
    | Proceed(t: nat, now: int)
    | Abort(t: nat)

  // ---------------------------------------------------------------- statements

  function FamiliesOf(sessions: Sessions): set<nat> { set s | s in sessions :: sessions[s].family }

  function UserFamilies(sessions: Sessions, user: nat): set<nat> {
    set s | s in sessions && sessions[s].user == user :: sessions[s].family
  }

  function CompromiseWrites(sessions: Sessions, family: nat): Sessions {
    map s | s in sessions && sessions[s].family == family :: sessions[s].(status := COMPROMISED)
  }

  function RevokeWrites(sessions: Sessions, user: nat, families: set<nat>): Sessions {
    map s | s in sessions && sessions[s].user == user && sessions[s].status == ACTIVE
        && sessions[s].family in families ::
      sessions[s].(status := REVOKED)
  }

  /** The families a revocation selects: its token's, if that belongs to the user, or all of the user's. */
  function TargetFamilies(sessions: Sessions, user: nat, target: Option<nat>): set<nat> {
    set s | s in sessions && sessions[s].user == user && (target.None? || target.value == s) :: sessions[s].family
  }

  function Update(w: World, t: nat, x: Tx): World { w.(txs := w.txs[t := x]) }

  function Unlock(w: World, t: nat): World {
    w.(userLock := map u | u in w.userLock && w.userLock[u] != t :: w.userLock[u])
  }

  predicate Free(w: World, user: nat, t: nat) { user !in w.userLock || w.userLock[user] == t }

  function EndRefresh(w: World, t: nat, x: Tx, result: RefreshResult): World
    requires x.Refresh?
  {
    Update(Unlock(w, t), t, x.(writes := map[], pc := RefreshEnded(result)))
  }

  function ProceedRefresh(w: World, t: nat, x: Tx, now: int): Option<World>
    requires x.Refresh?
  {
    match x.pc
    case LookUp =>
      if x.token !in w.sessions then Some(EndRefresh(w, t, x, Refused))
      else Some(Update(w, t, x.(owner := w.sessions[x.token].user, pc := LockOwner)))
    case LockOwner =>
      if !Free(w, x.owner, t) then None
      else if x.owner !in w.users || !w.users[x.owner] then Some(EndRefresh(w, t, x, Refused))
      else Some(Update(w, t, x.(pc := ReadSession)).(userLock := w.userLock[x.owner := t]))
    case ReadSession =>
      if x.token !in w.sessions then Some(EndRefresh(w, t, x, Refused))
      else
        var row := w.sessions[x.token];
        Some(Update(w, t, x.(pc := if row.status != ACTIVE || row.expiresAt <= now then Compromise(row.family)
                                   else InsertSuccessor(row))))
    case InsertSuccessor(row) =>
      Some(Update(w, t, x.(writes := x.writes[x.successor := Session(row.user, row.family, ACTIVE, x.expiresAt, None)],
                           pc := MarkRotated(row))))
    case MarkRotated(row) =>
      if x.token !in w.sessions then None
      else Some(Update(w, t, x.(writes := x.writes[x.token :=
                    w.sessions[x.token].(status := ROTATED, replacedBy := Some(x.successor))],
                                pc := CommitRotation(row))))
    case CommitRotation(_) => Some(EndRefresh(w, t, x, Rotated).(sessions := w.sessions + x.writes))
    case Compromise(family) =>
      Some(Update(w, t, x.(writes := CompromiseWrites(w.sessions, family), pc := CommitCompromise(family))))
    case CommitCompromise(_) => Some(EndRefresh(w, t, x, Reused).(sessions := w.sessions + x.writes))
    case RefreshEnded(_) => None
  }

  function ProceedRevoke(w: World, t: nat, x: Tx): Option<World>
    requires x.Revoke?
  {
    match x.revokePc
    case LockUser =>
      if !Free(w, x.user, t) then None
      else Some(Update(w, t, x.(revokePc := RevokeActive)).(userLock := w.userLock[x.user := t]))
    case RevokeActive =>
      var families := TargetFamilies(w.sessions, x.user, x.target);
      Some(Update(w, t, x.(families := families, writes := RevokeWrites(w.sessions, x.user, families),
                           revokePc := CommitRevoke)))
    case CommitRevoke =>
      Some(Update(Unlock(w, t), t, x.(writes := map[], revokePc := RevokeEnded(true)))
             .(sessions := w.sessions + x.writes))
    case RevokeEnded(_) => None
  }

  function Next(w: World, a: Action): Option<World> {
    match a
    case Login(user, id, family, expiresAt) =>
      if user !in w.users || id in w.issued || family in FamiliesOf(w.sessions) then None
      else Some(w.(sessions := w.sessions[id := Session(user, family, ACTIVE, expiresAt, None)],
                   issued := w.issued + {id}))
    case SetUserActive(user, isActive) =>
      if user in w.userLock then None else Some(w.(users := w.users[user := isActive]))
    case BeginRefresh(t, token, successor, expiresAt) =>
      if t in w.txs || successor in w.issued then None
      else Some(Update(w, t, Refresh(token, successor, expiresAt, 0, map[], LookUp)).(issued := w.issued + {successor}))
    case BeginRevoke(t, user, target) =>
      if t in w.txs then None else Some(Update(w, t, Revoke(user, target, {}, map[], LockUser)))
    case Proceed(t, now) =>
      if t !in w.txs then None
      else if w.txs[t].Refresh? then ProceedRefresh(w, t, w.txs[t], now) else ProceedRevoke(w, t, w.txs[t])
    case Abort(t) =>
      if t !in w.txs then None
      else if w.txs[t].Refresh? then
        if w.txs[t].pc.RefreshEnded? then None else Some(EndRefresh(w, t, w.txs[t], Aborted))
      else if w.txs[t].revokePc.RevokeEnded? then None
      else Some(Update(Unlock(w, t), t, w.txs[t].(writes := map[], revokePc := RevokeEnded(false))))
  }

  function After(w: World, a: Action): World { match Next(w, a) case Some(w1) => w1 case None => w }

  function Run(w: World, schedule: seq<Action>): World
    decreases |schedule|
  {
    if schedule == [] then w else Run(After(w, schedule[0]), schedule[1..])
  }

  function Start(users: map<nat, bool>): World { World(users, map[], map[], map[], {}) }

  // ---------------------------------------------------------------- invariant

  /** The family's sessions form one chain through `replacedBy`, and only its end may be ACTIVE. */
  ghost predicate IsChain(sessions: Sessions, family: nat, chain: seq<nat>) {
    && chain != [] && Distinct(chain)
    && (forall s :: s in chain <==> s in sessions && sessions[s].family == family)
    && (forall i :: 0 <= i < |chain| - 1 ==> sessions[chain[i]].status != ACTIVE)
    && (forall i, j :: 0 <= i < j < |chain| && j == i + 1 ==> sessions[chain[i]].replacedBy == Some(chain[j]))
    && sessions[chain[|chain| - 1]].replacedBy == None
  }

  ghost predicate HasChain(sessions: Sessions, family: nat) { exists chain :: IsChain(sessions, family, chain) }

  ghost predicate OneUserPerFamily(sessions: Sessions) {
    forall s1, s2 :: s1 in sessions && s2 in sessions && sessions[s1].family == sessions[s2].family ==>
      sessions[s1].user == sessions[s2].user
  }

  ghost predicate ChainsOk(sessions: Sessions) {
    forall s :: s in sessions ==> HasChain(sessions, sessions[s].family)
  }

  ghost predicate SessionsOk(sessions: Sessions) { OneUserPerFamily(sessions) && ChainsOk(sessions) }

  ghost predicate Holds(w: World, t: nat, user: nat) { user in w.userLock && w.userLock[user] == t }

  ghost predicate Dead(sessions: Sessions, family: nat) {
    forall s :: s in sessions && sessions[s].family == family ==> sessions[s].status != ACTIVE
  }

  ghost predicate AllCompromised(sessions: Sessions, family: nat) {
    forall s :: s in sessions && sessions[s].family == family ==> sessions[s].status == COMPROMISED
  }

  function RotationWrites(row: Session, token: nat, successor: nat, expiresAt: int): Sessions {
    map[successor := Session(row.user, row.family, ACTIVE, expiresAt, None),
        token := row.(status := ROTATED, replacedBy := Some(successor))]
  }

  /** What a refresh that has locked its owner's row knows about the committed rows. */
  ghost predicate RefreshOk(w: World, t: nat, x: Tx)
    requires x.Refresh?
  {
    var known := x.token in w.sessions && w.sessions[x.token].user == x.owner;
    match x.pc
    case LookUp => x.writes == map[]
    case LockOwner => known && x.writes == map[]
    case ReadSession => known && Holds(w, t, x.owner) && x.writes == map[]
    case InsertSuccessor(row) =>
      known && Holds(w, t, x.owner) && w.sessions[x.token] == row && row.status == ACTIVE && x.writes == map[]
    case MarkRotated(row) =>
      && known && Holds(w, t, x.owner) && w.sessions[x.token] == row && row.status == ACTIVE
      && x.writes == map[x.successor := Session(row.user, row.family, ACTIVE, x.expiresAt, None)]
    case CommitRotation(row) =>
      && known && Holds(w, t, x.owner) && w.sessions[x.token] == row && row.status == ACTIVE
      && x.writes == RotationWrites(row, x.token, x.successor, x.expiresAt)
    case Compromise(family) =>
      known && Holds(w, t, x.owner) && family == w.sessions[x.token].family && x.writes == map[]
    case CommitCompromise(family) =>
      && known && Holds(w, t, x.owner) && family == w.sessions[x.token].family
      && x.writes == CompromiseWrites(w.sessions, family)
    case RefreshEnded(result) =>
      && x.writes == map[]
      && (result.Reused? ==> x.token in w.sessions && AllCompromised(w.sessions, w.sessions[x.token].family))
  }

  ghost predicate RevokeOk(w: World, t: nat, x: Tx)
    requires x.Revoke?
  {
    match x.revokePc
    case LockUser => x.writes == map[]
    case RevokeActive => Holds(w, t, x.user) && x.writes == map[]
    case CommitRevoke =>
      && Holds(w, t, x.user) && x.families <= UserFamilies(w.sessions, x.user)
      && x.writes == RevokeWrites(w.sessions, x.user, x.families)
    case RevokeEnded(committed) =>
      && x.writes == map[]
      && (committed ==> forall f :: f in x.families ==> f in FamiliesOf(w.sessions) && Dead(w.sessions, f))
  }

  predicate Pending(x: Tx) { x.Refresh? && !x.pc.RefreshEnded? }

  ghost predicate TxOk(w: World, t: nat, x: Tx) {
    && (Pending(x) ==> x.successor in w.issued && x.successor !in w.sessions)
    && (if x.Refresh? then RefreshOk(w, t, x) else RevokeOk(w, t, x))
  }

  ghost predicate Inv(w: World) {
    && SessionsOk(w.sessions) && w.sessions.Keys <= w.issued
    && (forall t :: t in w.txs ==> TxOk(w, t, w.txs[t]))
    && (forall t1, t2 :: t1 in w.txs && t2 in w.txs && t1 != t2 && Pending(w.txs[t1]) && Pending(w.txs[t2]) ==>
          w.txs[t1].successor != w.txs[t2].successor)
  }

  // ---------------------------------------------------------------- effect of a commit

  /** What a commit or a login does to the rows, as a transaction of another user sees it:
      rows stay, keep user and family, are unchanged for other users, and new rows of
      other users belong to new families. */
  ghost predicate Undisturbed(old_: Sessions, new_: Sessions, user: nat) {
    && (forall s :: s in old_ ==> s in new_ && new_[s].user == old_[s].user && new_[s].family == old_[s].family)
    && (forall s :: s in old_ && old_[s].user == user ==> new_[s] == old_[s])
    && (forall s :: s in new_ && s !in old_ && new_[s].user == user ==> new_[s].family !in FamiliesOf(old_))
  }

  /** No commit makes an existing row ACTIVE or un-compromised, or adds to a dead family. */
  ghost predicate NeverRevives(old_: Sessions, new_: Sessions) {
    && (forall s :: s in old_ ==>
          && s in new_ && new_[s].user == old_[s].user && new_[s].family == old_[s].family
          && (new_[s].status == ACTIVE ==> old_[s].status == ACTIVE)
          && (old_[s].status == COMPROMISED ==> new_[s].status == COMPROMISED))
    && (forall s :: s in new_ && s !in old_ && new_[s].family in FamiliesOf(old_) ==> !Dead(old_, new_[s].family))
  }

  lemma {:induction false} FamilyKnown(sessions: Sessions, s: nat)
    requires s in sessions
    ensures sessions[s].family in FamiliesOf(sessions)
  {
  }

  /** A transaction that holds its user's row, or none yet, is not disturbed by other users' commits. */
  lemma {:induction false} OtherCommitsKeepTx(w: World, w': World, t: nat, x: Tx)
    requires SessionsOk(w.sessions) && SessionsOk(w'.sessions) && TxOk(w, t, x)
    requires Undisturbed(w.sessions, w'.sessions, if x.Refresh? then x.owner else x.user)
    requires NeverRevives(w.sessions, w'.sessions)
    requires forall u :: Holds(w, t, u) ==> Holds(w', t, u)
    requires Pending(x) ==> x.successor in w'.issued && x.successor !in w'.sessions
    ensures TxOk(w', t, x)
  {
    if x.Refresh? {
      match x.pc
      case CommitCompromise(family) => SameCompromise(w.sessions, w'.sessions, x.owner, x.token);
      case RefreshEnded(result) =>
        if result.Reused? { DeadFamiliesStay(w.sessions, w'.sessions, w.sessions[x.token].family); }
      case _ =>
    } else {
      match x.revokePc
      case CommitRevoke => SameRevoke(w.sessions, w'.sessions, x.user, x.families);
      case RevokeEnded(committed) =>
        if committed {
          forall f | f in x.families ensures f in FamiliesOf(w'.sessions) && Dead(w'.sessions, f) {
            DeadFamiliesStay(w.sessions, w'.sessions, f);
          }
        }
      case _ =>
    }
  }

  lemma {:induction false} DeadFamiliesStay(old_: Sessions, new_: Sessions, family: nat)
    requires NeverRevives(old_, new_) && family in FamiliesOf(old_) && Dead(old_, family)
    ensures family in FamiliesOf(new_) && Dead(new_, family)
    ensures AllCompromised(old_, family) ==> AllCompromised(new_, family)
  {
    var s :| s in old_ && old_[s].family == family;
    FamilyKnown(new_, s);
  }

  lemma {:induction false} SameCompromise(old_: Sessions, new_: Sessions, user: nat, token: nat)
    requires SessionsOk(old_) && SessionsOk(new_) && Undisturbed(old_, new_, user)
    requires token in old_ && old_[token].user == user
    ensures CompromiseWrites(new_, old_[token].family) == CompromiseWrites(old_, old_[token].family)
  {
    var family := old_[token].family;
    forall s | s in new_ && new_[s].family == family
      ensures s in old_ && old_[s].family == family && new_[s] == old_[s]
    {
      assert new_[s].user == new_[token].user;
      FamilyKnown(old_, token);
    }
  }

  lemma {:induction false} SameRevoke(old_: Sessions, new_: Sessions, user: nat, families: set<nat>)
    requires Undisturbed(old_, new_, user) && families <= UserFamilies(old_, user)
    ensures RevokeWrites(new_, user, families) == RevokeWrites(old_, user, families)
    ensures families <= UserFamilies(new_, user)
  {
    forall f | f in families ensures f in UserFamilies(new_, user) {
      var s :| s in old_ && old_[s].user == user && old_[s].family == f;
      assert new_[s].user == user && new_[s].family == f;
    }
    forall s | s in new_ && new_[s].user == user && new_[s].family in families ensures s in old_ && new_[s] == old_[s] {
      var s2 :| s2 in old_ && old_[s2].user == user && old_[s2].family == new_[s].family;
      FamilyKnown(old_, s2);
    }
  }

  // ---------------------------------------------------------------- chains

  /** Rows of one user change status only: nothing becomes ACTIVE, nothing leaves COMPROMISED. */
  ghost predicate StatusChange(old_: Sessions, new_: Sessions, user: nat) {
    && old_.Keys == new_.Keys
    && (forall s :: s in old_ ==>
          && new_[s] == old_[s].(status := new_[s].status)
          && (new_[s].status == ACTIVE ==> old_[s].status == ACTIVE)
          && (old_[s].status == COMPROMISED ==> new_[s].status == COMPROMISED)
          && (old_[s].user != user ==> new_[s] == old_[s]))
  }

  lemma {:induction false} StatusChangeEffect(old_: Sessions, new_: Sessions, user: nat)
    requires SessionsOk(old_) && StatusChange(old_, new_, user)
    ensures SessionsOk(new_) && NeverRevives(old_, new_)
    ensures forall u :: u != user ==> Undisturbed(old_, new_, u)
  {
    StatusChangeKeepsChains(old_, new_, user);
  }

  lemma {:induction false} StatusChangeKeepsChains(old_: Sessions, new_: Sessions, user: nat)
    requires ChainsOk(old_) && StatusChange(old_, new_, user)
    ensures ChainsOk(new_)
  {
    forall s | s in new_ ensures HasChain(new_, new_[s].family) {
      var chain :| IsChain(old_, old_[s].family, chain);
      StatusChangeKeepsChain(old_, new_, user, old_[s].family, chain);
    }
  }

  lemma {:induction false} StatusChangeKeepsChain(old_: Sessions, new_: Sessions, user: nat, family: nat,
                                                  chain: seq<nat>)
    requires StatusChange(old_, new_, user) && IsChain(old_, family, chain)
    ensures IsChain(new_, family, chain)
  {
    forall i | 0 <= i < |chain| ensures chain[i] in old_ { assert chain[i] in chain; }
  }

  /** An ACTIVE session is the end of its family's chain. */
  lemma {:induction false} ActiveIsLast(sessions: Sessions, chain: seq<nat>, s: nat)
    requires s in sessions && sessions[s].status == ACTIVE && IsChain(sessions, sessions[s].family, chain)
    ensures chain[|chain| - 1] == s
  {
    assert s in chain;
    var i :| 0 <= i < |chain| && chain[i] == s;
  }

  /** Rotation appends the successor to the chain of the ACTIVE session it replaces. */
  lemma {:induction false} RotationExtendsChain(sessions: Sessions, token: nat, successor: nat, expiresAt: int,
                                                chain: seq<nat>)
    requires token in sessions && sessions[token].status == ACTIVE && successor !in sessions
    requires IsChain(sessions, sessions[token].family, chain)
    ensures IsChain(sessions + RotationWrites(sessions[token], token, successor, expiresAt),
                    sessions[token].family, chain + [successor])
  {
    ActiveIsLast(sessions, chain, token);
    var new_ := sessions + RotationWrites(sessions[token], token, successor, expiresAt);
    var longer := chain + [successor];
    forall i | 0 <= i < |chain| ensures chain[i] in sessions && chain[i] != successor { assert chain[i] in chain; }
    forall i | 0 <= i < |longer| - 1
      ensures new_[longer[i]].replacedBy == Some(longer[i + 1]) && new_[longer[i]].status != ACTIVE
    {
      if i == |chain| - 1 { assert longer[i] == token; } else { assert longer[i] == chain[i] != token; }
    }
  }

  lemma {:induction false} OtherChainsStay(old_: Sessions, new_: Sessions, family: nat, chain: seq<nat>)
    requires IsChain(old_, family, chain)
    requires forall s :: s in old_ && old_[s].family == family ==> s in new_ && new_[s] == old_[s]
    requires forall s :: s in new_ && new_[s].family == family ==> s in old_ && old_[s].family == family
    ensures IsChain(new_, family, chain)
  {
    forall i | 0 <= i < |chain|
      ensures chain[i] in old_ && old_[chain[i]].family == family
    {
      assert chain[i] in chain;
    }
  }

  lemma {:induction false} RotationKeepsChains(sessions: Sessions, token: nat, successor: nat, expiresAt: int,
                                               family: nat)
    requires HasChain(sessions, family) && token in sessions
      && sessions[token].status == ACTIVE && successor !in sessions
    ensures HasChain(sessions + RotationWrites(sessions[token], token, successor, expiresAt), family)
  {
    var new_ := sessions + RotationWrites(sessions[token], token, successor, expiresAt);
    var chain :| IsChain(sessions, family, chain);
    if family == sessions[token].family {
      RotationExtendsChain(sessions, token, successor, expiresAt, chain);
    } else {
      OtherChainsStay(sessions, new_, family, chain);
    }
  }

  /** Each row after a rotation has the user and family of a row from before it. */
  lemma {:induction false} RotationRow(sessions: Sessions, token: nat, successor: nat, expiresAt: int, s: nat)
    returns (origin: nat)
    requires token in sessions && successor !in sessions
    requires s in sessions + RotationWrites(sessions[token], token, successor, expiresAt)
    ensures var row := (sessions + RotationWrites(sessions[token], token, successor, expiresAt))[s];
      && origin in sessions && sessions[origin].family == row.family && sessions[origin].user == row.user
  {
    origin := if s == successor then token else s;
  }

  lemma {:induction false} RotationKeepsUsers(sessions: Sessions, token: nat, successor: nat, expiresAt: int)
    requires OneUserPerFamily(sessions) && token in sessions && successor !in sessions
    requires sessions[token].status == ACTIVE
    ensures var new_ := sessions + RotationWrites(sessions[token], token, successor, expiresAt);
      && OneUserPerFamily(new_) && NeverRevives(sessions, new_)
      && forall u :: u != sessions[token].user ==> Undisturbed(sessions, new_, u)
  {
    var new_ := sessions + RotationWrites(sessions[token], token, successor, expiresAt);
    forall s1, s2 | s1 in new_ && s2 in new_ && new_[s1].family == new_[s2].family
      ensures new_[s1].user == new_[s2].user
    {
      var o1 := RotationRow(sessions, token, successor, expiresAt, s1);
      var o2 := RotationRow(sessions, token, successor, expiresAt, s2);
    }
    assert !Dead(sessions, sessions[token].family);
    assert NeverRevives(sessions, new_);
  }

  lemma {:induction false} RotationKeepsAllChains(sessions: Sessions, token: nat, successor: nat, expiresAt: int)
    requires ChainsOk(sessions) && token in sessions && sessions[token].status == ACTIVE && successor !in sessions
    ensures ChainsOk(sessions + RotationWrites(sessions[token], token, successor, expiresAt))
  {
    forall s | s in sessions + RotationWrites(sessions[token], token, successor, expiresAt)
      ensures HasChain(sessions + RotationWrites(sessions[token], token, successor, expiresAt),
                       (sessions + RotationWrites(sessions[token], token, successor, expiresAt))[s].family)
    {
      var origin := RotationRow(sessions, token, successor, expiresAt, s);
      assert HasChain(sessions, sessions[origin].family);
      RotationKeepsChains(sessions, token, successor, expiresAt, sessions[origin].family);
    }
  }

  lemma {:induction false} LoginKeepsSessions(sessions: Sessions, id: nat, row: Session)
    requires SessionsOk(sessions) && id !in sessions && row.family !in FamiliesOf(sessions)
    requires row.status == ACTIVE && row.replacedBy == None
    ensures SessionsOk(sessions[id := row])
  {
    var new_ := sessions[id := row];
    forall s | s in sessions ensures sessions[s].family != row.family { FamilyKnown(sessions, s); }
    forall s | s in new_ ensures HasChain(new_, new_[s].family) {
      if s == id {
        assert IsChain(new_, row.family, [id]);
      } else {
        var chain :| IsChain(sessions, sessions[s].family, chain);
        OtherChainsStay(sessions, new_, sessions[s].family, chain);
      }
    }
  }

  // ---------------------------------------------------------------- preservation

  /** The rows a commit leaves behind. */
  ghost predicate CommitOk(old_: Sessions, new_: Sessions, user: nat, added: set<nat>) {
    && new_.Keys <= old_.Keys + added
    && SessionsOk(new_) && NeverRevives(old_, new_)
    && forall u :: u != user ==> Undisturbed(old_, new_, u)
  }

  lemma {:induction false} RotationCommits(w: World, t: nat, x: Tx)
    requires Inv(w) && TxOk(w, t, x) && x.Refresh? && x.pc.CommitRotation?
    ensures CommitOk(w.sessions, w.sessions + x.writes, x.owner, {x.successor})
  {
    RotationKeepsUsers(w.sessions, x.token, x.successor, x.expiresAt);
    RotationKeepsAllChains(w.sessions, x.token, x.successor, x.expiresAt);
  }

  lemma {:induction false} CompromiseIsStatusChange(sessions: Sessions, token: nat)
    requires OneUserPerFamily(sessions) && token in sessions
    ensures StatusChange(sessions, sessions + CompromiseWrites(sessions, sessions[token].family), sessions[token].user)
  {
  }

  lemma {:induction false} RevokeIsStatusChange(sessions: Sessions, user: nat, families: set<nat>)
    ensures StatusChange(sessions, sessions + RevokeWrites(sessions, user, families), user)
  {
  }

  lemma {:induction false} StatusChangeCommits(old_: Sessions, new_: Sessions, user: nat)
    requires SessionsOk(old_) && StatusChange(old_, new_, user)
    ensures CommitOk(old_, new_, user, {})
  {
    StatusChangeEffect(old_, new_, user);
  }

  lemma {:induction false} CompromisedRowsCommit(sessions: Sessions, token: nat, user: nat, writes: Sessions)
    requires SessionsOk(sessions) && token in sessions && user == sessions[token].user
    requires writes == CompromiseWrites(sessions, sessions[token].family)
    ensures CommitOk(sessions, sessions + writes, user, {})
  {
    CompromiseIsStatusChange(sessions, token);
    StatusChangeCommits(sessions, sessions + writes, user);
  }

  lemma {:induction false} CompromiseCommits(w: World, t: nat, x: Tx)
    requires SessionsOk(w.sessions) && TxOk(w, t, x) && x.Refresh? && x.pc.CommitCompromise?
    ensures CommitOk(w.sessions, w.sessions + x.writes, x.owner, {})
  {
    CompromisedRowsCommit(w.sessions, x.token, x.owner, x.writes);
  }

  lemma {:induction false} RevokeCommits(w: World, t: nat, x: Tx)
    requires SessionsOk(w.sessions) && TxOk(w, t, x) && x.Revoke? && x.revokePc.CommitRevoke?
    ensures CommitOk(w.sessions, w.sessions + x.writes, x.user, {})
  {
    RevokeIsStatusChange(w.sessions, x.user, x.families);
    StatusChangeCommits(w.sessions, w.sessions + RevokeWrites(w.sessions, x.user, x.families), x.user);
  }

  /** A commit of a transaction that holds `user`'s row keeps every other transaction's knowledge. */
  lemma {:induction false} CommitKeepsOther(w: World, w': World, t: nat, user: nat, added: set<nat>, t2: nat)
    requires Inv(w) && CommitOk(w.sessions, w'.sessions, user, added)
      && w'.issued == w.issued && t in w.txs && t != t2 && t2 in w.txs
    requires Holds(w, t, user)
    requires forall u :: Holds(w, t2, u) ==> Holds(w', t2, u)
    requires forall s :: s in added ==> Pending(w.txs[t]) && s == w.txs[t].successor
    ensures TxOk(w', t2, w.txs[t2])
  {
    var x2 := w.txs[t2];
    assert TxOk(w, t2, x2);
    var user2 := if x2.Refresh? then x2.owner else x2.user;
    if user2 != user || !UsesRows(x2) {
      if user2 != user { OtherCommitsKeepTx(w, w', t2, x2); } else { IdleTxIsKept(w, w', t2, x2); }
    }
  }

  /** Statuses in which a transaction's knowledge does not depend on other sessions of its user. */
  predicate UsesRows(x: Tx) {
    if x.Refresh? then !x.pc.LookUp? && !x.pc.LockOwner? && !x.pc.RefreshEnded?
    else !x.revokePc.LockUser? && !x.revokePc.RevokeEnded?
  }

  lemma {:induction false} IdleTxIsKept(w: World, w': World, t: nat, x: Tx)
    requires TxOk(w, t, x) && !UsesRows(x) && NeverRevives(w.sessions, w'.sessions)
    requires Pending(x) ==> x.successor in w'.issued && x.successor !in w'.sessions
    ensures TxOk(w', t, x)
  {
    if x.Refresh? && x.pc == RefreshEnded(Reused) {
      FamilyKnown(w.sessions, x.token);
      CompromisedIsDead(w.sessions, w.sessions[x.token].family);
      DeadFamiliesStay(w.sessions, w'.sessions, w.sessions[x.token].family);
    } else if x.Revoke? && x.revokePc == RevokeEnded(true) {
      forall f | f in x.families ensures f in FamiliesOf(w'.sessions) && Dead(w'.sessions, f) {
        DeadFamiliesStay(w.sessions, w'.sessions, f);
      }
    }
  }

  lemma {:induction false} CompromisedIsDead(sessions: Sessions, family: nat)
    requires AllCompromised(sessions, family)
    ensures Dead(sessions, family)
  {
  }

  lemma {:induction false} LoginEffect(sessions: Sessions, id: nat, row: Session, user: nat)
    requires id !in sessions && row.family !in FamiliesOf(sessions)
    ensures NeverRevives(sessions, sessions[id := row])
    ensures Undisturbed(sessions, sessions[id := row], user)
  {
    forall s | s in sessions ensures sessions[s].family != row.family { FamilyKnown(sessions, s); }
  }

  lemma {:induction false} LoginStep(w: World, a: Action)
    requires Inv(w) && a.Login? && Next(w, a).Some?
    ensures Inv(Next(w, a).value)
  {
    var w' := Next(w, a).value;
    var row := Session(a.user, a.family, ACTIVE, a.expiresAt, None);
    LoginKeepsSessions(w.sessions, a.id, row);
    forall t | t in w'.txs ensures TxOk(w', t, w'.txs[t]) {
      LoginEffect(w.sessions, a.id, row, if w.txs[t].Refresh? then w.txs[t].owner else w.txs[t].user);
      OtherCommitsKeepTx(w, w', t, w.txs[t]);
    }
  }

  /** A step of `t` that leaves the committed rows alone. */
  lemma {:induction false} OwnStep(w: World, w': World, t: nat)
    requires Inv(w) && w'.sessions == w.sessions && w.issued <= w'.issued
    requires t in w'.txs && w'.txs == w.txs[t := w'.txs[t]] && TxOk(w', t, w'.txs[t])
    requires forall t2, u :: t2 != t && Holds(w, t2, u) ==> Holds(w', t2, u)
    requires Pending(w'.txs[t]) ==> forall t2 :: t2 in w.txs && t2 != t && Pending(w.txs[t2]) ==>
               w.txs[t2].successor != w'.txs[t].successor
    ensures Inv(w')
  {
    forall t2 | t2 in w'.txs && t2 != t ensures TxOk(w', t2, w'.txs[t2]) { assert TxOk(w, t2, w.txs[t2]); }
  }

  /** `t` commits its writes, ends and releases its locks; `added` are the ids of new rows. */
  ghost predicate Commits(w: World, w': World, t: nat, user: nat, added: set<nat>) {
    && t in w.txs && Holds(w, t, user) && added <= w.issued
    && w'.sessions == w.sessions + w.txs[t].writes && w'.issued == w.issued
    && t in w'.txs && w'.txs == w.txs[t := w'.txs[t]] && TxOk(w', t, w'.txs[t]) && !Pending(w'.txs[t])
    && (forall t2, u :: t2 != t && Holds(w, t2, u) ==> Holds(w', t2, u))
    && (forall s :: s in added ==> Pending(w.txs[t]) && s == w.txs[t].successor)
  }

  lemma {:induction false} CommitStep(w: World, w': World, t: nat, user: nat, added: set<nat>)
    requires Inv(w) && Commits(w, w', t, user, added)
    requires CommitOk(w.sessions, w.sessions + w.txs[t].writes, user, added)
    ensures Inv(w')
  {
    forall t2 | t2 in w'.txs && t2 != t
      ensures TxOk(w', t2, w'.txs[t2])
    {
      CommitKeepsOther(w, w', t, user, added, t2);
    }
  }

  lemma {:induction false} FirstReads(w: World, t: nat, now: int)
    requires Inv(w) && t in w.txs && w.txs[t].Refresh? && ProceedRefresh(w, t, w.txs[t], now).Some?
    requires w.txs[t].pc.LookUp? || w.txs[t].pc.LockOwner?
    ensures var w' := ProceedRefresh(w, t, w.txs[t], now).value;
      && w'.sessions == w.sessions && w'.issued == w.issued && t in w'.txs && w'.txs == w.txs[t := w'.txs[t]]
      && TxOk(w', t, w'.txs[t]) && w'.txs[t].Refresh? && w'.txs[t].successor == w.txs[t].successor
      && (forall t2, u :: t2 != t && Holds(w, t2, u) ==> Holds(w', t2, u))
  {
    assert TxOk(w, t, w.txs[t]);
  }

  lemma {:induction false} LockedReads(w: World, t: nat, now: int)
    requires Inv(w) && t in w.txs && w.txs[t].Refresh? && ProceedRefresh(w, t, w.txs[t], now).Some?
    requires w.txs[t].pc.ReadSession? || w.txs[t].pc.Compromise?
    ensures var w' := ProceedRefresh(w, t, w.txs[t], now).value;
      && w'.sessions == w.sessions && w'.issued == w.issued && t in w'.txs && w'.txs == w.txs[t := w'.txs[t]]
      && TxOk(w', t, w'.txs[t]) && w'.txs[t].Refresh? && w'.txs[t].successor == w.txs[t].successor
      && (forall t2, u :: t2 != t && Holds(w, t2, u) ==> Holds(w', t2, u))
  {
    assert TxOk(w, t, w.txs[t]);
  }

  lemma {:induction false} RotationWritten(w: World, t: nat, now: int)
    requires Inv(w) && t in w.txs && w.txs[t].Refresh? && ProceedRefresh(w, t, w.txs[t], now).Some?
    requires w.txs[t].pc.InsertSuccessor? || w.txs[t].pc.MarkRotated?
    ensures var w' := ProceedRefresh(w, t, w.txs[t], now).value;
      && w'.sessions == w.sessions && w'.issued == w.issued && t in w'.txs && w'.txs == w.txs[t := w'.txs[t]]
      && TxOk(w', t, w'.txs[t]) && w'.txs[t].Refresh? && w'.txs[t].successor == w.txs[t].successor
      && (forall t2, u :: t2 != t && Holds(w, t2, u) ==> Holds(w', t2, u))
  {
    assert TxOk(w, t, w.txs[t]);
  }

  lemma {:induction false} RefreshOwnStep(w: World, t: nat, now: int)
    requires Inv(w) && t in w.txs && w.txs[t].Refresh? && ProceedRefresh(w, t, w.txs[t], now).Some?
    requires !w.txs[t].pc.CommitRotation? && !w.txs[t].pc.CommitCompromise?
    ensures var w' := ProceedRefresh(w, t, w.txs[t], now).value;
      && w'.sessions == w.sessions && w'.issued == w.issued && t in w'.txs && w'.txs == w.txs[t := w'.txs[t]]
      && TxOk(w', t, w'.txs[t]) && w'.txs[t].Refresh? && w'.txs[t].successor == w.txs[t].successor
      && (forall t2, u :: t2 != t && Holds(w, t2, u) ==> Holds(w', t2, u))
  {
    match w.txs[t].pc
    case LookUp => FirstReads(w, t, now);
    case LockOwner => FirstReads(w, t, now);
    case ReadSession => LockedReads(w, t, now);
    case Compromise(_) => LockedReads(w, t, now);
    case InsertSuccessor(_) => RotationWritten(w, t, now);
    case MarkRotated(_) => RotationWritten(w, t, now);
    case RefreshEnded(_) =>
  }

  lemma {:induction false} RotationEnds(w: World, t: nat, now: int, w': World)
    requires t in w.txs && w.txs[t].Refresh? && w.txs[t].pc.CommitRotation? && TxOk(w, t, w.txs[t])
    requires ProceedRefresh(w, t, w.txs[t], now) == Some(w')
    ensures Commits(w, w', t, w.txs[t].owner, {w.txs[t].successor})
  {
    EndFrame(w, t, w.txs[t], Rotated);
  }

  lemma {:induction false} RotationStep(w: World, t: nat, now: int, w': World)
    requires Inv(w) && t in w.txs && w.txs[t].Refresh? && w.txs[t].pc.CommitRotation?
    requires ProceedRefresh(w, t, w.txs[t], now) == Some(w')
    ensures Inv(w')
  {
    assert TxOk(w, t, w.txs[t]);
    RotationEnds(w, t, now, w');
    RotationCommits(w, t, w.txs[t]);
    CommitStep(w, w', t, w.txs[t].owner, {w.txs[t].successor});
  }

  lemma {:induction false} CompromiseEnds(w: World, t: nat, now: int, w': World)
    requires t in w.txs && w.txs[t].Refresh? && w.txs[t].pc.CommitCompromise? && TxOk(w, t, w.txs[t])
    requires ProceedRefresh(w, t, w.txs[t], now) == Some(w')
    ensures Commits(w, w', t, w.txs[t].owner, {})
  {
    EndFrame(w, t, w.txs[t], Reused);
    assert AllCompromised(w'.sessions, w'.sessions[w.txs[t].token].family);
  }

  lemma {:induction false} CompromiseStep(w: World, t: nat, now: int, w': World)
    requires Inv(w) && t in w.txs && w.txs[t].Refresh? && w.txs[t].pc.CommitCompromise?
    requires ProceedRefresh(w, t, w.txs[t], now) == Some(w')
    ensures Inv(w')
  {
    assert TxOk(w, t, w.txs[t]);
    CompromiseEnds(w, t, now, w');
    CompromiseCommits(w, t, w.txs[t]);
    CommitStep(w, w', t, w.txs[t].owner, {});
  }

  lemma {:induction false} EndFrame(w: World, t: nat, x: Tx, result: RefreshResult)
    requires x.Refresh? && t in w.txs
    ensures var w' := EndRefresh(w, t, x, result);
      && w'.sessions == w.sessions && w'.issued == w.issued
      && t in w'.txs && w'.txs[t] == x.(writes := map[], pc := RefreshEnded(result)) && w'.txs == w.txs[t := w'.txs[t]]
      && (forall t2, u :: t2 != t && Holds(w, t2, u) ==> Holds(w', t2, u))
  {
  }

  lemma {:induction false} RefreshStep(w: World, t: nat, now: int, w': World)
    requires Inv(w) && t in w.txs && w.txs[t].Refresh?
    requires ProceedRefresh(w, t, w.txs[t], now) == Some(w')
    ensures Inv(w')
  {
    if w.txs[t].pc.CommitRotation? {
      RotationStep(w, t, now, w');
    } else if w.txs[t].pc.CommitCompromise? {
      CompromiseStep(w, t, now, w');
    } else {
      RefreshOwnStep(w, t, now);
      OwnStep(w, w', t);
    }
  }

  lemma {:induction false} RevokedIsDead(sessions: Sessions, user: nat, families: set<nat>, f: nat)
    requires OneUserPerFamily(sessions) && families <= UserFamilies(sessions, user) && f in families
    ensures f in FamiliesOf(sessions + RevokeWrites(sessions, user, families))
      && Dead(sessions + RevokeWrites(sessions, user, families), f)
  {
    var s :| s in sessions && sessions[s].user == user && sessions[s].family == f;
    assert (sessions + RevokeWrites(sessions, user, families))[s].family == f;
  }

  lemma {:induction false} RevokedAreDead(w: World, t: nat, x: Tx)
    requires Inv(w) && TxOk(w, t, x) && x.Revoke? && x.revokePc.CommitRevoke?
    ensures forall f :: f in x.families ==> f in FamiliesOf(w.sessions + x.writes) && Dead(w.sessions + x.writes, f)
  {
    forall f | f in x.families ensures f in FamiliesOf(w.sessions + x.writes) && Dead(w.sessions + x.writes, f) {
      RevokedIsDead(w.sessions, x.user, x.families, f);
    }
  }

  lemma {:induction false} RevokeOwnStep(w: World, t: nat)
    requires Inv(w) && t in w.txs && w.txs[t].Revoke? && ProceedRevoke(w, t, w.txs[t]).Some?
    requires !w.txs[t].revokePc.CommitRevoke?
    ensures var w' := ProceedRevoke(w, t, w.txs[t]).value;
      && w'.sessions == w.sessions && w'.issued == w.issued && t in w'.txs && w'.txs == w.txs[t := w'.txs[t]]
      && TxOk(w', t, w'.txs[t]) && w'.txs[t].Revoke?
      && (forall t2, u :: t2 != t && Holds(w, t2, u) ==> Holds(w', t2, u))
  {
    assert TxOk(w, t, w.txs[t]);
  }

  lemma {:induction false} RevokeEnds(w: World, t: nat, w': World)
    requires Inv(w) && t in w.txs && w.txs[t].Revoke? && w.txs[t].revokePc.CommitRevoke?
    requires ProceedRevoke(w, t, w.txs[t]) == Some(w')
    ensures Commits(w, w', t, w.txs[t].user, {})
  {
    assert TxOk(w, t, w.txs[t]);
    RevokedAreDead(w, t, w.txs[t]);
  }

  lemma {:induction false} RevokeStep(w: World, t: nat, w': World)
    requires Inv(w) && t in w.txs && w.txs[t].Revoke?
    requires ProceedRevoke(w, t, w.txs[t]) == Some(w')
    ensures Inv(w')
  {
    assert TxOk(w, t, w.txs[t]);
    if w.txs[t].revokePc.CommitRevoke? {
      RevokeEnds(w, t, w');
      RevokeCommits(w, t, w.txs[t]);
      CommitStep(w, w', t, w.txs[t].user, {});
    } else {
      RevokeOwnStep(w, t);
      OwnStep(w, w', t);
    }
  }

  lemma {:induction false} BeginStep(w: World, a: Action)
    requires Inv(w) && (a.BeginRefresh? || a.BeginRevoke?) && Next(w, a).Some?
    ensures Inv(Next(w, a).value)
  {
    OwnStep(w, Next(w, a).value, a.t);
  }

  lemma {:induction false} AbortStep(w: World, a: Action)
    requires Inv(w) && a.Abort? && Next(w, a).Some?
    ensures Inv(Next(w, a).value)
  {
    OwnStep(w, Next(w, a).value, a.t);
  }

  lemma {:induction false} UserStep(w: World, a: Action)
    requires Inv(w) && a.SetUserActive? && Next(w, a).Some?
    ensures Inv(Next(w, a).value)
  {
    assert forall t :: t in w.txs ==> TxOk(w, t, w.txs[t]);
    assert forall t :: t in w.txs ==> TxOk(Next(w, a).value, t, w.txs[t]);
  }

  /** Every step keeps the chains and every transaction's view of the rows it has locked. */
  lemma {:induction false} StepKeepsInv(w: World, a: Action)
    requires Inv(w)
    ensures Inv(After(w, a))
  {
    if Next(w, a).Some? {
      match a
      case Login(_, _, _, _) => LoginStep(w, a);
      case SetUserActive(_, _) => UserStep(w, a);
      case Proceed(t, now) =>
        if w.txs[t].Refresh? { RefreshStep(w, t, now, After(w, a)); } else { RevokeStep(w, t, After(w, a)); }
      case BeginRefresh(_, _, _, _) => BeginStep(w, a);
      case BeginRevoke(_, _, _) => BeginStep(w, a);
      case Abort(_) => AbortStep(w, a);
    }
  }

  lemma {:induction false} RunKeepsInv(w: World, schedule: seq<Action>)
    requires Inv(w)
    ensures Inv(Run(w, schedule))
    decreases |schedule|
  {
    if schedule != [] {
      StepKeepsInv(w, schedule[0]);
      RunKeepsInv(After(w, schedule[0]), schedule[1..]);
    }
  }

  // ---------------------------------------------------------------- results over all runs

  /** In every interleaving each family is one acyclic chain with at most one ACTIVE session, its end. */
  lemma {:induction false} AllRunsKeepChains(users: map<nat, bool>, schedule: seq<Action>, s1: nat, s2: nat)
    ensures var sessions := Run(Start(users), schedule).sessions;
      && ChainsOk(sessions)
      && (s1 in sessions && s2 in sessions && sessions[s1].family == sessions[s2].family ==>
            sessions[s1].status == ACTIVE && sessions[s2].status == ACTIVE ==> s1 == s2)
  {
    RunKeepsInv(Start(users), schedule);
    var sessions := Run(Start(users), schedule).sessions;
    if s1 in sessions && s2 in sessions && sessions[s1].family == sessions[s2].family
       && sessions[s1].status == ACTIVE && sessions[s2].status == ACTIVE
    {
      var chain :| IsChain(sessions, sessions[s1].family, chain);
      ActiveIsLast(sessions, chain, s1);
      ActiveIsLast(sessions, chain, s2);
    }
  }

  lemma {:induction false} RefreshNeverRevives(w: World, t: nat, now: int)
    requires Inv(w) && t in w.txs && w.txs[t].Refresh?
    ensures match ProceedRefresh(w, t, w.txs[t], now)
      case None => true
      case Some(w') => NeverRevives(w.sessions, w'.sessions)
  {
    var x := w.txs[t];
    assert TxOk(w, t, x);
    assert NeverRevives(w.sessions, w.sessions);
    match x.pc
    case CommitRotation(_) => RotationCommits(w, t, x);
    case CommitCompromise(_) => CompromiseCommits(w, t, x);
    case _ =>
  }

  lemma {:induction false} RevokeNeverRevives(w: World, t: nat)
    requires Inv(w) && t in w.txs && w.txs[t].Revoke?
    ensures match ProceedRevoke(w, t, w.txs[t]) case None => true case Some(w') => NeverRevives(w.sessions, w'.sessions)
  {
    var x := w.txs[t];
    assert TxOk(w, t, x);
    assert NeverRevives(w.sessions, w.sessions);
    if x.revokePc.CommitRevoke? { RevokeCommits(w, t, x); }
  }

  lemma {:induction false} StepNeverRevives(w: World, a: Action)
    requires Inv(w)
    ensures NeverRevives(w.sessions, After(w, a).sessions)
  {
    assert NeverRevives(w.sessions, w.sessions);
    match a
    case Login(user, id, family, expiresAt) =>
      if Next(w, a).Some? { LoginEffect(w.sessions, id, Session(user, family, ACTIVE, expiresAt, None), user); }
    case Proceed(t, now) =>
      if t in w.txs {
        if w.txs[t].Refresh? { RefreshNeverRevives(w, t, now); } else { RevokeNeverRevives(w, t); }
      }
    case _ =>
  }

  predicate ActsFor(a: Action, t: nat) { !a.Login? && !a.SetUserActive? && a.t == t }

  lemma {:induction false} RefreshKeepsOthers(w: World, t: nat, x: Tx, now: int, t2: nat)
    requires x.Refresh? && t2 in w.txs && t2 != t
    ensures match ProceedRefresh(w, t, x, now)
      case None => true
      case Some(w') => t2 in w'.txs && w'.txs[t2] == w.txs[t2]
  {
  }

  lemma {:induction false} RevokeKeepsOthers(w: World, t: nat, x: Tx, t2: nat)
    requires x.Revoke? && t2 in w.txs && t2 != t
    ensures match ProceedRevoke(w, t, x) case None => true case Some(w') => t2 in w'.txs && w'.txs[t2] == w.txs[t2]
  {
  }

  lemma {:induction false} OtherActionsKeepTx(w: World, a: Action, t: nat)
    requires t in w.txs && !ActsFor(a, t)
    ensures t in After(w, a).txs && After(w, a).txs[t] == w.txs[t]
  {
    if a.Proceed? && a.t in w.txs {
      if w.txs[a.t].Refresh? { RefreshKeepsOthers(w, a.t, w.txs[a.t], a.now, t); }
      else { RevokeKeepsOthers(w, a.t, w.txs[a.t], t); }
    }
  }

  /** A family that has lost its ACTIVE session never gains one again, and a compromised family
      stays wholly compromised, whatever happens afterwards. */
  lemma {:induction false} DeadFamilyStaysDead(w: World, schedule: seq<Action>, family: nat)
    requires Inv(w) && family in FamiliesOf(w.sessions) && Dead(w.sessions, family)
    ensures Dead(Run(w, schedule).sessions, family)
    ensures AllCompromised(w.sessions, family) ==> AllCompromised(Run(w, schedule).sessions, family)
    decreases |schedule|
  {
    if schedule != [] {
      StepKeepsInv(w, schedule[0]);
      StepNeverRevives(w, schedule[0]);
      DeadFamiliesStay(w.sessions, After(w, schedule[0]).sessions, family);
      DeadFamilyStaysDead(After(w, schedule[0]), schedule[1..], family);
    }
  }

  /** The revocation `t` has this family in its sights, or has already dealt with it. */
  ghost predicate RevokesFamily(w: World, t: nat, family: nat) {
    && t in w.txs && w.txs[t].Revoke?
    && match w.txs[t].revokePc
       case CommitRevoke => family in w.txs[t].families
       case RevokeEnded(committed) => committed ==> family in w.txs[t].families
       case _ => family in TargetFamilies(w.sessions, w.txs[t].user, w.txs[t].target)
  }

  lemma {:induction false} TargetKnown(sessions: Sessions, user: nat, target: Option<nat>, s: nat)
    requires s in sessions && sessions[s].user == user && (target.None? || target.value == s)
    ensures sessions[s].family in TargetFamilies(sessions, user, target)
  {
  }

  lemma {:induction false} TargetsStay(old_: Sessions, new_: Sessions, user: nat, target: Option<nat>, family: nat)
    requires NeverRevives(old_, new_) && family in TargetFamilies(old_, user, target)
    ensures family in TargetFamilies(new_, user, target)
  {
    var s :| s in old_ && old_[s].user == user && (target.None? || target.value == s) && old_[s].family == family;
    assert new_[s].user == user && new_[s].family == family;
  }

  lemma {:induction false} StepKeepsRevocation(w: World, a: Action, t: nat, family: nat)
    requires Inv(w) && RevokesFamily(w, t, family)
    ensures RevokesFamily(After(w, a), t, family)
  {
    var x := w.txs[t];
    if x.revokePc.LockUser? || x.revokePc.RevokeActive? {
      StepNeverRevives(w, a);
      TargetsStay(w.sessions, After(w, a).sessions, x.user, x.target, family);
    }
    if !ActsFor(a, t) { OtherActionsKeepTx(w, a, t); }
  }

  /** A logout or password change that commits ends every family it targeted, whichever of it
      and a racing rotation gets the user's row first: the successor is revoked too. */
  lemma {:induction false} RevocationBeatsRotation(w: World, schedule: seq<Action>, t: nat, family: nat)
    requires Inv(w) && RevokesFamily(w, t, family)
    ensures var w' := Run(w, schedule);
      && t in w'.txs && w'.txs[t].Revoke?
      && (w'.txs[t].revokePc == RevokeEnded(true) ==> Dead(w'.sessions, family))
    decreases |schedule|
  {
    if schedule == [] {
      assert TxOk(w, t, w.txs[t]);
    } else {
      StepKeepsInv(w, schedule[0]);
      StepKeepsRevocation(w, schedule[0], t, family);
      RevocationBeatsRotation(After(w, schedule[0]), schedule[1..], t, family);
    }
  }

  /** Refresh `t` presents a session that is not ACTIVE; `active` says that its user's account is. */
  ghost predicate PresentsReused(w: World, t: nat, active: bool) {
    && t in w.txs && w.txs[t].Refresh? && w.txs[t].token in w.sessions
    && (active ==> var user := w.sessions[w.txs[t].token].user; user in w.users && w.users[user])
    && match w.txs[t].pc
       case LookUp => w.sessions[w.txs[t].token].status != ACTIVE
       case LockOwner => w.sessions[w.txs[t].token].status != ACTIVE
       case ReadSession => w.sessions[w.txs[t].token].status != ACTIVE
       case Compromise(_) => true
       case CommitCompromise(_) => true
       case RefreshEnded(result) => result != Rotated && (active ==> result != Refused)
       case _ => false
  }

  predicate Deactivates(a: Action, user: nat) { a.SetUserActive? && a.user == user && !a.isActive }

  lemma {:induction false} TransactionsKeepUsers(w: World, t: nat, x: Tx, now: int)
    ensures x.Refresh? ==> match ProceedRefresh(w, t, x, now) case None => true case Some(w') => w'.users == w.users
    ensures x.Revoke? ==> match ProceedRevoke(w, t, x) case None => true case Some(w') => w'.users == w.users
  {
  }

  lemma {:induction false} UserStaysActive(w: World, a: Action, user: nat)
    requires user in w.users && w.users[user] && !Deactivates(a, user)
    ensures user in After(w, a).users && After(w, a).users[user]
  {
    if a.Proceed? && a.t in w.txs { TransactionsKeepUsers(w, a.t, w.txs[a.t], a.now); }
  }

  lemma {:induction false} OwnStepKeepsReuse(w: World, t: nat, active: bool, now: int)
    requires PresentsReused(w, t, active) && TxOk(w, t, w.txs[t])
    requires ProceedRefresh(w, t, w.txs[t], now).Some?
    ensures var w' := ProceedRefresh(w, t, w.txs[t], now).value;
      && t in w'.txs && w'.txs[t].Refresh? && w'.txs[t].token == w.txs[t].token
      && (w'.txs[t].pc.LookUp? || w'.txs[t].pc.LockOwner? || w'.txs[t].pc.ReadSession? || w'.txs[t].pc.Compromise?
          || w'.txs[t].pc.CommitCompromise?
          || (w'.txs[t].pc.RefreshEnded? && w'.txs[t].pc.result != Rotated
                && (active ==> w'.txs[t].pc.result != Refused)))
  {
  }

  lemma {:induction false} StepKeepsReuse(w: World, a: Action, t: nat, active: bool)
    requires Inv(w) && PresentsReused(w, t, active)
    requires active ==> !Deactivates(a, w.sessions[w.txs[t].token].user)
    ensures PresentsReused(After(w, a), t, active) && After(w, a).txs[t].token == w.txs[t].token
  {
    StepNeverRevives(w, a);
    if active { UserStaysActive(w, a, w.sessions[w.txs[t].token].user); }
    if !ActsFor(a, t) {
      OtherActionsKeepTx(w, a, t);
    } else if a.Proceed? && Next(w, a).Some? {
      assert TxOk(w, t, w.txs[t]);
      OwnStepKeepsReuse(w, t, active, a.now);
    }
  }

  lemma {:induction false} RunKeepsReuse(w: World, schedule: seq<Action>, t: nat, active: bool)
    requires Inv(w) && PresentsReused(w, t, active)
    requires active ==> forall a :: a in schedule ==> !Deactivates(a, w.sessions[w.txs[t].token].user)
    ensures PresentsReused(Run(w, schedule), t, active) && Run(w, schedule).txs[t].token == w.txs[t].token
    decreases |schedule|
  {
    if schedule != [] {
      StepKeepsInv(w, schedule[0]);
      StepNeverRevives(w, schedule[0]);
      StepKeepsReuse(w, schedule[0], t, active);
      RunKeepsReuse(After(w, schedule[0]), schedule[1..], t, active);
    }
  }

  /** Re-presenting a rotated, revoked or compromised token never yields a new session, whatever runs beside
      it. For a user who stays active the attempt can only end, unless the database aborts it, with the whole
      family COMPROMISED. */
  lemma {:induction false} ReuseCompromisesFamily(w: World, t: nat, token: nat, successor: nat, expiresAt: int,
                                                  schedule: seq<Action>, active: bool)
    requires Inv(w) && t !in w.txs && successor !in w.issued
    requires token in w.sessions && w.sessions[token].status != ACTIVE
    requires active ==> var user := w.sessions[token].user;
      user in w.users && w.users[user] && forall a :: a in schedule ==> !Deactivates(a, user)
    ensures var w' := Run(w, [BeginRefresh(t, token, successor, expiresAt)] + schedule);
      && t in w'.txs && w'.txs[t].Refresh? && token in w'.sessions
      && (w'.txs[t].pc.RefreshEnded? ==> w'.txs[t].pc.result != Rotated)
      && (active && w'.txs[t].pc.RefreshEnded? ==> w'.txs[t].pc.result == Reused || w'.txs[t].pc.result == Aborted)
      && (w'.txs[t].pc == RefreshEnded(Reused) ==> AllCompromised(w'.sessions, w'.sessions[token].family))
  {
    var begin := BeginRefresh(t, token, successor, expiresAt);
    var w1 := After(w, begin);
    assert ([begin] + schedule)[1..] == schedule;
    StepKeepsInv(w, begin);
    RunKeepsReuse(w1, schedule, t, active);
    RunKeepsInv(w1, schedule);
    assert TxOk(Run(w1, schedule), t, Run(w1, schedule).txs[t]);
  }

  /** A password change of user 0 that has run its UPDATE over session 1 but not yet committed. */
  function BetweenUpdateAndCommit(): World {
    var row := Session(0, 10, ACTIVE, 100, None);
    World(map[0 := true], map[1 := row],
          map[7 := Revoke(0, None, {10}, map[1 := row.(status := REVOKED)], CommitRevoke)], map[0 := 7], {1})
  }

  lemma {:induction false} ReachesBetweenUpdateAndCommit()
    ensures Run(Start(map[0 := true]), [Login(0, 1, 10, 100), BeginRevoke(7, 0, None), Proceed(7, 0), Proceed(7, 0)])
         == BetweenUpdateAndCommit()
  {
    var row := Session(0, 10, ACTIVE, 100, None);
    var w1 := After(Start(map[0 := true]), Login(0, 1, 10, 100));
    assert w1 == World(map[0 := true], map[1 := row], map[], map[], {1});
    var w2 := After(w1, BeginRevoke(7, 0, None));
    assert w2 == w1.(txs := map[7 := Revoke(0, None, {}, map[], LockUser)]);
    var w3 := After(w2, Proceed(7, 0));
    assert w3 == w1.(txs := map[7 := Revoke(0, None, {}, map[], RevokeActive)], userLock := map[0 := 7]);
    TargetKnown(w3.sessions, 0, None, 1);
    assert TargetFamilies(w3.sessions, 0, None) == {10};
    assert RevokeWrites(w3.sessions, 0, {10}) == map[1 := row.(status := REVOKED)];
    assert After(w3, Proceed(7, 0)) == BetweenUpdateAndCommit();
  }

  /** The same with session 2 logged in meanwhile. */
  lemma {:induction false} LoggedInBetween()
    ensures After(BetweenUpdateAndCommit(), Login(0, 2, 11, 100))
         == BetweenUpdateAndCommit().(
              sessions := BetweenUpdateAndCommit().sessions[2 := Session(0, 11, ACTIVE, 100, None)], issued := {1, 2})
  {
    var w4 := BetweenUpdateAndCommit();
    assert FamiliesOf(w4.sessions) == {10} by { FamilyKnown(w4.sessions, 1); }
    assert w4.issued + {2} == {1, 2};
  }

  /** A login takes no lock on the user's row, so a password change does not reach a session that
      logs in between its UPDATE and its commit. */
  lemma {:induction false} LoginSurvivesPasswordChange()
    ensures Run(Start(map[0 := true]), [Login(0, 1, 10, 100), BeginRevoke(7, 0, None), Proceed(7, 0), Proceed(7, 0)])
         == BetweenUpdateAndCommit()
    ensures var w := Run(BetweenUpdateAndCommit(), [Login(0, 2, 11, 100), Proceed(7, 0)]);
      && 7 in w.txs && w.txs[7].Revoke? && w.txs[7].revokePc == RevokeEnded(true)
      && 1 in w.sessions && w.sessions[1].status == REVOKED
      && 2 in w.sessions && w.sessions[2].status == ACTIVE
  {
    ReachesBetweenUpdateAndCommit();
    LoggedInBetween();
    var w5 := After(BetweenUpdateAndCommit(), Login(0, 2, 11, 100));
    assert [Login(0, 2, 11, 100), Proceed(7, 0)][1..] == [Proceed(7, 0)];
    assert Run(w5, [Proceed(7, 0)]) == After(w5, Proceed(7, 0));
  }

  /** What committed rows of one user look like to a transaction that holds the user's lock: nothing moves. */
  ghost predicate SameRowsOf(old_: Sessions, new_: Sessions, user: nat) {
    && (forall s :: s in old_ && old_[s].user == user ==> s in new_ && new_[s] == old_[s])
    && (forall s :: s in new_ && new_[s].user == user ==> s in old_ && old_[s] == new_[s])
  }

  lemma {:induction false} RefreshSparesOthers(w: World, t: nat, x: Tx, user: nat)
    requires OneUserPerFamily(w.sessions) && TxOk(w, t, x) && x.Refresh? && x.owner != user
    requires x.pc.CommitRotation? || x.pc.CommitCompromise?
    ensures SameRowsOf(w.sessions, w.sessions + x.writes, user)
  {
  }

  lemma {:induction false} RevokeSparesOthers(sessions: Sessions, owner: nat, families: set<nat>, user: nat)
    requires owner != user
    ensures SameRowsOf(sessions, sessions + RevokeWrites(sessions, owner, families), user)
  {
  }

  lemma {:induction false} RefreshTouchesOwner(w: World, t: nat, now: int, user: nat)
    requires OneUserPerFamily(w.sessions) && t in w.txs && w.txs[t].Refresh? && TxOk(w, t, w.txs[t])
    requires !Holds(w, t, user)
    ensures match ProceedRefresh(w, t, w.txs[t], now)
      case None => true
      case Some(w') => SameRowsOf(w.sessions, w'.sessions, user)
  {
    if w.txs[t].pc.CommitRotation? || w.txs[t].pc.CommitCompromise? { RefreshSparesOthers(w, t, w.txs[t], user); }
  }

  lemma {:induction false} RevokeTouchesOwner(w: World, t: nat, user: nat)
    requires t in w.txs && w.txs[t].Revoke? && TxOk(w, t, w.txs[t]) && !Holds(w, t, user)
    ensures match ProceedRevoke(w, t, w.txs[t])
      case None => true
      case Some(w') => SameRowsOf(w.sessions, w'.sessions, user)
  {
    var x := w.txs[t];
    if x.revokePc.CommitRevoke? { RevokeSparesOthers(w.sessions, x.user, x.families, user); }
  }

  /** While `t` holds the user's row only a login of that user adds to or changes the user's sessions. */
  lemma {:induction false} LockedRowsStay(w: World, a: Action, t: nat, user: nat)
    requires Inv(w) && Holds(w, t, user) && !ActsFor(a, t) && !(a.Login? && a.user == user)
    ensures SameRowsOf(w.sessions, After(w, a).sessions, user)
  {
    if a.Proceed? && a.t in w.txs {
      if w.txs[a.t].Refresh? { RefreshTouchesOwner(w, a.t, a.now, user); } else { RevokeTouchesOwner(w, a.t, user); }
    }
  }

  /** The session that a step logs the user in with, if `t` has run its UPDATE and not yet committed. */
  function LoginBetween(w: World, a: Action, t: nat): set<nat> {
    if a.Login? && Next(w, a).Some? && t in w.txs && w.txs[t].Revoke?
      && w.txs[t].revokePc.CommitRevoke? && a.user == w.txs[t].user
    then {a.id} else {}
  }

  /** All sessions that logins of the user created between the UPDATE of `t` and its commit. */
  function LoginsBetween(w: World, schedule: seq<Action>, t: nat): set<nat>
    decreases |schedule|
  {
    if schedule == [] then {}
    else LoginBetween(w, schedule[0], t) + LoginsBetween(After(w, schedule[0]), schedule[1..], t)
  }

  /** Once the UPDATE has run, the user's sessions are those it selected and those that logged in since. */
  ghost predicate Tracks(w: World, t: nat, user: nat, logins: set<nat>) {
    && t in w.txs && w.txs[t].Revoke? && w.txs[t].user == user && w.txs[t].target == None
    && match w.txs[t].revokePc
       case CommitRevoke =>
         && (forall s :: s in logins ==>
               s in w.sessions && w.sessions[s].user == user && w.sessions[s].status == ACTIVE)
         && (forall s :: s in w.sessions && w.sessions[s].user == user ==>
               (s in logins <==> w.sessions[s].family !in w.txs[t].families))
       case RevokeEnded(_) => true
       case _ => logins == {}
  }

  lemma {:induction false} LoginKeepsTracks(w: World, a: Action, t: nat, user: nat, logins: set<nat>)
    requires Inv(w) && Tracks(w, t, user, logins) && w.txs[t].revokePc.CommitRevoke?
    requires a.Login? && a.user == user && Next(w, a).Some?
    ensures Tracks(After(w, a), t, user, logins + {a.id})
  {
    assert TxOk(w, t, w.txs[t]);
    forall f | f in w.txs[t].families ensures f != a.family {
      var s :| s in w.sessions && w.sessions[s].user == user && w.sessions[s].family == f;
      FamilyKnown(w.sessions, s);
    }
  }

  lemma {:induction false} UpdateStartsTracks(w: World, t: nat, user: nat, now: int)
    requires Tracks(w, t, user, {}) && w.txs[t].revokePc.RevokeActive?
    ensures Tracks(After(w, Proceed(t, now)), t, user, {})
  {
    forall s | s in w.sessions && w.sessions[s].user == user
      ensures w.sessions[s].family in TargetFamilies(w.sessions, user, None)
    {
      TargetKnown(w.sessions, user, None, s);
    }
  }

  lemma {:induction false} OthersKeepTracks(w: World, a: Action, t: nat, user: nat, logins: set<nat>)
    requires Inv(w) && Tracks(w, t, user, logins) && !ActsFor(a, t) && !(a.Login? && a.user == user)
    ensures Tracks(After(w, a), t, user, logins)
  {
    assert TxOk(w, t, w.txs[t]);
    OtherActionsKeepTx(w, a, t);
    if w.txs[t].revokePc.CommitRevoke? { LockedRowsStay(w, a, t, user); }
  }

  lemma {:induction false} StepKeepsTracks(w: World, a: Action, t: nat, user: nat, logins: set<nat>)
    requires Inv(w) && Tracks(w, t, user, logins)
    ensures Tracks(After(w, a), t, user, logins + LoginBetween(w, a, t))
  {
    assert logins + {} == logins;
    if a.Login? && a.user == user {
      if w.txs[t].revokePc.CommitRevoke? && Next(w, a).Some? { LoginKeepsTracks(w, a, t, user, logins); }
    } else if !ActsFor(a, t) {
      OthersKeepTracks(w, a, t, user, logins);
    } else if a.Proceed? && w.txs[t].revokePc.RevokeActive? {
      UpdateStartsTracks(w, t, user, a.now);
    }
  }

  lemma {:induction false} RunKeepsTracks(w: World, schedule: seq<Action>, t: nat, user: nat, logins: set<nat>)
    requires Inv(w) && Tracks(w, t, user, logins)
    ensures Tracks(Run(w, schedule), t, user, logins + LoginsBetween(w, schedule, t))
    decreases |schedule|
  {
    if schedule == [] {
      assert logins + {} == logins;
    } else {
      var w1 := After(w, schedule[0]);
      StepKeepsInv(w, schedule[0]);
      StepKeepsTracks(w, schedule[0], t, user, logins);
      RunKeepsTracks(w1, schedule[1..], t, user, logins + LoginBetween(w, schedule[0], t));
      assert logins + LoginBetween(w, schedule[0], t) + LoginsBetween(w1, schedule[1..], t)
        == logins + LoginsBetween(w, schedule, t);
    }
  }

  /** Exactly which sessions of the user are ACTIVE when a password change, or a logout everywhere, commits:
      those that logged in after its UPDATE and before its commit. So there is none exactly when nobody did. */
  lemma {:induction false} PasswordChangeSurvivors(w: World, t: nat, schedule: seq<Action>, now: int)
    requires Inv(w) && t in w.txs && w.txs[t].Revoke? && w.txs[t].target == None
    requires w.txs[t].revokePc.LockUser? || w.txs[t].revokePc.RevokeActive?
    requires var w1 := Run(w, schedule); t in w1.txs && w1.txs[t].Revoke? && w1.txs[t].revokePc.CommitRevoke?
    ensures var user := w.txs[t].user;
      var w2 := After(Run(w, schedule), Proceed(t, now));
      var logins := LoginsBetween(w, schedule, t);
      && t in w2.txs && w2.txs[t].Revoke? && w2.txs[t].revokePc == RevokeEnded(true)
      && (forall s :: s in w2.sessions && w2.sessions[s].user == user ==>
            (w2.sessions[s].status == ACTIVE <==> s in logins))
      && (forall s :: s in logins ==> s in w2.sessions && w2.sessions[s].user == user)
      && ((forall s :: s in w2.sessions && w2.sessions[s].user == user ==> w2.sessions[s].status != ACTIVE) <==>
            logins == {})
  {
    var user, logins := w.txs[t].user, LoginsBetween(w, schedule, t);
    RunKeepsInv(w, schedule);
    RunKeepsTracks(w, schedule, t, user, {});
    assert {} + logins == logins;
    var w1 := Run(w, schedule);
    var w2 := After(w1, Proceed(t, now));
    assert TxOk(w1, t, w1.txs[t]) && Tracks(w1, t, user, logins);
    CommitLeavesLogins(w1, t, user, logins, now);
    if logins != {} { var s :| s in logins; assert w2.sessions[s].status == ACTIVE; }
  }

  lemma {:induction false} CommitLeavesLogins(w: World, t: nat, user: nat, logins: set<nat>, now: int)
    requires t in w.txs && TxOk(w, t, w.txs[t]) && Tracks(w, t, user, logins) && w.txs[t].revokePc.CommitRevoke?
    ensures var w2 := After(w, Proceed(t, now));
      && t in w2.txs && w2.txs[t].Revoke? && w2.txs[t].revokePc == RevokeEnded(true)
      && (forall s :: s in w2.sessions && w2.sessions[s].user == user ==>
            (w2.sessions[s].status == ACTIVE <==> s in logins))
      && (forall s :: s in logins ==> s in w2.sessions && w2.sessions[s].user == user)
  {
  }
}
