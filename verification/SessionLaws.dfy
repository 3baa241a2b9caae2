/** The session tables row by row under any event, and what that means for a family: a good token is
    served, and only a replay, a logout or a password change revokes. */
module SessionLaws {
  import opened Prelude
  import opened Sessions

  // ---------------------------------------------------------------- what a read does

  /** What `resolveSession` makes of a row up to its write: a good row past its grace period puts the
      revocation of its family on the way and is not served; any other good row is served, now or by the
      one write the read leaves; a row that is not good leaves nothing. */
  lemma ReadExactly(c: Config, s: State, x: nat)
    ensures var t := Read(c, s, x);
      && t == s.(pending := t.pending, served := t.served)
      && (!Good(c, s, x) ==> t == s)
      && (Good(c, s, x) && PastGrace(c, s, x) ==> t.pending == s.pending + [RevokeRows(s.rows[x].family)] && t.served == s.served)
      && (Good(c, s, x) && !PastGrace(c, s, x) ==>
        && (if Due(c, s, x) then t.pending == s.pending + [RotateRow(x, s.clock)]
            else if Idling(c, s, x) then t.pending == s.pending + [TouchRow(x, s.clock)]
            else t.pending == s.pending)
        && ServedOn(t.served, x) + Awaiting(t.pending, x) == ServedOn(s.served, x) + Awaiting(s.pending, x) + 1
        && forall i <- t.pending :: i.RevokeRows? ==> i in s.pending)
  {
    var t := Read(c, s, x);
    if Good(c, s, x) && !PastGrace(c, s, x) {
      if |t.pending| > |s.pending| {
        AwaitingAppend(s.pending, t.pending[|s.pending|], x);
      } else {
        ServedAppend(s.served, t.served[|s.served|], x);
      }
    }
  }

  lemma RequestsStay(c: Config, s: State, e: Event, x: nat)
    ensures var t := Step(c, s, e);
      ServedOn(t.served, x) + Awaiting(t.pending, x) >= ServedOn(s.served, x) + Awaiting(s.pending, x)
      && ServedOn(t.served, x) >= ServedOn(s.served, x)
  {
    match e
    case EvRead(id) => ReadStays(c, s, id, x);
    case EvAct(k) =>
      ActServes(s, k, x);
      if |Act(s, k).served| > |s.served| {
        ServedAppend(s.served, Act(s, k).served[|s.served|], x);
      }
    case EvLogout(id) => LogoutServes(s, id, x);
    case _ =>
  }

  lemma ReadStays(c: Config, s: State, id: nat, x: nat)
    ensures var t := Read(c, s, id);
      && Awaiting(t.pending, x) >= Awaiting(s.pending, x) && ServedOn(t.served, x) >= ServedOn(s.served, x)
  {
    var t := Read(c, s, id);
    if |t.pending| > |s.pending| {
      AwaitingAppend(s.pending, t.pending[|s.pending|], x);
    }
    if |t.served| > |s.served| {
      ServedAppend(s.served, t.served[|s.served|], x);
    }
  }

  lemma {:induction false} RequestsStayRun(c: Config, s: State, events: seq<Event>, x: nat)
    ensures var t := Run(c, s, events);
      ServedOn(t.served, x) + Awaiting(t.pending, x) >= ServedOn(s.served, x) + Awaiting(s.pending, x)
    decreases |events|
  {
    if events != [] {
      RequestsStay(c, s, events[0], x);
      RequestsStayRun(c, Step(c, s, events[0]), events[1..], x);
    }
  }

  /** A request that presents a good token within its grace period is answered in every run, as soon as
      no request on the token is under way: whatever else happens meanwhile, even its revocation. */
  lemma GoodTokenIsServed(c: Config, s: State, x: nat, events: seq<Event>)
    requires Good(c, s, x) && !PastGrace(c, s, x)
    ensures var t := Run(c, Read(c, s, x), events);
      ServedOn(t.served, x) + Awaiting(t.pending, x) >= ServedOn(s.served, x) + Awaiting(s.pending, x) + 1
  {
    ReadExactly(c, s, x);
    RequestsStayRun(c, Read(c, s, x), events, x);
  }

  // ---------------------------------------------------------------- the session rows

  /** The write under way that the event makes is this one. */
  predicate Makes(s: State, e: Event, i: Intent) {
    e.EvAct? && e.k < |s.pending| && s.pending[e.k] == i
  }

  ghost predicate RotatesRow(s: State, e: Event, x: nat) {
    && e.EvAct? && e.k < |s.pending| && s.pending[e.k].RotateRow? && s.pending[e.k].id == x
    && x < |s.rows| && s.rows[x].supersededAt == None && s.rows[x].revokedAt == None
  }

  ghost predicate TouchesRow(s: State, e: Event, x: nat) {
    e.EvAct? && e.k < |s.pending| && s.pending[e.k].TouchRow? && s.pending[e.k].id == x
  }

  ghost predicate RevokesRow(s: State, e: Event, x: nat) {
    && x < |s.rows| && s.rows[x].revokedAt == None
    && (Makes(s, e, RevokeRows(s.rows[x].family))
        || (e.EvChangeRevoke? && e.user == s.rows[x].user && e.user < |s.users| && s.users[e.user].tx == ChangeWritten))
  }

  /** What an event makes of row x. */
  ghost predicate RowMoves(s: State, e: Event, x: nat, y: Session)
    requires x < |s.rows|
  {
    var z := s.rows[x];
    && y.user == z.user && y.family == z.family && y.rotationSeq == z.rotationSeq && y.rememberMe == z.rememberMe
    && y.absoluteExpiresAt == z.absoluteExpiresAt && y.createdAt == z.createdAt && y.generation == z.generation
    && (if RotatesRow(s, e, x) then
          y.supersededAt.Some? && Second(s.clock, y.supersededAt.value) && y.rotatedTo == Some(|s.rows|)
        else y.supersededAt == z.supersededAt && y.rotatedTo == z.rotatedTo)
    && (if RevokesRow(s, e, x) then y.revokedAt.Some? && Second(s.clock, y.revokedAt.value) else y.revokedAt == z.revokedAt)
    && (if TouchesRow(s, e, x) then Second(s.clock, y.lastUsedAt) else y.lastUsedAt == z.lastUsedAt)
  }

  /** Row y succeeds row z: one further in its family, made at this second, capped as z is. */
  ghost predicate Succeeds(z: Session, y: Session, clock: nat) {
    && y.user == z.user && y.family == z.family && y.rotationSeq == z.rotationSeq + 1 && y.rememberMe == z.rememberMe
    && y.absoluteExpiresAt == z.absoluteExpiresAt && y.generation == z.generation
    && Second(clock, y.createdAt) && Second(clock, y.lastUsedAt)
    && y.supersededAt == None && y.rotatedTo == None && y.revokedAt == None
  }

  ghost predicate Logs(s: State, e: Event, u: nat, rememberMe: bool) {
    && u < |s.users|
    && ((e == EvLoginInsert(u, rememberMe) && s.users[u].tx == LoginVerified)
        || (e == EvChangeInsert(u) && !rememberMe && s.users[u].tx == ChangeRevoked))
  }

  /** A new row is the successor of a rotated one, or starts the family of a login. */
  ghost predicate NewRow(c: Config, s: State, e: Event, y: Session) {
    || (exists x: nat :: RotatesRow(s, e, x) && Succeeds(s.rows[x], y, s.clock))
    || (exists u: nat, b :: Logs(s, e, u, b) && IsLogin(c, y, |s.rows|, u, s.users[u].generation, b, s.clock))
  }

  ghost predicate Adds(s: State, e: Event) {
    (exists x: nat :: RotatesRow(s, e, x)) || (exists u: nat, b :: Logs(s, e, u, b))
  }

  ghost predicate RowsMove(c: Config, s: State, e: Event, rows: seq<Session>) {
    && |rows| == |s.rows| + (if Adds(s, e) then 1 else 0)
    && (forall x: nat :: x < |s.rows| ==> RowMoves(s, e, x, rows[x]))
    && (Adds(s, e) ==> NewRow(c, s, e, rows[|s.rows|]))
  }

  lemma ActMovesRows(c: Config, s: State, e: Event)
    requires e.EvAct?
    ensures RowsMove(c, s, e, Act(s, e.k).rows)
  {
    if e.k < |s.pending| {
      match s.pending[e.k]
      case RotateRow(id, _) =>
        var t := Rotate(s, id);
        assert RotatesRow(s, e, id) <==> t != s;
        if RotatesRow(s, e, id) {
          assert Succeeds(s.rows[id], Successor(s.rows[id], s.clock), s.clock);
        }
      case TouchRow(id, _) =>
      case RevokeRows(f) =>
    }
  }

  lemma InsertMovesRows(c: Config, s: State, e: Event)
    requires e.EvLoginInsert? || e.EvChangeInsert?
    ensures RowsMove(c, s, e, Step(c, s, e).rows)
  {
    var u, b := e.user, e.EvLoginInsert? && e.rememberMe;
    if Logs(s, e, u, b) {
      NewIsLogin(c, s, u, b);
    }
  }

  lemma OthersMoveRows(c: Config, s: State, e: Event)
    requires !e.EvAct? && !e.EvLoginInsert? && !e.EvChangeInsert?
    ensures RowsMove(c, s, e, Step(c, s, e).rows)
  {
  }

  /** The session rows under any event. */
  lemma SessionRowsMove(c: Config, s: State, e: Event)
    ensures RowsMove(c, s, e, Step(c, s, e).rows)
  {
    if e.EvAct? {
      ActMovesRows(c, s, e);
    } else if e.EvLoginInsert? || e.EvChangeInsert? {
      InsertMovesRows(c, s, e);
    } else {
      OthersMoveRows(c, s, e);
    }
  }

  // ---------------------------------------------------------------- requests, answers and users

  /** A write that has run leaves the requests; unless it was a revocation its request is answered, with
      the row that succeeds the one it read if it made it. */
  ghost predicate WriteMoves(s: State, e: Event, t: State)
    requires e.EvAct? && e.k < |s.pending|
  {
    && t.pending == s.pending[..e.k] + s.pending[e.k + 1..]
    && match s.pending[e.k]
       case RevokeRows(_) => t.served == s.served
       case TouchRow(x, readAt) => t.served == s.served + [Served(x, x, readAt, s.clock)]
       case RotateRow(x, readAt) =>
         t.served == s.served + [Served(x, if RotatesRow(s, e, x) then |s.rows| else x, readAt, s.clock)]
  }

  ghost predicate LogsOut(s: State, e: Event) {
    e.EvLogout? && e.id < |s.rows| && s.rows[e.id].revokedAt == None
  }

  ghost predicate RequestsMove(s: State, e: Event, t: State) {
    if e.EvAct? && e.k < |s.pending| then WriteMoves(s, e, t)
    else if LogsOut(s, e) then t.pending == s.pending + [RevokeRows(s.rows[e.id].family)] && t.served == s.served
    else t.pending == s.pending && t.served == s.served
  }

  /** The requests under way and the answers given, under any event but a read. */
  lemma RequestRowsMove(c: Config, s: State, e: Event)
    requires !e.EvRead?
    ensures RequestsMove(s, e, Step(c, s, e))
  {
  }

  ghost function NextUser(s: State, e: Event, u: nat): User
    requires u < |s.users|
  {
    var x := s.users[u];
    match x.tx
    case Idle =>
      if e.EvLoginVerify? && e.user == u && e.password == x.password && e.usable then x.(tx := LoginVerified)
      else if e.EvChangeVerify? && e.user == u && e.current == x.password && e.usable && e.next != x.password
        then x.(tx := ChangeVerified(e.next))
      else x
    case LoginVerified => if e.EvLoginInsert? && e.user == u then x.(tx := Idle) else x
    case ChangeVerified(next) => if e.EvChangeWrite? && e.user == u then User(next, x.generation + 1, ChangeWritten) else x
    case ChangeWritten => if e.EvChangeRevoke? && e.user == u then x.(tx := ChangeRevoked) else x
    case ChangeRevoked => if e.EvChangeInsert? && e.user == u then x.(tx := Idle) else x
  }

  /** The user rows and the clock under any event: the right password, and a usable account, start a
      transaction; the password changes once, to the verified one, after the old one was given. */
  lemma UserRowsMove(c: Config, s: State, e: Event)
    ensures var t := Step(c, s, e);
      && |t.users| == |s.users| && (forall u: nat :: u < |s.users| ==> t.users[u] == NextUser(s, e, u))
      && t.clock == s.clock + if e.EvTick? then e.ms else 0
  {
  }

  // ---------------------------------------------------------------- why a session is revoked

  /** A replay in the family, a logout from it, or the password change of its user. */
  ghost predicate Cause(c: Config, s: State, e: Event, family: nat, user: nat) {
    || (e.EvRead? && Good(c, s, e.id) && PastGrace(c, s, e.id) && s.rows[e.id].family == family)
    || (LogsOut(s, e) && s.rows[e.id].family == family)
    || (e.EvChangeRevoke? && e.user == user && user < |s.users| && s.users[user].tx == ChangeWritten)
  }

  ghost predicate CauseAt(c: Config, s: State, events: seq<Event>, family: nat, user: nat, n: nat) {
    n < |events| && Cause(c, Run(c, s, events[..n]), events[n], family, user)
  }

  lemma CauseNow(c: Config, s: State, events: seq<Event>, family: nat, user: nat)
    requires events != [] && Cause(c, s, events[0], family, user)
    ensures CauseAt(c, s, events, family, user, 0)
  {
    assert events[..0] == [];
  }

  lemma CauseLater(c: Config, s: State, events: seq<Event>, family: nat, user: nat, n: nat)
    requires events != [] && CauseAt(c, Step(c, s, events[0]), events[1..], family, user, n)
    ensures CauseAt(c, s, events, family, user, n + 1)
  {
    assert events[..n + 1][0] == events[0] && events[..n + 1][1..] == events[1..][..n];
  }

  lemma RevocationComesFrom(c: Config, s: State, e: Event, family: nat, user: nat)
    requires RevokeRows(family) !in s.pending && RevokeRows(family) in Step(c, s, e).pending
    ensures Cause(c, s, e, family, user)
  {
    if e.EvRead? {
      ReadExactly(c, s, e.id);
    } else {
      RequestRowsMove(c, s, e);
    }
  }

  /** No session is revoked but for cause: a live row whose family has no revocation on the way is only
      ever revoked after a replay in its family, a logout from it, or a password change of its user. */
  lemma {:induction false} RevokedForCause(c: Config, s: State, events: seq<Event>, x: nat)
    requires x < |s.rows| && s.rows[x].revokedAt == None && RevokeRows(s.rows[x].family) !in s.pending
    requires x < |Run(c, s, events).rows| && Run(c, s, events).rows[x].revokedAt.Some?
    ensures exists n: nat :: CauseAt(c, s, events, s.rows[x].family, s.rows[x].user, n)
    decreases |events|
  {
    var e, t, f, u := events[0], Step(c, s, events[0]), s.rows[x].family, s.rows[x].user;
    SessionRowsMove(c, s, e);
    assert RowMoves(s, e, x, t.rows[x]);
    if RevokesRow(s, e, x) {
      assert Cause(c, s, e, f, u);
      CauseNow(c, s, events, f, u);
    } else if RevokeRows(f) in t.pending {
      RevocationComesFrom(c, s, e, f, u);
      CauseNow(c, s, events, f, u);
    } else {
      RevokedForCause(c, t, events[1..], x);
      var n: nat :| CauseAt(c, t, events[1..], f, u, n);
      CauseLater(c, s, events, f, u, n);
    }
  }
}
