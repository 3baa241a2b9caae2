/** Session families under concurrent requests: rotation after a stale read, replay revocation,
    logout, and the login and password-change transactions, statement by statement. */
module Sessions {
  import opened Prelude

  // ---------------------------------------------------------------- rows

  /** A row of `sessions`, addressed by its position; times are milliseconds. `generation` is the
      user's password generation at login, which no column keeps. */
  datatype Session = Session(
    user: nat, family: nat, rotationSeq: nat, rememberMe: bool, absoluteExpiresAt: nat,
    createdAt: nat, lastUsedAt: nat, supersededAt: Option<nat>, rotatedTo: Option<nat>, revokedAt: Option<nat>,
    generation: nat)

  /** The transaction that holds the user-row lock, and how far it has come. */
  datatype Tx = Idle | LoginVerified | ChangeVerified(next: string) | ChangeWritten | ChangeRevoked

  /** `generation` counts password changes; bcrypt comparison is equality with the password. */
  datatype User = User(password: string, generation: nat, tx: Tx)

  /** What a request decided from its unlocked read, at the time of the read, and will write later. */
  datatype Intent = RotateRow(id: nat, readAt: nat) | TouchRow(id: nat, readAt: nat) | RevokeRows(family: nat)

  /** A request that was answered with a session: the row of the token it presented, the row it was
      answered with, when it read and when it was answered. No table keeps this. */
  datatype Served = Served(token: nat, row: nat, readAt: nat, at: nat)

  datatype Config = Config(idleMs: nat, rotateMs: nat, graceMs: nat, ttlMs: nat, rememberMs: nat)

  datatype State = State(users: seq<User>, rows: seq<Session>, clock: nat, pending: seq<Intent>, served: seq<Served>)

  /** `NOW()` of a TIMESTAMP column: whole seconds. */
  function DbNow(clock: nat): (r: nat)
    ensures r <= clock < r + 1000
  {
    clock / 1000 * 1000
  }

  /** A JavaScript date stored in a TIMESTAMP column: rounded to the nearest second. */
  function StoredDate(ms: nat): (r: nat)
    ensures r <= ms + 500 && ms < r + 500
  {
    (ms + 500) / 1000 * 1000
  }

  function Cap(c: Config, rememberMe: bool): nat {
    if rememberMe then c.rememberMs else c.ttlMs
  }

  // ---------------------------------------------------------------- session.service

  function NewSession(c: Config, s: State, u: nat, rememberMe: bool): Session
    requires u < |s.users|
  {
    Session(u, |s.rows|, 0, rememberMe, StoredDate(s.clock + Cap(c, rememberMe)), DbNow(s.clock), DbNow(s.clock),
            None, None, None, s.users[u].generation)
  }

  function CreateSession(c: Config, s: State, u: nat, rememberMe: bool): State
    requires u < |s.users|
  {
    s.(rows := s.rows + [NewSession(c, s, u, rememberMe)])
  }

  datatype Verdict = Invalid | Replay | InGrace | RotationDue | IdleRefresh | Accepted

  /** The branches of `resolveSession` on the row it read; `id` is the row the presented token hashes to. */
  function Resolve(c: Config, s: State, id: nat): Verdict {
    if id >= |s.rows| || s.rows[id].revokedAt.Some? then Invalid
    else
      var row, now := s.rows[id], s.clock;
      if row.absoluteExpiresAt <= now then Invalid
      else if now - row.lastUsedAt > c.idleMs then Invalid
      else if row.supersededAt.Some? then (if now - row.supersededAt.value <= c.graceMs then InGrace else Replay)
      else if now - row.createdAt > c.rotateMs then RotationDue
      else if now - row.lastUsedAt > 60_000 then IdleRefresh
      else Accepted
  }

  /** `resolveSession` up to its write; without a write the request is answered at once. */
  function Read(c: Config, s: State, id: nat): State {
    match Resolve(c, s, id)
    case Invalid => s
    case Replay => s.(pending := s.pending + [RevokeRows(s.rows[id].family)])
    case RotationDue => s.(pending := s.pending + [RotateRow(id, s.clock)])
    case IdleRefresh => s.(pending := s.pending + [TouchRow(id, s.clock)])
    case _ => s.(served := s.served + [Served(id, id, s.clock, s.clock)])
  }

  function Successor(cur: Session, clock: nat): Session {
    cur.(rotationSeq := cur.rotationSeq + 1, createdAt := DbNow(clock), lastUsedAt := DbNow(clock), rotatedTo := None)
  }

  /** `rotateSession`: under the row lock, only a live row that is not superseded is rotated. */
  function Rotate(s: State, id: nat): State {
    if id >= |s.rows| || s.rows[id].supersededAt.Some? || s.rows[id].revokedAt.Some? then s
    else
      var cur := s.rows[id];
      s.(rows := s.rows[id := cur.(supersededAt := Some(DbNow(s.clock)), rotatedTo := Some(|s.rows|))]
                 + [Successor(cur, s.clock)])
  }

  function RevokeIf(x: Session, hit: bool, now: nat): Session {
    if hit && x.revokedAt.None? then x.(revokedAt := Some(now)) else x
  }

  /** `revokeFamily`: one UPDATE statement. */
  function RevokeFamily(s: State, family: nat): State {
    s.(rows := seq(|s.rows|, k requires 0 <= k < |s.rows| => RevokeIf(s.rows[k], s.rows[k].family == family, DbNow(s.clock))))
  }

  function RevokeUser(s: State, u: nat): State {
    s.(rows := seq(|s.rows|, k requires 0 <= k < |s.rows| => RevokeIf(s.rows[k], s.rows[k].user == u, DbNow(s.clock))))
  }

  function Touch(s: State, id: nat): State {
    if id >= |s.rows| then s else s.(rows := s.rows[id := s.rows[id].(lastUsedAt := DbNow(s.clock))])
  }

  function Without<T>(xs: seq<T>, k: nat): seq<T>
    requires k < |xs|
  {
    xs[..k] + xs[k + 1..]
  }

  /** A request that loses the rotation is answered with the row it read. */
  function Answered(s: State, id: nat): nat {
    if Rotate(s, id) == s then id else |s.rows|
  }

  /** The write a request decided on, at whatever later time it reaches the database, and its answer. */
  function Act(s: State, k: nat): State {
    if k >= |s.pending| then s
    else
      var t := s.(pending := Without(s.pending, k));
      match s.pending[k]
      case RotateRow(id, readAt) => Rotate(t, id).(served := s.served + [Served(id, Answered(s, id), readAt, s.clock)])
      case TouchRow(id, readAt) => Touch(t, id).(served := s.served + [Served(id, id, readAt, s.clock)])
      case RevokeRows(f) => RevokeFamily(t, f)
  }

  /** `revokeByToken`: reads a row that is not revoked, then revokes its family. */
  function Logout(s: State, id: nat): State {
    if id >= |s.rows| || s.rows[id].revokedAt.Some? then s
    else s.(pending := s.pending + [RevokeRows(s.rows[id].family)])
  }

  // ---------------------------------------------------------------- auth.service, under the user-row lock

  function SetTx(s: State, u: nat, tx: Tx): State
    requires u < |s.users|
  {
    s.(users := s.users[u := s.users[u].(tx := tx)])
  }

  predicate Holds(s: State, u: nat, tx: Tx) {
    u < |s.users| && s.users[u].tx == tx
  }

  /** The credential check of `login`; `usable` is the account and temporary-password check. */
  function LoginVerify(s: State, u: nat, password: string, usable: bool): State {
    if !Holds(s, u, Idle) || password != s.users[u].password || !usable then s else SetTx(s, u, LoginVerified)
  }

  function LoginInsert(c: Config, s: State, u: nat, rememberMe: bool): State {
    if !Holds(s, u, LoginVerified) then s else SetTx(CreateSession(c, s, u, rememberMe), u, Idle)
  }

  function ChangeVerify(s: State, u: nat, current: string, next: string, usable: bool): State {
    if !Holds(s, u, Idle) || !usable || current != s.users[u].password || next == s.users[u].password then s
    else SetTx(s, u, ChangeVerified(next))
  }

  function ChangeWrite(s: State, u: nat): State {
    if u >= |s.users| || !s.users[u].tx.ChangeVerified? then s
    else s.(users := s.users[u := User(s.users[u].tx.next, s.users[u].generation + 1, ChangeWritten)])
  }

  function ChangeRevoke(s: State, u: nat): State {
    if !Holds(s, u, ChangeWritten) then s else SetTx(RevokeUser(s, u), u, ChangeRevoked)
  }

  function ChangeInsert(c: Config, s: State, u: nat): State {
    if !Holds(s, u, ChangeRevoked) then s else SetTx(CreateSession(c, s, u, false), u, Idle)
  }

  // ---------------------------------------------------------------- tokens

  /** The row is there, not revoked, within its absolute cap, and was used not too long ago. */
  ghost predicate Good(c: Config, s: State, x: nat) {
    && x < |s.rows| && s.rows[x].revokedAt == None
    && s.clock < s.rows[x].absoluteExpiresAt && s.clock <= s.rows[x].lastUsedAt + c.idleMs
  }

  /** The row was rotated out longer ago than the grace period. */
  ghost predicate PastGrace(c: Config, s: State, x: nat)
    requires x < |s.rows|
  {
    s.rows[x].supersededAt.Some? && s.clock > s.rows[x].supersededAt.value + c.graceMs
  }

  /** The row is the newest of its family and older than the rotation period. */
  ghost predicate Due(c: Config, s: State, x: nat)
    requires x < |s.rows|
  {
    s.rows[x].supersededAt == None && s.clock > s.rows[x].createdAt + c.rotateMs
  }

  /** The row is the newest, not due, and its last use was recorded over a minute ago. */
  ghost predicate Idling(c: Config, s: State, x: nat)
    requires x < |s.rows|
  {
    s.rows[x].supersededAt == None && s.clock <= s.rows[x].createdAt + c.rotateMs && s.clock > s.rows[x].lastUsedAt + 60_000
  }

  // ---------------------------------------------------------------- runs

  datatype Event =
    | EvTick(ms: nat)
    | EvRead(id: nat)
    | EvAct(k: nat)
    | EvLogout(id: nat)
    | EvLoginVerify(user: nat, password: string, usable: bool)
    | EvLoginInsert(user: nat, rememberMe: bool)
    | EvChangeVerify(user: nat, current: string, next: string, usable: bool)
    | EvChangeWrite(user: nat)
    | EvChangeRevoke(user: nat)
    | EvChangeInsert(user: nat)

  function Step(c: Config, s: State, e: Event): State {
    match e
    case EvTick(ms) => s.(clock := s.clock + ms)
    case EvRead(id) => Read(c, s, id)
    case EvAct(k) => Act(s, k)
    case EvLogout(id) => Logout(s, id)
    case EvLoginVerify(u, p, b) => LoginVerify(s, u, p, b)
    case EvLoginInsert(u, b) => LoginInsert(c, s, u, b)
    case EvChangeVerify(u, p, q, b) => ChangeVerify(s, u, p, q, b)
    case EvChangeWrite(u) => ChangeWrite(s, u)
    case EvChangeRevoke(u) => ChangeRevoke(s, u)
    case EvChangeInsert(u) => ChangeInsert(c, s, u)
  }

  function Run(c: Config, s: State, events: seq<Event>): State
    decreases |events|
  {
    if events == [] then s else Run(c, Step(c, s, events[0]), events[1..])
  }

  predicate Initial(s: State) {
    s.rows == [] && s.pending == [] && s.served == [] && forall u :: 0 <= u < |s.users| ==> s.users[u].tx == Idle
  }

  ghost predicate Reachable(c: Config, s: State) {
    exists start: State, events: seq<Event> :: Initial(start) && s == Run(c, start, events)
  }

  // ---------------------------------------------------------------- the chain of a family

  /** Row x belongs to a family as its root says. */
  ghost predicate LikeRoot(rows: seq<Session>, f: nat, x: nat)
    requires f < |rows| && x < |rows|
  {
    && rows[x].family == f && rows[x].user == rows[f].user && rows[x].rememberMe == rows[f].rememberMe
    && rows[x].absoluteExpiresAt == rows[f].absoluteExpiresAt && rows[x].generation == rows[f].generation
    && (rows[x].revokedAt.Some? <==> rows[f].revokedAt.Some?)
  }

  /** The rows of family f are ids, in rotation order: each points to the next, only the last is not
      superseded, all share the login's user, expiry and password generation, and all are revoked or none. */
  ghost predicate IsChain(rows: seq<Session>, f: nat, ids: seq<nat>) {
    && f < |rows| && |ids| > 0 && ids[0] == f
    && (forall k :: 0 <= k < |ids| ==> ids[k] < |rows| && LikeRoot(rows, f, ids[k]) && rows[ids[k]].rotationSeq == k)
    && (forall k :: 0 <= k < |ids| - 1 ==> rows[ids[k]].supersededAt.Some? && rows[ids[k]].rotatedTo == Some(ids[k + 1]))
    && rows[ids[|ids| - 1]].supersededAt.None? && rows[ids[|ids| - 1]].rotatedTo.None?
    && forall x: nat :: x < |rows| && rows[x].family == f ==> x in ids
  }

  ghost predicate HasChain(rows: seq<Session>, f: nat) {
    exists ids :: IsChain(rows, f, ids)
  }

  ghost predicate Families(rows: seq<Session>) {
    forall x :: 0 <= x < |rows| ==> HasChain(rows, rows[x].family)
  }

  /** Live sessions carry the current password generation, except between the password update and
      the revocation of one transaction; after that revocation there are none. */
  ghost predicate Current(users: seq<User>, x: Session) {
    && x.user < |users|
    && (x.revokedAt.None? ==>
      && users[x.user].tx != ChangeRevoked
      && (users[x.user].tx == ChangeWritten || x.generation == users[x.user].generation))
  }

  ghost predicate Capped(c: Config, x: Session) {
    x.rotationSeq == 0 ==> x.absoluteExpiresAt <= x.createdAt + Cap(c, x.rememberMe) + 1500
  }

  ghost predicate Inv(c: Config, s: State) {
    && Families(s.rows)
    && (forall x :: 0 <= x < |s.rows| ==> Current(s.users, s.rows[x]) && Capped(c, s.rows[x]))
  }

  // ---------------------------------------------------------------- what rotation keeps

  lemma RotateChain(rows: seq<Session>, t: seq<Session>, ids: seq<nat>, f: nat, id: nat, clock: nat)
    requires IsChain(rows, f, ids) && id < |rows| && rows[id].family == f
    requires rows[id].supersededAt.None? && rows[id].revokedAt.None?
    requires t == rows[id := rows[id].(supersededAt := Some(DbNow(clock)), rotatedTo := Some(|rows|))] + [Successor(rows[id], clock)]
    ensures IsChain(t, f, ids + [|rows|])
  {
    var n := |ids| - 1;
    var k :| 0 <= k < |ids| && ids[k] == id;
    assert k == n;
    var q := ids + [|rows|];
    forall j | 0 <= j < |q| ensures q[j] < |t| && LikeRoot(t, f, q[j]) && t[q[j]].rotationSeq == j {
      if j < n {
        assert ids[j] != id;
      }
    }
    forall j | 0 <= j < |q| - 1 ensures t[q[j]].supersededAt.Some? && t[q[j]].rotatedTo == Some(q[j + 1]) {
      if j < n {
        assert ids[j] != id;
        assert t[ids[j]] == rows[ids[j]];
      }
    }
    forall x: nat | x < |t| && t[x].family == f ensures x in q {
      if x < |rows| {
        assert rows[x].family == f;
        assert x in ids;
      } else {
        assert q[|ids|] == x;
      }
    }
  }

  /** A chain is untouched by changes to rows of other families. */
  lemma OtherChain(rows: seq<Session>, t: seq<Session>, f: nat, ids: seq<nat>)
    requires IsChain(rows, f, ids) && |rows| <= |t|
    requires forall x :: 0 <= x < |rows| && rows[x].family == f ==> t[x] == rows[x]
    requires forall x :: 0 <= x < |t| && t[x].family == f ==> x < |rows| && rows[x].family == f
    ensures IsChain(t, f, ids)
  {
  }

  lemma RotateKeepsFamilies(s: State, id: nat)
    requires Families(s.rows) && id < |s.rows| && s.rows[id].supersededAt.None? && s.rows[id].revokedAt.None?
    ensures Families(Rotate(s, id).rows)
  {
    var t := Rotate(s, id);
    var f := s.rows[id].family;
    var ids :| IsChain(s.rows, f, ids);
    RotateChain(s.rows, t.rows, ids, f, id, s.clock);
    forall x | 0 <= x < |t.rows| ensures HasChain(t.rows, t.rows[x].family) {
      if t.rows[x].family != f {
        var g := t.rows[x].family;
        assert s.rows[x].family == g;
        var js :| IsChain(s.rows, g, js);
        OtherChain(s.rows, t.rows, g, js);
      }
    }
  }

  lemma RotateKeeps(c: Config, s: State, id: nat)
    requires Inv(c, s)
    ensures Inv(c, Rotate(s, id))
  {
    var t := Rotate(s, id);
    if t != s {
      RotateKeepsFamilies(s, id);
      forall x | 0 <= x < |t.rows| ensures Current(t.users, t.rows[x]) && Capped(c, t.rows[x]) {
        assert Current(s.users, s.rows[id]) && Capped(c, s.rows[id]);
      }
    }
  }

  // ---------------------------------------------------------------- what revocation keeps

  lemma RevokeChain(rows: seq<Session>, t: seq<Session>, f: nat, ids: seq<nat>)
    requires IsChain(rows, f, ids) && |t| == |rows|
    requires forall x :: 0 <= x < |rows| ==> t[x] == rows[x].(revokedAt := t[x].revokedAt)
    requires forall x :: 0 <= x < |rows| && rows[x].family == f ==> (t[x].revokedAt.Some? <==> t[f].revokedAt.Some?)
    ensures IsChain(t, f, ids)
  {
    forall k | 0 <= k < |ids| ensures LikeRoot(t, f, ids[k]) && t[ids[k]].rotationSeq == k {
      assert LikeRoot(rows, f, ids[k]);
    }
    forall k | 0 <= k < |ids| - 1 ensures t[ids[k]].supersededAt.Some? && t[ids[k]].rotatedTo == Some(ids[k + 1]) {
      assert t[ids[k]] == rows[ids[k]].(revokedAt := t[ids[k]].revokedAt);
    }
  }

  lemma MemberLikeRoot(rows: seq<Session>, x: nat)
    requires x < |rows| && HasChain(rows, rows[x].family)
    ensures rows[x].family < |rows| && LikeRoot(rows, rows[x].family, x) && rows[rows[x].family].rotationSeq == 0
  {
    var ids :| IsChain(rows, rows[x].family, ids);
    var k :| 0 <= k < |ids| && ids[k] == x;
    assert LikeRoot(rows, rows[x].family, ids[k]);
  }

  /** Revoking by a test that does not split a family. */
  lemma RevokeKeepsFamilies(rows: seq<Session>, t: seq<Session>, hit: Session -> bool, now: nat)
    requires Families(rows) && |t| == |rows|
    requires forall x :: 0 <= x < |rows| ==> t[x] == RevokeIf(rows[x], hit(rows[x]), now)
    requires forall x, y :: 0 <= x < |rows| && 0 <= y < |rows| && rows[x].family == rows[y].family ==> hit(rows[x]) == hit(rows[y])
    ensures Families(t)
  {
    forall x | 0 <= x < |t| ensures HasChain(t, t[x].family) {
      var f := rows[x].family;
      var ids :| IsChain(rows, f, ids);
      MemberLikeRoot(rows, x);
      forall y | 0 <= y < |rows| && rows[y].family == f ensures t[y].revokedAt.Some? <==> t[f].revokedAt.Some? {
        MemberLikeRoot(rows, y);
      }
      RevokeChain(rows, t, f, ids);
    }
  }

  lemma RevokeFamilyKeeps(c: Config, s: State, f: nat)
    requires Inv(c, s)
    ensures Inv(c, RevokeFamily(s, f))
  {
    var t := RevokeFamily(s, f);
    RevokeKeepsFamilies(s.rows, t.rows, (x: Session) => x.family == f, DbNow(s.clock));
    forall x | 0 <= x < |t.rows| ensures Current(t.users, t.rows[x]) && Capped(c, t.rows[x]) {
      assert Current(s.users, s.rows[x]) && Capped(c, s.rows[x]);
    }
  }

  lemma FamilyHasOneUser(rows: seq<Session>, x: nat, y: nat)
    requires Families(rows) && x < |rows| && y < |rows| && rows[x].family == rows[y].family
    ensures rows[x].user == rows[y].user
  {
    MemberLikeRoot(rows, x);
    MemberLikeRoot(rows, y);
  }

  lemma RevokeUserKeepsFamilies(s: State, u: nat)
    requires Families(s.rows)
    ensures Families(RevokeUser(s, u).rows)
  {
    forall x, y | 0 <= x < |s.rows| && 0 <= y < |s.rows| && s.rows[x].family == s.rows[y].family
      ensures s.rows[x].user == s.rows[y].user
    {
      FamilyHasOneUser(s.rows, x, y);
    }
    RevokeKeepsFamilies(s.rows, RevokeUser(s, u).rows, (x: Session) => x.user == u, DbNow(s.clock));
  }

  lemma ChangeRevokeKeeps(c: Config, s: State, u: nat)
    requires Inv(c, s) && Holds(s, u, ChangeWritten)
    ensures Inv(c, ChangeRevoke(s, u))
  {
    var t := ChangeRevoke(s, u);
    RevokeUserKeepsFamilies(s, u);
    forall x | 0 <= x < |t.rows| ensures Current(t.users, t.rows[x]) && Capped(c, t.rows[x]) {
      assert Current(s.users, s.rows[x]) && Capped(c, s.rows[x]);
    }
  }

  // ---------------------------------------------------------------- what the rest keeps

  lemma TouchKeepsFamilies(s: State, id: nat)
    requires Families(s.rows)
    ensures Families(Touch(s, id).rows)
  {
    var t := Touch(s, id);
    forall x | 0 <= x < |t.rows| ensures HasChain(t.rows, t.rows[x].family) {
      var ids :| IsChain(s.rows, s.rows[x].family, ids);
      TouchChain(s.rows, t.rows, s.rows[x].family, ids);
    }
  }

  lemma TouchKeeps(c: Config, s: State, id: nat)
    requires Inv(c, s)
    ensures Inv(c, Touch(s, id))
  {
    var t := Touch(s, id);
    TouchKeepsFamilies(s, id);
    forall x | 0 <= x < |t.rows| ensures Current(t.users, t.rows[x]) && Capped(c, t.rows[x]) {
      assert Current(s.users, s.rows[x]) && Capped(c, s.rows[x]);
    }
  }

  lemma TouchChain(rows: seq<Session>, t: seq<Session>, f: nat, ids: seq<nat>)
    requires IsChain(rows, f, ids) && |t| == |rows|
    requires forall x :: 0 <= x < |rows| ==> t[x] == rows[x].(lastUsedAt := t[x].lastUsedAt)
    ensures IsChain(t, f, ids)
  {
    forall k | 0 <= k < |ids| ensures LikeRoot(t, f, ids[k]) && t[ids[k]].rotationSeq == k {
      assert LikeRoot(rows, f, ids[k]);
    }
    forall k | 0 <= k < |ids| - 1 ensures t[ids[k]].supersededAt.Some? && t[ids[k]].rotatedTo == Some(ids[k + 1]) {
      assert t[ids[k]] == rows[ids[k]].(lastUsedAt := t[ids[k]].lastUsedAt);
    }
  }

  /** A new family, inserted by the transaction that holds the user lock. */
  lemma InsertKeeps(c: Config, s: State, u: nat, rememberMe: bool)
    requires Inv(c, s) && u < |s.users| && s.users[u].tx != ChangeWritten
    ensures Inv(c, SetTx(CreateSession(c, s, u, rememberMe), u, Idle))
  {
    var t := SetTx(CreateSession(c, s, u, rememberMe), u, Idle);
    var n := |s.rows|;
    forall x | 0 <= x < n ensures s.rows[x].family < n {
      MemberLikeRoot(s.rows, x);
    }
    assert IsChain(t.rows, n, [n]);
    forall x | 0 <= x < |t.rows| ensures HasChain(t.rows, t.rows[x].family) {
      if x < n {
        var ids :| IsChain(s.rows, s.rows[x].family, ids);
        OtherChain(s.rows, t.rows, s.rows[x].family, ids);
      }
    }
    forall x | 0 <= x < |t.rows| ensures Current(t.users, t.rows[x]) && Capped(c, t.rows[x]) {
      if x < n {
        assert Current(s.users, s.rows[x]) && Capped(c, s.rows[x]);
      }
    }
  }

  lemma UsersKeep(c: Config, s: State, e: Event)
    requires Inv(c, s) && (e.EvLoginVerify? || e.EvChangeVerify? || e.EvChangeWrite?)
    ensures Inv(c, Step(c, s, e))
  {
    var t := Step(c, s, e);
    forall x | 0 <= x < |t.rows| ensures Current(t.users, t.rows[x]) && Capped(c, t.rows[x]) {
      assert Current(s.users, s.rows[x]) && Capped(c, s.rows[x]);
    }
  }

  lemma ActKeeps(c: Config, s: State, k: nat)
    requires Inv(c, s)
    ensures Inv(c, Act(s, k))
  {
    if k < |s.pending| {
      var t := s.(pending := Without(s.pending, k));
      match s.pending[k]
      case RotateRow(id, _) => RotateKeeps(c, t, id);
      case TouchRow(id, _) => TouchKeeps(c, t, id);
      case RevokeRows(f) => RevokeFamilyKeeps(c, t, f);
    }
  }

  lemma StepKeeps(c: Config, s: State, e: Event)
    requires Inv(c, s)
    ensures Inv(c, Step(c, s, e))
  {
    match e
    case EvTick(_) =>
    case EvRead(_) =>
    case EvLogout(_) =>
    case EvAct(k) => ActKeeps(c, s, k);
    case EvLoginInsert(u, b) => if Holds(s, u, LoginVerified) { InsertKeeps(c, s, u, b); }
    case EvChangeInsert(u) => if Holds(s, u, ChangeRevoked) { InsertKeeps(c, s, u, false); }
    case EvChangeRevoke(u) => if Holds(s, u, ChangeWritten) { ChangeRevokeKeeps(c, s, u); }
    case _ => UsersKeep(c, s, e);
  }

  lemma {:induction false} RunKeeps(c: Config, s: State, events: seq<Event>)
    requires Inv(c, s)
    ensures Inv(c, Run(c, s, events))
    decreases |events|
  {
    if events != [] {
      StepKeeps(c, s, events[0]);
      RunKeeps(c, Step(c, s, events[0]), events[1..]);
    }
  }

  lemma ReachableInv(c: Config, s: State)
    requires Reachable(c, s)
    ensures Inv(c, s)
  {
    var start: State, events: seq<Event> :| Initial(start) && s == Run(c, start, events);
    RunKeeps(c, start, events);
  }

  // ---------------------------------------------------------------- theorems

  /** However requests, logouts and password changes interleave, each family is one chain. */
  lemma FamilyIsOneChain(c: Config, s: State, x: nat)
    requires Reachable(c, s) && x < |s.rows|
    ensures exists ids :: IsChain(s.rows, s.rows[x].family, ids) && x in ids
  {
    ReachableInv(c, s);
    var ids :| IsChain(s.rows, s.rows[x].family, ids);
  }

  /** Outside the two statements of a password change that has written the new hash and not yet
      revoked, every live session was created under its user's current password. */
  lemma LiveSessionsUseTheCurrentPassword(c: Config, s: State, x: nat)
    requires Reachable(c, s) && x < |s.rows| && s.rows[x].revokedAt.None?
    ensures s.rows[x].user < |s.users|
    ensures s.users[s.rows[x].user].tx != ChangeWritten ==> s.rows[x].generation == s.users[s.rows[x].user].generation
  {
    ReachableInv(c, s);
    assert Current(s.users, s.rows[x]);
  }

  /** Row x later: what it was created with stays; supersession and revocation never change once set. */
  ghost predicate RowAdvances(x: Session, y: Session) {
    && y.family == x.family && y.user == x.user && y.createdAt == x.createdAt && y.rotationSeq == x.rotationSeq
    && y.absoluteExpiresAt == x.absoluteExpiresAt
    && (x.supersededAt.Some? ==> y.supersededAt == x.supersededAt && y.rotatedTo == x.rotatedTo)
    && (x.revokedAt.Some? ==> y.revokedAt == x.revokedAt)
  }

  ghost predicate Advances(s: State, t: State) {
    && |s.rows| <= |t.rows| && s.clock <= t.clock
    && forall x :: 0 <= x < |s.rows| ==> RowAdvances(s.rows[x], t.rows[x])
  }

  lemma AdvancesStep(c: Config, s: State, e: Event)
    ensures Advances(s, Step(c, s, e))
  {
  }

  lemma {:induction false} AdvancesRun(c: Config, s: State, events: seq<Event>)
    ensures Advances(s, Run(c, s, events))
    decreases |events|
  {
    if events != [] {
      var t := Step(c, s, events[0]);
      AdvancesStep(c, s, events[0]);
      AdvancesRun(c, t, events[1..]);
      var r := Run(c, s, events);
      forall x | 0 <= x < |s.rows| ensures RowAdvances(s.rows[x], r.rows[x]) {
        assert RowAdvances(s.rows[x], t.rows[x]) && RowAdvances(t.rows[x], r.rows[x]);
      }
    }
  }

  /** Row n is the one successor of row x: it follows x in the family and no other row does. */
  ghost predicate OneSuccessor(rows: seq<Session>, x: nat, n: nat)
    requires x < |rows|
  {
    && n < |rows| && rows[n].family == rows[x].family && rows[n].rotationSeq == rows[x].rotationSeq + 1
    && forall m :: 0 <= m < |rows| && rows[m].family == rows[x].family && rows[m].rotationSeq == rows[x].rotationSeq + 1 ==> m == n
  }

  lemma SuccessorOfInv(rows: seq<Session>, x: nat)
    requires Families(rows) && x < |rows| && rows[x].supersededAt.Some?
    ensures rows[x].rotatedTo.Some? && OneSuccessor(rows, x, rows[x].rotatedTo.value)
  {
    var ids :| IsChain(rows, rows[x].family, ids);
    var k :| 0 <= k < |ids| && ids[k] == x;
    assert k < |ids| - 1 && rows[ids[k]].rotatedTo == Some(ids[k + 1]) && rows[ids[k]].rotationSeq == k;
    assert LikeRoot(rows, rows[x].family, ids[k + 1]) && rows[ids[k + 1]].rotationSeq == k + 1;
    forall m | 0 <= m < |rows| && rows[m].family == rows[x].family && rows[m].rotationSeq == rows[x].rotationSeq + 1
      ensures m == ids[k + 1]
    {
      var j :| 0 <= j < |ids| && ids[j] == m;
      assert rows[ids[j]].rotationSeq == j;
    }
  }

  /** Of any number of racing requests one makes the successor: once a row is rotated, every run leaves
      it pointing to the same row, the only one that follows it, and no later rotation of it writes anything. */
  lemma RotationHappensOnce(c: Config, s: State, events: seq<Event>, x: nat)
    requires Reachable(c, s) && x < |s.rows| && s.rows[x].supersededAt.Some?
    ensures s.rows[x].rotatedTo.Some?
    ensures var t, n := Run(c, s, events), s.rows[x].rotatedTo.value;
      x < |t.rows| && t.rows[x].rotatedTo == Some(n) && OneSuccessor(t.rows, x, n) && Rotate(t, x) == t
  {
    ReachableInv(c, s);
    RunKeeps(c, s, events);
    AdvancesRun(c, s, events);
    SuccessorOfInv(s.rows, x);
    assert RowAdvances(s.rows[x], Run(c, s, events).rows[x]);
    SuccessorOfInv(Run(c, s, events).rows, x);
  }

  /** Once one row of a family is revoked, no row of the family is ever live again, not even one
      that a rotation already under way would insert. */
  lemma RevokedFamilyStaysDead(c: Config, s: State, events: seq<Event>, x: nat)
    requires Reachable(c, s) && x < |s.rows| && s.rows[x].revokedAt.Some?
    ensures var t := Run(c, s, events);
      forall y :: 0 <= y < |t.rows| && t.rows[y].family == s.rows[x].family ==> t.rows[y].revokedAt.Some?
  {
    var t := Run(c, s, events);
    ReachableInv(c, s);
    RunKeeps(c, s, events);
    AdvancesRun(c, s, events);
    assert RowAdvances(s.rows[x], t.rows[x]);
    MemberLikeRoot(t.rows, x);
    forall y | 0 <= y < |t.rows| && t.rows[y].family == s.rows[x].family ensures t.rows[y].revokedAt.Some? {
      MemberLikeRoot(t.rows, y);
    }
  }

  // ---------------------------------------------------------------- replay and logout

  ghost predicate AllRevoked(rows: seq<Session>, f: nat) {
    forall y :: 0 <= y < |rows| && rows[y].family == f ==> rows[y].revokedAt.Some?
  }

  /** The revocation of the family has reached the database, or some request is about to make it. */
  ghost predicate Doomed(s: State, f: nat) {
    f < |s.rows| && (RevokeRows(f) in s.pending || AllRevoked(s.rows, f))
  }

  lemma WithoutKeeps(ps: seq<Intent>, k: nat, i: Intent)
    requires k < |ps| && i in ps && ps[k] != i
    ensures i in Without(ps, k)
  {
    var j :| 0 <= j < |ps| && ps[j] == i;
    assert Without(ps, k)[if j < k then j else j - 1] == i;
  }

  lemma DoomedStep(c: Config, s: State, e: Event, f: nat)
    requires Doomed(s, f)
    ensures Doomed(Step(c, s, e), f)
  {
    var t := Step(c, s, e);
    AdvancesStep(c, s, e);
    if AllRevoked(s.rows, f) {
      forall y | 0 <= y < |t.rows| && t.rows[y].family == f ensures t.rows[y].revokedAt.Some? {
        if y < |s.rows| {
          assert RowAdvances(s.rows[y], t.rows[y]);
        }
      }
    } else if e.EvAct? && e.k < |s.pending| && s.pending[e.k] != RevokeRows(f) {
      WithoutKeeps(s.pending, e.k, RevokeRows(f));
    }
  }

  lemma {:induction false} DoomedRun(c: Config, s: State, events: seq<Event>, f: nat)
    requires Doomed(s, f)
    ensures Doomed(Run(c, s, events), f)
    decreases |events|
  {
    if events != [] {
      DoomedStep(c, s, events[0], f);
      DoomedRun(c, Step(c, s, events[0]), events[1..], f);
    }
  }

  /** A rotated-out token presented after its grace period, or a logout, dooms the family: in every
      later state its revocation is on the way or every row of the family is revoked. */
  lemma ReplayDoomsTheFamily(c: Config, s: State, events: seq<Event>, x: nat)
    requires Reachable(c, s) && x < |s.rows|
    ensures Resolve(c, s, x) == Replay ==> Doomed(Run(c, Read(c, s, x), events), s.rows[x].family)
    ensures s.rows[x].revokedAt.None? ==> Doomed(Run(c, Logout(s, x), events), s.rows[x].family)
  {
    ReachableInv(c, s);
    MemberLikeRoot(s.rows, x);
    if Resolve(c, s, x) == Replay {
      assert Read(c, s, x).pending[|s.pending|] == RevokeRows(s.rows[x].family);
      DoomedRun(c, Read(c, s, x), events, s.rows[x].family);
    }
    if s.rows[x].revokedAt.None? {
      assert Logout(s, x).pending[|s.pending|] == RevokeRows(s.rows[x].family);
      DoomedRun(c, Logout(s, x), events, s.rows[x].family);
    }
  }

  // ---------------------------------------------------------------- which requests are served

  predicate Serves(v: Verdict) {
    v != Invalid && v != Replay
  }

  /** A request is under way that read row x and will be served. */
  predicate RequestFor(i: Intent, x: nat) {
    (i.RotateRow? || i.TouchRow?) && i.id == x
  }

  function Awaiting(ps: seq<Intent>, x: nat): nat {
    if ps == [] then 0 else Awaiting(ps[..|ps| - 1], x) + if RequestFor(ps[|ps| - 1], x) then 1 else 0
  }

  function ServedOn(log: seq<Served>, x: nat): nat {
    if log == [] then 0 else ServedOn(log[..|log| - 1], x) + if log[|log| - 1].token == x then 1 else 0
  }

  lemma AwaitingAppend(ps: seq<Intent>, i: Intent, x: nat)
    ensures Awaiting(ps + [i], x) == Awaiting(ps, x) + if RequestFor(i, x) then 1 else 0
  {
    assert (ps + [i])[..|ps|] == ps;
  }

  lemma {:induction false} AwaitingWithout(ps: seq<Intent>, k: nat, x: nat)
    requires k < |ps|
    ensures Awaiting(Without(ps, k), x) + (if RequestFor(ps[k], x) then 1 else 0) == Awaiting(ps, x)
  {
    var n := |ps| - 1;
    if k == n {
      assert Without(ps, k) == ps[..n];
    } else {
      assert Without(ps, k)[..n - 1] == Without(ps[..n], k);
      AwaitingWithout(ps[..n], k, x);
    }
  }

  lemma ServedAppend(log: seq<Served>, y: Served, x: nat)
    ensures ServedOn(log + [y], x) == ServedOn(log, x) + if y.token == x then 1 else 0
  {
    assert (log + [y])[..|log|] == log;
  }

  /** The token of row x is dead: revoked, past its absolute expiry, or past the grace period of its rotation. */
  predicate Dead(c: Config, s: State, x: nat) {
    && x < |s.rows|
    && var row := s.rows[x];
      row.revokedAt.Some? || row.absoluteExpiresAt <= s.clock
      || (row.supersededAt.Some? && s.clock > row.supersededAt.value + c.graceMs)
  }

  lemma DeadStays(c: Config, s: State, e: Event, x: nat)
    requires Dead(c, s, x)
    ensures Dead(c, Step(c, s, e), x)
  {
    AdvancesStep(c, s, e);
    assert RowAdvances(s.rows[x], Step(c, s, e).rows[x]);
  }

  lemma DeadIsNotServed(c: Config, s: State, x: nat)
    requires Dead(c, s, x)
    ensures !Serves(Resolve(c, s, x))
  {
  }

  lemma ReadServes(c: Config, s: State, id: nat, x: nat)
    requires Dead(c, s, x)
    ensures var t := Read(c, s, id); Awaiting(t.pending, x) == Awaiting(s.pending, x) && ServedOn(t.served, x) == ServedOn(s.served, x)
  {
    var t := Read(c, s, id);
    DeadIsNotServed(c, s, x);
    if |t.pending| > |s.pending| {
      AwaitingAppend(s.pending, t.pending[|s.pending|], x);
    }
    if |t.served| > |s.served| {
      ServedAppend(s.served, t.served[|s.served|], x);
    }
  }

  lemma ActServes(s: State, k: nat, x: nat)
    ensures var t := Act(s, k); ServedOn(t.served, x) + Awaiting(t.pending, x) == ServedOn(s.served, x) + Awaiting(s.pending, x)
  {
    if k < |s.pending| {
      var t := Act(s, k);
      AwaitingWithout(s.pending, k, x);
      if |t.served| > |s.served| {
        ServedAppend(s.served, t.served[|s.served|], x);
      }
    }
  }

  lemma LogoutServes(s: State, id: nat, x: nat)
    ensures var t := Logout(s, id); t.served == s.served && Awaiting(t.pending, x) == Awaiting(s.pending, x)
  {
    if id < |s.rows| {
      AwaitingAppend(s.pending, RevokeRows(s.rows[id].family), x);
    }
  }

  lemma ServingStep(c: Config, s: State, e: Event, x: nat)
    requires Dead(c, s, x)
    ensures var t := Step(c, s, e); ServedOn(t.served, x) + Awaiting(t.pending, x) == ServedOn(s.served, x) + Awaiting(s.pending, x)
  {
    match e
    case EvRead(id) => ReadServes(c, s, id, x);
    case EvAct(k) => ActServes(s, k, x);
    case EvLogout(id) => LogoutServes(s, id, x);
    case _ =>
  }

  /** From the moment a token is dead no read of it is served again, and in every run the requests
      served on it are exactly those among the ones that had read it before whose write has run since:
      each of them is served, won or lost, and no other. */
  lemma {:induction false} DeadTokenServesOnlyEarlierReads(c: Config, s: State, events: seq<Event>, x: nat)
    requires Dead(c, s, x)
    ensures var t := Run(c, s, events);
      && !Serves(Resolve(c, t, x))
      && ServedOn(t.served, x) + Awaiting(t.pending, x) == ServedOn(s.served, x) + Awaiting(s.pending, x)
    decreases |events|
  {
    if events == [] {
      DeadIsNotServed(c, s, x);
    } else {
      ServingStep(c, s, events[0], x);
      DeadStays(c, s, events[0], x);
      DeadTokenServesOnlyEarlierReads(c, Step(c, s, events[0]), events[1..], x);
    }
  }

  /** Row x was good when it was read at readAt: not expired, and not revoked or past its grace period
      but for the seconds the database rounds to. */
  ghost predicate GoodAt(c: Config, rows: seq<Session>, x: nat, readAt: nat) {
    && x < |rows| && readAt < rows[x].absoluteExpiresAt
    && (rows[x].revokedAt.Some? ==> DbNow(readAt) <= rows[x].revokedAt.value)
    && (rows[x].supersededAt.Some? ==>
      DbNow(readAt) <= rows[x].supersededAt.value || readAt <= rows[x].supersededAt.value + c.graceMs)
  }

  ghost predicate GoodRequest(c: Config, s: State, i: Intent) {
    i.RotateRow? || i.TouchRow? ==> GoodAt(c, s.rows, i.id, i.readAt) && i.readAt <= s.clock
  }

  ghost predicate GoodAnswer(c: Config, s: State, y: Served) {
    && GoodAt(c, s.rows, y.token, y.readAt) && y.readAt <= y.at <= s.clock
    && (y.row == y.token || s.rows[y.token].rotatedTo == Some(y.row))
  }

  ghost predicate GoodLog(c: Config, s: State) {
    && (forall i <- s.pending :: GoodRequest(c, s, i))
    && (forall y <- s.served :: GoodAnswer(c, s, y))
  }

  lemma DbNowMono(a: nat, b: nat)
    requires a <= b
    ensures DbNow(a) <= DbNow(b)
  {
  }

  /** Revocations and supersessions carry the time they happen at. */
  lemma StampsAreNow(c: Config, s: State, e: Event, x: nat)
    requires x < |s.rows|
    ensures var t := Step(c, s, e);
      && x < |t.rows|
      && (s.rows[x].revokedAt.None? && t.rows[x].revokedAt.Some? ==> t.rows[x].revokedAt.value == DbNow(s.clock))
      && (s.rows[x].supersededAt.None? && t.rows[x].supersededAt.Some? ==> t.rows[x].supersededAt.value == DbNow(s.clock))
  {
  }

  lemma GoodStays(c: Config, s: State, e: Event, x: nat, readAt: nat)
    requires GoodAt(c, s.rows, x, readAt) && readAt <= s.clock
    ensures GoodAt(c, Step(c, s, e).rows, x, readAt)
  {
    AdvancesStep(c, s, e);
    assert RowAdvances(s.rows[x], Step(c, s, e).rows[x]);
    StampsAreNow(c, s, e, x);
    DbNowMono(readAt, s.clock);
  }

  lemma ReadIsGood(c: Config, s: State, id: nat)
    requires Serves(Resolve(c, s, id))
    ensures GoodAt(c, s.rows, id, s.clock)
  {
  }

  /** An answer stays good: the row it names is that of the token or its only successor. */
  lemma AnswerStays(c: Config, s: State, e: Event, y: Served)
    requires Inv(c, s) && GoodAnswer(c, s, y)
    ensures GoodAnswer(c, Step(c, s, e), y)
  {
    GoodStays(c, s, e, y.token, y.readAt);
    AdvancesStep(c, s, e);
    assert RowAdvances(s.rows[y.token], Step(c, s, e).rows[y.token]);
    if y.row != y.token {
      RotatedIsSuperseded(s.rows, y.token);
    }
  }

  lemma RotatedIsSuperseded(rows: seq<Session>, x: nat)
    requires Families(rows) && x < |rows| && rows[x].rotatedTo.Some?
    ensures rows[x].supersededAt.Some?
  {
    var ids :| IsChain(rows, rows[x].family, ids);
    var k :| 0 <= k < |ids| && ids[k] == x;
  }

  /** What one event adds to the pending requests and to the answers is good. */
  lemma NewEntriesAreGood(c: Config, s: State, e: Event)
    requires GoodLog(c, s)
    ensures var t := Step(c, s, e);
      && (forall i <- t.pending :: i in s.pending || GoodRequest(c, t, i))
      && (forall y <- t.served :: y in s.served || GoodAnswer(c, t, y))
  {
    match e
    case EvRead(id) =>
      if Serves(Resolve(c, s, id)) {
        ReadIsGood(c, s, id);
      }
    case EvAct(k) => AnswersAreGood(c, s, k);
    case _ =>
  }

  lemma AnswersAreGood(c: Config, s: State, k: nat)
    requires GoodLog(c, s)
    ensures var t := Act(s, k);
      && (forall i <- t.pending :: i in s.pending)
      && (forall y <- t.served :: y in s.served || GoodAnswer(c, t, y))
  {
    if k < |s.pending| && !s.pending[k].RevokeRows? {
      var i := s.pending[k];
      assert GoodRequest(c, s, i);
      GoodStays(c, s, EvAct(k), i.id, i.readAt);
    }
  }

  lemma GoodLogStep(c: Config, s: State, e: Event)
    requires Inv(c, s) && GoodLog(c, s)
    ensures GoodLog(c, Step(c, s, e))
  {
    var t := Step(c, s, e);
    AdvancesStep(c, s, e);
    NewEntriesAreGood(c, s, e);
    forall i <- t.pending ensures GoodRequest(c, t, i) {
      if i in s.pending && !i.RevokeRows? {
        assert GoodRequest(c, s, i);
        GoodStays(c, s, e, i.id, i.readAt);
      }
    }
    forall y <- t.served ensures GoodAnswer(c, t, y) {
      if y in s.served {
        assert GoodAnswer(c, s, y);
        AnswerStays(c, s, e, y);
      }
    }
  }

  lemma {:induction false} GoodLogRun(c: Config, s: State, events: seq<Event>)
    requires Inv(c, s) && GoodLog(c, s)
    ensures GoodLog(c, Run(c, s, events))
    decreases |events|
  {
    if events != [] {
      GoodLogStep(c, s, events[0]);
      StepKeeps(c, s, events[0]);
      GoodLogRun(c, Step(c, s, events[0]), events[1..]);
    }
  }

  lemma ReachableLog(c: Config, s: State)
    requires Reachable(c, s)
    ensures GoodLog(c, s)
  {
    var start: State, events: seq<Event> :| Initial(start) && s == Run(c, start, events);
    GoodLogRun(c, start, events);
  }

  /** Every answer ever given was for a token that was good when it was read, was given on its row or its
      one successor, and was read within the cap counted from the login, to the second: no sequence of
      rotations keeps a login alive past its cap. */
  lemma ServedWasGoodWhenRead(c: Config, s: State, y: Served)
    requires Reachable(c, s) && y in s.served
    ensures GoodAt(c, s.rows, y.token, y.readAt) && y.readAt <= y.at <= s.clock
    ensures y.row == y.token || OneSuccessor(s.rows, y.token, y.row)
    ensures s.rows[y.token].family < |s.rows|
    ensures var root := s.rows[s.rows[y.token].family];
      root.rotationSeq == 0 && y.readAt < root.createdAt + Cap(c, root.rememberMe) + 1500
  {
    ReachableInv(c, s);
    ReachableLog(c, s);
    assert GoodAnswer(c, s, y);
    MemberLikeRoot(s.rows, y.token);
    assert Capped(c, s.rows[s.rows[y.token].family]);
    if y.row != y.token {
      RotatedIsSuperseded(s.rows, y.token);
      SuccessorOfInv(s.rows, y.token);
    }
  }

  // ---------------------------------------------------------------- the row of a login

  predicate Second(clock: nat, r: nat) {
    r % 1000 == 0 && r <= clock < r + 1000
  }

  /** Row x, at position n, starts the family of a login: capped by the long period exactly if the user asked
      to be remembered, with the times the database rounds to. */
  ghost predicate IsLogin(c: Config, x: Session, n: nat, u: nat, generation: nat, rememberMe: bool, clock: nat) {
    && x.user == u && x.family == n && x.rotationSeq == 0 && x.rememberMe == rememberMe && x.generation == generation
    && Second(clock, x.createdAt) && Second(clock, x.lastUsedAt)
    && x.supersededAt == None && x.rotatedTo == None && x.revokedAt == None
    && x.absoluteExpiresAt % 1000 == 0
    && var end := clock + if rememberMe then c.rememberMs else c.ttlMs;
      x.absoluteExpiresAt <= end + 500 && end < x.absoluteExpiresAt + 500
  }

  lemma NewIsLogin(c: Config, s: State, u: nat, rememberMe: bool)
    requires u < |s.users|
    ensures IsLogin(c, NewSession(c, s, u, rememberMe), |s.rows|, u, s.users[u].generation, rememberMe, s.clock)
  {
  }

  // ---------------------------------------------------------------- the tables in place

  lemma {:induction false} RunAppend(c: Config, s: State, events: seq<Event>, more: seq<Event>)
    ensures Run(c, s, events + more) == Run(c, Run(c, s, events), more)
    decreases |events|
  {
    if events == [] {
      assert events + more == more;
    } else {
      assert (events + more)[0] == events[0] && (events + more)[1..] == events[1..] + more;
      RunAppend(c, Step(c, s, events[0]), events[1..], more);
    }
  }

  lemma StepReachable(c: Config, s: State, e: Event)
    requires Reachable(c, s)
    ensures Reachable(c, Step(c, s, e))
  {
    var start: State, events: seq<Event> :| Initial(start) && s == Run(c, start, events);
    RunAppend(c, start, events, [e]);
    assert [e][1..] == [];
    assert Step(c, s, e) == Run(c, start, events + [e]);
  }

  lemma ChangeReachable(c: Config, s: State, u: nat, current: string, next: string, usable: bool)
    requires Reachable(c, s)
    ensures Reachable(c, ChangeInsert(c, ChangeRevoke(ChangeWrite(ChangeVerify(s, u, current, next, usable), u), u), u))
  {
    StepReachable(c, s, EvChangeVerify(u, current, next, usable));
    StepReachable(c, ChangeVerify(s, u, current, next, usable), EvChangeWrite(u));
    StepReachable(c, ChangeWrite(ChangeVerify(s, u, current, next, usable), u), EvChangeRevoke(u));
    StepReachable(c, ChangeRevoke(ChangeWrite(ChangeVerify(s, u, current, next, usable), u), u), EvChangeInsert(u));
  }

  class SessionStore {
    const config: Config
    var users: seq<User>
    var rows: seq<Session>
    var clock: nat
    var pending: seq<Intent>
    var served: seq<Served>

    ghost function View(): State
      reads this
    {
      State(users, rows, clock, pending, served)
    }

    /** Any interleaving of requests, logouts, logins and password changes may have led here. */
    ghost predicate Valid()
      reads this
    {
      Reachable(config, View())
    }

    constructor (config: Config, users: seq<User>, clock: nat)
      requires forall u :: 0 <= u < |users| ==> users[u].tx == Idle
      ensures this.config == config && Valid() && View() == State(users, [], clock, [], [])
    {
      this.config, this.users, this.clock := config, users, clock;
      rows, pending, served := [], [], [];
      new;
      assert Initial(View()) && View() == Run(config, View(), []);
    }

    /** `resolveSession` up to its write. */
    method ResolveToken(id: nat) returns (v: Verdict)
      requires Valid()
      modifies this`pending, this`served
      ensures Valid() && v == Resolve(config, old(View()), id) && View() == Read(config, old(View()), id)
      ensures v == Invalid <==> !old(Good(config, View(), id))
      ensures v == Replay <==> old(Good(config, View(), id) && PastGrace(config, View(), id))
      ensures pending == if !old(Good(config, View(), id)) then old(pending)
        else if old(PastGrace(config, View(), id)) then old(pending) + [RevokeRows(rows[id].family)]
        else if old(Due(config, View(), id)) then old(pending) + [RotateRow(id, clock)]
        else if old(Idling(config, View(), id)) then old(pending) + [TouchRow(id, clock)]
        else old(pending)
      ensures served == if old(Good(config, View(), id)) && pending == old(pending) then old(served) + [Served(id, id, clock, clock)]
        else old(served)
    {
      StepReachable(config, View(), EvRead(id));
      if id >= |rows| || rows[id].revokedAt.Some? { return Invalid; }
      var row, now := rows[id], clock;
      if row.absoluteExpiresAt <= now { return Invalid; }
      if now - row.lastUsedAt > config.idleMs { return Invalid; }
      if row.supersededAt.Some? {
        if now - row.supersededAt.value <= config.graceMs {
          served := served + [Served(id, id, now, now)];
          return InGrace;
        }
        pending := pending + [RevokeRows(row.family)];
        return Replay;
      }
      if now - row.createdAt > config.rotateMs {
        pending := pending + [RotateRow(id, now)];
        return RotationDue;
      }
      if now - row.lastUsedAt > 60_000 {
        pending := pending + [TouchRow(id, now)];
        return IdleRefresh;
      }
      served := served + [Served(id, id, now, now)];
      v := Accepted;
    }

    /** `resolveSession` from its write on: the write, and the answer unless it was a replay. */
    method Write(k: nat) returns (answer: Option<nat>)
      requires Valid() && k < |pending|
      modifies this`rows, this`pending, this`served
      ensures Valid() && View() == Act(old(View()), k)
      ensures answer.Some? <==> !old(pending)[k].RevokeRows?
      ensures answer.Some? ==> |served| == |old(served)| + 1 && served[|served| - 1].row == answer.value
    {
      StepReachable(config, View(), EvAct(k));
      var intent := pending[k];
      pending := Without(pending, k);
      match intent {
        case RotateRow(id, readAt) =>
          var successor := RotateSession(id);
          answer := if successor.Some? then successor else Some(id);
          served := served + [Served(id, answer.value, readAt, clock)];
        case TouchRow(id, readAt) =>
          if id < |rows| {
            rows := rows[id := rows[id].(lastUsedAt := DbNow(clock))];
          }
          answer := Some(id);
          served := served + [Served(id, id, readAt, clock)];
        case RevokeRows(family) =>
          RevokeFamilyRows(family);
          answer := None;
      }
    }

    /** `rotateSession`: insert the successor, then mark the current row; None if another request won. */
    method RotateSession(id: nat) returns (successor: Option<nat>)
      modifies this`rows
      ensures View() == Rotate(old(View()), id)
      ensures successor.Some? ==> successor.value == old(|rows|) && successor.value < |rows| && rows[id].rotatedTo == successor
      ensures successor.None? ==> rows == old(rows)
    {
      if id >= |rows| { return None; }
      var cur := rows[id];
      if cur.supersededAt.Some? || cur.revokedAt.Some? { return None; }
      var successorId := |rows|;
      rows := rows + [Session(cur.user, cur.family, cur.rotationSeq + 1, cur.rememberMe, cur.absoluteExpiresAt,
                              DbNow(clock), DbNow(clock), None, None, None, cur.generation)];
      rows := rows[id := cur.(supersededAt := Some(DbNow(clock)), rotatedTo := Some(successorId))];
      successor := Some(successorId);
    }

    method RevokeFamilyRows(family: nat)
      modifies this`rows
      ensures View() == RevokeFamily(old(View()), family)
    {
      rows := seq(|rows|, k requires 0 <= k < |rows| reads this => RevokeIf(rows[k], rows[k].family == family, DbNow(clock)));
    }

    /** `login` once it holds the user-row lock. */
    method Login(u: nat, password: string, usable: bool, rememberMe: bool) returns (id: Option<nat>)
      requires Valid() && u < |users| && users[u].tx == Idle
      modifies this`users, this`rows
      ensures Valid() && View() == LoginInsert(config, LoginVerify(old(View()), u, password, usable), u, rememberMe)
      ensures id.Some? <==> password == old(users)[u].password && usable
      ensures id.None? ==> rows == old(rows)
      ensures id.Some? ==> |rows| == old(|rows|) + 1 && rows[..old(|rows|)] == old(rows) && id.value == old(|rows|)
      ensures id.Some? ==> IsLogin(config, rows[id.value], id.value, u, old(users)[u].generation, rememberMe, clock)
    {
      if password != users[u].password || !usable { return None; }
      StepReachable(config, View(), EvLoginVerify(u, password, usable));
      StepReachable(config, LoginVerify(View(), u, password, usable), EvLoginInsert(u, rememberMe));
      users := users[u := users[u].(tx := LoginVerified)];
      InsertSession(u, rememberMe);
      NewIsLogin(config, old(View()), u, rememberMe);
      users := users[u := users[u].(tx := Idle)];
      id := Some(|rows| - 1);
    }

    /** `createSession`, on the transaction of the caller. */
    method InsertSession(u: nat, rememberMe: bool)
      requires u < |users|
      modifies this`rows
      ensures View() == CreateSession(config, old(View()), u, rememberMe)
    {
      var absoluteExpiresAt := StoredDate(clock + if rememberMe then config.rememberMs else config.ttlMs);
      rows := rows + [Session(u, |rows|, 0, rememberMe, absoluteExpiresAt, DbNow(clock), DbNow(clock),
                              None, None, None, users[u].generation)];
    }

    /** `changePassword`: verify, update the hash, revoke every session, insert the replacement. */
    method ChangePassword(u: nat, current: string, next: string, usable: bool) returns (ok: bool)
      requires Valid() && u < |users| && users[u].tx == Idle
      modifies this`users, this`rows
      ensures Valid() && View() == ChangeInsert(config, ChangeRevoke(ChangeWrite(ChangeVerify(old(View()), u, current, next, usable), u), u), u)
      ensures ok <==> usable && current == old(users)[u].password && next != old(users)[u].password
      ensures ok ==> |rows| == old(|rows|) + 1 && users[u].password == next
      ensures ok ==> IsLogin(config, rows[|rows| - 1], |rows| - 1, u, old(users)[u].generation + 1, false, clock)
      ensures ok ==> forall x :: 0 <= x < |rows| - 1 && rows[x].user == u ==> rows[x].revokedAt.Some?
      ensures !ok ==> View() == old(View())
    {
      if !usable || current != users[u].password || next == users[u].password { return false; }
      ChangeReachable(config, View(), u, current, next, usable);
      users := users[u := User(next, users[u].generation + 1, ChangeWritten)];
      ghost var written := ChangeWrite(ChangeVerify(old(View()), u, current, next, usable), u);
      assert View() == written;
      rows := seq(|rows|, k requires 0 <= k < |rows| reads this => RevokeIf(rows[k], rows[k].user == u, DbNow(clock)));
      users := users[u := users[u].(tx := ChangeRevoked)];
      assert View() == ChangeRevoke(written, u);
      NewIsLogin(config, View(), u, false);
      InsertSession(u, false);
      users := users[u := users[u].(tx := Idle)];
      ok := true;
    }
  }
}
