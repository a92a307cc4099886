/** The JSON store's operations (server/database.js): `userDB`, `inviteCodeDB`,
    `ptSessionDB` and `commentDB`. Each one loads the whole database, edits one
    collection and saves it again; here each is a function from the store value
    to the new store value and its result. */
module Database {
  import opened Wrappers
  import opened Seqs
  import opened Model

  // ===================== users =====================

  function HasUserId(id: Id): User -> bool { (u: User) => u.id == id }
  function HasEmail(email: string): User -> bool { (u: User) => u.email == email }

  /** `userDB.findById`: the first account with that id. */
  function FindUserById(st: Store, id: Id): (r: Option<User>)
    ensures r.Some? ==> r.value in st.users && r.value.id == id
    ensures r.None? <==> forall u :: u in st.users ==> u.id != id
  {
    Find(st.users, HasUserId(id))
  }

  /** `userDB.findByEmail`: the first account with that e-mail. */
  function FindUserByEmail(st: Store, email: string): (r: Option<User>)
    ensures r.Some? ==> r.value in st.users && r.value.email == email
    ensures r.None? <==> forall u :: u in st.users ==> u.email != email
  {
    Find(st.users, HasEmail(email))
  }

  /** The fields a new account is created with. */
  datatype NewUser = NewUser(name: string, email: string, password: string, role: Role, trainerId: Option<Id>)

  /** `userDB.create`: appends the account under the next user id. */
  function CreateUser(st: Store, data: NewUser, now: Timestamp): (r: (Store, User))
    ensures r.1.id == st.counters.users + 1
    ensures r.1.name == data.name && r.1.email == data.email && r.1.password == data.password
    ensures r.1.role == data.role && r.1.trainerId == data.trainerId && r.1.createdAt == now
    ensures r.0.users == st.users + [r.1]
    ensures r.0 == st.(users := r.0.users, counters := st.counters.(users := st.counters.users + 1))
  {
    var u := User(st.counters.users + 1, data.name, data.email, data.password, data.role, data.trainerId, now);
    (st.(users := st.users + [u], counters := st.counters.(users := st.counters.users + 1)), u)
  }

  function IsMemberOf(trainerId: Id): User -> bool {
    (u: User) => u.role == Member && u.trainerId == Some(trainerId)
  }

  /** `userDB.findMembersByTrainerId`: the member accounts attached to the trainer. */
  function FindMembersByTrainerId(st: Store, trainerId: Id): (r: seq<User>)
    ensures forall u :: u in r <==> u in st.users && u.role == Member && u.trainerId == Some(trainerId)
  {
    Filter(st.users, IsMemberOf(trainerId))
  }

  /** `userDB.delete`: drops every account with that id. */
  function DeleteUser(st: Store, id: Id): (r: Store)
    ensures forall u :: u in r.users <==> u in st.users && u.id != id
    ensures r == st.(users := r.users)
  {
    st.(users := Filter(st.users, Not(HasUserId(id))))
  }

  // ===================== invite codes =====================

  function HasCode(code: string): InviteCode -> bool { (c: InviteCode) => c.code == code }

  /** `inviteCodeDB.findByCode`: the first invite with that code. */
  function FindInviteByCode(st: Store, code: string): (r: Option<InviteCode>)
    ensures r.Some? ==> r.value in st.inviteCodes && r.value.code == code
    ensures r.None? <==> forall c :: c in st.inviteCodes ==> c.code != code
  {
    Find(st.inviteCodes, HasCode(code))
  }

  /** `inviteCodeDB.create`: appends an unused invite under the next invite id. */
  function CreateInvite(st: Store, code: string, trainerId: Id, expiresAt: Timestamp, now: Timestamp)
    : (r: (Store, InviteCode))
    ensures r.1.id == st.counters.inviteCodes + 1 && !r.1.used
    ensures r.1.code == code && r.1.trainerId == trainerId && r.1.expiresAt == expiresAt && r.1.createdAt == now
    ensures r.0.inviteCodes == st.inviteCodes + [r.1]
    ensures r.0 == st.(inviteCodes := r.0.inviteCodes,
                       counters := st.counters.(inviteCodes := st.counters.inviteCodes + 1))
  {
    var c := InviteCode(st.counters.inviteCodes + 1, code, trainerId, expiresAt, false, now);
    (st.(inviteCodes := st.inviteCodes + [c],
         counters := st.counters.(inviteCodes := st.counters.inviteCodes + 1)), c)
  }

  /** `inviteCodeDB.markAsUsed`: sets `used` on the first invite with that code;
      an unknown code changes nothing. */
  function MarkInviteUsed(st: Store, code: string): (r: Store)
    ensures |r.inviteCodes| == |st.inviteCodes|
    ensures r == st.(inviteCodes := r.inviteCodes)
    ensures FindIndex(st.inviteCodes, HasCode(code)).None? ==> r == st
    ensures FindIndex(st.inviteCodes, HasCode(code)).Some? ==>
      var k := FindIndex(st.inviteCodes, HasCode(code)).value;
      && r.inviteCodes[k] == st.inviteCodes[k].(used := true)
      && forall j :: 0 <= j < |st.inviteCodes| && j != k ==> r.inviteCodes[j] == st.inviteCodes[j]
  {
    match FindIndex(st.inviteCodes, HasCode(code))
    case None => st
    case Some(k) => st.(inviteCodes := st.inviteCodes[k := st.inviteCodes[k].(used := true)])
  }

  /** Marking a code as used a second time changes nothing. */
  lemma MarkInviteUsedIdempotent(st: Store, code: string)
    ensures MarkInviteUsed(MarkInviteUsed(st, code), code) == MarkInviteUsed(st, code)
  {
    match FindIndex(st.inviteCodes, HasCode(code))
    case None =>
    case Some(k) =>
      FindIndexUpdate(st.inviteCodes, HasCode(code), k, st.inviteCodes[k].(used := true));
  }

  // ===================== PT sessions =====================

  function HasSessionId(id: Id): Session -> bool { (s: Session) => s.id == id }

  function InSlot(trainerId: Id, date: Day, startTime: Time): Session -> bool {
    (s: Session) => s.trainerId == trainerId && s.date == date && s.startTime == startTime
  }

  /** `ptSessionDB.findById`: the first session with that id. */
  function FindSessionById(st: Store, id: Id): (r: Option<Session>)
    ensures r.Some? ==> r.value in st.sessions && r.value.id == id
    ensures r.None? <==> forall s :: s in st.sessions ==> s.id != id
  {
    Find(st.sessions, HasSessionId(id))
  }

  /** The display name joined onto a session: the account's name, or 'Unknown'. */
  function MemberName(st: Store, memberId: Id): (r: string)
    ensures (exists u :: u in st.users && u.id == memberId && u.name == r)
         || ((forall u :: u in st.users ==> u.id != memberId) && r == "Unknown")
  {
    match FindUserById(st, memberId)
    case Some(u) => u.name
    case None => "Unknown"
  }

  /** A session found at a slot together with its member's display name. */
  datatype Booking = Booking(session: Session, memberName: string)

  /** `ptSessionDB.findByTrainerDateAndTime`: the session occupying the slot, if any. */
  function FindByTrainerDateAndTime(st: Store, trainerId: Id, date: Day, startTime: Time): (r: Option<Booking>)
    ensures r.Some? <==> exists s :: s in st.sessions && s.trainerId == trainerId && s.date == date && s.startTime == startTime
    ensures r.Some? ==> r.value.session in st.sessions
    ensures r.Some? ==> r.value.session.trainerId == trainerId && r.value.session.date == date
                        && r.value.session.startTime == startTime
    ensures r.Some? ==> r.value.session == st.sessions[FindIndex(st.sessions, InSlot(trainerId, date, startTime)).value]
    ensures r.Some? ==> r.value.memberName == MemberName(st, r.value.session.memberId)
  {
    match Find(st.sessions, InSlot(trainerId, date, startTime))
    case None => None
    case Some(s) => Some(Booking(s, MemberName(st, s.memberId)))
  }

  /** The trainer already has a session in that slot: what a caller learns
      from `findByTrainerDateAndTime` when it only tests the result. */
  predicate SlotBooked(st: Store, trainerId: Id, date: Day, startTime: Time) {
    exists s :: s in st.sessions && s.trainerId == trainerId && s.date == date && s.startTime == startTime
  }

  /** The lookup finds a booking exactly when the slot is booked. */
  lemma FindByTrainerDateAndTimeFindsBooked(st: Store, trainerId: Id, date: Day, startTime: Time)
    ensures FindByTrainerDateAndTime(st, trainerId, date, startTime).Some? <==> SlotBooked(st, trainerId, date, startTime)
  {
  }

  /** In a well-formed store, a booking found at a date other than a session's
      own date belongs to another session: ids are never shared. */
  lemma BookingElsewhereIsOther(st: Store, id: Id, trainerId: Id, date: Day, startTime: Time)
    ensures WellFormed(st) && FindSessionById(st, id).Some? && FindSessionById(st, id).value.date != date
            && SlotBooked(st, trainerId, date, startTime)
            ==> FindByTrainerDateAndTime(st, trainerId, date, startTime).Some?
                && FindByTrainerDateAndTime(st, trainerId, date, startTime).value.session.id != id
  {
    if WellFormed(st) && FindSessionById(st, id).Some? && FindSessionById(st, id).value.date != date
       && SlotBooked(st, trainerId, date, startTime) {
      var s := FindSessionById(st, id).value;
      var b := FindByTrainerDateAndTime(st, trainerId, date, startTime).value.session;
      var i :| 0 <= i < |st.sessions| && st.sessions[i] == s;
      var j :| 0 <= j < |st.sessions| && st.sessions[j] == b;
      if i < j {
        assert DistinctIds(SessionId)(st.sessions[i], st.sessions[j]);
      } else {
        assert DistinctIds(SessionId)(st.sessions[j], st.sessions[i]);
      }
    }
  }

  /** The fields a session is created from; an absent flag reads as false. */
  datatype SessionData = SessionData(
    trainerId: Id,
    memberId: Id,
    date: Day,
    startTime: Time,
    trainerConfirmed: Option<bool>,
    memberConfirmed: Option<bool>)

  /** `ptSessionDB.create`: appends the session under the next session id, with
      `confirmed_at` unset and each missing flag defaulted to false. */
  function CreateSession(st: Store, data: SessionData, now: Timestamp): (r: (Store, Session))
    ensures r.1.id == st.counters.sessions + 1
    ensures r.1.trainerId == data.trainerId && r.1.memberId == data.memberId
    ensures r.1.date == data.date && r.1.startTime == data.startTime
    ensures r.1.trainerConfirmed <==> data.trainerConfirmed == Some(true)
    ensures r.1.memberConfirmed <==> data.memberConfirmed == Some(true)
    ensures r.1.confirmedAt == None && r.1.createdAt == now
    ensures r.0.sessions == st.sessions + [r.1]
    ensures r.0 == st.(sessions := r.0.sessions, counters := st.counters.(sessions := st.counters.sessions + 1))
  {
    var s := Session(st.counters.sessions + 1, data.trainerId, data.memberId, data.date, data.startTime,
                     data.trainerConfirmed.GetOr(false), data.memberConfirmed.GetOr(false), None, now);
    (st.(sessions := st.sessions + [s], counters := st.counters.(sessions := st.counters.sessions + 1)), s)
  }

  /** The fields an `update` call may carry; `None` means the field is not given. */
  datatype SessionPatch = SessionPatch(
    date: Option<Day>,
    startTime: Option<Time>,
    trainerConfirmed: Option<bool>,
    memberConfirmed: Option<bool>)

  /** `{ ...session, ...updates }` */
  function Merge(s: Session, patch: SessionPatch): Session {
    s.(date := patch.date.GetOr(s.date),
       startTime := patch.startTime.GetOr(s.startTime),
       trainerConfirmed := patch.trainerConfirmed.GetOr(s.trainerConfirmed),
       memberConfirmed := patch.memberConfirmed.GetOr(s.memberConfirmed))
  }

  /** The one-time stamp: set to `now` when both parties have confirmed and it is still unset. */
  function Latch(s: Session, now: Timestamp): Session {
    if s.trainerConfirmed && s.memberConfirmed && s.confirmedAt.None? then s.(confirmedAt := Some(now)) else s
  }

  /** `ptSessionDB.update`: merges the given fields into the first session with
      that id and stamps `confirmed_at` once both flags hold. */
  function UpdateSession(st: Store, id: Id, patch: SessionPatch, now: Timestamp): (r: (Store, Option<Session>))
    ensures r.1.None? <==> forall s :: s in st.sessions ==> s.id != id
    ensures r.1.None? ==> r.0 == st
    ensures r.1.Some? ==>
      var k := FindIndex(st.sessions, HasSessionId(id)).value;
      var before, after := st.sessions[k], r.1.value;
      // only that one session changes
      && r.0 == st.(sessions := st.sessions[k := after])
      // its identity and owners stay
      && after.id == id && after.trainerId == before.trainerId && after.memberId == before.memberId
      && after.createdAt == before.createdAt
      // given fields are overwritten, the others kept
      && after.date == patch.date.GetOr(before.date)
      && after.startTime == patch.startTime.GetOr(before.startTime)
      && after.trainerConfirmed == patch.trainerConfirmed.GetOr(before.trainerConfirmed)
      && after.memberConfirmed == patch.memberConfirmed.GetOr(before.memberConfirmed)
      // the confirmation stamp is set once and then kept
      && (before.confirmedAt.Some? ==> after.confirmedAt == before.confirmedAt)
      && (before.confirmedAt.None? ==>
            after.confirmedAt == if after.trainerConfirmed && after.memberConfirmed then Some(now) else None)
  {
    match FindIndex(st.sessions, HasSessionId(id))
    case None => (st, None)
    case Some(k) =>
      var s := Latch(Merge(st.sessions[k], patch), now);
      (st.(sessions := st.sessions[k := s]), Some(s))
  }

  /** `ptSessionDB.delete`: removes the first session with that id and reports
      whether there was one. */
  function DeleteSession(st: Store, id: Id): (r: (Store, bool))
    ensures r.1 <==> exists s :: s in st.sessions && s.id == id
    ensures !r.1 ==> r.0 == st
    ensures r.1 ==> r.0 == st.(sessions := RemoveAt(st.sessions, FindIndex(st.sessions, HasSessionId(id)).value))
  {
    match FindIndex(st.sessions, HasSessionId(id))
    case None => (st, false)
    case Some(k) => (st.(sessions := RemoveAt(st.sessions, k)), true)
  }

  /** In a well-formed store ids are unique, so deleting by id removes exactly
      the sessions with that id and keeps the others in order. */
  lemma DeleteSessionRemovesExactlyId(st: Store, id: Id)
    requires WellFormed(st)
    ensures DeleteSession(st, id).0.sessions == Filter(st.sessions, Not(HasSessionId(id)))
  {
    var p := HasSessionId(id);
    if FindIndex(st.sessions, p).Some? {
      assert forall i, j :: 0 <= i < j < |st.sessions| && p(st.sessions[i]) ==> !p(st.sessions[j]) by {
        assert Pairwise(st.sessions, DistinctIds(SessionId));
        forall i, j | 0 <= i < j < |st.sessions| && p(st.sessions[i])
          ensures !p(st.sessions[j])
        {
          assert DistinctIds(SessionId)(st.sessions[i], st.sessions[j]);
        }
      }
      RemoveFirstIsFilter(st.sessions, p);
    } else {
      FilterAll(st.sessions, Not(p));
    }
  }

  function NotInvolving(userId: Id): Session -> bool {
    (s: Session) => s.trainerId != userId && s.memberId != userId
  }

  /** `ptSessionDB.deleteByUserId`: drops every session the user trains or attends. */
  function DeleteSessionsByUserId(st: Store, userId: Id): (r: Store)
    ensures forall s :: s in r.sessions <==> s in st.sessions && s.trainerId != userId && s.memberId != userId
    ensures r == st.(sessions := r.sessions)
  {
    st.(sessions := Filter(st.sessions, NotInvolving(userId)))
  }

  /** The listing order of `findByTrainerId` / `findByMemberId`: later dates
      first, earlier start times first within one date. */
  predicate ListedBefore(a: Session, b: Session) {
    a.date > b.date || (a.date == b.date && a.startTime <= b.startTime)
  }

  predicate ListingOrdered(ss: seq<Session>) {
    forall i, j :: 0 <= i < j < |ss| ==> ListedBefore(ss[i], ss[j])
  }

  /** Places `x` in front of the first session it may precede. */
  function InsertListed(x: Session, ss: seq<Session>): (r: seq<Session>)
    requires ListingOrdered(ss)
    ensures multiset(r) == multiset(ss) + multiset{x}
    ensures ListingOrdered(r)
    decreases |ss|
  {
    if |ss| == 0 || ListedBefore(x, ss[0]) then [x] + ss
    else
      var rest := InsertListed(x, ss[1..]);
      ConsListed(ss, x, rest);
      [ss[0]] + rest
  }

  /** A listing's head followed by its tail with `x` inserted, where the head
      precedes `x`, is still in listing order. */
  lemma ConsListed(ss: seq<Session>, x: Session, rest: seq<Session>)
    requires |ss| > 0 && ListingOrdered(ss) && !ListedBefore(x, ss[0])
    requires ListingOrdered(rest) && multiset(rest) == multiset(ss[1..]) + multiset{x}
    ensures ListingOrdered([ss[0]] + rest)
    ensures multiset([ss[0]] + rest) == multiset(ss) + multiset{x}
  {
    var tail := ss[1..];
    assert ss == [ss[0]] + tail;
    forall j | 0 <= j < |rest|
      ensures ListedBefore(ss[0], rest[j])
    {
      assert rest[j] in multiset(rest);
      if rest[j] != x {
        assert rest[j] in multiset(tail);
        var m :| 0 <= m < |tail| && tail[m] == rest[j];
        assert ss[m + 1] == rest[j];
      }
    }
    var r := [ss[0]] + rest;
    forall i, j | 0 <= i < j < |r|
      ensures ListedBefore(r[i], r[j])
    {
      if i > 0 {
        assert r[i] == rest[i - 1] && r[j] == rest[j - 1];
      } else {
        assert r[j] == rest[j - 1];
      }
    }
  }

  /** Sorts a session list into listing order (a stable insertion sort, as
      `Array.prototype.sort` is stable). */
  function SortListing(ss: seq<Session>): (r: seq<Session>)
    ensures ListingOrdered(r)
    ensures multiset(r) == multiset(ss)
    decreases |ss|
  {
    if |ss| == 0 then []
    else
      assert ss == [ss[0]] + ss[1..];
      InsertListed(ss[0], SortListing(ss[1..]))
  }

  function HasTrainer(trainerId: Id): Session -> bool { (s: Session) => s.trainerId == trainerId }
  function HasMember(memberId: Id): Session -> bool { (s: Session) => s.memberId == memberId }

  /** `ptSessionDB.findByTrainerId`: the trainer's sessions in listing order. */
  function FindSessionsByTrainerId(st: Store, trainerId: Id): (r: seq<Session>)
    ensures ListingOrdered(r)
    ensures multiset(r) == multiset(Filter(st.sessions, HasTrainer(trainerId)))
    ensures forall s :: s in r <==> s in st.sessions && s.trainerId == trainerId
  {
    var r := SortListing(Filter(st.sessions, HasTrainer(trainerId)));
    assert forall s :: s in r <==> s in multiset(r);
    r
  }

  /** `ptSessionDB.findByMemberId`: the member's sessions in listing order. */
  function FindSessionsByMemberId(st: Store, memberId: Id): (r: seq<Session>)
    ensures ListingOrdered(r)
    ensures multiset(r) == multiset(Filter(st.sessions, HasMember(memberId)))
    ensures forall s :: s in r <==> s in st.sessions && s.memberId == memberId
  {
    var r := SortListing(Filter(st.sessions, HasMember(memberId)));
    assert forall s :: s in r <==> s in multiset(r);
    r
  }

  // ===================== comments =====================

  function HasCommentId(id: Id): Comment -> bool { (c: Comment) => c.id == id }
  function OnSession(sessionId: Id): Comment -> bool { (c: Comment) => c.sessionId == sessionId }
  function IsPublic(c: Comment): bool { c.isPublic }
  function PublicOnSession(sessionId: Id): Comment -> bool { (c: Comment) => c.sessionId == sessionId && c.isPublic }

  /** `commentDB.findBySessionId`: every comment on the session. */
  function FindCommentsBySession(st: Store, sessionId: Id): (r: seq<Comment>)
    ensures forall c :: c in r <==> c in st.comments && c.sessionId == sessionId
  {
    Filter(st.comments, OnSession(sessionId))
  }

  /** `commentDB.findPublicBySessionId`: the public comments on the session. */
  function FindPublicCommentsBySession(st: Store, sessionId: Id): (r: seq<Comment>)
    ensures forall c :: c in r <==> c in st.comments && c.sessionId == sessionId && c.isPublic
  {
    Filter(st.comments, PublicOnSession(sessionId))
  }

  /** The public listing is the full listing with the private comments taken out,
      in the same order; in particular it is contained in it. */
  lemma PublicCommentsAreFilteredFull(st: Store, sessionId: Id)
    ensures FindPublicCommentsBySession(st, sessionId) == Filter(FindCommentsBySession(st, sessionId), IsPublic)
    ensures forall c :: c in FindPublicCommentsBySession(st, sessionId) ==> c in FindCommentsBySession(st, sessionId)
  {
    FilterFilter(st.comments, OnSession(sessionId), IsPublic, PublicOnSession(sessionId));
  }

  /** `commentDB.findById`: the first comment with that id. */
  function FindCommentById(st: Store, id: Id): (r: Option<Comment>)
    ensures r.Some? ==> r.value in st.comments && r.value.id == id
    ensures r.None? <==> forall c :: c in st.comments ==> c.id != id
  {
    Find(st.comments, HasCommentId(id))
  }

  /** The fields a comment is created from. */
  datatype CommentData = CommentData(sessionId: Id, trainerId: Id, content: string, isPublic: bool)

  /** `commentDB.create`: appends the comment under the next comment id. */
  function CreateComment(st: Store, data: CommentData, now: Timestamp): (r: (Store, Comment))
    ensures r.1.id == st.counters.comments + 1
    ensures r.1.sessionId == data.sessionId && r.1.trainerId == data.trainerId && r.1.userId == None
    ensures r.1.content == data.content && r.1.isPublic == data.isPublic
    ensures r.1.createdAt == now && r.1.updatedAt == None
    ensures r.0.comments == st.comments + [r.1]
    ensures r.0 == st.(comments := r.0.comments, counters := st.counters.(comments := st.counters.comments + 1))
  {
    var c := Comment(st.counters.comments + 1, data.sessionId, data.trainerId, None, data.content, data.isPublic, now, None);
    (st.(comments := st.comments + [c], counters := st.counters.(comments := st.counters.comments + 1)), c)
  }

  /** `commentDB.update`: replaces text and visibility of the first comment with
      that id and stamps `updated_at`. */
  function UpdateComment(st: Store, id: Id, content: string, isPublic: bool, now: Timestamp)
    : (r: (Store, Option<Comment>))
    ensures r.1.None? <==> forall c :: c in st.comments ==> c.id != id
    ensures r.1.None? ==> r.0 == st
    ensures r.1.Some? ==>
      var k := FindIndex(st.comments, HasCommentId(id)).value;
      && r.0 == st.(comments := st.comments[k := r.1.value])
      && r.1.value == st.comments[k].(content := content, isPublic := isPublic, updatedAt := Some(now))
  {
    match FindIndex(st.comments, HasCommentId(id))
    case None => (st, None)
    case Some(k) =>
      var c := st.comments[k].(content := content, isPublic := isPublic, updatedAt := Some(now));
      (st.(comments := st.comments[k := c]), Some(c))
  }

  /** `commentDB.delete`: removes the first comment with that id and reports
      whether there was one. */
  function DeleteComment(st: Store, id: Id): (r: (Store, bool))
    ensures r.1 <==> exists c :: c in st.comments && c.id == id
    ensures !r.1 ==> r.0 == st
    ensures r.1 ==> r.0 == st.(comments := RemoveAt(st.comments, FindIndex(st.comments, HasCommentId(id)).value))
  {
    match FindIndex(st.comments, HasCommentId(id))
    case None => (st, false)
    case Some(k) => (st.(comments := RemoveAt(st.comments, k)), true)
  }

  /** `commentDB.deleteBySessionId`: drops the session's comments and returns how many went. */
  function DeleteCommentsBySession(st: Store, sessionId: Id): (r: (Store, nat))
    ensures forall c :: c in r.0.comments <==> c in st.comments && c.sessionId != sessionId
    ensures r.1 == Count(st.comments, OnSession(sessionId))
    ensures |r.0.comments| + r.1 == |st.comments|
    ensures r.0 == st.(comments := r.0.comments)
  {
    var kept := Filter(st.comments, Not(OnSession(sessionId)));
    FilterCount(st.comments, Not(OnSession(sessionId)));
    FilterCount(st.comments, OnSession(sessionId));
    (st.(comments := kept), |st.comments| - |kept|)
  }

  function NotByUser(userId: Id): Comment -> bool { (c: Comment) => c.userId != Some(userId) }

  /** `commentDB.deleteByUserId`: drops the comments whose `user_id` is the user. */
  function DeleteCommentsByUserId(st: Store, userId: Id): (r: Store)
    ensures forall c :: c in r.comments <==> c in st.comments && c.userId != Some(userId)
    ensures r == st.(comments := r.comments)
  {
    st.(comments := Filter(st.comments, NotByUser(userId)))
  }
}
