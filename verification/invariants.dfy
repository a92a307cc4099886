/** What the request handlers of server/server.js keep true of the store, one
    handler at a time and then over any sequence of requests:
    - well-formedness (fresh, unique ids; unique e-mails);
    - the booking invariant (one session per trainer, date and start time), for
      every request except an edit that changes the start time without moving the date;
    - the confirmation stamp: once a session has `confirmedAt`, it keeps it. */
module Invariants {
  import opened Wrappers
  import opened Seqs
  import opened Model
  import opened Database
  import Server
  import Repeat

  // ===================== well-formedness, handler by handler =====================

  /** Appending an account whose e-mail nobody has keeps e-mails unique. */
  lemma EmailsUniqueAppend(users: seq<User>, u: User)
    requires EmailsUnique(users)
    requires forall v :: v in users ==> v.email != u.email
    ensures EmailsUnique(users + [u])
  {
    var r := users + [u];
    forall i, j | 0 <= i < j < |r|
      ensures DistinctEmails(r[i], r[j])
    {
      if j < |users| {
        assert DistinctEmails(users[i], users[j]);
      } else {
        assert r[i] in users;
      }
    }
  }

  /** Marking an invite keeps the invite ids fresh. */
  lemma MarkInviteUsedKeepsIds(st: Store, code: string)
    requires IdsFresh(st.inviteCodes, InviteId, st.counters.inviteCodes)
    ensures IdsFresh(MarkInviteUsed(st, code).inviteCodes, InviteId, st.counters.inviteCodes)
  {
    match FindIndex(st.inviteCodes, HasCode(code))
    case None =>
    case Some(k) =>
      IdsFreshUpdateAt(st.inviteCodes, InviteId, st.counters.inviteCodes, k, st.inviteCodes[k].(used := true));
  }

  lemma RegisterKeepsWellFormed(st: Store, form: Server.RegisterForm, hashed: string, now: Timestamp)
    requires WellFormed(st)
    ensures WellFormed(Server.Register(st, form, hashed, now).store)
  {
    var r := Server.Register(st, form, hashed, now);
    if r.response.Ok? {
      var u := r.response.value;
      IdsFreshAppend(st.users, UserId, st.counters.users, u);
      EmailsUniqueAppend(st.users, u);
      if form.role == Member {
        MarkInviteUsedKeepsIds(st, Server.CheckInvite(st, form.inviteCode, now).value.code);
      }
    }
  }

  lemma CreateInviteCodeKeepsWellFormed(st: Store, trainerId: Id, code: string, now: Timestamp)
    requires WellFormed(st)
    ensures WellFormed(Server.CreateInviteCode(st, trainerId, code, now).store)
  {
    var r := Server.CreateInviteCode(st, trainerId, code, now);
    IdsFreshAppend(st.inviteCodes, InviteId, st.counters.inviteCodes, r.response.value);
  }

  lemma CreatePtSessionKeepsWellFormed(st: Store, trainerId: Id, memberId: Id, date: Day,
                                       startTime: Option<Time>, now: Timestamp)
    requires WellFormed(st)
    ensures WellFormed(Server.CreatePtSession(st, trainerId, memberId, date, startTime, now).store)
  {
    var r := Server.CreatePtSession(st, trainerId, memberId, date, startTime, now);
    if r.response.Ok? {
      IdsFreshAppend(st.sessions, SessionId, st.counters.sessions, r.response.value);
    }
  }

  lemma ConfirmSessionKeepsWellFormed(st: Store, sessionId: Id, requesterId: Id, party: Server.Party, now: Timestamp)
    requires WellFormed(st)
    ensures WellFormed(Server.ConfirmSession(st, sessionId, requesterId, party, now).store)
  {
    var r := Server.ConfirmSession(st, sessionId, requesterId, party, now);
    if r.response.Ok? {
      var k := FindIndex(st.sessions, HasSessionId(sessionId)).value;
      IdsFreshUpdateAt(st.sessions, SessionId, st.counters.sessions, k, r.response.value);
    }
  }

  lemma UpdatePtSessionKeepsWellFormed(st: Store, sessionId: Id, trainerId: Id, startTime: Time,
                                       date: Option<Day>, now: Timestamp)
    requires WellFormed(st)
    ensures WellFormed(Server.UpdatePtSession(st, sessionId, trainerId, startTime, date, now).store)
  {
    var r := Server.UpdatePtSession(st, sessionId, trainerId, startTime, date, now);
    if r.response.Ok? {
      var k := FindIndex(st.sessions, HasSessionId(sessionId)).value;
      IdsFreshUpdateAt(st.sessions, SessionId, st.counters.sessions, k, r.response.value);
    }
  }

  /** Removing the session with that id keeps session ids fresh. */
  lemma DeleteSessionKeepsIds(st: Store, sessionId: Id)
    requires IdsFresh(st.sessions, SessionId, st.counters.sessions)
    ensures IdsFresh(DeleteSession(st, sessionId).0.sessions, SessionId, st.counters.sessions)
  {
    if DeleteSession(st, sessionId).1 {
      IdsFreshRemoveAt(st.sessions, SessionId, st.counters.sessions, FindIndex(st.sessions, HasSessionId(sessionId)).value);
    }
  }

  /** Dropping a session's comments keeps comment ids fresh. */
  lemma DeleteCommentsBySessionKeepsIds(st: Store, sessionId: Id)
    requires IdsFresh(st.comments, CommentId, st.counters.comments)
    ensures IdsFresh(DeleteCommentsBySession(st, sessionId).0.comments, CommentId, st.counters.comments)
  {
    IdsFreshFilter(st.comments, CommentId, st.counters.comments, Not(OnSession(sessionId)));
  }

  lemma DeletePtSessionKeepsWellFormed(st: Store, sessionId: Id, trainerId: Id)
    requires WellFormed(st)
    ensures WellFormed(Server.DeletePtSession(st, sessionId, trainerId).store)
  {
    var r := Server.DeletePtSession(st, sessionId, trainerId);
    if r.response.Ok? {
      var st1 := DeleteSession(st, sessionId).0;
      DeleteSessionKeepsIds(st, sessionId);
      DeleteCommentsBySessionKeepsIds(st1, sessionId);
      assert r.store == DeleteCommentsBySession(st1, sessionId).0;
    }
  }

  /** Dropping the comments of several sessions keeps comment ids fresh. */
  lemma {:induction false} DeleteCommentsOfSessionsKeepsIds(st: Store, ss: seq<Session>)
    requires IdsFresh(st.comments, CommentId, st.counters.comments)
    ensures IdsFresh(Server.DeleteCommentsOfSessions(st, ss).comments, CommentId, st.counters.comments)
    decreases |ss|
  {
    if |ss| > 0 {
      var st1 := DeleteCommentsBySession(st, ss[0].id).0;
      DeleteCommentsBySessionKeepsIds(st, ss[0].id);
      DeleteCommentsOfSessionsKeepsIds(st1, ss[1..]);
    }
  }

  /** Removing one account keeps user ids fresh and e-mails unique. */
  lemma UsersRemoveAtKeepsWellFormed(st: Store, k: nat)
    requires WellFormed(st) && k < |st.users|
    ensures WellFormed(st.(users := RemoveAt(st.users, k)))
  {
    IdsFreshRemoveAt(st.users, UserId, st.counters.users, k);
    PairwiseRemoveAt(st.users, DistinctEmails, k);
  }

  lemma DeleteMemberKeepsWellFormed(st: Store, memberId: Id, trainerId: Id)
    requires WellFormed(st)
    ensures WellFormed(Server.DeleteMember(st, memberId, trainerId).store)
  {
    var r := Server.DeleteMember(st, memberId, trainerId);
    if r.response.Ok? {
      var st1 := Server.DeleteCommentsOfSessions(st, Filter(st.sessions, HasMember(memberId)));
      DeleteCommentsOfSessionsKeepsIds(st, Filter(st.sessions, HasMember(memberId)));
      var st2 := st1.(sessions := Filter(st1.sessions, Not(HasMember(memberId))));
      IdsFreshFilter(st1.sessions, SessionId, st1.counters.sessions, Not(HasMember(memberId)));
      assert WellFormed(st2);
      UsersRemoveAtKeepsWellFormed(st2, FindIndex(st2.users, HasUserId(memberId)).value);
    }
  }

  lemma CreateCommentRequestKeepsWellFormed(st: Store, sessionId: Id, trainerId: Id, content: Option<string>,
                                            isPublic: bool, now: Timestamp)
    requires WellFormed(st)
    ensures WellFormed(Server.CreateCommentRequest(st, sessionId, trainerId, content, isPublic, now).store)
  {
    var r := Server.CreateCommentRequest(st, sessionId, trainerId, content, isPublic, now);
    if r.response.Ok? {
      IdsFreshAppend(st.comments, CommentId, st.counters.comments, r.response.value);
    }
  }

  /** A comment posted through the API carries no user_id, so the admin user
      deletion keeps it, whichever account is deleted. */
  lemma PostedCommentSurvivesAdminDelete(st: Store, sessionId: Id, trainerId: Id, content: Option<string>,
                                         isPublic: bool, now: Timestamp, userId: Id, adminId: Id)
    ensures var posted := Server.CreateCommentRequest(st, sessionId, trainerId, content, isPublic, now);
      posted.response.Ok? ==> posted.response.value in Server.AdminDeleteUser(posted.store, userId, adminId).store.comments
  {
    var posted := Server.CreateCommentRequest(st, sessionId, trainerId, content, isPublic, now);
    if posted.response.Ok? {
      assert posted.response.value in posted.store.comments;
    }
  }

  lemma UpdateCommentRequestKeepsWellFormed(st: Store, commentId: Id, trainerId: Id, content: string,
                                            isPublic: bool, now: Timestamp)
    requires WellFormed(st)
    ensures WellFormed(Server.UpdateCommentRequest(st, commentId, trainerId, content, isPublic, now).store)
  {
    var r := Server.UpdateCommentRequest(st, commentId, trainerId, content, isPublic, now);
    if r.response.Ok? {
      var k := FindIndex(st.comments, HasCommentId(commentId)).value;
      IdsFreshUpdateAt(st.comments, CommentId, st.counters.comments, k, r.response.value);
    }
  }

  lemma DeleteCommentRequestKeepsWellFormed(st: Store, commentId: Id, trainerId: Id)
    requires WellFormed(st)
    ensures WellFormed(Server.DeleteCommentRequest(st, commentId, trainerId).store)
  {
    var r := Server.DeleteCommentRequest(st, commentId, trainerId);
    if r.response.Ok? {
      IdsFreshRemoveAt(st.comments, CommentId, st.counters.comments, FindIndex(st.comments, HasCommentId(commentId)).value);
    }
  }

  lemma AdminDeleteUserKeepsWellFormed(st: Store, userId: Id, adminId: Id)
    requires WellFormed(st)
    ensures WellFormed(Server.AdminDeleteUser(st, userId, adminId).store)
  {
    var r := Server.AdminDeleteUser(st, userId, adminId);
    if r.response.Ok? {
      IdsFreshFilter(st.users, UserId, st.counters.users, Not(HasUserId(userId)));
      PairwiseFilter(st.users, DistinctEmails, Not(HasUserId(userId)));
      IdsFreshFilter(st.sessions, SessionId, st.counters.sessions, NotInvolving(userId));
      IdsFreshFilter(st.comments, CommentId, st.counters.comments, NotByUser(userId));
      assert r.store == st.(users := Filter(st.users, Not(HasUserId(userId))),
                            sessions := Filter(st.sessions, NotInvolving(userId)),
                            comments := Filter(st.comments, NotByUser(userId)));
    }
  }

  lemma AdminDeleteSessionKeepsWellFormed(st: Store, sessionId: Id, adminId: Id)
    requires WellFormed(st)
    ensures WellFormed(Server.AdminDeleteSession(st, sessionId, adminId).store)
  {
    var r := Server.AdminDeleteSession(st, sessionId, adminId);
    if r.response.Ok? {
      var st1 := DeleteSession(st, sessionId).0;
      DeleteSessionKeepsIds(st, sessionId);
      DeleteCommentsBySessionKeepsIds(st1, sessionId);
      assert r.store == DeleteCommentsBySession(st1, sessionId).0;
    }
  }

  // ===================== the booking invariant =====================

  /** Overwriting one session keeps the booking invariant when no other session
      holds the slot the new record occupies. */
  lemma SlotUniqueUpdateAt(ss: seq<Session>, k: nat, x: Session)
    requires SlotUnique(ss) && k < |ss|
    requires forall j :: 0 <= j < |ss| && j != k ==> !SameSlot(ss[j], x)
    ensures SlotUnique(ss[k := x])
  {
    var r := ss[k := x];
    forall i, j | 0 <= i < j < |r|
      ensures DistinctSlots(r[i], r[j])
    {
      if i != k && j != k {
        assert DistinctSlots(ss[i], ss[j]);
      }
    }
  }

  /** Overwriting a session by a record in the same slot keeps the booking invariant. */
  lemma SlotUniqueKeepSlot(ss: seq<Session>, k: nat, x: Session)
    requires SlotUnique(ss) && k < |ss| && SameSlot(ss[k], x)
    ensures SlotUnique(ss[k := x])
  {
    forall j | 0 <= j < |ss| && j != k
      ensures !SameSlot(ss[j], x)
    {
      if j < k {
        assert DistinctSlots(ss[j], ss[k]);
      } else {
        assert DistinctSlots(ss[k], ss[j]);
      }
    }
    SlotUniqueUpdateAt(ss, k, x);
  }

  lemma CreatePtSessionKeepsSlotsUnique(st: Store, trainerId: Id, memberId: Id, date: Day,
                                        startTime: Option<Time>, now: Timestamp)
    requires SlotUnique(st.sessions)
    ensures SlotUnique(Server.CreatePtSession(st, trainerId, memberId, date, startTime, now).store.sessions)
  {
    var r := Server.CreatePtSession(st, trainerId, memberId, date, startTime, now);
    if r.response.Ok? {
      Repeat.SlotUniqueAppend(st.sessions, r.response.value);
    }
  }

  lemma ConfirmSessionKeepsSlotsUnique(st: Store, sessionId: Id, requesterId: Id, party: Server.Party, now: Timestamp)
    requires SlotUnique(st.sessions)
    ensures SlotUnique(Server.ConfirmSession(st, sessionId, requesterId, party, now).store.sessions)
  {
    var r := Server.ConfirmSession(st, sessionId, requesterId, party, now);
    if r.response.Ok? {
      var k := FindIndex(st.sessions, HasSessionId(sessionId)).value;
      SlotUniqueKeepSlot(st.sessions, k, r.response.value);
    }
  }

  /** In a well-formed store two positions hold sessions with different ids. */
  lemma SessionIdsDistinct(st: Store, i: nat, j: nat)
    requires WellFormed(st) && i < |st.sessions| && j < |st.sessions| && i != j
    ensures st.sessions[i].id != st.sessions[j].id
  {
    if i < j {
      assert DistinctIds(SessionId)(st.sessions[i], st.sessions[j]);
    } else {
      assert DistinctIds(SessionId)(st.sessions[j], st.sessions[i]);
    }
  }

  /** The edit keeps the session in its slot, or moves it to another date,
      where the handler checks the slot: the edits for which the booking
      invariant survives. */
  predicate EditChecked(st: Store, sessionId: Id, startTime: Time, date: Option<Day>) {
    match FindSessionById(st, sessionId)
    case None => true
    case Some(s) => (date.Some? && date.value != s.date) || (date.GetOr(s.date) == s.date && startTime == s.startTime)
  }

  /** Moving a session to another date, where the handler looks the new slot
      up, keeps the trainer free of double bookings. */
  lemma UpdateMovingDateKeepsSlotsUnique(st: Store, sessionId: Id, trainerId: Id, startTime: Time,
                                         date: Option<Day>, now: Timestamp)
    requires WellFormed(st) && SlotUnique(st.sessions)
    requires FindSessionById(st, sessionId).Some? ==> date.Some? && date.value != FindSessionById(st, sessionId).value.date
    ensures SlotUnique(Server.UpdatePtSession(st, sessionId, trainerId, startTime, date, now).store.sessions)
  {
    var r := Server.UpdatePtSession(st, sessionId, trainerId, startTime, date, now);
    if r.response.Ok? {
      var k := FindIndex(st.sessions, HasSessionId(sessionId)).value;
      var x := r.response.value;
      forall j | 0 <= j < |st.sessions| && j != k
        ensures !SameSlot(st.sessions[j], x)
      {
        if SameSlot(st.sessions[j], x) {
          MovedSlotFree(st, sessionId, trainerId, startTime, date.value, k, j);
        }
      }
      SlotUniqueUpdateAt(st.sessions, k, x);
    }
  }

  /** The step of the lemma above: once the edit passed the check, no other
      session sits in the slot the session moves to. */
  lemma MovedSlotFree(st: Store, sessionId: Id, trainerId: Id, startTime: Time, date: Day, k: nat, j: nat)
    requires WellFormed(st)
    requires FindIndex(st.sessions, HasSessionId(sessionId)) == Some(k)
    requires st.sessions[k].trainerId == trainerId && date != st.sessions[k].date
    requires FindByTrainerDateAndTime(st, trainerId, date, startTime).Some? ==>
               FindByTrainerDateAndTime(st, trainerId, date, startTime).value.session.id == sessionId
    requires j < |st.sessions| && j != k
    ensures !(st.sessions[j].trainerId == trainerId && st.sessions[j].date == date && st.sessions[j].startTime == startTime)
  {
    if st.sessions[j].trainerId == trainerId && st.sessions[j].date == date && st.sessions[j].startTime == startTime {
      var b := FindByTrainerDateAndTime(st, trainerId, date, startTime).value.session;
      var i := FindIndex(st.sessions, InSlot(trainerId, date, startTime)).value;
      assert b == st.sessions[i] && st.sessions[i].date == date;
      SessionIdsDistinct(st, i, k);
    }
  }

  /** An edit that keeps the session in its slot keeps the booking invariant. */
  lemma UpdateKeepingSlotKeepsSlotsUnique(st: Store, sessionId: Id, trainerId: Id, startTime: Time,
                                          date: Option<Day>, now: Timestamp)
    requires SlotUnique(st.sessions)
    requires FindSessionById(st, sessionId).Some? ==>
      var s := FindSessionById(st, sessionId).value;
      date.GetOr(s.date) == s.date && startTime == s.startTime
    ensures SlotUnique(Server.UpdatePtSession(st, sessionId, trainerId, startTime, date, now).store.sessions)
  {
    var r := Server.UpdatePtSession(st, sessionId, trainerId, startTime, date, now);
    if r.response.Ok? {
      var k := FindIndex(st.sessions, HasSessionId(sessionId)).value;
      SlotUniqueKeepSlot(st.sessions, k, r.response.value);
    }
  }

  lemma DeletePtSessionKeepsSlotsUnique(st: Store, sessionId: Id, trainerId: Id)
    requires SlotUnique(st.sessions)
    ensures SlotUnique(Server.DeletePtSession(st, sessionId, trainerId).store.sessions)
  {
    if DeleteSession(st, sessionId).1 {
      PairwiseRemoveAt(st.sessions, DistinctSlots, FindIndex(st.sessions, HasSessionId(sessionId)).value);
    }
  }

  lemma DeleteMemberKeepsSlotsUnique(st: Store, memberId: Id, trainerId: Id)
    requires SlotUnique(st.sessions)
    ensures SlotUnique(Server.DeleteMember(st, memberId, trainerId).store.sessions)
  {
    PairwiseFilter(st.sessions, DistinctSlots, Not(HasMember(memberId)));
  }

  lemma AdminDeleteUserKeepsSlotsUnique(st: Store, userId: Id, adminId: Id)
    requires SlotUnique(st.sessions)
    ensures SlotUnique(Server.AdminDeleteUser(st, userId, adminId).store.sessions)
  {
    PairwiseFilter(st.sessions, DistinctSlots, NotInvolving(userId));
  }

  lemma AdminDeleteSessionKeepsSlotsUnique(st: Store, sessionId: Id, adminId: Id)
    requires SlotUnique(st.sessions)
    ensures SlotUnique(Server.AdminDeleteSession(st, sessionId, adminId).store.sessions)
  {
    if DeleteSession(st, sessionId).1 {
      PairwiseRemoveAt(st.sessions, DistinctSlots, FindIndex(st.sessions, HasSessionId(sessionId)).value);
    }
  }

  /** Two bookings of trainer 1 on day 0, at 09:00 and 10:00. */
  predicate TwoBookings(st: Store) {
    st.sessions == [Session(1, 1, 2, 0, 540, true, false, None, 0), Session(2, 1, 3, 0, 600, true, false, None, 0)]
  }

  /** The edit that changes the start time alone is not checked: moving the
      10:00 session to 09:00 on the same day double-books the trainer. */
  lemma TimeOnlyEditCanDoubleBook(st: Store, now: Timestamp)
    requires TwoBookings(st)
    ensures SlotUnique(st.sessions)
    ensures Server.UpdatePtSession(st, 2, 1, 540, None, now).response.Ok?
    ensures !SlotUnique(Server.UpdatePtSession(st, 2, 1, 540, None, now).store.sessions)
  {
    var ss := st.sessions;
    assert DistinctSlots(ss[0], ss[1]);
    assert ss[1] in ss;
    var r := Server.UpdatePtSession(st, 2, 1, 540, None, now);
    assert FindIndex(ss, HasSessionId(2)) == Some(1) by {
      assert !HasSessionId(2)(ss[0]);
    }
    assert r.response.Ok?;
    var after := r.store.sessions;
    assert after[0] == ss[0] && after[1].trainerId == 1 && after[1].date == 0 && after[1].startTime == 540;
    assert !DistinctSlots(after[0], after[1]);
  }

  // ===================== the confirmation stamp =====================

  /** A stamped session keeps its stamp while it exists. */
  predicate StampKept(a: Store, b: Store) {
    forall s, t :: s in a.sessions && t in b.sessions && s.id == t.id && s.confirmedAt.Some? ==>
      t.confirmedAt == s.confirmedAt
  }

  /** A session id already handed out reappears only on the session it named. */
  predicate NoResurrection(a: Store, b: Store) {
    forall t :: t in b.sessions && t.id <= a.counters.sessions ==> exists s :: s in a.sessions && s.id == t.id
  }

  /** No id counter goes back. */
  predicate CountersKept(a: Counters, b: Counters) {
    && a.users <= b.users && a.inviteCodes <= b.inviteCodes
    && a.sessions <= b.sessions && a.comments <= b.comments
  }

  /** How one store can follow from an earlier one: the counters do not go
      back, a stamp once set stays, and no removed session id comes back. */
  predicate Evolves(a: Store, b: Store) {
    CountersKept(a.counters, b.counters) && StampKept(a, b) && NoResurrection(a, b)
  }

  /** Removing sessions (or none) keeps the stamps. */
  lemma EvolvesSubset(a: Store, b: Store)
    requires WellFormed(a) && CountersKept(a.counters, b.counters)
    requires forall t :: t in b.sessions ==> t in a.sessions
    ensures Evolves(a, b)
  {
    forall s, t | s in a.sessions && t in b.sessions && s.id == t.id && s.confirmedAt.Some?
      ensures t.confirmedAt == s.confirmedAt
    {
      var i :| 0 <= i < |a.sessions| && a.sessions[i] == s;
      var j :| 0 <= j < |a.sessions| && a.sessions[j] == t;
      if i != j {
        SessionIdsDistinct(a, i, j);
      }
    }
  }

  /** Appending sessions under new ids keeps the stamps. */
  lemma EvolvesAppend(a: Store, b: Store, extra: seq<Session>)
    requires WellFormed(a) && CountersKept(a.counters, b.counters)
    requires b.sessions == a.sessions + extra
    requires forall t :: t in extra ==> t.id > a.counters.sessions
    ensures Evolves(a, b)
  {
    forall s, t | s in a.sessions && t in b.sessions && s.id == t.id && s.confirmedAt.Some?
      ensures t.confirmedAt == s.confirmedAt
    {
      var i :| 0 <= i < |a.sessions| && a.sessions[i] == s;
      assert s.id <= a.counters.sessions;
      assert t in a.sessions;
      var j :| 0 <= j < |a.sessions| && a.sessions[j] == t;
      if i != j {
        SessionIdsDistinct(a, i, j);
      }
    }
  }

  /** Overwriting one session under its own id, keeping its stamp, keeps the stamps. */
  lemma EvolvesUpdateAt(a: Store, b: Store, k: nat, x: Session)
    requires WellFormed(a) && k < |a.sessions| && CountersKept(a.counters, b.counters)
    requires b.sessions == a.sessions[k := x] && x.id == a.sessions[k].id
    requires a.sessions[k].confirmedAt.Some? ==> x.confirmedAt == a.sessions[k].confirmedAt
    ensures Evolves(a, b)
  {
    forall s, t | s in a.sessions && t in b.sessions && s.id == t.id && s.confirmedAt.Some?
      ensures t.confirmedAt == s.confirmedAt
    {
      var i :| 0 <= i < |a.sessions| && a.sessions[i] == s;
      var j :| 0 <= j < |b.sessions| && b.sessions[j] == t;
      if i != j {
        SessionIdsDistinct(a, i, j);
      }
    }
    forall t | t in b.sessions && t.id <= a.counters.sessions
      ensures exists s :: s in a.sessions && s.id == t.id
    {
      var j :| 0 <= j < |b.sessions| && b.sessions[j] == t;
      assert a.sessions[j] in a.sessions;
    }
  }

  /** The relation composes along a well-formed history. */
  lemma EvolvesTrans(a: Store, b: Store, c: Store)
    requires WellFormed(a) && Evolves(a, b) && Evolves(b, c)
    ensures Evolves(a, c)
  {
    forall s, u | s in a.sessions && u in c.sessions && s.id == u.id && s.confirmedAt.Some?
      ensures u.confirmedAt == s.confirmedAt
    {
      var i :| 0 <= i < |a.sessions| && a.sessions[i] == s;
      assert s.id <= b.counters.sessions;
      var t :| t in b.sessions && t.id == u.id;
    }
    forall u | u in c.sessions && u.id <= a.counters.sessions
      ensures exists s :: s in a.sessions && s.id == u.id
    {
      var t :| t in b.sessions && t.id == u.id;
    }
  }

  // ===================== one handler call at a time =====================

  /** The requests that change the store, with the fields each handler reads. */
  datatype Request =
    | SignUp(form: Server.RegisterForm, hashed: string)
    | NewInvite(inviter: Id, code: string)
    | Book(trainer: Id, member: Id, day: Day, at: Option<Time>)
    | BookWeekly(weeklyTrainer: Id, weeklyMember: Id, firstDay: Day, weeklyAt: Option<Time>, weeks: Option<int>)
    | Confirm(confirmed: Id, requester: Id, party: Server.Party)
    | Edit(edited: Id, editor: Id, newTime: Time, newDay: Option<Day>)
    | Cancel(cancelled: Id, canceller: Id)
    | RemoveMember(removed: Id, owner: Id)
    | PostComment(onSession: Id, author: Id, content: Option<string>, isPublic: bool)
    | EditComment(comment: Id, commentEditor: Id, newContent: string, nowPublic: bool)
    | RemoveComment(removedComment: Id, remover: Id)
    | AdminRemoveUser(user: Id, admin: Id)
    | AdminRemoveSession(session: Id, sessionAdmin: Id)

  /** A request together with the clock reading it is served at. */
  datatype Call = Call(request: Request, now: Timestamp)

  // One function per request kind. Each requires its own kind, so that the
  // solver opens only the handler of the request at hand.

  function ServeSignUp(st: Store, c: Call): Store
    requires c.request.SignUp?
  {
    var q := c.request;
    Server.Register(st, q.form, q.hashed, c.now).store
  }

  function ServeNewInvite(st: Store, c: Call): Store
    requires c.request.NewInvite?
  {
    var q := c.request;
    Server.CreateInviteCode(st, q.inviter, q.code, c.now).store
  }

  function ServeBook(st: Store, c: Call): Store
    requires c.request.Book?
  {
    var q := c.request;
    Server.CreatePtSession(st, q.trainer, q.member, q.day, q.at, c.now).store
  }

  function ServeBookWeekly(st: Store, c: Call): Store
    requires c.request.BookWeekly?
  {
    var q := c.request;
    Server.CreateRepeatSessions(st, q.weeklyTrainer, q.weeklyMember, q.firstDay, q.weeklyAt, q.weeks, c.now).store
  }

  function ServeConfirm(st: Store, c: Call): Store
    requires c.request.Confirm?
  {
    var q := c.request;
    Server.ConfirmSession(st, q.confirmed, q.requester, q.party, c.now).store
  }

  function ServeEdit(st: Store, c: Call): Store
    requires c.request.Edit?
  {
    var q := c.request;
    Server.UpdatePtSession(st, q.edited, q.editor, q.newTime, q.newDay, c.now).store
  }

  function ServeCancel(st: Store, c: Call): Store
    requires c.request.Cancel?
  {
    var q := c.request;
    Server.DeletePtSession(st, q.cancelled, q.canceller).store
  }

  function ServeRemoveMember(st: Store, c: Call): Store
    requires c.request.RemoveMember?
  {
    var q := c.request;
    Server.DeleteMember(st, q.removed, q.owner).store
  }

  function ServePostComment(st: Store, c: Call): Store
    requires c.request.PostComment?
  {
    var q := c.request;
    Server.CreateCommentRequest(st, q.onSession, q.author, q.content, q.isPublic, c.now).store
  }

  function ServeEditComment(st: Store, c: Call): Store
    requires c.request.EditComment?
  {
    var q := c.request;
    Server.UpdateCommentRequest(st, q.comment, q.commentEditor, q.newContent, q.nowPublic, c.now).store
  }

  function ServeRemoveComment(st: Store, c: Call): Store
    requires c.request.RemoveComment?
  {
    var q := c.request;
    Server.DeleteCommentRequest(st, q.removedComment, q.remover).store
  }

  function ServeAdminRemoveUser(st: Store, c: Call): Store
    requires c.request.AdminRemoveUser?
  {
    var q := c.request;
    Server.AdminDeleteUser(st, q.user, q.admin).store
  }

  function ServeAdminRemoveSession(st: Store, c: Call): Store
    requires c.request.AdminRemoveSession?
  {
    var q := c.request;
    Server.AdminDeleteSession(st, q.session, q.sessionAdmin).store
  }

  /** The store after the handler for the call has run. A member removal runs
      the cascade the handler's own comments describe (`Server.DeleteMember`). */
  function Handle(st: Store, c: Call): Store {
    match c.request
    case SignUp(_, _) => ServeSignUp(st, c)
    case NewInvite(_, _) => ServeNewInvite(st, c)
    case Book(_, _, _, _) => ServeBook(st, c)
    case BookWeekly(_, _, _, _, _) => ServeBookWeekly(st, c)
    case Confirm(_, _, _) => ServeConfirm(st, c)
    case Edit(_, _, _, _) => ServeEdit(st, c)
    case Cancel(_, _) => ServeCancel(st, c)
    case RemoveMember(_, _) => ServeRemoveMember(st, c)
    case PostComment(_, _, _, _) => ServePostComment(st, c)
    case EditComment(_, _, _, _) => ServeEditComment(st, c)
    case RemoveComment(_, _) => ServeRemoveComment(st, c)
    case AdminRemoveUser(_, _) => ServeAdminRemoveUser(st, c)
    case AdminRemoveSession(_, _) => ServeAdminRemoveSession(st, c)
  }

  /** The call is not a start-time edit the handler leaves unchecked. */
  predicate Checked(st: Store, c: Call) {
    match c.request
    case Edit(id, _, t, date) => EditChecked(st, id, t, date)
    case _ => true
  }

  /** What serving one call keeps: well-formedness, the confirmation stamps
      and, for a checked call, the booking invariant. */
  predicate Keeps(st: Store, st': Store, checked: bool) {
    && WellFormed(st')
    && Evolves(st, st')
    && (SlotUnique(st.sessions) && checked ==> SlotUnique(st'.sessions))
  }

  /** `Keeps` for the handler a call runs. */
  predicate Preserved(st: Store, c: Call) {
    Keeps(st, Handle(st, c), Checked(st, c))
  }

  /** Registration touches no session. */
  lemma SignUpKeeps(st: Store, form: Server.RegisterForm, hashed: string, now: Timestamp)
    requires WellFormed(st)
    ensures Keeps(st, Server.Register(st, form, hashed, now).store, true)
  {
    RegisterKeepsWellFormed(st, form, hashed, now);
    EvolvesSubset(st, Server.Register(st, form, hashed, now).store);
  }

  lemma HandleSignUp(st: Store, c: Call)
    requires c.request.SignUp?
    ensures Handle(st, c) == Server.Register(st, c.request.form, c.request.hashed, c.now).store
  {
    assert c.request == SignUp(c.request.form, c.request.hashed);
  }

  lemma SignUpPreserves(st: Store, c: Call)
    requires WellFormed(st) && c.request.SignUp?
    ensures Preserved(st, c)
  {
    HandleSignUp(st, c);
    SignUpKeeps(st, c.request.form, c.request.hashed, c.now);
  }

  /** Issuing an invite touches no session. */
  lemma NewInviteKeeps(st: Store, trainerId: Id, code: string, now: Timestamp)
    requires WellFormed(st)
    ensures Keeps(st, Server.CreateInviteCode(st, trainerId, code, now).store, true)
  {
    CreateInviteCodeKeepsWellFormed(st, trainerId, code, now);
    var st' := Server.CreateInviteCode(st, trainerId, code, now).store;
    assert st' == Database.CreateInvite(st, code, trainerId, now + 7 * MsPerDay, now).0;
    EvolvesSubset(st, st');
  }

  lemma HandleNewInvite(st: Store, c: Call)
    requires c.request.NewInvite?
    ensures Handle(st, c) == Server.CreateInviteCode(st, c.request.inviter, c.request.code, c.now).store
  {
    assert c.request == NewInvite(c.request.inviter, c.request.code);
  }

  lemma NewInvitePreserves(st: Store, c: Call)
    requires WellFormed(st) && c.request.NewInvite?
    ensures Preserved(st, c)
  {
    HandleNewInvite(st, c);
    NewInviteKeeps(st, c.request.inviter, c.request.code, c.now);
  }

  /** A booking appends one session under a new id, in a free slot. */
  lemma BookKeeps(st: Store, trainerId: Id, memberId: Id, date: Day, startTime: Option<Time>, now: Timestamp)
    requires WellFormed(st)
    ensures Keeps(st, Server.CreatePtSession(st, trainerId, memberId, date, startTime, now).store, true)
  {
    var r := Server.CreatePtSession(st, trainerId, memberId, date, startTime, now);
    CreatePtSessionKeepsWellFormed(st, trainerId, memberId, date, startTime, now);
    if SlotUnique(st.sessions) {
      CreatePtSessionKeepsSlotsUnique(st, trainerId, memberId, date, startTime, now);
    }
    if r.response.Ok? {
      EvolvesAppend(st, r.store, [r.response.value]);
    } else {
      EvolvesSubset(st, r.store);
    }
  }

  lemma HandleBook(st: Store, c: Call)
    requires c.request.Book?
    ensures Handle(st, c) == Server.CreatePtSession(st, c.request.trainer, c.request.member, c.request.day, c.request.at, c.now).store
  {
    assert c.request == Book(c.request.trainer, c.request.member, c.request.day, c.request.at);
  }

  lemma BookPreserves(st: Store, c: Call)
    requires WellFormed(st) && c.request.Book?
    ensures Preserved(st, c)
  {
    HandleBook(st, c);
    BookKeeps(st, c.request.trainer, c.request.member, c.request.day, c.request.at, c.now);
  }

  /** A weekly booking appends sessions under new ids, in free slots. */
  lemma BookWeeklyKeeps(st: Store, trainerId: Id, memberId: Id, startDate: Day, startTime: Option<Time>, weeks: Option<int>, now: Timestamp)
    requires WellFormed(st)
    ensures Keeps(st, Server.CreateRepeatSessions(st, trainerId, memberId, startDate, startTime, weeks, now).store, true)
  {
    var r := Server.CreateRepeatSessions(st, trainerId, memberId, startDate, startTime, weeks, now);
    Repeat.CreateRepeatSessionsSpec(st, trainerId, memberId, startDate, startTime, weeks, now);
    EvolvesAppend(st, r.store, r.response.value.created);
  }

  lemma HandleBookWeekly(st: Store, c: Call)
    requires c.request.BookWeekly?
    ensures Handle(st, c) == Server.CreateRepeatSessions(st, c.request.weeklyTrainer, c.request.weeklyMember, c.request.firstDay, c.request.weeklyAt, c.request.weeks, c.now).store
  {
    assert c.request == BookWeekly(c.request.weeklyTrainer, c.request.weeklyMember, c.request.firstDay, c.request.weeklyAt, c.request.weeks);
  }

  lemma BookWeeklyPreserves(st: Store, c: Call)
    requires WellFormed(st) && c.request.BookWeekly?
    ensures Preserved(st, c)
  {
    HandleBookWeekly(st, c);
    BookWeeklyKeeps(st, c.request.weeklyTrainer, c.request.weeklyMember, c.request.firstDay, c.request.weeklyAt, c.request.weeks, c.now);
  }

  /** A confirmation rewrites one session in place and never clears its stamp. */
  lemma ConfirmKeeps(st: Store, sessionId: Id, requesterId: Id, party: Server.Party, now: Timestamp)
    requires WellFormed(st)
    ensures Keeps(st, Server.ConfirmSession(st, sessionId, requesterId, party, now).store, true)
  {
    var r := Server.ConfirmSession(st, sessionId, requesterId, party, now);
    ConfirmSessionKeepsWellFormed(st, sessionId, requesterId, party, now);
    if SlotUnique(st.sessions) {
      ConfirmSessionKeepsSlotsUnique(st, sessionId, requesterId, party, now);
    }
    if r.response.Ok? {
      EvolvesUpdateAt(st, r.store, FindIndex(st.sessions, HasSessionId(sessionId)).value, r.response.value);
    } else {
      EvolvesSubset(st, r.store);
    }
  }

  lemma HandleConfirm(st: Store, c: Call)
    requires c.request.Confirm?
    ensures Handle(st, c) == Server.ConfirmSession(st, c.request.confirmed, c.request.requester, c.request.party, c.now).store
  {
    assert c.request == Confirm(c.request.confirmed, c.request.requester, c.request.party);
  }

  lemma ConfirmPreserves(st: Store, c: Call)
    requires WellFormed(st) && c.request.Confirm?
    ensures Preserved(st, c)
  {
    HandleConfirm(st, c);
    ConfirmKeeps(st, c.request.confirmed, c.request.requester, c.request.party, c.now);
  }

  /** An edit rewrites one session in place; the booking invariant survives only a checked edit. */
  lemma EditKeeps(st: Store, sessionId: Id, trainerId: Id, startTime: Time, date: Option<Day>, now: Timestamp)
    requires WellFormed(st)
    ensures Keeps(st, Server.UpdatePtSession(st, sessionId, trainerId, startTime, date, now).store, EditChecked(st, sessionId, startTime, date))
  {
    var r := Server.UpdatePtSession(st, sessionId, trainerId, startTime, date, now);
    UpdatePtSessionKeepsWellFormed(st, sessionId, trainerId, startTime, date, now);
    if SlotUnique(st.sessions) && EditChecked(st, sessionId, startTime, date) {
      var found := FindSessionById(st, sessionId);
      if found.Some? && !(date.Some? && date.value != found.value.date) {
        UpdateKeepingSlotKeepsSlotsUnique(st, sessionId, trainerId, startTime, date, now);
      } else {
        UpdateMovingDateKeepsSlotsUnique(st, sessionId, trainerId, startTime, date, now);
      }
    }
    if r.response.Ok? {
      EvolvesUpdateAt(st, r.store, FindIndex(st.sessions, HasSessionId(sessionId)).value, r.response.value);
    } else {
      EvolvesSubset(st, r.store);
    }
  }

  lemma HandleEdit(st: Store, c: Call)
    requires c.request.Edit?
    ensures Handle(st, c) == Server.UpdatePtSession(st, c.request.edited, c.request.editor, c.request.newTime, c.request.newDay, c.now).store
  {
    assert c.request == Edit(c.request.edited, c.request.editor, c.request.newTime, c.request.newDay);
  }

  lemma EditPreserves(st: Store, c: Call)
    requires WellFormed(st) && c.request.Edit?
    ensures Preserved(st, c)
  {
    HandleEdit(st, c);
    EditKeeps(st, c.request.edited, c.request.editor, c.request.newTime, c.request.newDay, c.now);
  }

  /** A cancellation only removes. */
  lemma CancelKeeps(st: Store, sessionId: Id, trainerId: Id)
    requires WellFormed(st)
    ensures Keeps(st, Server.DeletePtSession(st, sessionId, trainerId).store, true)
  {
    DeletePtSessionKeepsWellFormed(st, sessionId, trainerId);
    if SlotUnique(st.sessions) {
      DeletePtSessionKeepsSlotsUnique(st, sessionId, trainerId);
    }
    if DeleteSession(st, sessionId).1 {
      RemoveAtSubset(st.sessions, FindIndex(st.sessions, HasSessionId(sessionId)).value);
    }
    EvolvesSubset(st, Server.DeletePtSession(st, sessionId, trainerId).store);
  }

  lemma HandleCancel(st: Store, c: Call)
    requires c.request.Cancel?
    ensures Handle(st, c) == Server.DeletePtSession(st, c.request.cancelled, c.request.canceller).store
  {
    assert c.request == Cancel(c.request.cancelled, c.request.canceller);
  }

  lemma CancelPreserves(st: Store, c: Call)
    requires WellFormed(st) && c.request.Cancel?
    ensures Preserved(st, c)
  {
    HandleCancel(st, c);
    CancelKeeps(st, c.request.cancelled, c.request.canceller);
  }

  /** Removing a member only removes. */
  lemma RemoveMemberKeeps(st: Store, memberId: Id, trainerId: Id)
    requires WellFormed(st)
    ensures Keeps(st, Server.DeleteMember(st, memberId, trainerId).store, true)
  {
    DeleteMemberKeepsWellFormed(st, memberId, trainerId);
    if SlotUnique(st.sessions) {
      DeleteMemberKeepsSlotsUnique(st, memberId, trainerId);
    }
    EvolvesSubset(st, Server.DeleteMember(st, memberId, trainerId).store);
  }

  lemma HandleRemoveMember(st: Store, c: Call)
    requires c.request.RemoveMember?
    ensures Handle(st, c) == Server.DeleteMember(st, c.request.removed, c.request.owner).store
  {
    assert c.request == RemoveMember(c.request.removed, c.request.owner);
  }

  lemma RemoveMemberPreserves(st: Store, c: Call)
    requires WellFormed(st) && c.request.RemoveMember?
    ensures Preserved(st, c)
  {
    HandleRemoveMember(st, c);
    RemoveMemberKeeps(st, c.request.removed, c.request.owner);
  }

  /** Posting a comment touches no session. */
  lemma PostCommentKeeps(st: Store, sessionId: Id, trainerId: Id, content: Option<string>, isPublic: bool, now: Timestamp)
    requires WellFormed(st)
    ensures Keeps(st, Server.CreateCommentRequest(st, sessionId, trainerId, content, isPublic, now).store, true)
  {
    CreateCommentRequestKeepsWellFormed(st, sessionId, trainerId, content, isPublic, now);
    EvolvesSubset(st, Server.CreateCommentRequest(st, sessionId, trainerId, content, isPublic, now).store);
  }

  lemma HandlePostComment(st: Store, c: Call)
    requires c.request.PostComment?
    ensures Handle(st, c) == Server.CreateCommentRequest(st, c.request.onSession, c.request.author, c.request.content, c.request.isPublic, c.now).store
  {
    assert c.request == PostComment(c.request.onSession, c.request.author, c.request.content, c.request.isPublic);
  }

  lemma PostCommentPreserves(st: Store, c: Call)
    requires WellFormed(st) && c.request.PostComment?
    ensures Preserved(st, c)
  {
    HandlePostComment(st, c);
    PostCommentKeeps(st, c.request.onSession, c.request.author, c.request.content, c.request.isPublic, c.now);
  }

  /** Editing a comment touches no session. */
  lemma EditCommentKeeps(st: Store, commentId: Id, trainerId: Id, content: string, isPublic: bool, now: Timestamp)
    requires WellFormed(st)
    ensures Keeps(st, Server.UpdateCommentRequest(st, commentId, trainerId, content, isPublic, now).store, true)
  {
    UpdateCommentRequestKeepsWellFormed(st, commentId, trainerId, content, isPublic, now);
    EvolvesSubset(st, Server.UpdateCommentRequest(st, commentId, trainerId, content, isPublic, now).store);
  }

  lemma HandleEditComment(st: Store, c: Call)
    requires c.request.EditComment?
    ensures Handle(st, c) == Server.UpdateCommentRequest(st, c.request.comment, c.request.commentEditor, c.request.newContent, c.request.nowPublic, c.now).store
  {
    assert c.request == EditComment(c.request.comment, c.request.commentEditor, c.request.newContent, c.request.nowPublic);
  }

  lemma EditCommentPreserves(st: Store, c: Call)
    requires WellFormed(st) && c.request.EditComment?
    ensures Preserved(st, c)
  {
    HandleEditComment(st, c);
    EditCommentKeeps(st, c.request.comment, c.request.commentEditor, c.request.newContent, c.request.nowPublic, c.now);
  }

  /** Deleting a comment touches no session. */
  lemma RemoveCommentKeeps(st: Store, commentId: Id, trainerId: Id)
    requires WellFormed(st)
    ensures Keeps(st, Server.DeleteCommentRequest(st, commentId, trainerId).store, true)
  {
    DeleteCommentRequestKeepsWellFormed(st, commentId, trainerId);
    EvolvesSubset(st, Server.DeleteCommentRequest(st, commentId, trainerId).store);
  }

  lemma HandleRemoveComment(st: Store, c: Call)
    requires c.request.RemoveComment?
    ensures Handle(st, c) == Server.DeleteCommentRequest(st, c.request.removedComment, c.request.remover).store
  {
    assert c.request == RemoveComment(c.request.removedComment, c.request.remover);
  }

  lemma RemoveCommentPreserves(st: Store, c: Call)
    requires WellFormed(st) && c.request.RemoveComment?
    ensures Preserved(st, c)
  {
    HandleRemoveComment(st, c);
    RemoveCommentKeeps(st, c.request.removedComment, c.request.remover);
  }

  /** The admin user deletion only removes. */
  lemma AdminRemoveUserKeeps(st: Store, userId: Id, adminId: Id)
    requires WellFormed(st)
    ensures Keeps(st, Server.AdminDeleteUser(st, userId, adminId).store, true)
  {
    AdminDeleteUserKeepsWellFormed(st, userId, adminId);
    if SlotUnique(st.sessions) {
      AdminDeleteUserKeepsSlotsUnique(st, userId, adminId);
    }
    EvolvesSubset(st, Server.AdminDeleteUser(st, userId, adminId).store);
  }

  lemma HandleAdminRemoveUser(st: Store, c: Call)
    requires c.request.AdminRemoveUser?
    ensures Handle(st, c) == Server.AdminDeleteUser(st, c.request.user, c.request.admin).store
  {
    assert c.request == AdminRemoveUser(c.request.user, c.request.admin);
  }

  lemma AdminRemoveUserPreserves(st: Store, c: Call)
    requires WellFormed(st) && c.request.AdminRemoveUser?
    ensures Preserved(st, c)
  {
    HandleAdminRemoveUser(st, c);
    AdminRemoveUserKeeps(st, c.request.user, c.request.admin);
  }

  /** The admin session deletion only removes. */
  lemma AdminRemoveSessionKeeps(st: Store, sessionId: Id, adminId: Id)
    requires WellFormed(st)
    ensures Keeps(st, Server.AdminDeleteSession(st, sessionId, adminId).store, true)
  {
    AdminDeleteSessionKeepsWellFormed(st, sessionId, adminId);
    if SlotUnique(st.sessions) {
      AdminDeleteSessionKeepsSlotsUnique(st, sessionId, adminId);
    }
    if DeleteSession(st, sessionId).1 {
      RemoveAtSubset(st.sessions, FindIndex(st.sessions, HasSessionId(sessionId)).value);
    }
    EvolvesSubset(st, Server.AdminDeleteSession(st, sessionId, adminId).store);
  }

  lemma HandleAdminRemoveSession(st: Store, c: Call)
    requires c.request.AdminRemoveSession?
    ensures Handle(st, c) == Server.AdminDeleteSession(st, c.request.session, c.request.sessionAdmin).store
  {
    assert c.request == AdminRemoveSession(c.request.session, c.request.sessionAdmin);
  }

  lemma AdminRemoveSessionPreserves(st: Store, c: Call)
    requires WellFormed(st) && c.request.AdminRemoveSession?
    ensures Preserved(st, c)
  {
    HandleAdminRemoveSession(st, c);
    AdminRemoveSessionKeeps(st, c.request.session, c.request.sessionAdmin);
  }

  /** Every handler keeps the store well-formed, keeps the confirmation stamps
      and, unless it is an unchecked start-time edit, keeps the trainer free of
      double bookings. */
  lemma HandleKeepsInvariants(st: Store, c: Call)
    requires WellFormed(st)
    ensures WellFormed(Handle(st, c))
    ensures Evolves(st, Handle(st, c))
    ensures SlotUnique(st.sessions) && Checked(st, c) ==> SlotUnique(Handle(st, c).sessions)
  {
    match c.request
    case SignUp(_, _) => SignUpPreserves(st, c);
    case NewInvite(_, _) => NewInvitePreserves(st, c);
    case Book(_, _, _, _) => BookPreserves(st, c);
    case BookWeekly(_, _, _, _, _) => BookWeeklyPreserves(st, c);
    case Confirm(_, _, _) => ConfirmPreserves(st, c);
    case Edit(_, _, _, _) => EditPreserves(st, c);
    case Cancel(_, _) => CancelPreserves(st, c);
    case RemoveMember(_, _) => RemoveMemberPreserves(st, c);
    case PostComment(_, _, _, _) => PostCommentPreserves(st, c);
    case EditComment(_, _, _, _) => EditCommentPreserves(st, c);
    case RemoveComment(_, _) => RemoveCommentPreserves(st, c);
    case AdminRemoveUser(_, _) => AdminRemoveUserPreserves(st, c);
    case AdminRemoveSession(_, _) => AdminRemoveSessionPreserves(st, c);
  }

  // ===================== sequences of calls =====================

  /** The store after the calls, served one after another. */
  function Run(st: Store, calls: seq<Call>): Store
    decreases |calls|
  {
    if |calls| == 0 then st else Run(Handle(st, calls[0]), calls[1..])
  }

  /** No call of the sequence is an unchecked start-time edit at the point it is served. */
  predicate SafeRun(st: Store, calls: seq<Call>)
    decreases |calls|
  {
    |calls| == 0 || (Checked(st, calls[0]) && SafeRun(Handle(st, calls[0]), calls[1..]))
  }

  lemma {:induction false} RunKeepsWellFormed(st: Store, calls: seq<Call>)
    requires WellFormed(st)
    ensures WellFormed(Run(st, calls))
    decreases |calls|
  {
    if |calls| > 0 {
      HandleKeepsInvariants(st, calls[0]);
      RunKeepsWellFormed(Handle(st, calls[0]), calls[1..]);
    }
  }

  lemma {:induction false} RunKeepsSlotsUnique(st: Store, calls: seq<Call>)
    requires WellFormed(st) && SlotUnique(st.sessions) && SafeRun(st, calls)
    ensures SlotUnique(Run(st, calls).sessions)
    decreases |calls|
  {
    if |calls| > 0 {
      HandleKeepsInvariants(st, calls[0]);
      RunKeepsSlotsUnique(Handle(st, calls[0]), calls[1..]);
    }
  }

  /** Over any sequence of calls a stamped session that is still there keeps its stamp. */
  lemma {:induction false} RunEvolves(st: Store, calls: seq<Call>)
    requires WellFormed(st)
    ensures Evolves(st, Run(st, calls))
    decreases |calls|
  {
    if |calls| == 0 {
      EvolvesSubset(st, st);
    } else {
      var next := Handle(st, calls[0]);
      HandleKeepsInvariants(st, calls[0]);
      RunEvolves(next, calls[1..]);
      EvolvesTrans(st, next, Run(next, calls[1..]));
    }
  }

  /** From a fresh installation, any sequence of calls without an unchecked
      start-time edit leaves a well-formed store without double bookings. */
  lemma FreshInstallKeepsInvariants(calls: seq<Call>)
    requires SafeRun(EmptyStore, calls)
    ensures WellFormed(Run(EmptyStore, calls)) && SlotUnique(Run(EmptyStore, calls).sessions)
  {
    EmptyStoreWellFormed();
    RunKeepsWellFormed(EmptyStore, calls);
    RunKeepsSlotsUnique(EmptyStore, calls);
  }

  // ===================== single-handler properties =====================

  /** Confirming a second time, at any later moment, changes nothing and
      answers with the same session. */
  lemma ConfirmIdempotent(st: Store, sessionId: Id, requesterId: Id, party: Server.Party, now: Timestamp, later: Timestamp)
    requires Server.ConfirmSession(st, sessionId, requesterId, party, now).response.Ok?
    ensures var r := Server.ConfirmSession(st, sessionId, requesterId, party, now);
      Server.ConfirmSession(r.store, sessionId, requesterId, party, later) == r
  {
    var r := Server.ConfirmSession(st, sessionId, requesterId, party, now);
    var k := FindIndex(st.sessions, HasSessionId(sessionId)).value;
    var after := r.response.value;
    FindIndexUpdate(st.sessions, HasSessionId(sessionId), k, after);
    assert r.store.sessions[k] == after;
    assert FindSessionById(r.store, sessionId) == Some(after);
    assert Merge(after, Server.ConfirmPatch(party)) == after;
    assert Latch(after, later) == after;
    assert r.store.sessions[k := after] == r.store.sessions;
  }

  /** After a member has registered with an invite, the code is used up: the
      same code is refused as used, and any second member registration with it fails. */
  lemma InviteSingleUse(st: Store, first: Server.RegisterForm, second: Server.RegisterForm,
                        hashed: string, hashed2: string, now: Timestamp, later: Timestamp)
    requires first.role == Member && Server.Register(st, first, hashed, now).response.Ok?
    requires second.role == Member && second.inviteCode == first.inviteCode
    ensures var r := Server.Register(st, first, hashed, now);
      && Server.CheckInvite(r.store, first.inviteCode, later) == Server.Err(Server.InviteUsed)
      && Server.Register(r.store, second, hashed2, later).response.Err?
  {
    var r := Server.Register(st, first, hashed, now);
    var c := first.inviteCode.value;
    var invite := Server.CheckInvite(st, first.inviteCode, now).value;
    assert invite.code == c;
    var k := FindIndex(st.inviteCodes, HasCode(c)).value;
    FindIndexUpdate(st.inviteCodes, HasCode(c), k, st.inviteCodes[k].(used := true));
    assert FindIndex(r.store.inviteCodes, HasCode(c)) == Some(k);
    assert FindInviteByCode(r.store, c).value.used;
  }

  /** In a well-formed store a cancelled session disappears with all its
      comments, and every other session and comment stays, in order. */
  lemma DeletePtSessionRemovesExactly(st: Store, sessionId: Id, trainerId: Id)
    requires WellFormed(st)
    ensures var r := Server.DeletePtSession(st, sessionId, trainerId);
      r.response.Ok? ==>
        && r.store.sessions == Filter(st.sessions, Not(HasSessionId(sessionId)))
        && r.store.comments == Filter(st.comments, Not(OnSession(sessionId)))
  {
    DeleteSessionRemovesExactlyId(st, sessionId);
  }

  /** The same for the admin deletion, which also succeeds on an unknown id. */
  lemma AdminDeleteSessionRemovesExactly(st: Store, sessionId: Id, adminId: Id)
    requires WellFormed(st)
    ensures var r := Server.AdminDeleteSession(st, sessionId, adminId);
      r.response.Ok? ==>
        && r.store.sessions == Filter(st.sessions, Not(HasSessionId(sessionId)))
        && r.store.comments == Filter(st.comments, Not(OnSession(sessionId)))
  {
    DeleteSessionRemovesExactlyId(st, sessionId);
  }

  // ===================== deleting a member, as written and as intended =====================

  /** In a well-formed store removing the account at the first match of the id
      removes exactly the accounts with that id. */
  lemma RemoveUserIsFilter(st: Store, userId: Id)
    requires WellFormed(st) && FindIndex(st.users, HasUserId(userId)).Some?
    ensures RemoveAt(st.users, FindIndex(st.users, HasUserId(userId)).value) == Filter(st.users, Not(HasUserId(userId)))
  {
    var p := HasUserId(userId);
    forall i, j | 0 <= i < j < |st.users| && p(st.users[i])
      ensures !p(st.users[j])
    {
      assert DistinctIds(UserId)(st.users[i], st.users[j]);
    }
    RemoveFirstIsFilter(st.users, p);
  }

  /** The member deletion as written answers 500 and keeps the member, its
      sessions and their comments whenever the trainer owns the member; the
      intended cascade removes the account and every session it attends. */
  lemma MemberDeleteAsWrittenKeepsMember(st: Store, memberId: Id, trainerId: Id)
    requires WellFormed(st)
    requires FindUserById(st, memberId).Some? && FindUserById(st, memberId).value.trainerId == Some(trainerId)
    ensures Server.DeleteMemberAsWritten(st, memberId, trainerId) == Server.Reply(st, Server.Err(Server.ServerError))
    ensures var r := Server.DeleteMember(st, memberId, trainerId);
      && r.response.Ok?
      && r.store.users == Filter(st.users, Not(HasUserId(memberId)))
      && (forall s :: s in r.store.sessions ==> s.memberId != memberId)
  {
    assert FindIndex(st.users, HasUserId(memberId)).Some?;
    RemoveUserIsFilter(st, memberId);
  }
}
