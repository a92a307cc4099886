/** The request handlers of server/server.js that sit on the store: registration
    with an invite code, invite creation, session booking (single and weekly),
    the two confirmations, editing and cancelling a session, deleting a member,
    the comment endpoints and the two admin deletions. Each handler takes the
    store and the request's fields and gives back the new store and either the
    response body or the refusal it answers with. */
module Server {
  import opened Wrappers
  import opened Seqs
  import opened Model
  import opened Database
  import Text

  /** The refusals the handlers answer with (see `Status` for the HTTP code). */
  datatype Failure =
    | MissingFields
    | EmailTaken
    | InviteMissing
    | InviteUnknown
    | InviteUsed
    | InviteExpired
      /** The slot is booked; carries the `conflictInfo` shown to the trainer. */
    | SlotTaken(date: Day, startTime: Time, existingMember: string)
      /** The slot an edit moves to is booked. */
    | SlotBusy
    | EmptyContent
    | CannotDeleteSelf
    | Forbidden
    | AdminRequired
    | NotFound
      /** An exception inside the handler, answered by its `catch` block. */
    | ServerError

  function Status(f: Failure): (code: nat)
    ensures code in {400, 403, 404, 500}
  {
    match f
    case Forbidden | AdminRequired => 403
    case NotFound => 404
    case ServerError => 500
    case _ => 400
  }

  datatype Response<T> = Ok(value: T) | Err(failure: Failure)

  /** The store after the request, and what the request answered. */
  datatype Reply<T> = Reply(store: Store, response: Response<T>)

  // ===================== registration and invites =====================

  datatype RegisterForm = RegisterForm(
    name: string,
    email: string,
    password: string,
    role: Role,
    inviteCode: Option<string>)

  /** The invite checks a member registration goes through, in order: a code
      must be given, known, unused and not yet expired. */
  function CheckInvite(st: Store, code: Option<string>, now: Timestamp): (r: Response<InviteCode>)
    ensures r == Err(InviteMissing) <==> code.None? || code == Some([])
    ensures r == Err(InviteUnknown) <==>
      code.Some? && code.value != [] && forall c :: c in st.inviteCodes ==> c.code != code.value
    ensures r == Err(InviteUsed) <==>
      code.Some? && code.value != [] && FindInviteByCode(st, code.value).Some?
      && FindInviteByCode(st, code.value).value.used
    ensures r == Err(InviteExpired) <==>
      code.Some? && code.value != [] && FindInviteByCode(st, code.value).Some?
      && !FindInviteByCode(st, code.value).value.used && FindInviteByCode(st, code.value).value.expiresAt < now
    ensures r.Ok? ==> r.value in st.inviteCodes && Some(r.value.code) == code
                      && !r.value.used && now <= r.value.expiresAt
    ensures r.Ok? ==> r.value == FindInviteByCode(st, code.value).value
    ensures r.Ok? || r.failure in {InviteMissing, InviteUnknown, InviteUsed, InviteExpired}
  {
    match code
    case None => Err(InviteMissing)
    case Some(c) =>
      if c == [] then Err(InviteMissing)
      else
        match FindInviteByCode(st, c)
        case None => Err(InviteUnknown)
        case Some(invite) =>
          if invite.used then Err(InviteUsed)
          else if invite.expiresAt < now then Err(InviteExpired)
          else Ok(invite)
  }

  /** POST /api/auth/register. `hashed` is the bcrypt hash of the password. */
  function Register(st: Store, form: RegisterForm, hashed: string, now: Timestamp): (r: Reply<User>)
    ensures r.response.Err? ==> r.store == st
    ensures r.response == Err(MissingFields) <==> form.name == [] || form.email == [] || form.password == []
    ensures form.name != [] && form.email != [] && form.password != [] && FindUserByEmail(st, form.email).Some?
            ==> r.response == Err(EmailTaken)
    ensures form.name != [] && form.email != [] && form.password != [] && FindUserByEmail(st, form.email).None?
            && form.role == Member && CheckInvite(st, form.inviteCode, now).Err?
            ==> r.response == Err(CheckInvite(st, form.inviteCode, now).failure)
    ensures r.response.Ok? <==>
      && form.name != [] && form.email != [] && form.password != []
      && (forall u :: u in st.users ==> u.email != form.email)
      && (form.role == Member ==> CheckInvite(st, form.inviteCode, now).Ok?)
    ensures r.response.Ok? ==>
      var u := r.response.value;
      && u.id == st.counters.users + 1 && u.name == form.name && u.email == form.email
      && u.password == hashed && u.role == form.role && u.createdAt == now
      && r.store.users == st.users + [u]
      && r.store.counters == st.counters.(users := st.counters.users + 1)
      && r.store.sessions == st.sessions && r.store.comments == st.comments
    ensures r.response.Ok? && form.role != Member ==>
      r.response.value.trainerId == None && r.store.inviteCodes == st.inviteCodes
    ensures r.response.Ok? && form.role == Member ==>
      var invite := CheckInvite(st, form.inviteCode, now).value;
      && r.response.value.trainerId == Some(invite.trainerId)
      && r.store.inviteCodes == MarkInviteUsed(st, invite.code).inviteCodes
  {
    if form.name == [] || form.email == [] || form.password == [] then Reply(st, Err(MissingFields))
    else if FindUserByEmail(st, form.email).Some? then Reply(st, Err(EmailTaken))
    else if form.role == Member then
      match CheckInvite(st, form.inviteCode, now)
      case Err(f) => Reply(st, Err(f))
      case Ok(invite) =>
        var marked := MarkInviteUsed(st, invite.code);
        var (st', u) := CreateUser(marked, NewUser(form.name, form.email, hashed, Member, Some(invite.trainerId)), now);
        Reply(st', Ok(u))
    else
      var (st', u) := CreateUser(st, NewUser(form.name, form.email, hashed, form.role, None), now);
      Reply(st', Ok(u))
  }

  /** POST /api/trainer/invite. `code` is the random code drawn for the invite;
      it expires seven days after `now`. */
  function CreateInviteCode(st: Store, trainerId: Id, code: string, now: Timestamp): (r: Reply<InviteCode>)
    ensures r.response.Ok?
    ensures r.response.value.code == code && r.response.value.trainerId == trainerId
    ensures !r.response.value.used && r.response.value.expiresAt == now + 7 * MsPerDay
    ensures r.response.value.createdAt == now
    ensures r.response.value.id == st.counters.inviteCodes + 1
    ensures r.store == st.(inviteCodes := st.inviteCodes + [r.response.value],
                           counters := st.counters.(inviteCodes := st.counters.inviteCodes + 1))
  {
    var (st', invite) := Database.CreateInvite(st, code, trainerId, now + 7 * MsPerDay, now);
    Reply(st', Ok(invite))
  }

  // ===================== booking =====================

  /** POST /api/pt-sessions: books the slot unless the trainer already has a
      session there. The trainer, as creator, has confirmed; the member has not. */
  function CreatePtSession(st: Store, trainerId: Id, memberId: Id, date: Day, startTime: Option<Time>, now: Timestamp)
    : (r: Reply<Session>)
    ensures var t := startTime.GetOr(DefaultStartTime);
      r.response.Err? <==> exists s :: s in st.sessions && s.trainerId == trainerId && s.date == date && s.startTime == t
    ensures r.response.Err? ==>
      && r.store == st
      && r.response.failure.SlotTaken?
      && r.response.failure.date == date && r.response.failure.startTime == startTime.GetOr(DefaultStartTime)
      && r.response.failure.existingMember
         == MemberName(st, FindByTrainerDateAndTime(st, trainerId, date, startTime.GetOr(DefaultStartTime)).value.session.memberId)
    ensures r.response.Ok? ==>
      var s := r.response.value;
      && s.id == st.counters.sessions + 1
      && s.trainerId == trainerId && s.memberId == memberId && s.date == date
      && s.startTime == startTime.GetOr(DefaultStartTime)
      && s.trainerConfirmed && !s.memberConfirmed && s.confirmedAt.None? && s.createdAt == now
      && r.store == st.(sessions := st.sessions + [s], counters := st.counters.(sessions := st.counters.sessions + 1))
  {
    var t := startTime.GetOr(DefaultStartTime);
    match FindByTrainerDateAndTime(st, trainerId, date, t)
    case Some(b) => Reply(st, Err(SlotTaken(date, t, b.memberName)))
    case None =>
      var (st', s) := CreateSession(st, SessionData(trainerId, memberId, date, t, Some(true), Some(false)), now);
      Reply(st', Ok(s))
  }

  /** What the weekly booking reports: the sessions it made and the dates it skipped. */
  datatype RepeatResult = RepeatResult(created: seq<Session>, failed: seq<Day>)

  /** The loop body of the weekly booking, from week `i` on: week `i` falls on
      `startDate + 7 * i`; a booked slot is skipped and reported, a free one is booked. */
  function RepeatFrom(st: Store, trainerId: Id, memberId: Id, startDate: Day, startTime: Time,
                      i: int, weeks: int, now: Timestamp): (r: (Store, RepeatResult))
    decreases weeks - i
  {
    if i >= weeks then (st, RepeatResult([], []))
    else
      var date := startDate + 7 * i;
      if SlotBooked(st, trainerId, date, startTime) then
        var rest := RepeatFrom(st, trainerId, memberId, startDate, startTime, i + 1, weeks, now);
        (rest.0, rest.1.(failed := [date] + rest.1.failed))
      else
        var made := CreateSession(st, SessionData(trainerId, memberId, date, startTime, Some(true), Some(false)), now);
        var rest := RepeatFrom(made.0, trainerId, memberId, startDate, startTime, i + 1, weeks, now);
        (rest.0, rest.1.(created := [made.1] + rest.1.created))
  }

  /** POST /api/pt-sessions/repeat: books `weeks` weekly sessions (4 when the
      request names no count). The server sets no lower bound on the count. */
  function CreateRepeatSessions(st: Store, trainerId: Id, memberId: Id, startDate: Day,
                                startTime: Option<Time>, weeks: Option<int>, now: Timestamp)
    : (r: Reply<RepeatResult>)
    ensures r.response.Ok?
    ensures weeks.GetOr(4) <= 0 ==> r == Reply(st, Ok(RepeatResult([], [])))
  {
    var (st', result) := RepeatFrom(st, trainerId, memberId, startDate, startTime.GetOr(DefaultStartTime),
                                    0, weeks.GetOr(4), now);
    Reply(st', Ok(result))
  }

  // ===================== confirmation =====================

  /** Which party confirms: the trainer (confirm-trainer) or the member (confirm-member). */
  datatype Party = AsTrainer | AsMember

  /** The account allowed to confirm for that party. */
  function PartyId(s: Session, party: Party): Id {
    match party
    case AsTrainer => s.trainerId
    case AsMember => s.memberId
  }

  /** The flag that party sets. */
  function ConfirmedBy(s: Session, party: Party): bool {
    match party
    case AsTrainer => s.trainerConfirmed
    case AsMember => s.memberConfirmed
  }

  function ConfirmPatch(party: Party): SessionPatch {
    match party
    case AsTrainer => SessionPatch(None, None, Some(true), None)
    case AsMember => SessionPatch(None, None, None, Some(true))
  }

  /** POST /api/pt-sessions/:id/confirm-trainer and .../confirm-member. */
  function ConfirmSession(st: Store, sessionId: Id, requesterId: Id, party: Party, now: Timestamp)
    : (r: Reply<Session>)
    ensures r.response.Err? ==> r.store == st
    ensures r.response == Err(NotFound) <==> forall s :: s in st.sessions ==> s.id != sessionId
    ensures r.response == Err(Forbidden) <==>
      FindSessionById(st, sessionId).Some? && PartyId(FindSessionById(st, sessionId).value, party) != requesterId
    ensures r.response.Err? ==> r.response.failure in {NotFound, Forbidden}
    ensures r.response.Ok? ==>
      var k := FindIndex(st.sessions, HasSessionId(sessionId)).value;
      var before, after := st.sessions[k], r.response.value;
      && r.store == st.(sessions := st.sessions[k := after])
      && after.id == sessionId && PartyId(after, party) == requesterId
      && after.trainerId == before.trainerId && after.memberId == before.memberId
      && ConfirmedBy(after, party)
      && after.trainerConfirmed == (before.trainerConfirmed || party == AsTrainer)
      && after.memberConfirmed == (before.memberConfirmed || party == AsMember)
      && after.date == before.date && after.startTime == before.startTime && after.createdAt == before.createdAt
      && (before.confirmedAt.Some? ==> after.confirmedAt == before.confirmedAt)
      && (before.confirmedAt.None? ==>
            after.confirmedAt == if after.trainerConfirmed && after.memberConfirmed then Some(now) else None)
  {
    match FindSessionById(st, sessionId)
    case None => Reply(st, Err(NotFound))
    case Some(s) =>
      if PartyId(s, party) != requesterId then Reply(st, Err(Forbidden))
      else
        match UpdateSession(st, sessionId, ConfirmPatch(party), now)
        case (st', Some(updated)) => Reply(st', Ok(updated))
        case (_, None) => Reply(st, Err(ServerError))
  }

  // ===================== editing and cancelling =====================

  /** PUT /api/pt-sessions/:id. The start time is always overwritten, the date
      only when one is given. The slot is checked only when the date changes;
      a change of start time alone is not checked against other bookings. */
  function UpdatePtSession(st: Store, sessionId: Id, trainerId: Id, startTime: Time, date: Option<Day>, now: Timestamp)
    : (r: Reply<Session>)
    ensures r.response.Err? ==> r.store == st
    ensures r.response == Err(NotFound) <==> forall s :: s in st.sessions ==> s.id != sessionId
    ensures r.response == Err(Forbidden) <==>
      FindSessionById(st, sessionId).Some? && FindSessionById(st, sessionId).value.trainerId != trainerId
    ensures r.response == Err(SlotBusy) ==>
      date.Some? && date.value != FindSessionById(st, sessionId).value.date
      && exists o :: o in st.sessions && o.id != sessionId
                     && o.trainerId == trainerId && o.date == date.value && o.startTime == startTime
    ensures WellFormed(st) && FindSessionById(st, sessionId).Some?
            && FindSessionById(st, sessionId).value.trainerId == trainerId
            && date.Some? && date.value != FindSessionById(st, sessionId).value.date
            && (exists o :: o in st.sessions && o.id != sessionId
                            && o.trainerId == trainerId && o.date == date.value && o.startTime == startTime)
            ==> r.response == Err(SlotBusy)
    ensures r.response.Err? ==> r.response.failure in {NotFound, Forbidden, SlotBusy}
    ensures r.response.Ok? ==>
      var k := FindIndex(st.sessions, HasSessionId(sessionId)).value;
      var before, after := st.sessions[k], r.response.value;
      && r.store == st.(sessions := st.sessions[k := after])
      && after.id == sessionId && after.trainerId == trainerId && after.memberId == before.memberId
      && after.startTime == startTime && after.date == date.GetOr(before.date)
      && after.trainerConfirmed == before.trainerConfirmed && after.memberConfirmed == before.memberConfirmed
      && after.createdAt == before.createdAt
      && (before.confirmedAt.Some? ==> after.confirmedAt == before.confirmedAt)
      && (before.confirmedAt.None? ==>
            after.confirmedAt == if after.trainerConfirmed && after.memberConfirmed then Some(now) else None)
  {
    match FindSessionById(st, sessionId)
    case None => Reply(st, Err(NotFound))
    case Some(s) =>
      BookingElsewhereIsOther(st, sessionId, trainerId, date.GetOr(s.date), startTime);
      if s.trainerId != trainerId then Reply(st, Err(Forbidden))
      else if date.Some? && date.value != s.date
              && FindByTrainerDateAndTime(st, trainerId, date.value, startTime).Some?
              && FindByTrainerDateAndTime(st, trainerId, date.value, startTime).value.session.id != sessionId
      then Reply(st, Err(SlotBusy))
      else
        match UpdateSession(st, sessionId, SessionPatch(date, Some(startTime), None, None), now)
        case (st', Some(updated)) => Reply(st', Ok(updated))
        case (_, None) => Reply(st, Err(ServerError))
  }

  /** DELETE /api/pt-sessions/:id: the owning trainer cancels the session, and
      its comments go with it. */
  function DeletePtSession(st: Store, sessionId: Id, trainerId: Id): (r: Reply<()>)
    ensures r.response.Err? ==> r.store == st
    ensures r.response == Err(NotFound) <==> forall s :: s in st.sessions ==> s.id != sessionId
    ensures r.response == Err(Forbidden) <==>
      FindSessionById(st, sessionId).Some? && FindSessionById(st, sessionId).value.trainerId != trainerId
    ensures r.response.Err? ==> r.response.failure in {NotFound, Forbidden}
    ensures r.response.Ok? ==>
      && r.store.sessions == DeleteSession(st, sessionId).0.sessions
      && (forall c :: c in r.store.comments <==> c in st.comments && c.sessionId != sessionId)
      && r.store.users == st.users && r.store.inviteCodes == st.inviteCodes && r.store.counters == st.counters
  {
    match FindSessionById(st, sessionId)
    case None => Reply(st, Err(NotFound))
    case Some(s) =>
      if s.trainerId != trainerId then Reply(st, Err(Forbidden))
      else
        var (st1, deleted) := DeleteSession(st, sessionId);
        if deleted then
          var (st2, _) := DeleteCommentsBySession(st1, sessionId);
          Reply(st2, Ok(()))
        else Reply(st, Err(ServerError))
  }

  // ===================== deleting a member =====================

  /** The member's sessions, by id. */
  predicate SessionOfMember(st: Store, memberId: Id, sessionId: Id) {
    exists s :: s in st.sessions && s.memberId == memberId && s.id == sessionId
  }

  /** Deletes the comments of each listed session, one `deleteBySessionId` after another. */
  function DeleteCommentsOfSessions(st: Store, ss: seq<Session>): (r: Store)
    ensures forall c :: c in r.comments <==> c in st.comments && forall s :: s in ss ==> s.id != c.sessionId
    ensures r == st.(comments := r.comments)
    decreases |ss|
  {
    if |ss| == 0 then st
    else
      var (st1, _) := DeleteCommentsBySession(st, ss[0].id);
      var r := DeleteCommentsOfSessions(st1, ss[1..]);
      assert forall s :: s in ss <==> s == ss[0] || s in ss[1..];
      r
  }

  function TrainerCheckedMember(st: Store, memberId: Id, trainerId: Id): Response<User> {
    match FindUserById(st, memberId)
    case None => Err(NotFound)
    case Some(m) => if m.trainerId != Some(trainerId) then Err(Forbidden) else Ok(m)
  }

  /** DELETE /api/members/:id as its code comments describe it: the owning
      trainer removes the member, the member's sessions and those sessions' comments. */
  function DeleteMember(st: Store, memberId: Id, trainerId: Id): (r: Reply<()>)
    ensures r.response.Err? ==> r.store == st
    ensures r.response == Err(NotFound) <==> forall u :: u in st.users ==> u.id != memberId
    ensures r.response == Err(Forbidden) <==>
      FindUserById(st, memberId).Some? && FindUserById(st, memberId).value.trainerId != Some(trainerId)
    ensures r.response.Err? ==> r.response.failure in {NotFound, Forbidden}
    ensures r.response.Ok? ==>
      && (forall s :: s in r.store.sessions <==> s in st.sessions && s.memberId != memberId)
      && (forall c :: c in r.store.comments <==> c in st.comments && !SessionOfMember(st, memberId, c.sessionId))
      && r.store.users == RemoveAt(st.users, FindIndex(st.users, HasUserId(memberId)).value)
      && r.store.inviteCodes == st.inviteCodes && r.store.counters == st.counters
  {
    match TrainerCheckedMember(st, memberId, trainerId)
    case Err(f) => Reply(st, Err(f))
    case Ok(_) =>
      var memberSessions := Filter(st.sessions, HasMember(memberId));
      var st1 := DeleteCommentsOfSessions(st, memberSessions);
      var st2 := st1.(sessions := Filter(st1.sessions, Not(HasMember(memberId))));
      var k := FindIndex(st2.users, HasUserId(memberId)).value;
      Reply(st2.(users := RemoveAt(st2.users, k)), Ok(()))
  }

  /** DELETE /api/members/:id as the code stands: after the two checks it calls
      `loadDB`, which server.js never imports, so the handler throws and answers
      500 without having changed anything. */
  function DeleteMemberAsWritten(st: Store, memberId: Id, trainerId: Id): (r: Reply<()>)
    ensures r.store == st
    ensures r.response.Err?
    ensures r.response.failure == ServerError <==>
      FindUserById(st, memberId).Some? && FindUserById(st, memberId).value.trainerId == Some(trainerId)
  {
    match TrainerCheckedMember(st, memberId, trainerId)
    case Err(f) => Reply(st, Err(f))
    case Ok(_) => Reply(st, Err(ServerError))
  }

  // ===================== comments =====================

  /** GET /api/sessions/:id/comments?role=...: members see the public comments
      only, every other caller sees them all. */
  function ReadComments(st: Store, sessionId: Id, role: string): (r: seq<Comment>)
    ensures forall c :: c in r <==> c in st.comments && c.sessionId == sessionId && (role == "member" ==> c.isPublic)
    ensures role == "member" ==> forall c :: c in r ==> c.isPublic
  {
    if role == "member" then FindPublicCommentsBySession(st, sessionId)
    else FindCommentsBySession(st, sessionId)
  }

  /** POST /api/comments: refuses a missing, empty or all-white-space text and
      stores the trimmed text. */
  function CreateCommentRequest(st: Store, sessionId: Id, trainerId: Id, content: Option<string>,
                                isPublic: bool, now: Timestamp): (r: Reply<Comment>)
    ensures r.response.Err? <==> content.None? || Text.AllSpace(content.value)
    ensures r.response.Err? ==> r.store == st && r.response.failure == EmptyContent
    ensures r.response.Ok? ==>
      var c := r.response.value;
      && c.content == Text.Trim(content.value) && c.content != []
      && c.sessionId == sessionId && c.trainerId == trainerId && c.isPublic == isPublic
      && c.id == st.counters.comments + 1
      && c.userId.None? && c.createdAt == now && c.updatedAt.None?
      && r.store == st.(comments := st.comments + [c], counters := st.counters.(comments := st.counters.comments + 1))
  {
    match content
    case None => Reply(st, Err(EmptyContent))
    case Some(text) =>
      var trimmed := Text.Trim(text);
      if trimmed == [] then Reply(st, Err(EmptyContent))
      else
        var (st', c) := Database.CreateComment(st, CommentData(sessionId, trainerId, trimmed, isPublic), now);
        Reply(st', Ok(c))
  }

  /** PUT /api/comments/:id: only the authoring trainer may edit; the new text is
      trimmed but, unlike creation, not checked for emptiness. */
  function UpdateCommentRequest(st: Store, commentId: Id, trainerId: Id, content: string, isPublic: bool, now: Timestamp)
    : (r: Reply<Comment>)
    ensures r.response.Err? ==> r.store == st
    ensures r.response == Err(NotFound) <==> forall c :: c in st.comments ==> c.id != commentId
    ensures r.response == Err(Forbidden) <==>
      FindCommentById(st, commentId).Some? && FindCommentById(st, commentId).value.trainerId != trainerId
    ensures r.response.Err? ==> r.response.failure in {NotFound, Forbidden}
    ensures r.response.Ok? ==>
      var k := FindIndex(st.comments, HasCommentId(commentId)).value;
      && r.store == st.(comments := st.comments[k := r.response.value])
      && r.response.value == st.comments[k].(content := Text.Trim(content), isPublic := isPublic, updatedAt := Some(now))
      && r.response.value.id == commentId && r.response.value.trainerId == trainerId
  {
    match FindCommentById(st, commentId)
    case None => Reply(st, Err(NotFound))
    case Some(c) =>
      if c.trainerId != trainerId then Reply(st, Err(Forbidden))
      else
        match Database.UpdateComment(st, commentId, Text.Trim(content), isPublic, now)
        case (st', Some(updated)) => Reply(st', Ok(updated))
        case (_, None) => Reply(st, Err(ServerError))
  }

  /** DELETE /api/comments/:id: only the authoring trainer may delete. */
  function DeleteCommentRequest(st: Store, commentId: Id, trainerId: Id): (r: Reply<()>)
    ensures r.response.Err? ==> r.store == st
    ensures r.response == Err(NotFound) <==> forall c :: c in st.comments ==> c.id != commentId
    ensures r.response == Err(Forbidden) <==>
      FindCommentById(st, commentId).Some? && FindCommentById(st, commentId).value.trainerId != trainerId
    ensures r.response.Err? ==> r.response.failure in {NotFound, Forbidden}
    ensures r.response.Ok? ==>
      r.store == st.(comments := RemoveAt(st.comments, FindIndex(st.comments, HasCommentId(commentId)).value))
  {
    match FindCommentById(st, commentId)
    case None => Reply(st, Err(NotFound))
    case Some(c) =>
      if c.trainerId != trainerId then Reply(st, Err(Forbidden))
      else Reply(Database.DeleteComment(st, commentId).0, Ok(()))
  }

  // ===================== administration =====================

  /** The caller is an admin account. */
  predicate IsAdmin(st: Store, id: Id) {
    FindUserById(st, id).Some? && FindUserById(st, id).value.role == Admin
  }

  /** DELETE /api/admin/users/:id: an admin removes another account and every
      session the account trains or attends. Comments are removed by their
      `user_id`, which comments made through the API do not carry. */
  function AdminDeleteUser(st: Store, userId: Id, adminId: Id): (r: Reply<()>)
    ensures r.response.Err? ==> r.store == st
    ensures r.response == Err(AdminRequired) <==> !IsAdmin(st, adminId)
    ensures r.response == Err(CannotDeleteSelf) <==> IsAdmin(st, adminId) && userId == adminId
    ensures r.response.Err? ==> r.response.failure in {AdminRequired, CannotDeleteSelf}
    ensures r.response.Ok? ==>
      && (forall u :: u in r.store.users <==> u in st.users && u.id != userId)
      && (forall s :: s in r.store.sessions <==> s in st.sessions && s.trainerId != userId && s.memberId != userId)
      && (forall c :: c in r.store.comments <==> c in st.comments && c.userId != Some(userId))
      && r.store.inviteCodes == st.inviteCodes && r.store.counters == st.counters
  {
    if !IsAdmin(st, adminId) then Reply(st, Err(AdminRequired))
    else if userId == adminId then Reply(st, Err(CannotDeleteSelf))
    else
      var st1 := DeleteUser(st, userId);
      var st2 := DeleteSessionsByUserId(st1, userId);
      Reply(DeleteCommentsByUserId(st2, userId), Ok(()))
  }

  /** DELETE /api/admin/sessions/:id: an admin removes a session (if any) and its
      comments; an unknown id still answers success. */
  function AdminDeleteSession(st: Store, sessionId: Id, adminId: Id): (r: Reply<()>)
    ensures r.response.Err? <==> !IsAdmin(st, adminId)
    ensures r.response.Err? ==> r.store == st && r.response.failure == AdminRequired
    ensures r.response.Ok? ==>
      && r.store.sessions == DeleteSession(st, sessionId).0.sessions
      && (forall c :: c in r.store.comments <==> c in st.comments && c.sessionId != sessionId)
      && r.store.users == st.users && r.store.inviteCodes == st.inviteCodes && r.store.counters == st.counters
  {
    if !IsAdmin(st, adminId) then Reply(st, Err(AdminRequired))
    else
      var st1 := DeleteSession(st, sessionId).0;
      Reply(DeleteCommentsBySession(st1, sessionId).0, Ok(()))
  }
}
