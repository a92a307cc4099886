/** The records held by the JSON store (server/database.js) and the store itself.

    Representation choices:
    - a calendar date ('yyyy-MM-dd') is a day ordinal, so "seven days later" is `+ 7`;
    - a start time ('HH:mm', zero-padded) is its number of minutes after midnight,
      which orders exactly as the strings do;
    - a timestamp (ISO string from `new Date()`) is milliseconds since the epoch;
    - ids are integers: the store hands out 1, 2, 3, ... per collection, while ids
      arriving in a request may be anything. */
module Model {
  import opened Wrappers
  import opened Seqs

  type Id = int
  type Day = int
  type Time = nat
  type Timestamp = nat

  /** The start time a request gets when it names none ('09:00'). */
  const DefaultStartTime: Time := 9 * 60

  /** Milliseconds in one day. */
  const MsPerDay: nat := 24 * 60 * 60 * 1000

  datatype Role = Admin | Trainer | Member

  /** An account; `trainerId` is set only for members, from the invite they redeemed. */
  datatype User = User(
    id: Id,
    name: string,
    email: string,
    password: string,
    role: Role,
    trainerId: Option<Id>,
    createdAt: Timestamp)

  datatype InviteCode = InviteCode(
    id: Id,
    code: string,
    trainerId: Id,
    expiresAt: Timestamp,
    used: bool,
    createdAt: Timestamp)

  /** A PT session slot. `confirmedAt` is stamped the first time both flags are true. */
  datatype Session = Session(
    id: Id,
    trainerId: Id,
    memberId: Id,
    date: Day,
    startTime: Time,
    trainerConfirmed: bool,
    memberConfirmed: bool,
    confirmedAt: Option<Timestamp>,
    createdAt: Timestamp)

  /** A session comment. `userId` is the `user_id` field that the admin cascade
      filters on; comments created through the API carry `trainerId` only, so it
      is `None` for them. */
  datatype Comment = Comment(
    id: Id,
    sessionId: Id,
    trainerId: Id,
    userId: Option<Id>,
    content: string,
    isPublic: bool,
    createdAt: Timestamp,
    updatedAt: Option<Timestamp>)

  /** One id counter per collection. */
  datatype Counters = Counters(users: nat, inviteCodes: nat, sessions: nat, comments: nat)

  datatype Store = Store(
    users: seq<User>,
    inviteCodes: seq<InviteCode>,
    sessions: seq<Session>,
    comments: seq<Comment>,
    counters: Counters)

  /** The database a fresh installation starts from. */
  const EmptyStore: Store := Store([], [], [], [], Counters(0, 0, 0, 0))

  function UserId(u: User): Id { u.id }
  function InviteId(c: InviteCode): Id { c.id }
  function SessionId(s: Session): Id { s.id }
  function CommentId(c: Comment): Id { c.id }

  /** Two records carry different ids. */
  function DistinctIds<T>(id: T -> Id): (T, T) -> bool {
    (a, b) => id(a) != id(b)
  }

  /** Every id was handed out by the counter (1 ..= counter) and no id occurs twice. */
  predicate IdsFresh<T>(xs: seq<T>, id: T -> Id, counter: nat) {
    && (forall i :: 0 <= i < |xs| ==> 1 <= id(xs[i]) <= counter)
    && Pairwise(xs, DistinctIds(id))
  }

  function DistinctEmails(a: User, b: User): bool { a.email != b.email }

  predicate EmailsUnique(users: seq<User>) {
    Pairwise(users, DistinctEmails)
  }

  /** The store invariant the id counters and the e-mail check maintain. */
  predicate WellFormed(st: Store) {
    && IdsFresh(st.users, UserId, st.counters.users)
    && IdsFresh(st.inviteCodes, InviteId, st.counters.inviteCodes)
    && IdsFresh(st.sessions, SessionId, st.counters.sessions)
    && IdsFresh(st.comments, CommentId, st.counters.comments)
    && EmailsUnique(st.users)
  }

  /** Two sessions occupy the same (trainer, date, start time) slot. */
  predicate SameSlot(a: Session, b: Session) {
    a.trainerId == b.trainerId && a.date == b.date && a.startTime == b.startTime
  }

  function DistinctSlots(a: Session, b: Session): bool { !SameSlot(a, b) }

  /** The booking invariant: a trainer is never double-booked. */
  predicate SlotUnique(ss: seq<Session>) {
    Pairwise(ss, DistinctSlots)
  }

  lemma EmptyStoreWellFormed()
    ensures WellFormed(EmptyStore) && SlotUnique(EmptyStore.sessions)
  {
  }

  // ----- how the invariants survive the store's edits -----

  /** Appending a record with the next counter value keeps ids fresh. */
  lemma IdsFreshAppend<T>(xs: seq<T>, id: T -> Id, counter: nat, x: T)
    requires IdsFresh(xs, id, counter)
    requires id(x) == counter + 1
    ensures IdsFresh(xs + [x], id, counter + 1)
  {
  }

  /** Removing one record keeps ids fresh. */
  lemma IdsFreshRemoveAt<T>(xs: seq<T>, id: T -> Id, counter: nat, k: nat)
    requires IdsFresh(xs, id, counter) && k < |xs|
    ensures IdsFresh(RemoveAt(xs, k), id, counter)
  {
    PairwiseRemoveAt(xs, DistinctIds(id), k);
  }

  /** Overwriting a record by one with the same id keeps ids fresh. */
  lemma IdsFreshUpdateAt<T>(xs: seq<T>, id: T -> Id, counter: nat, k: nat, x: T)
    requires IdsFresh(xs, id, counter) && k < |xs|
    requires id(x) == id(xs[k])
    ensures IdsFresh(xs[k := x], id, counter)
  {
    var r := xs[k := x];
    assert forall i :: 0 <= i < |r| ==> id(r[i]) == id(xs[i]);
  }

  /** Filtering keeps ids fresh. */
  lemma IdsFreshFilter<T(!new)>(xs: seq<T>, id: T -> Id, counter: nat, p: T -> bool)
    requires IdsFresh(xs, id, counter)
    ensures IdsFresh(Filter(xs, p), id, counter)
  {
    PairwiseFilter(xs, DistinctIds(id), p);
    var r := Filter(xs, p);
    forall i | 0 <= i < |r|
      ensures 1 <= id(r[i]) <= counter
    {
      assert r[i] in xs;
    }
  }
}
