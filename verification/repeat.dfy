/** What the weekly booking (POST /api/pt-sessions/repeat) computes, stated
    against the store the request started from: the week dates whose slot was
    already booked are reported, in order, and every other week date gets one
    new session. Sessions booked by earlier weeks of the same request never
    block later weeks, because week dates are seven days apart. */
module Repeat {
  import opened Wrappers
  import opened Seqs
  import opened Model
  import opened Database
  import opened Server

  /** The dates of weeks `i ..< weeks`: `startDate + 7 * i`, `startDate + 7 * (i + 1)`, ... */
  function WeekDates(startDate: Day, i: int, weeks: int): (r: seq<Day>)
    ensures |r| == if i < weeks then weeks - i else 0
    ensures forall k :: 0 <= k < |r| ==> r[k] == startDate + 7 * (i + k)
    decreases weeks - i
  {
    if i >= weeks then [] else [startDate + 7 * i] + WeekDates(startDate, i + 1, weeks)
  }

  /** Filtering the week dates from week `i` on: week `i`'s date, if kept,
      ahead of the filtered later weeks. */
  lemma FilterWeekDates(startDate: Day, i: int, weeks: int, p: Day -> bool, b: bool)
    requires i < weeks && p(startDate + 7 * i) == b
    ensures Filter(WeekDates(startDate, i, weeks), p)
         == (if b then [startDate + 7 * i] else []) + Filter(WeekDates(startDate, i + 1, weeks), p)
  {
    var dates := WeekDates(startDate, i, weeks);
    assert dates[1..] == WeekDates(startDate, i + 1, weeks);
    FilterHead(dates, p, startDate + 7 * i, b);
  }

  /** The trainer already has a session at that date and start time. */
  predicate TakenAt(st: Store, trainerId: Id, date: Day, startTime: Time) {
    SlotBooked(st, trainerId, date, startTime)
  }

  function SlotTakenOn(st: Store, trainerId: Id, startTime: Time): Day -> bool {
    (d: Day) => TakenAt(st, trainerId, d, startTime)
  }

  function SlotFreeOn(st: Store, trainerId: Id, startTime: Time): Day -> bool {
    (d: Day) => !TakenAt(st, trainerId, d, startTime)
  }

  function DatesOf(ss: seq<Session>): (r: seq<Day>)
    ensures |r| == |ss|
    decreases |ss|
  {
    if |ss| == 0 then [] else [ss[0].date] + DatesOf(ss[1..])
  }

  /** A session as the weekly booking creates it for that trainer, member and
      time at `now`: confirmed by the trainer only, with no stamp. */
  predicate BookedAs(s: Session, trainerId: Id, memberId: Id, startTime: Time, now: Timestamp) {
    && s.trainerId == trainerId && s.memberId == memberId && s.startTime == startTime
    && s.trainerConfirmed && !s.memberConfirmed && s.confirmedAt.None? && s.createdAt == now
  }

  /** Appending a session whose slot is free keeps the booking invariant. */
  lemma SlotUniqueAppend(ss: seq<Session>, x: Session)
    requires SlotUnique(ss)
    requires forall s :: s in ss ==> !SameSlot(s, x)
    ensures SlotUnique(ss + [x])
  {
    var r := ss + [x];
    forall i, j | 0 <= i < j < |r|
      ensures DistinctSlots(r[i], r[j])
    {
      if j < |ss| {
        assert DistinctSlots(ss[i], ss[j]);
      } else {
        assert r[i] in ss;
      }
    }
  }

  /** The session the loop books for week date `date` when that slot is free. */
  function WeekData(trainerId: Id, memberId: Id, date: Day, startTime: Time): SessionData {
    SessionData(trainerId, memberId, date, startTime, Some(true), Some(false))
  }

  /** One turn of the loop: a taken week date is reported ahead of what the
      later weeks report; a free one is booked ahead of what they book. */
  lemma RepeatFromStep(st: Store, trainerId: Id, memberId: Id, startDate: Day,
                       startTime: Time, i: int, weeks: int, now: Timestamp)
    requires i < weeks
    ensures var date := startDate + 7 * i;
      var whole := RepeatFrom(st, trainerId, memberId, startDate, startTime, i, weeks, now);
      if TakenAt(st, trainerId, date, startTime) then
        var r := RepeatFrom(st, trainerId, memberId, startDate, startTime, i + 1, weeks, now);
        whole == (r.0, r.1.(failed := [date] + r.1.failed))
      else
        var made := CreateSession(st, WeekData(trainerId, memberId, date, startTime), now);
        var r := RepeatFrom(made.0, trainerId, memberId, startDate, startTime, i + 1, weeks, now);
        whole == (r.0, r.1.(created := [made.1] + r.1.created))
  {
  }

  /** The loop only appends the sessions it reports as created. */
  lemma {:induction false} RepeatFromAppends(st: Store, trainerId: Id, memberId: Id, startDate: Day,
                                             startTime: Time, i: int, weeks: int, now: Timestamp)
    ensures var r := RepeatFrom(st, trainerId, memberId, startDate, startTime, i, weeks, now);
      r.0 == st.(sessions := st.sessions + r.1.created,
                 counters := st.counters.(sessions := st.counters.sessions + |r.1.created|))
    decreases weeks - i
  {
    if i < weeks {
      var date := startDate + 7 * i;
      RepeatFromStep(st, trainerId, memberId, startDate, startTime, i, weeks, now);
      if TakenAt(st, trainerId, date, startTime) {
        RepeatFromAppends(st, trainerId, memberId, startDate, startTime, i + 1, weeks, now);
      } else {
        var made := CreateSession(st, WeekData(trainerId, memberId, date, startTime), now);
        RepeatFromAppends(made.0, trainerId, memberId, startDate, startTime, i + 1, weeks, now);
        var r := RepeatFrom(made.0, trainerId, memberId, startDate, startTime, i + 1, weeks, now);
        assert made.0.sessions + r.1.created == st.sessions + ([made.1] + r.1.created);
      }
    }
  }

  /** Every session of `created` is booked for that trainer, member and time,
      created at `now`, under consecutive ids starting at `firstId`. */
  predicate BookedFrom(created: seq<Session>, trainerId: Id, memberId: Id, startTime: Time, now: Timestamp, firstId: int) {
    forall k :: 0 <= k < |created| ==>
      BookedAs(created[k], trainerId, memberId, startTime, now) && created[k].id == firstId + k
  }

  lemma BookedFromCons(s: Session, rest: seq<Session>, trainerId: Id, memberId: Id, startTime: Time, now: Timestamp,
                       firstId: int)
    requires BookedAs(s, trainerId, memberId, startTime, now) && s.id == firstId
    requires BookedFrom(rest, trainerId, memberId, startTime, now, firstId + 1)
    ensures BookedFrom([s] + rest, trainerId, memberId, startTime, now, firstId)
  {
    var created := [s] + rest;
    forall k | 0 <= k < |created|
      ensures BookedAs(created[k], trainerId, memberId, startTime, now) && created[k].id == firstId + k
    {
      if k > 0 {
        assert created[k] == rest[k - 1];
      }
    }
  }

  /** Every session the loop creates is booked for that trainer, member and
      time, and they take consecutive ids after the store's counter. */
  lemma {:induction false} RepeatFromBooks(st: Store, trainerId: Id, memberId: Id, startDate: Day,
                                           startTime: Time, i: int, weeks: int, now: Timestamp)
    ensures BookedFrom(RepeatFrom(st, trainerId, memberId, startDate, startTime, i, weeks, now).1.created,
                       trainerId, memberId, startTime, now, st.counters.sessions + 1)
    decreases weeks - i
  {
    if i < weeks {
      var date := startDate + 7 * i;
      RepeatFromStep(st, trainerId, memberId, startDate, startTime, i, weeks, now);
      if TakenAt(st, trainerId, date, startTime) {
        RepeatFromBooks(st, trainerId, memberId, startDate, startTime, i + 1, weeks, now);
      } else {
        var made := CreateSession(st, WeekData(trainerId, memberId, date, startTime), now);
        RepeatFromBooks(made.0, trainerId, memberId, startDate, startTime, i + 1, weeks, now);
        var r := RepeatFrom(made.0, trainerId, memberId, startDate, startTime, i + 1, weeks, now);
        BookedFromCons(made.1, r.1.created, trainerId, memberId, startTime, now, st.counters.sessions + 1);
      }
    }
  }

  /** The loop never books a slot twice. */
  lemma {:induction false} RepeatFromKeepsSlotsUnique(st: Store, trainerId: Id, memberId: Id, startDate: Day,
                                                      startTime: Time, i: int, weeks: int, now: Timestamp)
    requires SlotUnique(st.sessions)
    ensures SlotUnique(RepeatFrom(st, trainerId, memberId, startDate, startTime, i, weeks, now).0.sessions)
    decreases weeks - i
  {
    if i < weeks {
      var date := startDate + 7 * i;
      RepeatFromStep(st, trainerId, memberId, startDate, startTime, i, weeks, now);
      if TakenAt(st, trainerId, date, startTime) {
        RepeatFromKeepsSlotsUnique(st, trainerId, memberId, startDate, startTime, i + 1, weeks, now);
      } else {
        var made := CreateSession(st, WeekData(trainerId, memberId, date, startTime), now);
        SlotUniqueAppend(st.sessions, made.1);
        RepeatFromKeepsSlotsUnique(made.0, trainerId, memberId, startDate, startTime, i + 1, weeks, now);
      }
    }
  }

  /** The loop keeps session ids within the counter and distinct. */
  lemma {:induction false} RepeatFromKeepsIdsFresh(st: Store, trainerId: Id, memberId: Id, startDate: Day,
                                                   startTime: Time, i: int, weeks: int, now: Timestamp)
    requires IdsFresh(st.sessions, SessionId, st.counters.sessions)
    ensures var r := RepeatFrom(st, trainerId, memberId, startDate, startTime, i, weeks, now);
      IdsFresh(r.0.sessions, SessionId, r.0.counters.sessions)
    decreases weeks - i
  {
    if i < weeks {
      var date := startDate + 7 * i;
      RepeatFromStep(st, trainerId, memberId, startDate, startTime, i, weeks, now);
      if TakenAt(st, trainerId, date, startTime) {
        RepeatFromKeepsIdsFresh(st, trainerId, memberId, startDate, startTime, i + 1, weeks, now);
      } else {
        var made := CreateSession(st, WeekData(trainerId, memberId, date, startTime), now);
        IdsFreshAppend(st.sessions, SessionId, st.counters.sessions, made.1);
        RepeatFromKeepsIdsFresh(made.0, trainerId, memberId, startDate, startTime, i + 1, weeks, now);
      }
    }
  }

  /** Every session in `extra` is dated before `since`. */
  predicate DatedBefore(extra: seq<Session>, since: Day) {
    forall k :: 0 <= k < |extra| ==> extra[k].date < since
  }

  /** Sessions dated before `d` do not change whether the slot at `d` is taken. */
  lemma TakenDespiteEarlier(st0: Store, st: Store, extra: seq<Session>, trainerId: Id, d: Day, startTime: Time)
    requires st.sessions == st0.sessions + extra
    requires DatedBefore(extra, d)
    ensures TakenAt(st, trainerId, d, startTime) == TakenAt(st0, trainerId, d, startTime)
  {
    if TakenAt(st, trainerId, d, startTime) {
      var s :| s in st.sessions && s.trainerId == trainerId && s.date == d && s.startTime == startTime;
      assert s in st0.sessions;
    }
  }

  /** The store the loop moves on to after week date `date`. */
  function NextStore(st: Store, trainerId: Id, memberId: Id, date: Day, startTime: Time, now: Timestamp): Store {
    if TakenAt(st, trainerId, date, startTime) then st
    else CreateSession(st, WeekData(trainerId, memberId, date, startTime), now).0
  }

  /** The sessions beyond `st0`'s after week date `date`. */
  function NextExtra(st: Store, extra: seq<Session>, trainerId: Id, memberId: Id, date: Day, startTime: Time,
                     now: Timestamp): seq<Session> {
    if TakenAt(st, trainerId, date, startTime) then extra
    else extra + [CreateSession(st, WeekData(trainerId, memberId, date, startTime), now).1]
  }

  /** After week `i`, the store is still `st0` plus sessions dated before
      week `i + 1`. */
  lemma NextStoreExtends(st0: Store, st: Store, extra: seq<Session>, trainerId: Id, memberId: Id,
                         startDate: Day, startTime: Time, i: int, now: Timestamp)
    requires st.sessions == st0.sessions + extra
    requires DatedBefore(extra, startDate + 7 * i)
    ensures NextStore(st, trainerId, memberId, startDate + 7 * i, startTime, now).sessions
         == st0.sessions + NextExtra(st, extra, trainerId, memberId, startDate + 7 * i, startTime, now)
    ensures DatedBefore(NextExtra(st, extra, trainerId, memberId, startDate + 7 * i, startTime, now),
                        startDate + 7 * (i + 1))
  {
    var date := startDate + 7 * i;
    if !TakenAt(st, trainerId, date, startTime) {
      var made := CreateSession(st, WeekData(trainerId, memberId, date, startTime), now);
      assert made.0.sessions == st0.sessions + (extra + [made.1]);
    }
  }

  /** One week of the report: what the later weeks report, with this week's
      date in front when its slot is taken in `st0`. */
  lemma ReportsTakenStep(st0: Store, st: Store, extra: seq<Session>, trainerId: Id, memberId: Id,
                         startDate: Day, startTime: Time, i: int, weeks: int, now: Timestamp)
    requires i < weeks
    requires st.sessions == st0.sessions + extra
    requires DatedBefore(extra, startDate + 7 * i)
    requires RepeatFrom(NextStore(st, trainerId, memberId, startDate + 7 * i, startTime, now),
                        trainerId, memberId, startDate, startTime, i + 1, weeks, now).1.failed
          == Filter(WeekDates(startDate, i + 1, weeks), SlotTakenOn(st0, trainerId, startTime))
    ensures RepeatFrom(st, trainerId, memberId, startDate, startTime, i, weeks, now).1.failed
         == Filter(WeekDates(startDate, i, weeks), SlotTakenOn(st0, trainerId, startTime))
  {
    var date := startDate + 7 * i;
    TakenDespiteEarlier(st0, st, extra, trainerId, date, startTime);
    FilterWeekDates(startDate, i, weeks, SlotTakenOn(st0, trainerId, startTime),
                    TakenAt(st, trainerId, date, startTime));
    RepeatFromStep(st, trainerId, memberId, startDate, startTime, i, weeks, now);
  }

  /** One week of the bookings: what the later weeks book, with this week's
      date in front when its slot is free in `st0`. */
  lemma BooksFreeStep(st0: Store, st: Store, extra: seq<Session>, trainerId: Id, memberId: Id,
                      startDate: Day, startTime: Time, i: int, weeks: int, now: Timestamp)
    requires i < weeks
    requires st.sessions == st0.sessions + extra
    requires DatedBefore(extra, startDate + 7 * i)
    requires DatesOf(RepeatFrom(NextStore(st, trainerId, memberId, startDate + 7 * i, startTime, now),
                                trainerId, memberId, startDate, startTime, i + 1, weeks, now).1.created)
          == Filter(WeekDates(startDate, i + 1, weeks), SlotFreeOn(st0, trainerId, startTime))
    ensures DatesOf(RepeatFrom(st, trainerId, memberId, startDate, startTime, i, weeks, now).1.created)
         == Filter(WeekDates(startDate, i, weeks), SlotFreeOn(st0, trainerId, startTime))
  {
    var date := startDate + 7 * i;
    var taken := TakenAt(st, trainerId, date, startTime);
    TakenDespiteEarlier(st0, st, extra, trainerId, date, startTime);
    FilterWeekDates(startDate, i, weeks, SlotFreeOn(st0, trainerId, startTime), !taken);
    RepeatFromStep(st, trainerId, memberId, startDate, startTime, i, weeks, now);
    if !taken {
      var made := CreateSession(st, WeekData(trainerId, memberId, date, startTime), now);
      var r := RepeatFrom(made.0, trainerId, memberId, startDate, startTime, i + 1, weeks, now);
      assert DatesOf([made.1] + r.1.created) == [date] + DatesOf(r.1.created);
    }
  }

  /** The loop from week `i` on, run on `st0` plus sessions dated before week
      `i`, reports exactly the week dates taken in `st0`, in week order. */
  lemma {:induction false} RepeatFromReportsTaken(st0: Store, st: Store, extra: seq<Session>, trainerId: Id,
                                                  memberId: Id, startDate: Day, startTime: Time, i: int,
                                                  weeks: int, now: Timestamp)
    requires st.sessions == st0.sessions + extra
    requires DatedBefore(extra, startDate + 7 * i)
    ensures RepeatFrom(st, trainerId, memberId, startDate, startTime, i, weeks, now).1.failed
         == Filter(WeekDates(startDate, i, weeks), SlotTakenOn(st0, trainerId, startTime))
    decreases weeks - i
  {
    if i < weeks {
      var date := startDate + 7 * i;
      NextStoreExtends(st0, st, extra, trainerId, memberId, startDate, startTime, i, now);
      RepeatFromReportsTaken(st0, NextStore(st, trainerId, memberId, date, startTime, now),
                             NextExtra(st, extra, trainerId, memberId, date, startTime, now),
                             trainerId, memberId, startDate, startTime, i + 1, weeks, now);
      ReportsTakenStep(st0, st, extra, trainerId, memberId, startDate, startTime, i, weeks, now);
    }
  }

  /** Under the same conditions, the loop books exactly the week dates free in
      `st0`, in week order. */
  lemma {:induction false} RepeatFromBooksFree(st0: Store, st: Store, extra: seq<Session>, trainerId: Id,
                                               memberId: Id, startDate: Day, startTime: Time, i: int,
                                               weeks: int, now: Timestamp)
    requires st.sessions == st0.sessions + extra
    requires DatedBefore(extra, startDate + 7 * i)
    ensures DatesOf(RepeatFrom(st, trainerId, memberId, startDate, startTime, i, weeks, now).1.created)
         == Filter(WeekDates(startDate, i, weeks), SlotFreeOn(st0, trainerId, startTime))
    decreases weeks - i, 1
  {
    if i < weeks {
      BooksFreeFromWeek(st0, st, extra, trainerId, memberId, startDate, startTime, i, weeks, now);
    }
  }

  /** The inductive step of `RepeatFromBooksFree`, for a week still to book. */
  lemma {:induction false} BooksFreeFromWeek(st0: Store, st: Store, extra: seq<Session>, trainerId: Id,
                                             memberId: Id, startDate: Day, startTime: Time, i: int,
                                             weeks: int, now: Timestamp)
    requires i < weeks
    requires st.sessions == st0.sessions + extra
    requires DatedBefore(extra, startDate + 7 * i)
    ensures DatesOf(RepeatFrom(st, trainerId, memberId, startDate, startTime, i, weeks, now).1.created)
         == Filter(WeekDates(startDate, i, weeks), SlotFreeOn(st0, trainerId, startTime))
    decreases weeks - i, 0
  {
    var date := startDate + 7 * i;
    var next := NextStore(st, trainerId, memberId, date, startTime, now);
    var nextExtra := NextExtra(st, extra, trainerId, memberId, date, startTime, now);
    NextStoreExtends(st0, st, extra, trainerId, memberId, startDate, startTime, i, now);
    RepeatFromBooksFree(st0, next, nextExtra, trainerId, memberId, startDate, startTime, i + 1, weeks, now);
    BooksFreeStep(st0, st, extra, trainerId, memberId, startDate, startTime, i, weeks, now);
  }

  /** The weekly booking reports exactly the week dates whose slot was taken
      before the request, in week order, and books one session on each of the
      other week dates; together they account for every requested week (none
      when the count is zero or negative). The new sessions are appended in
      week order under consecutive ids, and the booking invariant and the id
      discipline are kept. */
  lemma CreateRepeatSessionsSpec(st: Store, trainerId: Id, memberId: Id, startDate: Day,
                                 startTime: Option<Time>, weeks: Option<int>, now: Timestamp)
    ensures var r := CreateRepeatSessions(st, trainerId, memberId, startDate, startTime, weeks, now);
      var t, w := startTime.GetOr(DefaultStartTime), weeks.GetOr(4);
      var res := r.response.value;
      && res.failed == Filter(WeekDates(startDate, 0, w), SlotTakenOn(st, trainerId, t))
      && DatesOf(res.created) == Filter(WeekDates(startDate, 0, w), SlotFreeOn(st, trainerId, t))
      && |res.created| + |res.failed| == (if w > 0 then w else 0)
      && r.store.sessions == st.sessions + res.created
      && r.store == st.(sessions := r.store.sessions,
                        counters := st.counters.(sessions := st.counters.sessions + |res.created|))
      && (forall k :: 0 <= k < |res.created| ==>
            BookedAs(res.created[k], trainerId, memberId, t, now) && res.created[k].id == st.counters.sessions + 1 + k)
      && (SlotUnique(st.sessions) ==> SlotUnique(r.store.sessions))
      && (WellFormed(st) ==> WellFormed(r.store))
  {
    var t, w := startTime.GetOr(DefaultStartTime), weeks.GetOr(4);
    RepeatFromAppends(st, trainerId, memberId, startDate, t, 0, w, now);
    RepeatFromBooks(st, trainerId, memberId, startDate, t, 0, w, now);
    assert st.sessions == st.sessions + [];
    RepeatFromReportsTaken(st, st, [], trainerId, memberId, startDate, t, 0, w, now);
    RepeatFromBooksFree(st, st, [], trainerId, memberId, startDate, t, 0, w, now);
    if SlotUnique(st.sessions) {
      RepeatFromKeepsSlotsUnique(st, trainerId, memberId, startDate, t, 0, w, now);
    }
    if WellFormed(st) {
      RepeatFromKeepsIdsFresh(st, trainerId, memberId, startDate, t, 0, w, now);
    }
    var dates := WeekDates(startDate, 0, w);
    var p := SlotTakenOn(st, trainerId, t);
    FilterSplit(dates, p, SlotFreeOn(st, trainerId, t));
  }

  /** The store of the scenario below: one session, of trainer 1 at 09:00 on
      the second week date. */
  predicate SecondWeekBooked(st: Store, startDate: Day) {
    st.sessions == [Session(1, 1, 2, startDate + 7, DefaultStartTime, true, false, None, 0)]
  }

  lemma OnlySecondWeekTaken(st: Store, startDate: Day, d: Day)
    requires SecondWeekBooked(st, startDate)
    ensures SlotTakenOn(st, 1, DefaultStartTime)(d) <==> d == startDate + 7
  {
    assert st.sessions[0] in st.sessions;
  }

  lemma SecondWeekTaken(st: Store, startDate: Day)
    requires SecondWeekBooked(st, startDate)
    ensures Filter(WeekDates(startDate, 0, 4), SlotTakenOn(st, 1, DefaultStartTime)) == [startDate + 7]
  {
    var p := SlotTakenOn(st, 1, DefaultStartTime);
    OnlySecondWeekTaken(st, startDate, startDate);
    OnlySecondWeekTaken(st, startDate, startDate + 7);
    OnlySecondWeekTaken(st, startDate, startDate + 14);
    OnlySecondWeekTaken(st, startDate, startDate + 21);
    FilterWeekDates(startDate, 3, 4, p, false);
    FilterWeekDates(startDate, 2, 4, p, false);
    FilterWeekDates(startDate, 1, 4, p, true);
    FilterWeekDates(startDate, 0, 4, p, false);
  }

  lemma OtherWeeksFree(st: Store, startDate: Day)
    requires SecondWeekBooked(st, startDate)
    ensures Filter(WeekDates(startDate, 0, 4), SlotFreeOn(st, 1, DefaultStartTime))
         == [startDate, startDate + 14, startDate + 21]
  {
    var q := SlotFreeOn(st, 1, DefaultStartTime);
    OnlySecondWeekTaken(st, startDate, startDate);
    OnlySecondWeekTaken(st, startDate, startDate + 7);
    OnlySecondWeekTaken(st, startDate, startDate + 14);
    OnlySecondWeekTaken(st, startDate, startDate + 21);
    FilterWeekDates(startDate, 3, 4, q, true);
    FilterWeekDates(startDate, 2, 4, q, true);
    FilterWeekDates(startDate, 1, 4, q, false);
    FilterWeekDates(startDate, 0, 4, q, true);
    ConsThree(Filter(WeekDates(startDate, 0, 4), q), Filter(WeekDates(startDate, 1, 4), q),
              Filter(WeekDates(startDate, 2, 4), q), Filter(WeekDates(startDate, 3, 4), q),
              Filter(WeekDates(startDate, 4, 4), q), startDate, startDate + 14, startDate + 21);
  }

  lemma ConsThree(f0: seq<Day>, f1: seq<Day>, f2: seq<Day>, f3: seq<Day>, f4: seq<Day>, x: Day, y: Day, z: Day)
    requires f4 == [] && f3 == [z] + f4 && f2 == [y] + f3 && f1 == [] + f2 && f0 == [x] + f1
    ensures f0 == [x, y, z]
  {
  }

  /** The scenario of a four-week request whose second week is already booked:
      three sessions are made, on weeks one, three and four, and the second
      week's date is the only one reported. */
  lemma RepeatSkipsBookedWeek(st: Store, startDate: Day, now: Timestamp)
    requires SecondWeekBooked(st, startDate)
    ensures var r := CreateRepeatSessions(st, 1, 3, startDate, None, Some(4), now);
      && r.response.value.failed == [startDate + 7]
      && DatesOf(r.response.value.created) == [startDate, startDate + 14, startDate + 21]
  {
    SecondWeekTaken(st, startDate);
    OtherWeeksFree(st, startDate);
    assert st.sessions == st.sessions + [];
    RepeatFromReportsTaken(st, st, [], 1, 3, startDate, DefaultStartTime, 0, 4, now);
    RepeatFromBooksFree(st, st, [], 1, 3, startDate, DefaultStartTime, 0, 4, now);
  }
}
