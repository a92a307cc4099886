/** The two pure helpers of the calendar component
    (client/src/components/Calendar.tsx): the sessions shown on one day, and
    the colour that day gets. A session's date and the day's 'yyyy-MM-dd' form
    are compared as strings there; with dates as day ordinals that comparison
    is equality of ordinals. */
module Calendar {
  import opened Wrappers
  import opened Seqs
  import opened Model

  function OnDay(date: Day): Session -> bool { (s: Session) => s.date == date }

  /** `getSessionsForDate`: the sessions of that day, in list order. */
  function SessionsForDate(sessions: seq<Session>, date: Day): (r: seq<Session>)
    ensures forall s :: s in r <==> s in sessions && s.date == date
    ensures forall i :: 0 <= i < |r| ==> r[i].date == date
    ensures |r| == Count(sessions, OnDay(date))
    ensures forall s :: multiset(r)[s] == if s.date == date then multiset(sessions)[s] else 0
  {
    FilterCount(sessions, OnDay(date));
    FilterMultiset(sessions, OnDay(date));
    Filter(sessions, OnDay(date))
  }

  /** Picking one day twice changes nothing; picking another day from it leaves nothing. */
  lemma {:induction false} SessionsForDateTwice(sessions: seq<Session>, date: Day, other: Day)
    ensures SessionsForDate(SessionsForDate(sessions, date), date) == SessionsForDate(sessions, date)
    ensures other != date ==> SessionsForDate(SessionsForDate(sessions, date), other) == []
  {
    var day := SessionsForDate(sessions, date);
    FilterAll(day, OnDay(date));
    if other != date {
      FilterNone(day, OnDay(other));
    }
  }

  /** How a day is coloured: every session confirmed by both sides, or some still waiting. */
  datatype Status = Confirmed | Pending

  predicate FullyConfirmed(s: Session) { s.trainerConfirmed && s.memberConfirmed }
  predicate Waiting(s: Session) { !s.trainerConfirmed || !s.memberConfirmed }

  /** `getSessionStatus`: no colour for an empty day; 'confirmed' when every
      session is confirmed by both sides; otherwise 'pending'. The final
      `return null` of the helper is never reached on a non-empty list. */
  function SessionStatus(daySessions: seq<Session>): (r: Option<Status>)
    ensures r.None? <==> |daySessions| == 0
    ensures r == Some(Confirmed) <==> |daySessions| > 0 && forall s :: s in daySessions ==> FullyConfirmed(s)
    ensures r == Some(Pending) <==> exists s :: s in daySessions && Waiting(s)
  {
    if |daySessions| == 0 then None
    else if Every(daySessions, FullyConfirmed) then Some(Confirmed)
    else if Any(daySessions, Waiting) then Some(Pending)
    else None
  }

  /** The colour of two lists shown together, from the colour of each. */
  function Join(a: Option<Status>, b: Option<Status>): Option<Status> {
    match (a, b)
    case (None, _) => b
    case (_, None) => a
    case (Some(Confirmed), Some(Confirmed)) => Some(Confirmed)
    case _ => Some(Pending)
  }

  /** The colour is determined session by session: a single session gives its
      own state, and a list split in two gives the join of the parts. */
  lemma SessionStatusSplits(a: seq<Session>, b: seq<Session>, s: Session)
    ensures SessionStatus([s]) == Some(if FullyConfirmed(s) then Confirmed else Pending)
    ensures SessionStatus(a + b) == Join(SessionStatus(a), SessionStatus(b))
  {
    assert forall x :: x in a + b <==> x in a || x in b;
    if SessionStatus(a).Some? && SessionStatus(b).Some? && SessionStatus(a) != SessionStatus(b) {
      if SessionStatus(a) == Some(Pending) {
        var w :| w in a && Waiting(w);
        assert w in a + b;
      } else {
        var w :| w in b && Waiting(w);
        assert w in a + b;
      }
    }
  }

  /** A day shows no colour exactly when it has no session. */
  lemma DayWithoutColour(sessions: seq<Session>, date: Day)
    ensures SessionStatus(SessionsForDate(sessions, date)).None? <==> forall s :: s in sessions ==> s.date != date
  {
    var day := SessionsForDate(sessions, date);
    if |day| > 0 {
      assert day[0] in day;
    }
  }
}
