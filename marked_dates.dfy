/**
 * The marked-dates dictionaries that screens/HomeScreen.tsx and
 * components/EmployeeWorkCalendarModal.tsx build from work records and that
 * components/SimpleCalendar.tsx reads: date string to `{ marked: true }`.
 */
module MarkedDates {
  import opened Wrappers
  import opened Types

  /** `{ marked: true }` */
  const Marked := Marking(Some(true))

  /** `String(record.date || '')` is non-empty and of length 10. */
  predicate Markable(date: string) {
    date != [] && |date| == 10
  }

  /**
   * The dictionary after visiting the records from first to last and setting
   * `marked[date] = { marked: true }` for every markable date.
   */
  function MarkedOf(rs: seq<WorkRecord>): map<string, Marking> {
    if rs == [] then map[]
    else
      var m := MarkedOf(rs[..|rs| - 1]);
      var date := rs[|rs| - 1].date;
      if Markable(date) then m[date := Marked] else m
  }

  /** `markedDates[dateStr]?.marked === true` */
  predicate IsMarked(markedDates: map<string, Marking>, date: string) {
    date in markedDates && markedDates[date].marked == Some(true)
  }

  /** Exactly the dates of length 10 that some record carries are keys. */
  lemma {:induction false} MarkedOfKeys(rs: seq<WorkRecord>)
    ensures forall d :: d in MarkedOf(rs) <==> Markable(d) && exists r :: r in rs && r.date == d
  {
    if rs != [] {
      var init, last := rs[..|rs| - 1], rs[|rs| - 1];
      MarkedOfKeys(init);
      assert rs == init + [last];
    }
  }

  /** Every key maps to `{ marked: true }`. */
  lemma {:induction false} MarkedOfValues(rs: seq<WorkRecord>)
    ensures forall d :: d in MarkedOf(rs) ==> MarkedOf(rs)[d] == Marked
  {
    if rs != [] {
      MarkedOfValues(rs[..|rs| - 1]);
    }
  }

  /** A calendar cell shows a mark exactly for a date of length 10 that some record has. */
  lemma MarkedIffRecorded(rs: seq<WorkRecord>, date: string)
    ensures IsMarked(MarkedOf(rs), date) <==> |date| == 10 && exists r :: r in rs && r.date == date
  {
    MarkedOfKeys(rs);
    MarkedOfValues(rs);
  }

  /** A record whose date is empty or of another length marks nothing. */
  lemma UnmarkableIgnored(rs: seq<WorkRecord>, r: WorkRecord)
    requires |r.date| != 10
    ensures MarkedOf(rs + [r]) == MarkedOf(rs)
  {
    assert (rs + [r])[..|rs + [r]| - 1] == rs;
  }

  /** One more record on an already marked date changes nothing. */
  lemma {:induction false} RepeatedDateIgnored(rs: seq<WorkRecord>, r: WorkRecord)
    requires r.date in MarkedOf(rs)
    ensures MarkedOf(rs + [r]) == MarkedOf(rs)
  {
    MarkedOfValues(rs);
    assert (rs + [r])[..|rs + [r]| - 1] == rs;
    assert MarkedOf(rs)[r.date := Marked] == MarkedOf(rs);
  }

  lemma MarkedOfSnoc(rs: seq<WorkRecord>, i: nat)
    requires i < |rs|
    ensures MarkedOf(rs[..i + 1]) == if Markable(rs[i].date) then MarkedOf(rs[..i])[rs[i].date := Marked] else MarkedOf(rs[..i])
  {
    assert rs[..i + 1][..i] == rs[..i];
  }

  /** The step of a loop that skips a date already in the dictionary. */
  lemma MarkedOfSnocOnce(rs: seq<WorkRecord>, i: nat)
    requires i < |rs|
    ensures var m, d := MarkedOf(rs[..i]), rs[i].date;
      MarkedOf(rs[..i + 1]) == if Markable(d) && d !in m then m[d := Marked] else m
  {
    MarkedOfSnoc(rs, i);
    var m, d := MarkedOf(rs[..i]), rs[i].date;
    if d in m {
      MarkedOfValues(rs[..i]);
      assert m[d := Marked] == m;
    }
  }
}
