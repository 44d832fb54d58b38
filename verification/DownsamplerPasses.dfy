/** What one aggregation pass takes away: rows past the age of their resolution, and no others. */
module DownsamplerPasses {
  import opened Sequences
  import opened Wrappers
  import opened DownsamplerModel
  import opened DownsamplerProofs

  /** How old a row has to be before a pass moves it on: five minutes, thirty minutes, six hours. */
  function MoveAge(res: Resolution): int
    requires res != OneHour
  {
    match res
    case Raw => 300_000
    case OneMinute => 1_800_000
    case FiveMinutes => 21_600_000
  }

  predicate IsDue(row: Row, now: int) {
    row.res != OneHour && row.at < now - MoveAge(row.res)
  }

  ghost predicate StillThere(w: World, w': World, id: RowId) {
    id in w.rows && id in w'.rows && w'.rows[id] == w.rows[id]
  }

  lemma CallKeepsOthers(w: World, source: Resolution, cutoff: int, db: Answers, id: RowId)
    requires Enabled(w, Downsampled(source, cutoff, db)) && id in w.rows
    requires w.rows[id].res != source || w.rows[id].at >= cutoff
    ensures StillThere(w, Step(w, Downsampled(source, cutoff, db)), id)
  {
    assert id !in db.batch;
  }

  /** A pass leaves every row alone that has not reached the age of its resolution, and hourly rows for good. */
  lemma YoungRowsStay(w: World, now: int, first: Answers, second: Answers, third: Answers, id: RowId)
    requires PassEnabled(w, now, first, second, third) && id in w.rows && !IsDue(w.rows[id], now)
    ensures StillThere(w, AfterPass(w, now, first, second, third), id)
  {
    var w1 := Step(w, Downsampled(Raw, now - 300_000, first));
    var w2 := Step(w1, Downsampled(OneMinute, now - 1_800_000, second));
    CallKeepsOthers(w, Raw, now - 300_000, first, id);
    CallKeepsOthers(w1, OneMinute, now - 1_800_000, second, id);
    CallKeepsOthers(w2, FiveMinutes, now - 21_600_000, third, id);
  }

  /** The query returned everything there was, and every insert and delete went through. */
  ghost predicate Works(rows: map<RowId, Row>, source: Resolution, cutoff: int, db: Answers) {
    && db.saveFails == {} && db.deleteFails == {} && |db.batch| < 500
    && (db.batch == [] ==> forall id <- rows :: rows[id].res != source || rows[id].at >= cutoff)
  }

  lemma WorkingCallTakes(w: World, source: Resolution, cutoff: int, db: Answers, id: RowId)
    requires Enabled(w, Downsampled(source, cutoff, db)) && Works(w.rows, source, cutoff, db)
    requires id in w.rows && w.rows[id].res == source && w.rows[id].at < cutoff
    ensures id !in Step(w, Downsampled(source, cutoff, db)).rows
  {
    assert id in db.batch;
  }

  /** A row that is gone does not come back within the pass. */
  lemma CallBringsNothingBack(w: World, source: Resolution, cutoff: int, db: Answers, id: RowId)
    requires Enabled(w, Downsampled(source, cutoff, db)) && id in w.origins && id !in w.rows
    ensures var w' := Step(w, Downsampled(source, cutoff, db)); id in w'.origins && id !in w'.rows
  {
  }

  /** The three calls of a pass with their cutoffs, each on what the one before left. */
  ghost predicate PassWorks(w: World, now: int, first: Answers, second: Answers, third: Answers)
    requires PassEnabled(w, now, first, second, third)
  {
    var w1 := Step(w, Downsampled(Raw, now - 300_000, first));
    var w2 := Step(w1, Downsampled(OneMinute, now - 1_800_000, second));
    && Works(w.rows, Raw, now - 300_000, first) && Works(w1.rows, OneMinute, now - 1_800_000, second)
    && Works(w2.rows, FiveMinutes, now - 21_600_000, third)
  }

  /** A pass in which nothing fails and no batch is full takes away exactly the rows that have reached the age of
      their resolution. */
  lemma PassTakesWhatIsDue(w: World, now: int, first: Answers, second: Answers, third: Answers, id: RowId)
    requires Sound(w) && PassEnabled(w, now, first, second, third) && PassWorks(w, now, first, second, third)
    requires id in w.rows
    ensures id !in AfterPass(w, now, first, second, third).rows <==> IsDue(w.rows[id], now)
  {
    if !IsDue(w.rows[id], now) {
      YoungRowsStay(w, now, first, second, third, id);
    } else {
      DueRowGoes(w, now, first, second, third, id);
    }
  }

  lemma DueRowGoes(w: World, now: int, first: Answers, second: Answers, third: Answers, id: RowId)
    requires Sound(w) && PassEnabled(w, now, first, second, third) && PassWorks(w, now, first, second, third)
    requires id in w.rows && IsDue(w.rows[id], now)
    ensures id !in AfterPass(w, now, first, second, third).rows
  {
    hide Sound, Works, Step, Enabled;
    var w1 := Step(w, Downsampled(Raw, now - 300_000, first));
    var w2 := Step(w1, Downsampled(OneMinute, now - 1_800_000, second));
    KnownStaysKnown(w, Raw, now - 300_000, first, id);
    if w.rows[id].res == Raw {
      WorkingCallTakes(w, Raw, now - 300_000, first, id);
    } else {
      CallKeepsOthers(w, Raw, now - 300_000, first, id);
    }
    KnownStaysKnown(w1, OneMinute, now - 1_800_000, second, id);
    if w.rows[id].res == Raw {
      CallBringsNothingBack(w1, OneMinute, now - 1_800_000, second, id);
    } else if w.rows[id].res == OneMinute {
      WorkingCallTakes(w1, OneMinute, now - 1_800_000, second, id);
    } else {
      CallKeepsOthers(w1, OneMinute, now - 1_800_000, second, id);
    }
    if w.rows[id].res == FiveMinutes {
      WorkingCallTakes(w2, FiveMinutes, now - 21_600_000, third, id);
    } else {
      CallBringsNothingBack(w2, FiveMinutes, now - 21_600_000, third, id);
    }
  }

  lemma KnownStaysKnown(w: World, source: Resolution, cutoff: int, db: Answers, id: RowId)
    requires Enabled(w, Downsampled(source, cutoff, db)) && (id in w.origins || (Sound(w) && id in w.rows))
    ensures id in w.origins && id in Step(w, Downsampled(source, cutoff, db)).origins
  {
    if Sound(w) && id in w.rows {
      assert Descends(w, id);
    }
  }
}
