/** The ledger's tables as they stand in the database: the triggers append to the log in place as
    rows change (alembic/versions/d4428913f75e), and the refresh works on them statement by
    statement (src/api/ledger_rollup.py). */
module RollupTables {
  import opened Options
  import opened Ledger
  import opened Rollup
  import opened LedgerTriggers
  import opened RollupRefresh
  import Extremes

  class Tables {
    var db: Db
    var log: map<Id, Hour>
    var nextId: Id
    var hourly: map<Key, Measures>
    var until: Option<Hour>
    var txn: Txn

    ghost function View(): State
      reads this
    {
      State(db, log, hourly, until, txn)
    }

    /** The identity column is ahead of every log row. */
    ghost predicate Valid()
      reads this
    {
      (forall id :: id in log ==> id < nextId) && Inv(View())
    }

    constructor (rows: Db)
      ensures Valid() && View() == State(rows, map[], map[], None, Idle)
    {
      db, log, nextId, hourly, until, txn := rows, map[], 0, map[], None, Idle;
      new;
      InitInv(View());
    }

    /** INSERT INTO ledger_dirty_hours SELECT DISTINCT ... */
    method LogHours(hours: set<Hour>)
      requires forall id :: id in log ==> id < nextId
      modifies `log, `nextId
      ensures forall id :: id in log ==> id < nextId
      ensures old(nextId) <= nextId && Appended(old(log), log, hours)
    {
      var rest := hours;
      while rest != {}
        invariant rest <= hours && old(nextId) <= nextId
        invariant forall id :: id in log ==> id < nextId
        invariant Appended(old(log), log, hours - rest)
        decreases |rest|
      {
        Extremes.EmptyOrNot(rest);
        var hour :| hour in rest;
        LogOneMore(old(log), log, hours - rest, nextId, hour);
        log, nextId := log[nextId := hour], nextId + 1;
        assert hours - (rest - {hour}) == (hours - rest) + {hour};
        rest := rest - {hour};
      }
      assert hours - rest == hours;
    }

    method AnswersTrigger(op: Operation, oldRows: map<Id, Answer>, newRows: map<Id, Answer>)
      requires forall id :: id in log ==> id < nextId
      modifies `log, `nextId
      ensures forall id :: id in log ==> id < nextId
      ensures Appended(old(log), log, DirtyAnswers(op, oldRows, newRows, db.answers))
    {
      ghost var hours: set<Hour> := {};
      if op in {Insert, Update} {
        LogHours(AnswerHours(newRows));
        hours := AnswerHours(newRows);
      }
      if op in {Update, Delete} {
        label Old:
        LogHours(AnswerHours(oldRows));
        AppendedTwice(old(log), old@Old(log), log, hours, AnswerHours(oldRows));
        hours := hours + AnswerHours(oldRows);
        label Siblings:
        LogHours(HoursNaming(db.answers, CallsNamed(oldRows)));
        AppendedTwice(old(log), old@Siblings(log), log, hours, HoursNaming(db.answers, CallsNamed(oldRows)));
        hours := hours + HoursNaming(db.answers, CallsNamed(oldRows));
      }
      if op == Update {
        label New:
        LogHours(HoursNaming(db.answers, CallsNamed(newRows)));
        AppendedTwice(old(log), old@New(log), log, hours, HoursNaming(db.answers, CallsNamed(newRows)));
        hours := hours + HoursNaming(db.answers, CallsNamed(newRows));
      }
      assert hours == DirtyAnswers(op, oldRows, newRows, db.answers);
    }

    method CallsTrigger(oldRows: map<Id, Call>)
      requires forall id :: id in log ==> id < nextId
      modifies `log, `nextId
      ensures forall id :: id in log ==> id < nextId
      ensures Appended(old(log), log, DirtyCalls(oldRows, db.answers))
    {
      LogHours(HoursNaming(db.answers, oldRows.Keys));
    }

    method FetchesTrigger(op: Operation, oldRows: map<Id, Fetch>, newRows: map<Id, Fetch>)
      requires forall id :: id in log ==> id < nextId
      modifies `log, `nextId
      ensures forall id :: id in log ==> id < nextId
      ensures Appended(old(log), log, DirtyFetches(op, oldRows, newRows))
    {
      ghost var hours: set<Hour> := {};
      if op in {Insert, Update} {
        LogHours(FetchHours(newRows));
        hours := FetchHours(newRows);
      }
      if op in {Update, Delete} {
        label Old:
        LogHours(FetchHours(oldRows));
        AppendedTwice(old(log), old@Old(log), log, hours, FetchHours(oldRows));
        hours := hours + FetchHours(oldRows);
      }
      assert hours == DirtyFetches(op, oldRows, newRows);
    }

    /** One statement and the trigger wired to it; no other writer overlaps it. */
    method Execute(w: Write)
      requires Valid() && Applies(db, w) && InOrder(db, w)
      modifies `db, `log, `nextId
      ensures Valid() && Next(old(View()), Commit(w, old(db)), View())
    {
      db := Apply(db, w);
      match w {
        case Answers(op, oldRows, newRows) => AnswersTrigger(op, oldRows, newRows);
        case Calls(op, oldRows, _) => if op != Insert { CallsTrigger(oldRows); }
        case Fetches(op, oldRows, newRows) => FetchesTrigger(op, oldRows, newRows);
      }
      NextKeepsInv(old(View()), Commit(w, old(db)), View());
    }

    // ---- the refresh, a statement at a time --------------------------------------------

    method ReadState(now: int, first: Option<Hour>)
      requires Valid() && txn.Idle? && IsFirstHour(db, first)
      modifies `txn
      ensures Valid() && Next(old(View()), Begin(now, first), View())
    {
      var from := if until.Some? then until.value else if first.Some? then first.value else HourOf(now);
      txn := Started(from, HourOf(now));
      NextKeepsInv(old(View()), Begin(now, first), View());
    }

    method NoteLog()
      requires Valid() && txn.Started?
      modifies `txn
      ensures Valid() && Next(old(View()), ReadLog, View())
    {
      txn := Noted(txn.from, txn.target, log);
      NextKeepsInv(old(View()), ReadLog, View());
    }

    method RestateHours() returns (count: nat)
      requires Valid() && txn.Noted?
      modifies `txn
      ensures Valid() && Next(old(View()), RestateDirty, View())
      ensures count == |DirtyBelow(old(txn).seen, old(txn).from)|
    {
      var dirty := DirtyBelow(txn.seen, txn.from);
      var staged := hourly;
      if dirty != {} {
        staged := DropHours(staged, dirty);
        staged := staged + Aggregate(db, HourRanges(Sorted(dirty)));
      } else {
        NothingToRestate(db, hourly);
      }
      txn := Restated(txn.from, txn.target, txn.seen, staged);
      count := |dirty|;
      NextKeepsInv(old(View()), RestateDirty, View());
    }

    method AdvanceTo(span: int) returns (target: Hour)
      requires Valid() && txn.Restated?
      modifies `txn
      ensures Valid() && Next(old(View()), Advance(span), View())
      ensures target == Min(old(txn).target, old(txn).from + span)
    {
      target := if txn.target < txn.from + span then txn.target else txn.from + span;
      var staged := txn.staged;
      if txn.from < target {
        staged := DropRange(staged, txn.from, target);
        staged := staged + Aggregate(db, WholeRange(txn.from, target));
      }
      txn := Advanced(if txn.from < target then target else txn.from, txn.seen, staged);
      NextKeepsInv(old(View()), Advance(span), View());
    }

    method CommitRefresh()
      requires Valid() && txn.Advanced?
      modifies `log, `hourly, `until, `txn
      ensures Valid() && Next(old(View()), Finish, View())
    {
      log, hourly, until, txn := log - txn.seen.Keys, txn.staged, Some(txn.upto), Idle;
      NextKeepsInv(old(View()), Finish, View());
    }

    method RollBack()
      requires Valid()
      modifies `txn
      ensures Valid() && Next(old(View()), Abort, View())
    {
      txn := Idle;
      NextKeepsInv(old(View()), Abort, View());
    }

    /** A refresh nobody writes beside: nothing stays dirty, and every hour up to the new
        watermark is stored exactly. A second refresher finds the lock taken. */
    method Refresh(now: int, first: Option<Hour>, span: int)
      returns (dirtyHours: nat, advancedTo: Option<Hour>, caughtUp: bool, skipped: bool)
      requires Valid() && IsFirstHour(db, first)
      modifies `log, `hourly, `until, `txn
      ensures Valid() && skipped == !old(txn).Idle?
      ensures skipped ==> View() == old(View()) && advancedTo == None && !caughtUp
      ensures !skipped ==> advancedTo.Some? && until == advancedTo && log == map[]
                           && Right(hourly, db, map[], advancedTo.value)
      ensures !skipped ==>
                var from := old(until).OrElse(first.OrElse(HourOf(now)));
                && advancedTo == Some(Max(from, Min(HourOf(now), from + span)))
                && caughtUp == (HourOf(now) <= from + span)
                && dirtyHours == |DirtyBelow(old(log), from)|
    {
      hide Aggregate, DropHours, DropRange, HourGroup, Listed;
      if !txn.Idle? { return 0, None, false, true; }
      ReadState(now, first);
      NoteLog();
      dirtyHours := RestateHours();
      var target := AdvanceTo(span);
      advancedTo := Some(txn.upto);
      caughtUp := target >= HourOf(now);
      CommitRefresh();
      skipped := false;
      assert log == map[];
    }
  }

  lemma LogOneMore(before: map<Id, Hour>, log: map<Id, Hour>, hours: set<Hour>, id: Id, hour: Hour)
    requires Appended(before, log, hours) && id !in log
    ensures Appended(before, log[id := hour], hours + {hour})
  {
    forall h | h in hours + {hour}
      ensures exists i :: i in log[id := hour] && i !in before && log[id := hour][i] == h
    {
      if h in hours && h != hour {
        var i :| i in log && i !in before && log[i] == h;
        assert log[id := hour][i] == h;
      } else {
        assert log[id := hour][id] == h;
      }
    }
  }

  lemma AppendedTwice(a: map<Id, Hour>, b: map<Id, Hour>, c: map<Id, Hour>, first: set<Hour>, second: set<Hour>)
    requires Appended(a, b, first) && Appended(b, c, second)
    ensures Appended(a, c, first + second)
  {
    forall h | h in first + second ensures exists id :: id in c && id !in a && c[id] == h {
      if h in first {
        var id :| id in b && id !in a && b[id] == h;
        assert c[id] == h;
      } else {
        var id :| id in c && id !in b && c[id] == h;
      }
    }
  }

  lemma NothingToRestate(db: Db, table: map<Key, Measures>)
    ensures DropHours(table, {}) + Aggregate(db, HourRanges(Sorted({}))) == table
  {
  }
}
