/** The triage queue: which creation days are eligible on which day, and the daily
    sync that makes the board hold exactly the eligible issues. Days are counted
    from 1 January 1970, a Thursday, in the business-day time zone. */
module TriageWindow {

  type Day = int

  /** Monday is 1. */
  function Weekday(d: Day): (w: int)
    ensures 1 <= w <= 7
  {
    (d + 3) % 7 + 1
  }

  datatype Window = Window(first: Day, last: Day)

  /** On weekends the window is Friday's. */
  function EligibilityWindow(today: Day): Window {
    var w := Weekday(today);
    var day, weekday := if w >= 6 then today - (w - 5) else today, if w >= 6 then 5 else w;
    var monday := day - (weekday - 1);
    Window(monday - 4, day - if weekday <= 2 then 4 else 2)
  }

  predicate IsEligible(created: Day, today: Day) {
    EligibilityWindow(today).first <= created <= EligibilityWindow(today).last
  }

  /** The window is never empty, its ends never move back, and it leaves no gap
      from one day to the next. */
  lemma {:induction false} WindowAdvances(today: Day)
    ensures EligibilityWindow(today).first <= EligibilityWindow(today).last < today
    ensures EligibilityWindow(today).first <= EligibilityWindow(today + 1).first
    ensures EligibilityWindow(today).last <= EligibilityWindow(today + 1).last
    ensures EligibilityWindow(today + 1).first <= EligibilityWindow(today).last + 1
  {
    var w := Weekday(today);
    assert Weekday(today + 1) == if w == 7 then 1 else w + 1;
  }

  /** The week from a Thursday on: on that day the window is from the Thursday before
      to Tuesday, until Sunday to Wednesday; and then it begins with this Thursday and
      ends on Monday with it, on Tuesday with Friday, on Wednesday with Monday. */
  lemma {:induction false} WindowsOfWeek(n: int, today: Day)
    requires 7 * n <= today < 7 * n + 7
    ensures EligibilityWindow(today)
            == if today == 7 * n then Window(7 * n - 7, 7 * n - 2)
               else if today <= 7 * n + 3 then Window(7 * n - 7, 7 * n - 1)
               else if today == 7 * n + 4 then Window(7 * n, 7 * n)
               else if today == 7 * n + 5 then Window(7 * n, 7 * n + 1)
               else Window(7 * n, 7 * n + 4)
  {
    assert (today + 3) % 7 == if today < 7 * n + 4 then today - 7 * n + 3 else today - 7 * n - 4;
  }

  /** The first day an issue is eligible: two business days after the day it was
      created, if that was a business day. */
  function Joins(created: Day): Day {
    var w := Weekday(created);
    if w <= 3 then created + 2
    else if w <= 6 then created + 4
    else created + 3
  }

  /** The last day: the Sunday of its week, or for what was created after
      Wednesday, of the next. */
  function Leaves(created: Day): Day {
    var w := Weekday(created);
    if w <= 3 then created + 7 - w else created + 14 - w
  }

  /** An issue is eligible on an unbroken run of days. */
  lemma {:induction false} EligibleRun(created: Day, today: Day)
    ensures IsEligible(created, today) <==> Joins(created) <= today <= Leaves(created)
    ensures Joins(created) <= Leaves(created)
  {
    var c, t := (created + 3) / 7, (today + 3) / 7;
    assert created == 7 * c - 3 + Weekday(created) - 1;
    assert today == 7 * t - 3 + Weekday(today) - 1;
  }

  // ---------- the board ----------

  class Board {
    var items: set<nat>

    constructor ()
      ensures items == {}
    {
      items := {};
    }

    /** Make the board hold exactly the eligible issues; returns what was added
        and removed for that. */
    method Sync(eligible: set<nat>) returns (added: set<nat>, removed: set<nat>)
      modifies this
      ensures items == eligible
      ensures added == eligible - old(items) && removed == old(items) - eligible
    {
      ghost var before := items;
      var current, todo := items, eligible;
      added, removed := {}, {};
      while todo != {}
        invariant todo <= eligible && current == before && removed == {}
        invariant items == before + (eligible - todo) && added == (eligible - todo) - before
      {
        var id :| id in todo;
        if id !in current {
          items := items + {id};
          added := added + {id};
        }
        todo := todo - {id};
      }
      var rest := current;
      while rest != {}
        invariant rest <= before && items == (before + eligible) - ((before - rest) - eligible)
        invariant added == eligible - before && removed == (before - rest) - eligible
      {
        var id :| id in rest;
        if id !in eligible {
          items := items - {id};
          removed := removed + {id};
        }
        rest := rest - {id};
      }
    }
  }

  type Created = map<nat, Day>

  /** The issues that are open throughout, by the day they were created. */
  function Eligible(issues: Created, today: Day): set<nat> {
    set id | id in issues && IsEligible(issues[id], today)
  }

  /** The board after the daily syncs of `n` days from `day` on. */
  function BoardAfter(issues: Created, day: Day, n: nat): set<nat> {
    if n == 0 then {} else Eligible(issues, day + n - 1)
  }

  /** How often those syncs add the issue, and remove it. */
  function Added(issues: Created, day: Day, n: nat, id: nat): nat {
    if n == 0 then 0
    else
      Added(issues, day, n - 1, id) +
      if id in BoardAfter(issues, day, n) - BoardAfter(issues, day, n - 1) then 1 else 0
  }

  function Removed(issues: Created, day: Day, n: nat, id: nat): nat {
    if n == 0 then 0
    else
      Removed(issues, day, n - 1, id) +
      if id in BoardAfter(issues, day, n - 1) - BoardAfter(issues, day, n) then 1 else 0
  }

  /** Syncing every day, an issue that stays open joins the board exactly once, on
      its first eligible day or the first sync, and leaves it exactly once. */
  lemma {:induction false} JoinsAndLeavesOnce(issues: Created, day: Day, n: nat, id: nat)
    requires id in issues && day <= Leaves(issues[id])
    ensures Added(issues, day, n, id) == if day + n > Joins(issues[id]) && n > 0 then 1 else 0
    ensures Removed(issues, day, n, id) == if day + n - 1 > Leaves(issues[id]) then 1 else 0
  {
    if n > 0 {
      JoinsAndLeavesOnce(issues, day, n - 1, id);
      EligibleRun(issues[id], day + n - 1);
      EligibleRun(issues[id], day + n - 2);
    }
  }
}
