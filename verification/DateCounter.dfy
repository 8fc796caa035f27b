/** A counter of recent days: slot i holds the count of i days ago. Days are numbers, and
    the clock of each call is an input. */
module DateCounter {

  datatype State = State(counts: seq<int>, lastUpdateDate: int)

  datatype Event = Count(day: int, amount: int) | Look(day: int) | Clear

  function New(reserveDays: int, today: int): State {
    State(Zeros(if reserveDays <= 0 then 1 else reserveDays), today)
  }

  function Zeros(n: nat): (s: seq<int>)
    ensures |s| == n && forall i :: 0 <= i < n ==> s[i] == 0
  {
    seq(n, _ => 0)
  }

  /** A later day shifts the counts, an earlier one leaves them where they are. */
  function Rotated(s: State, now: int): (t: State)
    ensures |t.counts| == |s.counts| && t.lastUpdateDate == now
  {
    var days := now - s.lastUpdateDate;
    if days <= 0 then s.(lastUpdateDate := now)
    else if days >= |s.counts| then State(Zeros(|s.counts|), now)
    else State(Zeros(days) + s.counts[..|s.counts| - days], now)
  }

  function Step(s: State, e: Event): (t: State)
    requires |s.counts| > 0
    ensures |t.counts| == |s.counts|
  {
    match e
    case Count(day, amount) =>
      var r := Rotated(s, day);
      r.(counts := r.counts[0 := r.counts[0] + amount])
    case Look(day) => Rotated(s, day)
    case Clear => s.(counts := Zeros(|s.counts|))
  }

  function Final(s: State, es: seq<Event>): (t: State)
    requires |s.counts| > 0
    ensures |t.counts| == |s.counts|
  {
    if es == [] then s else Step(Final(s, es[..|es| - 1]), es[|es| - 1])
  }

  class StandardDateCounter {
    const reserveDays: nat
    var counts: array<int>
    var lastUpdateDate: int

    ghost predicate Valid()
      reads this
    {
      reserveDays > 0 && counts.Length == reserveDays
    }

    ghost function View(): State
      reads this, counts
    {
      State(counts[..], lastUpdateDate)
    }

    constructor (reserveDays: int, today: int)
      ensures Valid() && fresh(counts) && View() == New(reserveDays, today)
    {
      var n := if reserveDays <= 0 then 1 else reserveDays;
      this.reserveDays := n;
      counts := new int[n](_ => 0);
      lastUpdateDate := today;
      new;
      assert counts[..] == Zeros(n);
    }

    method Rotate(now: int)
      requires Valid()
      modifies this`counts, this`lastUpdateDate
      ensures Valid() && View() == Rotated(old(View()), now)
      ensures counts == old(counts) || fresh(counts)
    {
      var days := now - lastUpdateDate;
      lastUpdateDate := now;
      if days <= 0 {
        return;
      } else if days >= reserveDays {
        counts := new int[reserveDays](_ => 0);
        assert counts[..] == Zeros(reserveDays);
        return;
      }
      var newCounts := new int[reserveDays](_ => 0);
      for i := days to reserveDays
        modifies newCounts
        invariant forall j :: 0 <= j < reserveDays ==> newCounts[j] == if days <= j < i then counts[j - days] else 0
      {
        newCounts[i] := counts[i - days];
      }
      assert newCounts[..] == Zeros(days) + counts[..reserveDays - days];
      counts := newCounts;
    }

    method TodayCount(now: int) returns (n: int)
      requires Valid()
      modifies this`counts, this`lastUpdateDate
      ensures Valid() && View() == Step(old(View()), Look(now)) && n == View().counts[0]
      ensures counts == old(counts) || fresh(counts)
    {
      Rotate(now);
      return counts[0];
    }

    /** The counts of the last days, the most recent first; a longer wish is cut to the window. */
    method GetLastDaysCount(lastdays: nat, now: int) returns (res: seq<int>)
      requires Valid()
      modifies this`counts, this`lastUpdateDate
      ensures Valid() && View() == Step(old(View()), Look(now))
      ensures |res| == (if lastdays > reserveDays then reserveDays else lastdays) && res == View().counts[..|res|]
      ensures counts == old(counts) || fresh(counts)
    {
      var n := if lastdays > reserveDays then reserveDays else lastdays;
      Rotate(now);
      res := [];
      for i := 0 to n
        invariant res == counts[..i]
      {
        res := res + [counts[i]];
      }
    }

    method Inc(count: int, now: int)
      requires Valid()
      modifies this`counts, this`lastUpdateDate, counts
      ensures Valid() && View() == Step(old(View()), Count(now, count))
      ensures counts == old(counts) || fresh(counts)
    {
      Rotate(now);
      counts[0] := counts[0] + count;
    }

    method Dec(count: int, now: int)
      requires Valid()
      modifies this`counts, this`lastUpdateDate, counts
      ensures Valid() && View() == Step(old(View()), Count(now, -count))
      ensures counts == old(counts) || fresh(counts)
    {
      Rotate(now);
      counts[0] := counts[0] - count;
    }

    /** Clearing forgets all days but keeps the day of the last rotation. */
    method Clear()
      requires Valid()
      modifies counts
      ensures Valid() && View() == Step(old(View()), Event.Clear)
    {
      for i := 0 to reserveDays
        modifies counts
        invariant forall j :: 0 <= j < i ==> counts[j] == 0
      {
        counts[i] := 0;
      }
      assert counts[..] == Zeros(reserveDays);
    }
  }

  // ---- the ledger ----

  /** The net amount recorded on a day since the last clear. */
  function Ledger(es: seq<Event>, day: int): int {
    if es == [] then 0
    else
      var before := Ledger(es[..|es| - 1], day);
      match es[|es| - 1]
      case Count(d, amount) => if d == day then before + amount else before
      case Look(_) => before
      case Clear => 0
  }

  /** The day of the last call with a clock. */
  function Today(first: int, es: seq<Event>): int {
    if es == [] then first
    else
      match es[|es| - 1]
      case Count(d, _) => d
      case Look(d) => d
      case Clear => Today(first, es[..|es| - 1])
  }

  /** The clock never goes back a day. */
  ghost predicate InOrder(first: int, es: seq<Event>) {
    es != [] ==> InOrder(first, es[..|es| - 1]) && Today(first, es[..|es| - 1]) <= Today(first, es)
  }

  /** Nothing is recorded for days to come. */
  lemma {:induction false} FutureIsEmpty(first: int, es: seq<Event>, day: int)
    requires InOrder(first, es) && day > Today(first, es)
    ensures Ledger(es, day) == 0
  {
    if es != [] {
      FutureIsEmpty(first, es[..|es| - 1], day);
    }
  }

  /** While the clock never goes back: after any mix of calls and whatever gaps between
      days, slot i is the net amount recorded i days before the last call. */
  lemma {:induction false} WindowIsLedger(reserveDays: int, first: int, es: seq<Event>, i: nat)
    requires InOrder(first, es) && i < |New(reserveDays, first).counts|
    ensures
      var s := Final(New(reserveDays, first), es);
      s.lastUpdateDate == Today(first, es) && s.counts[i] == Ledger(es, s.lastUpdateDate - i)
    decreases |es|
  {
    if es != [] {
      var init, last := es[..|es| - 1], es[|es| - 1];
      var before := Final(New(reserveDays, first), init);
      WindowIsLedger(reserveDays, first, init, i);
      var now := Today(first, es);
      var days := now - before.lastUpdateDate;
      if days > i {
        FutureIsEmpty(first, init, now - i);
      } else {
        WindowIsLedger(reserveDays, first, init, i - days);
      }
    }
  }

  /** When the clock goes back, the slots keep the counts of the later days. */
  lemma ClockBackKeepsSlots(reserveDays: int, first: int, es: seq<Event>, now: int, i: nat)
    requires InOrder(first, es) && now < Today(first, es) && i < |New(reserveDays, first).counts|
    ensures
      var s := Final(New(reserveDays, first), es + [Look(now)]);
      s.lastUpdateDate == now && s.counts[i] == Ledger(es, Today(first, es) - i)
  {
    WindowIsLedger(reserveDays, first, es, i);
    assert (es + [Look(now)])[..|es|] == es;
  }

  /** Reading at any time after calls in order: slot i tells the ledger's truth about i days
      before if and only if the clock has not gone back, or both days happen to agree. */
  lemma ReadingIsTrueIff(reserveDays: int, first: int, es: seq<Event>, now: int, i: nat)
    requires InOrder(first, es) && i < |New(reserveDays, first).counts|
    ensures
      var (s, last) := (Final(New(reserveDays, first), es + [Look(now)]), Today(first, es));
      s.counts[i] == Ledger(es, now - i) <==> now >= last || Ledger(es, last - i) == Ledger(es, now - i)
  {
    var look := es + [Look(now)];
    assert look[..|es|] == es;
    if now >= Today(first, es) {
      WindowIsLedger(reserveDays, first, look, i);
    } else {
      ClockBackKeepsSlots(reserveDays, first, es, now, i);
    }
  }

  const CLOCK_BACK := [Count(5, 3), Look(4)]

  /** A clock that goes back moves the counts of the later day to the earlier one. */
  lemma ClockBackMisplaces()
    ensures Ledger(CLOCK_BACK, 4) == 0 && Final(New(7, 5), CLOCK_BACK).counts[0] == 3
  {
    var init := CLOCK_BACK[..1];
    assert init == [Count(5, 3)] && init[..0] == [];
    assert Final(New(7, 5), init) == Step(Final(New(7, 5), []), Count(5, 3));
    assert Final(New(7, 5), CLOCK_BACK) == Step(Final(New(7, 5), init), Look(4));
    assert Ledger(CLOCK_BACK, 4) == Ledger(init, 4) == Ledger([], 4);
  }
}
