/**
 * The browser-side logic: the compare selection on the search results page,
 * which holds at most two item ids in insertion order and shows the compare
 * section when it holds exactly two, and `formatDate`, which turns the time
 * since a date into a relative phrase.
 */
module Client {
  import opened Wrappers
  import opened Text
  import opened Seqs
  import opened Numeric

  // ---------------------------------------------------------------------------
  // Compare selection
  // ---------------------------------------------------------------------------

  /** The most ids the selection holds. */
  const MaxSelected := 2

  /** The selection without `id`: a Set's `delete`, which keeps the order of the rest. */
  function Without(s: seq<int>, id: int): seq<int> {
    Filter(s, (x: int) => x != id)
  }

  /**
   * The selection after `toggleCompare(id)`: a selected id is removed; a new id
   * is appended, unless two are already selected, in which case nothing changes.
   */
  function Toggled(s: seq<int>, id: int): seq<int> {
    if id in s then Without(s, id)
    else if |s| >= MaxSelected then s
    else s + [id]
  }

  /** Whether `toggleCompare(id)` refuses the id (and unchecks its box). */
  predicate Refused(s: seq<int>, id: int) {
    id !in s && |s| >= MaxSelected
  }

  lemma {:induction false} WithoutMembers(s: seq<int>, id: int, x: int)
    ensures x in Without(s, id) <==> x in s && x != id
    ensures |Without(s, id)| <= |s|
  {
    FilterMembers(s, (y: int) => y != id, x);
  }

  /** Removing an id that occurs in a list without repetitions shortens it by one and keeps it without repetitions. */
  lemma {:induction false} WithoutDistinct(s: seq<int>, id: int)
    requires Distinct(s)
    ensures Distinct(Without(s, id))
    ensures id in s ==> |Without(s, id)| == |s| - 1
    ensures id !in s ==> Without(s, id) == s
  {
    if s != [] {
      var init := s[..|s| - 1];
      var last := s[|s| - 1];
      assert s == init + [last];
      assert Distinct(init);
      WithoutDistinct(init, id);
      if last != id {
        WithoutMembers(init, id, last);
        assert last !in init;
        assert Without(s, id) == Without(init, id) + [last];
      } else {
        assert id !in init;
      }
    }
  }

  /**
   * The selection never holds more than two ids nor any id twice; a toggle is
   * refused exactly when a third id is offered, and then changes nothing;
   * otherwise the id's membership flips and every other id stays as it was.
   */
  lemma ToggledSelection(s: seq<int>, id: int)
    requires |s| <= MaxSelected && Distinct(s)
    ensures |Toggled(s, id)| <= MaxSelected && Distinct(Toggled(s, id))
    ensures Refused(s, id) ==> Toggled(s, id) == s
    ensures !Refused(s, id) ==> (id in Toggled(s, id) <==> id !in s)
    ensures forall x :: x != id ==> (x in Toggled(s, id) <==> x in s)
  {
    if id in s {
      WithoutDistinct(s, id);
      WithoutMembers(s, id, id);
      forall x | x != id
        ensures x in Without(s, id) <==> x in s
      {
        WithoutMembers(s, id, x);
      }
    } else if |s| < MaxSelected {
      assert Distinct(s + [id]) by {
        forall i, j | 0 <= i < j < |s + [id]|
          ensures (s + [id])[i] != (s + [id])[j]
        {
          if j == |s| {
            assert s[i] in s;
          }
        }
      }
    }
  }

  /** Selecting an id and then deselecting it restores the selection. */
  lemma SelectThenDeselect(s: seq<int>, id: int)
    requires Distinct(s) && !Refused(s, id) && id !in s
    ensures Toggled(Toggled(s, id), id) == s
  {
    assert Toggled(s, id) == s + [id];
    assert Distinct(s + [id]);
    WithoutDistinct(s + [id], id);
    FilterAll(s, (x: int) => x != id);
    assert (s + [id])[..|s + [id]| - 1] == s;
  }

  /** Deselecting and reselecting the first of two ids moves it behind the other: the comparison swaps sides. */
  lemma DeselectThenSelectReorders(a: int, b: int)
    requires a != b
    ensures Toggled(Toggled([a, b], a), a) == [b, a]
  {
    var w := Without([a, b], a);
    assert Distinct([a, b]);
    WithoutDistinct([a, b], a);
    WithoutMembers([a, b], a, b);
    WithoutMembers([a, b], a, a);
    assert |w| == 1 && b in w;
    assert w == [b];
  }

  /** The selection set of the results page and the visibility of its compare section. */
  class CompareSelection {
    var selected: seq<int>
    var sectionVisible: bool

    ghost predicate Valid()
      reads this
    {
      |selected| <= MaxSelected && Distinct(selected)
    }

    constructor()
      ensures selected == [] && !sectionVisible && Valid()
    {
      selected := [];
      sectionVisible := false;
    }

    /**
     * `toggleCompare`: a refused id leaves the selection and the section as
     * they were and reports that its box is to be unchecked; otherwise the
     * selection is toggled and the section is shown exactly when two ids are
     * selected.
     */
    method ToggleCompare(id: int) returns (uncheck: bool)
      requires Valid()
      modifies this
      ensures Valid()
      ensures uncheck == Refused(old(selected), id)
      ensures selected == Toggled(old(selected), id)
      ensures uncheck ==> sectionVisible == old(sectionVisible)
      ensures !uncheck ==> (sectionVisible <==> |selected| == MaxSelected)
    {
      ToggledSelection(selected, id);
      if id in selected {
        selected := Without(selected, id);
      } else {
        if |selected| >= MaxSelected {
          return true;
        }
        selected := selected + [id];
      }
      sectionVisible := |selected| == MaxSelected;
      uncheck := false;
    }

    /** `compareSelected`: the pair to compare, in selection order, only when exactly two ids are selected. */
    method CompareSelected() returns (target: Option<(int, int)>)
      ensures target.Some? <==> |selected| == MaxSelected
      ensures target.Some? ==> target.value.0 == selected[0] && target.value.1 == selected[1]
      ensures target.Some? && Valid() ==> target.value.0 != target.value.1
    {
      if |selected| == MaxSelected {
        target := Some((selected[0], selected[1]));
      } else {
        target := None;
      }
    }
  }

  // ---------------------------------------------------------------------------
  // formatDate
  // ---------------------------------------------------------------------------

  /** Milliseconds per minute, hour and day. */
  const MinuteMs := 60_000
  const HourMs := 3_600_000
  const DayMs := 86_400_000

  /** A time unit of the relative phrase. */
  datatype Unit = Minutes | Hours | Days

  /** Which phrase `formatDate` picks. */
  datatype RelativeTime = LocaleDate | Ago(count: nat, unit: Unit) | JustNow

  /** Flooring twice is flooring once by the product of the divisors. */
  lemma NestedFloor(x: int, a: int, b: int)
    requires a > 0 && b > 0
    ensures x / a / b == x / (a * b)
  {
    var q := x / a;
    var r1 := x - q * a;
    var s := q / b;
    var r2 := q - s * b;
    FloorDivision(x, a);
    FloorDivision(q, b);
    assert 0 <= r1 < a && 0 <= r2 < b;
    MulLe(r2, b - 1, a);
    assert x == s * (a * b) + (r2 * a + r1) by {
      assert q * a == (s * b + r2) * a == s * (a * b) + r2 * a;
    }
    assert 0 <= r2 * a + r1 < a * b by {
      assert (b - 1) * a == a * b - a;
    }
    DivisionUnique(x, a * b, s);
  }

  /**
   * The if-ladder over the chained floors of the millisecond difference:
   * seconds, minutes, hours and days. More than seven days gives the date,
   * one to seven days, hours or minutes give a count, and anything under a
   * minute, a date in the future included, gives "Just now".
   */
  function Bucket(diff: int): (t: RelativeTime)
    ensures diff >= 8 * DayMs ==> t == LocaleDate
    ensures DayMs <= diff < 8 * DayMs ==> t == Ago(diff / DayMs, Days) && 1 <= t.count <= 7
    ensures HourMs <= diff < DayMs ==> t == Ago(diff / HourMs, Hours) && 1 <= t.count <= 23
    ensures MinuteMs <= diff < HourMs ==> t == Ago(diff / MinuteMs, Minutes) && 1 <= t.count <= 59
    ensures diff < MinuteMs ==> t == JustNow
  {
    var seconds := diff / 1000;
    var minutes := seconds / 60;
    var hours := minutes / 60;
    var days := hours / 24;
    NestedFloor(diff, 1000, 60);
    NestedFloor(diff, MinuteMs, 60);
    NestedFloor(diff, HourMs, 24);
    FloorDivision(diff, DayMs);
    FloorDivision(diff, HourMs);
    FloorDivision(diff, MinuteMs);
    if days > 7 then LocaleDate
    else if days > 0 then Ago(days, Days)
    else if hours > 0 then Ago(hours, Hours)
    else if minutes > 0 then Ago(minutes, Minutes)
    else JustNow
  }

  function UnitName(u: Unit): string {
    match u
    case Minutes => "minute"
    case Hours => "hour"
    case Days => "day"
  }

  /** The phrase; `localeDate` stands for the browser's `toLocaleDateString`. */
  function Render(t: RelativeTime, localeDate: string): string {
    match t
    case LocaleDate => localeDate
    case Ago(n, u) => if n == 1 then "1 " + UnitName(u) + " ago" else NatToString(n) + " " + UnitName(u) + "s ago"
    case JustNow => "Just now"
  }

  /** `formatDate` over the milliseconds between the date and now. */
  function FormatDate(diff: int, localeDate: string): string {
    Render(Bucket(diff), localeDate)
  }

  /** The singular form is used exactly for a count of one: every other count ends in "s ago". */
  lemma SingularExactlyForOne(n: nat, u: Unit, localeDate: string)
    ensures n == 1 ==> Render(Ago(n, u), localeDate) == "1 " + UnitName(u) + " ago"
    ensures n != 1 ==> var r := Render(Ago(n, u), localeDate); |r| >= 5 && r[|r| - 5..] == "s ago"
  {
  }

  /** Examples at the bucket boundaries. */
  lemma FormatDateBoundaries(localeDate: string)
    ensures FormatDate(59_999, localeDate) == "Just now"
    ensures FormatDate(-5_000, localeDate) == "Just now"
    ensures FormatDate(60_000, localeDate) == "1 minute ago"
    ensures FormatDate(DayMs, localeDate) == "1 day ago"
    ensures FormatDate(8 * DayMs - 1, localeDate) == "7 days ago"
    ensures FormatDate(8 * DayMs, localeDate) == localeDate
  {
    assert NatToString(7) == "7";
  }
}
