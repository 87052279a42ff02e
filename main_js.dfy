/** The shared page script: `formatDate` over the fields a JavaScript
    `Date` reports, and the dropdown rule of `initDropdowns`, where a
    toggle click closes every other shown menu and a click elsewhere closes
    the menus of the dropdowns it falls outside of. */
module MainJs {
  import opened Text

  /** What `getDate()`, `getMonth()`, `getFullYear()`, `getHours()` and
      `getMinutes()` return for a valid date. */
  datatype DateFields = DateFields(day: nat, monthIndex: nat, year: int, hours: nat, minutes: nat)

  predicate ValidFields(d: DateFields)
  {
    1 <= d.day <= 31 && d.monthIndex < 12 && d.hours < 24 && d.minutes < 60
  }

  /** `String(n).padStart(2, '0')`. */
  function Pad2(n: nat): string
  {
    PadStart2(NatToString(n))
  }

  /** `formatDate(date, withTime)`: `dd/mm/yyyy`, the month being
      `getMonth() + 1` and the year left unpadded, then ` HH:MM` when the
      time is asked for. */
  function FormatDate(d: DateFields, withTime: bool): string
  {
    if withTime then DatePart(d) + TimePart(d) else DatePart(d)
  }

  function DatePart(d: DateFields): string
  {
    Pad2(d.day) + "/" + Pad2(d.monthIndex + 1) + "/" + IntToString(d.year)
  }

  function TimePart(d: DateFields): string
  {
    " " + Pad2(d.hours) + ":" + Pad2(d.minutes)
  }

  /** A two-digit field reads back as its number. */
  lemma Pad2ReadBack(n: nat)
    requires n < 100
    ensures |Pad2(n)| == 2 && AllDigits(Pad2(n)) && DigitsValue(Pad2(n)) == n
  {
    PaddedNatRoundTrip(n);
  }

  /** The date part: day at 0..2, month (1 to 12) at 3..5, the year's own
      decimal text after the second slash. */
  lemma {:induction false} DateReadBack(d: DateFields)
    requires ValidFields(d)
    ensures var s := FormatDate(d, false);
      && |s| == 6 + |IntToString(d.year)|
      && AllDigits(s[0..2]) && DigitsValue(s[0..2]) == d.day && s[2] == '/'
      && AllDigits(s[3..5]) && DigitsValue(s[3..5]) == d.monthIndex + 1 && s[5] == '/'
      && s[6..] == IntToString(d.year)
  {
    var s := DatePart(d);
    var dd, mm, yy := Pad2(d.day), Pad2(d.monthIndex + 1), IntToString(d.year);
    Pad2ReadBack(d.day);
    Pad2ReadBack(d.monthIndex + 1);
    assert s == dd + "/" + mm + "/" + yy;
    assert s[0..2] == dd && s[3..5] == mm && s[6..] == yy;
  }

  /** With the time, the date part is unchanged and ` HH:MM` follows it. */
  lemma {:induction false} TimeReadBack(d: DateFields)
    requires ValidFields(d)
    ensures var n := |FormatDate(d, false)|;
      && |FormatDate(d, true)| == n + 6
      && FormatDate(d, true)[..n] == FormatDate(d, false)
      && var t := FormatDate(d, true)[n..];
      && t[0] == ' ' && AllDigits(t[1..3]) && DigitsValue(t[1..3]) == d.hours
      && t[3] == ':' && AllDigits(t[4..]) && DigitsValue(t[4..]) == d.minutes
  {
    var date := DatePart(d);
    var t := TimePart(d);
    assert FormatDate(d, true) == date + t;
    assert (date + t)[..|date|] == date && (date + t)[|date|..] == t;
    TimePartReadBack(d);
  }

  lemma TimePartReadBack(d: DateFields)
    requires ValidFields(d)
    ensures var t := TimePart(d);
      && |t| == 6 && t[0] == ' ' && AllDigits(t[1..3]) && DigitsValue(t[1..3]) == d.hours
      && t[3] == ':' && AllDigits(t[4..]) && DigitsValue(t[4..]) == d.minutes
  {
    Pad2ReadBack(d.hours);
    Pad2ReadBack(d.minutes);
    TwoFieldsAt(' ', Pad2(d.hours), ':', Pad2(d.minutes));
  }

  /** Two two-character fields, each behind a one-character separator. */
  lemma TwoFieldsAt(c: char, a: string, e: char, b: string)
    requires |a| == 2 && |b| == 2
    ensures var t := [c] + a + [e] + b;
      t[0] == c && t[1..3] == a && t[3] == e && t[4..] == b
  {
    var t := [c] + a + [e] + b;
    assert t[1..3] == a by { assert forall i :: 0 <= i < 2 ==> t[1 + i] == a[i]; }
    assert t[4..] == b by { assert forall i :: 0 <= i < 2 ==> t[4 + i] == b[i]; }
  }

  /** Different dates print differently: the text determines the fields
      it shows. */
  lemma FormatDateInjective(d: DateFields, e: DateFields)
    requires ValidFields(d) && ValidFields(e)
    requires FormatDate(d, true) == FormatDate(e, true)
    ensures d == e
  {
    DateReadBack(d);
    DateReadBack(e);
    TimeReadBack(d);
    TimeReadBack(e);
    var s := FormatDate(d, true);
    assert |FormatDate(d, false)| == |FormatDate(e, false)|;
    assert FormatDate(d, false) == FormatDate(e, false) == s[..|FormatDate(d, false)|];
    assert IntToString(d.year) == IntToString(e.year);
    IntToStringInjective(d.year, e.year);
  }

  /** At most one menu carries the `show` class. */
  predicate AtMostOneShown(s: seq<bool>)
  {
    forall i, j :: 0 <= i < |s| && 0 <= j < |s| && s[i] && s[j] ==> i == j
  }

  /** The `.dropdown-menu` elements in document order, and whether each is
      shown. Each dropdown holds one menu, at the same index. */
  class Dropdowns {
    const shown: array<bool>

    constructor (initial: seq<bool>)
      ensures shown[..] == initial && fresh(shown)
    {
      shown := new bool[|initial|](i requires 0 <= i < |initial| => initial[i]);
    }

    /** The menus shown. */
    function Shown(): seq<bool>
      reads shown
    {
      shown[..]
    }

    /** The click handler of the toggle of dropdown `k`: every other shown
        menu is closed, then menu `k` is toggled. */
    method ToggleClick(k: nat)
      requires k < shown.Length
      modifies shown
      ensures forall j :: 0 <= j < shown.Length && j != k ==> !shown[j]
      ensures shown[k] == !old(shown[k])
      ensures AtMostOneShown(Shown())
    {
      for j := 0 to shown.Length
        invariant forall i :: 0 <= i < j && i != k ==> !shown[i]
        invariant forall i :: j <= i < shown.Length ==> shown[i] == old(shown[i])
        invariant shown[k] == old(shown[k])
      {
        if shown[j] && j != k {
          shown[j] := false;
        }
      }
      shown[k] := !shown[k];
    }

    /** The document click handler: `inside[j]` is whether dropdown `j`
        contains the click's target; the menu of every other dropdown is
        closed, and those that contain it are left as they are. */
    method DocumentClick(inside: seq<bool>)
      requires |inside| == shown.Length
      modifies shown
      ensures forall j :: 0 <= j < shown.Length ==> shown[j] == (old(shown[j]) && inside[j])
    {
      for j := 0 to shown.Length
        invariant forall i :: 0 <= i < j ==> shown[i] == (old(shown[i]) && inside[i])
        invariant forall i :: j <= i < shown.Length ==> shown[i] == old(shown[i])
      {
        if !inside[j] && shown[j] {
          shown[j] := false;
        }
      }
    }
  }

  /** Closing menus never breaks the open-set rule: a document click after
      a toggle click still leaves at most one menu shown. */
  lemma {:induction false} ClosingKeepsAtMostOne(before: seq<bool>, after: seq<bool>)
    requires |before| == |after| && AtMostOneShown(before)
    requires forall j :: 0 <= j < |after| && after[j] ==> before[j]
    ensures AtMostOneShown(after)
  {
    forall i, j | 0 <= i < |after| && 0 <= j < |after| && after[i] && after[j]
      ensures i == j
    {
      assert before[i] && before[j];
    }
  }

  /** A toggle click followed by a click elsewhere. */
  method ToggleThenClickOutside(menus: Dropdowns, k: nat, inside: seq<bool>)
    requires k < menus.shown.Length && |inside| == menus.shown.Length
    modifies menus.shown
    ensures AtMostOneShown(menus.Shown())
    ensures menus.shown[k] == (!old(menus.shown[k]) && inside[k])
  {
    menus.ToggleClick(k);
    var middle := menus.Shown();
    menus.DocumentClick(inside);
    ClosingKeepsAtMostOne(middle, menus.Shown());
  }
}
