/**
 * The receptionist's department table and its availability check: which
 * departments exist, where a call to each is transferred, and the half-open
 * window of local hours in which each one takes calls.
 */
module Directory {
  import opened Wrappers
  import opened Text

  /** The hour of the local wall clock, as `datetime.now().hour` reports it. */
  type Hour = h: int | 0 <= h < 24

  /** One department: its transfer number, its description and its `(open, close)` hours. */
  datatype Department = Department(number: string, description: string, openHour: nat, closeHour: nat)

  datatype Entry = Entry(key: string, info: Department)

  /** A department table in the order its entries were written. */
  type Table = seq<Entry>

  /** The receptionist's own table. */
  const Departments: Table := [
    Entry("sales", Department("+15551111111", "New purchases and pricing", 9, 18)),
    Entry("support", Department("+15552222222", "Technical assistance", 8, 20)),
    Entry("billing", Department("+15553333333", "Payments and invoices", 9, 17)),
    Entry("returns", Department("+15554444444", "Returns and exchanges", 10, 16))
  ]

  /** The table's keys in table order (`DEPARTMENTS.keys()`). */
  function Keys(t: Table): (r: seq<string>)
    ensures |r| == |t|
    ensures forall i :: 0 <= i < |t| ==> r[i] == t[i].key
  {
    if t == [] then [] else [t[0].key] + Keys(t[1..])
  }

  /** A table as a dictionary literal produces it: no key appears twice. */
  predicate UniqueKeys(t: Table)
  {
    forall i, j :: 0 <= i < j < |t| ==> t[i].key != t[j].key
  }

  /** Every key is written in small letters only, so a lower-cased name can reach it. */
  predicate LowerCaseKeys(t: Table)
  {
    forall i :: 0 <= i < |t| ==> t[i].key != [] && AllLower(t[i].key)
  }

  /** `DEPARTMENTS.get(key)`: the department filed under exactly `key`, if any. */
  function Lookup(t: Table, key: string): (r: Option<Department>)
    ensures r.None? <==> key !in Keys(t)
    ensures r.Some? ==> Entry(key, r.value) in t
  {
    if t == [] then None
    else if t[0].key == key then Some(t[0].info)
    else Lookup(t[1..], key)
  }

  /** With unique keys, looking up an entry's key finds that entry's department. */
  lemma {:induction false} LookupFindsEntry(t: Table, i: nat)
    requires UniqueKeys(t)
    requires i < |t|
    ensures Lookup(t, t[i].key) == Some(t[i].info)
  {
    if i > 0 {
      assert t[0].key != t[i].key;
      assert t[1..][i - 1] == t[i];
      LookupFindsEntry(t[1..], i - 1);
    }
  }

  /** `DEPARTMENTS[key]`: the direct index, defined only for a known key. */
  function Get(t: Table, key: string): (d: Department)
    requires key in Keys(t)
    ensures Lookup(t, key) == Some(d)
  {
    Lookup(t, key).value
  }

  /** The two outcomes of the availability check: open, or closed with a reason. */
  datatype Availability = Open | Closed(reason: string)

  const UnknownDepartment: string := "Unknown department"

  /** A department's window as the reply states it, "<open>:00 to <close>:00". */
  function HoursText(d: Department): string
  {
    NatToString(d.openHour) + ":00 to " + NatToString(d.closeHour) + ":00"
  }

  /** The reason given for a known department outside its hours. */
  function ClosedMessage(key: string, d: Department): string
  {
    Title(key) + " is open " + HoursText(d)
  }

  /** Whether `hour` lies in the half-open window `[openHour, closeHour)`. */
  predicate WithinHours(d: Department, hour: Hour)
  {
    d.openHour <= hour < d.closeHour
  }

  /** `_is_department_open`, with the clock's hour passed in. */
  function IsOpen(t: Table, key: string, hour: Hour): (r: Availability)
    ensures r.Open? ==> key in Keys(t)
  {
    match Lookup(t, key)
    case None => Closed(UnknownDepartment)
    case Some(d) => if WithinHours(d, hour) then Open else Closed(ClosedMessage(key, d))
  }

  /** A key that is not in the table is reported unknown, whatever the hour. */
  lemma UnknownKeyIsClosed(t: Table, key: string, hour: Hour)
    requires key !in Keys(t)
    ensures IsOpen(t, key, hour) == Closed(UnknownDepartment)
  {
  }

  /**
   * A known department is open exactly inside its own window; outside it the
   * reason names that department and that department's hours.
   */
  lemma OpenExactlyWithinHours(t: Table, key: string, hour: Hour)
    requires key in Keys(t)
    ensures IsOpen(t, key, hour).Open? <==> WithinHours(Get(t, key), hour)
    ensures IsOpen(t, key, hour).Closed? ==>
      IsOpen(t, key, hour).reason == ClosedMessage(key, Get(t, key))
  {
  }

  /**
   * The opening hour and the last hour before closing are inside the window;
   * the closing hour (when it is a clock hour at all) and the hour before
   * opening are not.
   */
  lemma OpeningAndClosingHours(t: Table, key: string)
    requires key in Keys(t)
    requires Get(t, key).openHour < Get(t, key).closeHour <= 24
    ensures IsOpen(t, key, Get(t, key).openHour) == Open
    ensures IsOpen(t, key, Get(t, key).closeHour - 1) == Open
    ensures Get(t, key).closeHour < 24 ==> IsOpen(t, key, Get(t, key).closeHour).Closed?
    ensures Get(t, key).openHour > 0 ==> IsOpen(t, key, Get(t, key).openHour - 1).Closed?
  {
  }

  /** A window whose opening hour is not before its closing hour is never open. */
  lemma EmptyWindowNeverOpen(t: Table, key: string, hour: Hour)
    requires key in Keys(t)
    requires Get(t, key).openHour >= Get(t, key).closeHour
    ensures IsOpen(t, key, hour).Closed?
  {
  }

  /**
   * The closed message can be read back: it starts with the department's
   * title and carries both hours in decimal, so two departments with
   * different windows never share a message.
   */
  lemma ClosedMessageDeterminesHours(key: string, d1: Department, d2: Department)
    requires ClosedMessage(key, d1) == ClosedMessage(key, d2)
    ensures d1.openHour == d2.openHour && d1.closeHour == d2.closeHour
  {
    var p := Title(key) + " is open ";
    var m1, m2 := ClosedMessage(key, d1), ClosedMessage(key, d2);
    // Strip the common prefix; both open hours are then digit runs ending at ':'.
    var s1 := m1[|p|..];
    var s2 := m2[|p|..];
    var o1, o2 := NatToString(d1.openHour), NatToString(d2.openHour);
    var c1, c2 := NatToString(d1.closeHour), NatToString(d2.closeHour);
    var r1 := ":00 to " + c1 + ":00";
    var r2 := ":00 to " + c2 + ":00";
    assert s1 == o1 + r1;
    assert s2 == o2 + r2;
    DigitRunEqual(o1, r1, o2, r2);
    NatToStringInjective(d1.openHour, d2.openHour);
    assert c1 == r1[7..|r1| - 3];
    assert c2 == r2[7..|r2| - 3];
    NatToStringInjective(d1.closeHour, d2.closeHour);
  }

  /** Two digit runs each followed by a non-digit cannot differ in a common string. */
  lemma {:induction false} DigitRunEqual(a: string, x: string, b: string, y: string)
    requires AllDigits(a) && AllDigits(b)
    requires x != [] && !IsDigit(x[0]) && y != [] && !IsDigit(y[0])
    requires a + x == b + y
    ensures a == b && x == y
  {
    assert (a + x)[0] == (b + y)[0];
    assert (a + x)[0] == if a == [] then x[0] else a[0];
    assert (b + y)[0] == if b == [] then y[0] else b[0];
    if a == [] && b == [] {
      assert a + x == x && b + y == y;
    } else if a == [] || b == [] {
      assert false;
    } else {
      assert a[1..] + x == (a + x)[1..];
      assert b[1..] + y == (b + y)[1..];
      DigitRunEqual(a[1..], x, b[1..], y);
      assert a == [a[0]] + a[1..];
      assert b == [b[0]] + b[1..];
    }
  }

  /** The receptionist's table has unique, lower-case keys. */
  lemma DepartmentsWellFormed()
    ensures UniqueKeys(Departments)
    ensures LowerCaseKeys(Departments)
  {
  }

  /**
   * Whatever casing the caller uses for a department name, lower-casing it
   * reaches that department's entry.
   */
  lemma AnyCasingFindsDepartment(t: Table, name: string, i: nat)
    requires UniqueKeys(t) && LowerCaseKeys(t)
    requires i < |t|
    requires EqualIgnoringCase(name, t[i].key)
    ensures Lookup(t, Lower(name)) == Some(t[i].info)
  {
    EqualIgnoringCaseLower(name, t[i].key);
    LowerOfLowerWord(t[i].key);
    LookupFindsEntry(t, i);
  }
}
