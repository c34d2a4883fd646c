/** The roster worksheet: one row per student, holding a name, a phone, a
    status and a payment-date cell, and the scan that turns consecutive
    filled rows into student records (`read_students`). */
module Sheet {
  import opened Wrappers
  import opened Cells

  /** The four cells of one worksheet row that the app uses, one per
      configured column. */
  datatype Row = Row(name: Cell, phone: Cell, status: Cell, payment: Cell)

  const BlankRow := Row(Empty, Empty, Empty, Empty)

  /** The worksheet: row number to its cells; a row that is not stored is blank. */
  type Rows = map<int, Row>

  function RowAt(rows: Rows, r: int): Row {
    if r in rows then rows[r] else BlankRow
  }

  const Paid := "납입완료"
  const Unpaid := "미납"

  /** A student as the app sees it after one scan of the worksheet. */
  datatype Student = Student(
    row: int,
    name: string,
    phone: string,
    status: int,
    paymentDate: Cell,
    paymentStatus: string)

  /** The status column read with the app's fallback: an empty cell, or one
      that `int()` rejects, reads as 0 (checked out). */
  function NormalizeStatus(c: Cell): (r: int)
    ensures IntOf(c).Some? ==> r == IntOf(c).value
    ensures IntOf(c).None? ==> r == 0
  {
    if c.Empty? then 0
    else match IntOf(c)
      case Some(n) => n
      case None => 0
  }

  /** The phone as a string: `str(phone)` when the cell is truthy, else `''`. */
  function PhoneText(c: Cell): (r: string)
    ensures r == "" <==> !Truthy(c)
    ensures Truthy(c) ==> r == Text(c)
  {
    if Truthy(c) then TruthyTextNonEmpty(c); Text(c) else ""
  }

  /** Paid exactly when a payment date is present. */
  function PaymentStatus(c: Cell): (r: string)
    ensures r == Paid <==> Truthy(c)
    ensures r == Unpaid <==> !Truthy(c)
  {
    if Truthy(c) then Paid else Unpaid
  }

  /** The record the scan builds from the cells of row `r`. */
  function StudentOf(r: int, cells: Row): Student {
    Student(r, Text(cells.name), PhoneText(cells.phone), NormalizeStatus(cells.status),
            cells.payment, PaymentStatus(cells.payment))
  }

  /** The record the scan builds for row `r`. */
  function StudentAt(rows: Rows, r: int): Student {
    StudentOf(r, RowAt(rows, r))
  }

  /** The stored rows at or after `r`: what a scan from `r` may still visit. */
  function Pending(rows: Rows, r: int): set<int> {
    set k | k in rows && k >= r
  }

  lemma PendingShrinks(rows: Rows, r: int)
    requires r in rows
    ensures |Pending(rows, r + 1)| < |Pending(rows, r)|
  {
    assert Pending(rows, r) == Pending(rows, r + 1) + {r};
  }

  /** The students read from row `r` on, up to the first row whose name cell
      is falsy. */
  function Scan(rows: Rows, r: int): seq<Student>
    decreases |Pending(rows, r)|
  {
    if !Truthy(RowAt(rows, r).name) then []
    else
      PendingShrinks(rows, r);
      [StudentAt(rows, r)] + Scan(rows, r + 1)
  }

  /** `read_students()`: a start row below 1 is not a cell address, the
      spreadsheet library raises and the app answers with an empty roster. */
  function Roster(rows: Rows, start: int): seq<Student> {
    if start < 1 then [] else Scan(rows, start)
  }

  /** The handlers' search of the roster for a row (web_app.py:168): `None`
      exactly when no record has that row, and otherwise a record of the
      list with that row (the first such, as `FindFirst` shows). */
  function Find(students: seq<Student>, row: int): (r: Option<Student>)
    ensures r.None? <==> forall i :: 0 <= i < |students| ==> students[i].row != row
    ensures r.Some? ==> r.value in students && r.value.row == row
  {
    if students == [] then None
    else if students[0].row == row then Some(students[0])
    else
      var rest := Find(students[1..], row);
      assert forall i :: 1 <= i < |students| ==> students[i] == students[1..][i - 1];
      rest
  }

  // ------------------------------------------------------- scan properties

  /** The scan from `b` visits rows `b, b+1, ...` in order, each with a
      truthy name, and stops at the first row whose name is falsy. */
  lemma {:induction false} ScanShape(rows: Rows, b: int)
    ensures forall i :: 0 <= i < |Scan(rows, b)| ==>
              Scan(rows, b)[i] == StudentAt(rows, b + i) && Truthy(RowAt(rows, b + i).name)
    ensures !Truthy(RowAt(rows, b + |Scan(rows, b)|).name)
    decreases |Pending(rows, b)|
  {
    if Truthy(RowAt(rows, b).name) {
      PendingShrinks(rows, b);
      ScanShape(rows, b + 1);
      var s := Scan(rows, b);
      assert s[1..] == Scan(rows, b + 1);
      forall i | 0 <= i < |s| ensures s[i] == StudentAt(rows, b + i) && Truthy(RowAt(rows, b + i).name) {
        if i > 0 { assert s[i] == Scan(rows, b + 1)[i - 1]; }
      }
    }
  }

  /** The scanned roster starts at the configured row and is contiguous: the
      i-th student is the one built from row `start + i`, all of them have a
      name, and the row just after the last one has no name. */
  lemma RosterShape(rows: Rows, start: int)
    requires start >= 1
    ensures forall i :: 0 <= i < |Roster(rows, start)| ==>
              Roster(rows, start)[i].row == start + i &&
              Roster(rows, start)[i] == StudentAt(rows, start + i) &&
              Truthy(RowAt(rows, start + i).name) &&
              Roster(rows, start)[i].name != ""
    ensures !Truthy(RowAt(rows, start + |Roster(rows, start)|).name)
  {
    ScanShape(rows, start);
    var s := Roster(rows, start);
    assert s == Scan(rows, start);
    forall i | 0 <= i < |s|
      ensures s[i].row == start + i && s[i] == StudentAt(rows, start + i)
      ensures Truthy(RowAt(rows, start + i).name) && s[i].name != ""
    {
      assert s[i] == StudentAt(rows, start + i);
      TruthyTextNonEmpty(RowAt(rows, start + i).name);
    }
    assert !Truthy(RowAt(rows, start + |s|).name);
  }

  /** A status cell holding the decimal text of `n` reads as `n`, as one
      holding the integer `n` does. */
  lemma StatusTextReadsBack(n: int)
    ensures NormalizeStatus(Str(DecimalText(n))) == n
    ensures NormalizeStatus(Int(n)) == n
  {
    ParseDecimalRoundTrip(n);
  }

  /** Find returns the first record whose row matches. */
  lemma {:induction false} FindFirst(students: seq<Student>, row: int, i: nat)
    requires i < |students| && students[i].row == row
    requires forall j :: 0 <= j < i ==> students[j].row != row
    ensures Find(students, row) == Some(students[i])
  {
    if i > 0 {
      var t := students[1..];
      forall j | 0 <= j < i - 1 ensures t[j].row != row {
        assert t[j] == students[j + 1];
      }
      FindFirst(t, row, i - 1);
    }
  }

  /** The i-th record of the roster carries row number `start + i`. */
  lemma RosterRows(rows: Rows, start: int)
    ensures forall i :: 0 <= i < |Roster(rows, start)| ==> Roster(rows, start)[i].row == start + i
  {
    if start >= 1 {
      RosterShape(rows, start);
    }
  }

  /** On records numbered consecutively from `start`, Find hits exactly the
      rows in range, each at its own position. */
  lemma FindConsecutive(s: seq<Student>, start: int, row: int)
    requires forall i :: 0 <= i < |s| ==> s[i].row == start + i
    ensures Find(s, row).Some? <==> start <= row < start + |s|
    ensures Find(s, row).Some? ==> Find(s, row) == Some(s[row - start])
  {
    if start <= row < start + |s| {
      FindFirst(s, row, row - start);
    }
  }

  /** Row lookup on the roster finds exactly the rows the scan covered, and
      gives the record built from that row. */
  lemma FindInRoster(rows: Rows, start: int, row: int)
    ensures Find(Roster(rows, start), row).Some? <==> start >= 1 && start <= row < start + |Roster(rows, start)|
    ensures Find(Roster(rows, start), row).Some? ==> Find(Roster(rows, start), row).value == StudentAt(rows, row)
  {
    var s := Roster(rows, start);
    RosterRows(rows, start);
    FindConsecutive(s, start, row);
    if start <= row < start + |s| {
      RosterShape(rows, start);
      assert s[row - start] == StudentAt(rows, row);
    }
  }

  // ------------------------------------------------------- cell writes

  /** The worksheet after writing `v` into the status cell of row `r`. */
  function WithStatus(rows: Rows, r: int, v: Cell): (w: Rows)
    ensures RowAt(w, r) == RowAt(rows, r).(status := v)
    ensures forall k :: k != r ==> RowAt(w, k) == RowAt(rows, k)
  {
    rows[r := RowAt(rows, r).(status := v)]
  }

  /** The worksheet after writing `v` into the phone cell of row `r`. */
  function WithPhone(rows: Rows, r: int, v: Cell): (w: Rows)
    ensures RowAt(w, r) == RowAt(rows, r).(phone := v)
    ensures forall k :: k != r ==> RowAt(w, k) == RowAt(rows, k)
  {
    rows[r := RowAt(rows, r).(phone := v)]
  }

  /** The worksheet after filling row `r` with a new student: name, phone and
      a 0 status are written; the payment cell only when a date is given, so
      otherwise whatever that cell held stays. */
  function WithNewStudent(rows: Rows, r: int, name: string, phone: string, payment: Option<string>): (w: Rows)
    ensures RowAt(w, r).name == Str(name) && RowAt(w, r).phone == Str(phone) && RowAt(w, r).status == Int(0)
    ensures RowAt(w, r).payment == if payment.Some? then Str(payment.value) else RowAt(rows, r).payment
    ensures forall k :: k != r ==> RowAt(w, k) == RowAt(rows, k)
  {
    var cells := RowAt(rows, r);
    rows[r := Row(Str(name), Str(phone), Int(0),
                  if payment.Some? then Str(payment.value) else cells.payment)]
  }

  /** The worksheet after deleting row `d`: later rows move up by one. */
  function WithoutRow(rows: Rows, d: int): Rows {
    var keys := set k | k in rows && k != d :: if k < d then k else k - 1;
    map k | k in keys :: if k < d then RowAt(rows, k) else RowAt(rows, k + 1)
  }

  /** Deleting row `d` leaves the rows above it in place and moves each row
      below it up by one. */
  lemma WithoutRowAt(rows: Rows, d: int, k: int)
    ensures RowAt(WithoutRow(rows, d), k) == if k < d then RowAt(rows, k) else RowAt(rows, k + 1)
  {
  }

  // ------------------------------------------------ rescans after writes

  /** `s` with the record of row `x.row` replaced by `x`. */
  function ReplaceStudent(s: seq<Student>, x: Student): (r: seq<Student>)
    ensures |r| == |s|
    ensures forall i :: 0 <= i < |s| ==> r[i] == if s[i].row == x.row then x else s[i]
  {
    seq(|s|, i requires 0 <= i < |s| => if s[i].row == x.row then x else s[i])
  }

  /** `s` with every row number lowered by one, as after deleting a row above. */
  function MoveUp(s: seq<Student>): (r: seq<Student>)
    ensures |r| == |s|
    ensures forall i :: 0 <= i < |s| ==> r[i] == s[i].(row := s[i].row - 1)
  {
    seq(|s|, i requires 0 <= i < |s| => s[i].(row := s[i].row - 1))
  }

  /** Rewriting one row without touching its name cell changes that row's
      record in a rescan and nothing else. */
  lemma {:induction false} ScanAfterRowWrite(rows: Rows, d: int, newRow: Row, b: int)
    requires newRow.name == RowAt(rows, d).name
    ensures Scan(rows[d := newRow], b) == ReplaceStudent(Scan(rows, b), StudentAt(rows[d := newRow], d))
    decreases |Pending(rows, b)|
  {
    var w := rows[d := newRow];
    var x := StudentAt(w, d);
    assert RowAt(w, b).name == RowAt(rows, b).name;
    if Truthy(RowAt(rows, b).name) {
      PendingShrinks(rows, b);
      ScanAfterRowWrite(rows, d, newRow, b + 1);
      assert StudentAt(w, b) == if b == d then x else StudentAt(rows, b);
      var t := Scan(rows, b);
      assert Scan(w, b) == [StudentAt(w, b)] + ReplaceStudent(Scan(rows, b + 1), x);
      assert t == [StudentAt(rows, b)] + Scan(rows, b + 1);
      assert Scan(w, b) == ReplaceStudent(t, x) by {
        forall i | 0 <= i < |t| ensures Scan(w, b)[i] == ReplaceStudent(t, x)[i] {
          if i > 0 { assert t[i] == Scan(rows, b + 1)[i - 1]; }
        }
      }
    }
  }

  /** After writing status `v` at row `row`, the roster reads the same except
      that this row's student has the status `v` normalises to. */
  lemma RosterAfterStatusWrite(rows: Rows, start: int, row: int, v: Cell)
    ensures Roster(WithStatus(rows, row, v), start) ==
            ReplaceStudent(Roster(rows, start), StudentAt(rows, row).(status := NormalizeStatus(v)))
  {
    if start >= 1 {
      ScanAfterRowWrite(rows, row, RowAt(rows, row).(status := v), start);
    }
  }

  /** After writing phone `v` at row `row`, the roster reads the same except
      that this row's student has the phone string of `v`. */
  lemma RosterAfterPhoneWrite(rows: Rows, start: int, row: int, v: Cell)
    ensures Roster(WithPhone(rows, row, v), start) ==
            ReplaceStudent(Roster(rows, start), StudentAt(rows, row).(phone := PhoneText(v)))
  {
    if start >= 1 {
      ScanAfterRowWrite(rows, row, RowAt(rows, row).(phone := v), start);
    }
  }

  /** A status written for a listed student reads back as that status, and
      the student is still listed: after a check-in writes 1, a second
      check-in sees status 1. */
  lemma StatusWriteReadsBack(rows: Rows, start: int, row: int, n: int)
    requires Find(Roster(rows, start), row).Some?
    ensures Find(Roster(WithStatus(rows, row, Int(n)), start), row) ==
            Some(Find(Roster(rows, start), row).value.(status := n))
  {
    var w := WithStatus(rows, row, Int(n));
    FindInRoster(rows, start, row);
    RosterAfterStatusWrite(rows, start, row, Int(n));
    FindInRoster(w, start, row);
  }

  /** A phone written for a listed student reads back as that phone, so the
      next notification for that student goes to it. */
  lemma PhoneWriteReadsBack(rows: Rows, start: int, row: int, p: string)
    requires Find(Roster(rows, start), row).Some?
    ensures Find(Roster(WithPhone(rows, row, Str(p)), start), row) ==
            Some(Find(Roster(rows, start), row).value.(phone := p))
  {
    var w := WithPhone(rows, row, Str(p));
    FindInRoster(rows, start, row);
    RosterAfterPhoneWrite(rows, start, row, Str(p));
    FindInRoster(w, start, row);
  }

  /** Writing a row above the scan start does not change the scan. */
  lemma {:induction false} ScanIgnoresEarlierRow(rows: Rows, d: int, newRow: Row, b: int)
    requires d < b
    ensures Scan(rows[d := newRow], b) == Scan(rows, b)
    decreases |Pending(rows, b)|
  {
    var w := rows[d := newRow];
    assert RowAt(w, b) == RowAt(rows, b);
    if Truthy(RowAt(rows, b).name) {
      PendingShrinks(rows, b);
      ScanIgnoresEarlierRow(rows, d, newRow, b + 1);
    }
  }

  /** Filling the row where the scan from `b` stops with a named row extends
      the scan by that row and by whatever filled rows follow it. */
  lemma {:induction false} ScanAfterFill(rows: Rows, d: int, newRow: Row, b: int)
    requires b <= d == b + |Scan(rows, b)|
    requires Truthy(newRow.name)
    ensures Scan(rows[d := newRow], b) == Scan(rows, b) + [StudentAt(rows[d := newRow], d)] + Scan(rows, d + 1)
    decreases d - b
  {
    var w := rows[d := newRow];
    if b == d {
      ScanIgnoresEarlierRow(rows, d, newRow, d + 1);
      assert Scan(rows, b) == [];
    } else {
      assert Truthy(RowAt(rows, b).name);
      PendingShrinks(rows, b);
      assert Scan(rows, b) == [StudentAt(rows, b)] + Scan(rows, b + 1);
      ScanAfterFill(rows, d, newRow, b + 1);
      assert StudentAt(w, b) == StudentAt(rows, b);
    }
  }

  /** `add_student` on the worksheet: the new student lands at the first
      nameless row at or after the start, and a rescan lists the old roster,
      then the new student, then any filled rows that follow that gap. */
  lemma RosterAfterAdd(rows: Rows, start: int, name: string, phone: string, payment: Option<string>)
    requires start >= 1 && name != ""
    ensures var d := start + |Roster(rows, start)|;
            var cell := if payment.Some? then Str(payment.value) else RowAt(rows, d).payment;
            Roster(WithNewStudent(rows, d, name, phone, payment), start) ==
              Roster(rows, start) + [Student(d, name, phone, 0, cell, PaymentStatus(cell))] + Scan(rows, d + 1)
  {
    var d := start + |Roster(rows, start)|;
    var cell := if payment.Some? then Str(payment.value) else RowAt(rows, d).payment;
    var newRow := Row(Str(name), Str(phone), Int(0), cell);
    assert WithNewStudent(rows, d, name, phone, payment) == rows[d := newRow];
    ScanAfterFill(rows, d, newRow, start);
  }

  /** The student `add_student` writes is listed by the next read, at the
      row it was written to, checked out. */
  lemma AddedStudentIsListed(rows: Rows, start: int, name: string, phone: string, payment: Option<string>)
    requires start >= 1 && name != ""
    ensures var d := start + |Roster(rows, start)|;
            var cell := if payment.Some? then Str(payment.value) else RowAt(rows, d).payment;
            Find(Roster(WithNewStudent(rows, d, name, phone, payment), start), d) ==
              Some(Student(d, name, phone, 0, cell, PaymentStatus(cell)))
  {
    var d := start + |Roster(rows, start)|;
    var cell := if payment.Some? then Str(payment.value) else RowAt(rows, d).payment;
    var newRow := Row(Str(name), Str(phone), Int(0), cell);
    var w := WithNewStudent(rows, d, name, phone, payment);
    assert w == rows[d := newRow];
    RosterAfterAdd(rows, start, name, phone, payment);
    assert |Roster(w, start)| > d - start;
    FindInRoster(w, start, d);
    assert RowAt(w, d) == newRow;
    assert StudentAt(w, d) == Student(d, name, phone, 0, cell, PaymentStatus(cell));
  }

  /** A scan of the worksheet after deleting row `d`, from a row at or below
      `d`, is the old scan one row further down with every row number
      lowered by one. */
  lemma {:induction false} ScanAfterDeleteBelow(rows: Rows, d: int, b: int)
    requires d <= b
    ensures Scan(WithoutRow(rows, d), b) == MoveUp(Scan(rows, b + 1))
    decreases |Pending(rows, b + 1)|
  {
    var w := WithoutRow(rows, d);
    WithoutRowAt(rows, d, b);
    if Truthy(RowAt(rows, b + 1).name) {
      PendingShrinks(rows, b + 1);
      ScanAfterDeleteBelow(rows, d, b + 1);
      var t := Scan(rows, b + 1);
      assert t == [StudentAt(rows, b + 1)] + Scan(rows, b + 2);
      assert StudentAt(w, b) == StudentAt(rows, b + 1).(row := b);
      assert Scan(w, b) == MoveUp(t) by {
        forall i | 0 <= i < |t| ensures Scan(w, b)[i] == MoveUp(t)[i] {
          if i > 0 { assert t[i] == Scan(rows, b + 2)[i - 1]; }
        }
      }
    }
  }

  /** A scan from above a deleted row that reached that row loses that row's
      record; the records after it move up by one row. */
  lemma {:induction false} ScanAfterDelete(rows: Rows, d: int, b: int)
    requires b <= d < b + |Scan(rows, b)|
    ensures Scan(WithoutRow(rows, d), b) == Scan(rows, b)[..d - b] + MoveUp(Scan(rows, b)[d - b + 1..])
    decreases d - b
  {
    var t := Scan(rows, b);
    assert Truthy(RowAt(rows, b).name);
    PendingShrinks(rows, b);
    var u := Scan(rows, b + 1);
    assert t == [StudentAt(rows, b)] + u;
    if b == d {
      ScanAfterDeleteBelow(rows, d, d);
      assert t[1..] == u;
    } else {
      ScanAfterDeleteAbove(rows, d, b);
    }
  }

  /** The step of `ScanAfterDelete` for a row `b` above the deleted one. */
  lemma {:induction false} ScanAfterDeleteAbove(rows: Rows, d: int, b: int)
    requires b < d < b + |Scan(rows, b)|
    ensures Scan(WithoutRow(rows, d), b) == Scan(rows, b)[..d - b] + MoveUp(Scan(rows, b)[d - b + 1..])
    decreases d - b, 0
  {
    var w := WithoutRow(rows, d);
    WithoutRowAt(rows, d, b);
    ScanCons(rows, b);
    ScanCons(w, b);
    assert StudentAt(w, b) == StudentAt(rows, b);
    ScanAfterDelete(rows, d, b + 1);
    ConsDropAt(StudentAt(rows, b), Scan(rows, b + 1), d - b, Scan(w, b + 1));
  }

  /** One step of the scan at a row with a name. */
  lemma ScanCons(rows: Rows, b: int)
    requires Truthy(RowAt(rows, b).name)
    ensures Scan(rows, b) == [StudentAt(rows, b)] + Scan(rows, b + 1)
  {
    PendingShrinks(rows, b);
  }

  /** Dropping the k-th element and moving the rest up commutes with putting
      one element in front. */
  lemma ConsDropAt(x: Student, u: seq<Student>, k: nat, v: seq<Student>)
    requires 1 <= k <= |u|
    requires v == u[..k - 1] + MoveUp(u[k..])
    ensures [x] + v == ([x] + u)[..k] + MoveUp(([x] + u)[k + 1..])
  {
    var p := [x] + u;
    assert p[..k] == [x] + u[..k - 1];
    assert p[k + 1..] == u[k..];
    assert [x] + v == ([x] + u[..k - 1]) + MoveUp(u[k..]);
  }

  /** `delete_student` on the worksheet: deleting the i-th listed student's
      row drops that record from a rescan and moves the later ones up. */
  lemma RosterAfterDelete(rows: Rows, start: int, i: nat)
    requires i < |Roster(rows, start)|
    ensures Roster(WithoutRow(rows, start + i), start) ==
            Roster(rows, start)[..i] + MoveUp(Roster(rows, start)[i + 1..])
  {
    var s := Roster(rows, start);
    assert start >= 1 && s == Scan(rows, start);
    var w := WithoutRow(rows, start + i);
    ScanAfterDelete(rows, start + i, start);
    assert Roster(w, start) == Scan(w, start);
  }

  // --------------------------------------------------------- the worksheet

  /** The active worksheet of the workbook, which the app reads and writes. */
  class Worksheet {
    var rows: Rows

    constructor (initial: Rows)
      ensures rows == initial
    {
      rows := initial;
    }

    /** `read_students()`: read rows from `start` until a row whose name is
        falsy, normalising each status and deriving phone and payment status. */
    method ReadStudents(start: int) returns (students: seq<Student>)
      ensures students == Roster(rows, start)
    {
      if start < 1 {
        return [];
      }
      students := [];
      var row := start;
      while Truthy(RowAt(rows, row).name)
        invariant students + Scan(rows, row) == Scan(rows, start)
        decreases |Pending(rows, row)|
      {
        PendingShrinks(rows, row);
        var cells := RowAt(rows, row);
        var status := NormalizeStatus(cells.status);
        students := students + [Student(row, Text(cells.name), PhoneText(cells.phone), status,
                                        cells.payment, PaymentStatus(cells.payment))];
        row := row + 1;
      }
    }

    /** The search loop of `add_student`: the first row at or after `start`
        whose name cell is falsy, which is the row just after the roster. */
    method FirstEmptyRow(start: int) returns (r: int)
      requires start >= 1
      ensures start <= r && !Truthy(RowAt(rows, r).name)
      ensures forall k :: start <= k < r ==> Truthy(RowAt(rows, k).name)
      ensures r == start + |Roster(rows, start)|
    {
      r := start;
      while Truthy(RowAt(rows, r).name)
        invariant start <= r
        invariant forall k :: start <= k < r ==> Truthy(RowAt(rows, k).name)
        invariant (r - start) + |Scan(rows, r)| == |Scan(rows, start)|
        decreases |Pending(rows, r)|
      {
        PendingShrinks(rows, r);
        r := r + 1;
      }

    }

    /** Stores `v` in the status cell of row `row` (web_app.py:133). */
    method SetStatus(row: int, v: Cell)
      modifies this
      ensures rows == WithStatus(old(rows), row, v)
    {
      rows := rows[row := RowAt(rows, row).(status := v)];
    }

    /** Stores `v` in the phone cell of row `row` (web_app.py:341). */
    method SetPhone(row: int, v: Cell)
      modifies this
      ensures rows == WithPhone(old(rows), row, v)
    {
      rows := rows[row := RowAt(rows, row).(phone := v)];
    }

    /** The cell writes of `add_student` at row `row`. */
    method PutStudent(row: int, name: string, phone: string, payment: Option<string>)
      modifies this
      ensures rows == WithNewStudent(old(rows), row, name, phone, payment)
    {
      var cells := RowAt(rows, row);
      cells := cells.(name := Str(name));
      cells := cells.(phone := Str(phone));
      cells := cells.(status := Int(0));
      if payment.Some? {
        cells := cells.(payment := Str(payment.value));
      }
      rows := rows[row := cells];
    }

    /** `add_student`'s writing step: find the first free row, then fill it. */
    method AppendStudent(start: int, name: string, phone: string, payment: Option<string>) returns (row: int)
      requires start >= 1
      modifies this
      ensures row == start + |Roster(old(rows), start)|
      ensures rows == WithNewStudent(old(rows), row, name, phone, payment)
    {
      row := FirstEmptyRow(start);
      PutStudent(row, name, phone, payment);
    }

    /** Removes row `row` and moves every later row up by one (web_app.py:423). */
    method DeleteRow(row: int)
      modifies this
      ensures rows == WithoutRow(old(rows), row)
    {
      rows := WithoutRow(rows, row);
    }
  }
}
