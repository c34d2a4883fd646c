/** The request handlers of the attendance web app over the worksheet:
    check-in, check-out, manual message, adding, editing and deleting a
    student. A message "sent" is appended to a ghost outbox. */
module WebApp {
  import opened Wrappers
  import opened Cells
  import opened Sheet
  import opened Messages

  /** The app configuration, fixed for the life of the process: the academy
      name (which may be missing) and the first roster row. */
  datatype Config = Config(academyName: Option<string>, startRow: int)

  /** The academy name the messages quote: the configured one, or the
      default name when the configuration has none (web_app.py:180, 291). */
  function Academy(config: Config): string {
    config.academyName.GetOr(DefaultAcademy)
  }

  /** One call of the message gateway: recipient, text and student name. */
  datatype Sms = Sms(phone: string, text: string, studentName: string)

  /** What a successful reply carries besides its message. */
  datatype Detail =
    | NoDetail
    | Notified(timestamp: string, notification: string)
    | SentAt(timestamp: string)
    | NewPhone(phone: string)
    | Added(name: string, phone: string, paymentDate: Option<string>)

  /** A handler's JSON reply. `NotFound` is the 404 "학생을 찾을 수 없습니다.",
      `Rejected` a `success: false` answer with its message, `StoreFailed`
      the 500 answer when the workbook cannot be written. */
  datatype Reply =
    | NotFound
    | Rejected(message: string)
    | StoreFailed
    | Done(message: string, detail: Detail)

  /** The gateway calls a notification makes: one when the student has a
      phone, none otherwise. */
  function Notify(phone: string, text: string, name: string): (out: seq<Sms>)
    ensures |out| == if phone == "" then 0 else 1
    ensures forall m :: m in out ==> m == Sms(phone, text, name)
  {
    if phone != "" then [Sms(phone, text, name)] else []
  }

  /** The handlers' test that a request field is present and not blank
      (web_app.py:332, 366, 369), giving the stripped value when it passes. */
  function Filled(x: Option<string>): (r: Option<string>)
    ensures r.Some? <==> x.Some? && !IsBlank(x.value)
    ensures r.Some? ==> r.value == Strip(x.value) && r.value != ""
  {
    if x.None? || x.value == "" then None
    else
      StripTrims(x.value);
      if Strip(x.value) == "" then None else Some(Strip(x.value))
  }

  /** The payment date `add_student` echoes back: `payment_date.strip()` when
      the field is a non-empty string (so a blank one echoes as `""`), else
      `None`. */
  function EchoedDate(payment: Option<string>): (r: Option<string>)
    ensures r.Some? <==> payment.Some? && payment.value != ""
    ensures r.Some? ==> r.value == Strip(payment.value)
  {
    if payment.Some? && payment.value != "" then Some(Strip(payment.value)) else None
  }

  class App {
    const config: Config
    const sheet: Worksheet
    /** Every message handed to the gateway, oldest first. */
    ghost var outbox: seq<Sms>

    constructor (config: Config, sheet: Worksheet)
      ensures this.config == config && this.sheet == sheet && outbox == []
    {
      this.config := config;
      this.sheet := sheet;
      outbox := [];
    }

    /** The student a handler finds for `row` in a fresh read of `rows`. */
    function Lookup(rows: Rows, row: int): Option<Student> {
      Find(Roster(rows, config.startRow), row)
    }

    /** `update_status(row, new_status)`: writes the status cell; `saved`
        says whether the workbook could be written, and only then does the
        cell change. */
    method UpdateStatus(row: int, status: int, saved: bool) returns (ok: bool)
      modifies sheet
      ensures ok == saved
      ensures sheet.rows == if saved then WithStatus(old(sheet.rows), row, Int(status)) else old(sheet.rows)
    {
      if !saved {
        return false;
      }
      sheet.SetStatus(row, Int(status));
      return true;
    }

    /** `checkin(row)`: an unknown row or a student already checked in (status
        1) is refused with nothing written or sent; otherwise the status cell
        becomes 1 and, when the student has a phone, exactly one check-in
        notification is sent. A status other than 0 and 1 is not refused. */
    method Checkin(row: int, saved: bool, now: string) returns (reply: Reply)
      modifies this, sheet
      ensures var s := Lookup(old(sheet.rows), row);
        if s.None? then
          reply == NotFound && sheet.rows == old(sheet.rows) && outbox == old(outbox)
        else if s.value.status == 1 then
          reply == Rejected(s.value.name + "님은 이미 등원중입니다.") &&
          sheet.rows == old(sheet.rows) && outbox == old(outbox)
        else if !saved then
          reply == StoreFailed && sheet.rows == old(sheet.rows) && outbox == old(outbox)
        else
          var text := CheckinMessage(s.value.name, Academy(config));
          && reply == Done(s.value.name + "님 등원 처리 완료", Notified(now, text))
          && sheet.rows == WithStatus(old(sheet.rows), row, Int(1))
          && outbox == old(outbox) + Notify(s.value.phone, text, s.value.name)
    {
      var students := sheet.ReadStudents(config.startRow);
      var found := Find(students, row);
      if found.None? {
        return NotFound;
      }
      var student := found.value;
      if student.status == 1 {
        return Rejected(student.name + "님은 이미 등원중입니다.");
      }
      var ok := UpdateStatus(row, 1, saved);
      if ok {
        var message := "\"" + student.name + "\"님이 \"" + Academy(config) + "\"에 등원하였습니다.";
        if student.phone != "" {
          outbox := outbox + [Sms(student.phone, message, student.name)];
        }
        reply := Done(student.name + "님 등원 처리 완료", Notified(now, message));
      } else {
        reply := StoreFailed;
      }
    }

    /** `checkout(row)`: an unknown row or a student already checked out
        (status 0) is refused with nothing written or sent; otherwise the
        status cell becomes 0 and, when the student has a phone, exactly one
        check-out notification is sent. A status other than 0 and 1 is not
        refused. */
    method Checkout(row: int, saved: bool, now: string) returns (reply: Reply)
      modifies this, sheet
      ensures var s := Lookup(old(sheet.rows), row);
        if s.None? then
          reply == NotFound && sheet.rows == old(sheet.rows) && outbox == old(outbox)
        else if s.value.status == 0 then
          reply == Rejected(s.value.name + "님은 이미 하원 상태입니다.") &&
          sheet.rows == old(sheet.rows) && outbox == old(outbox)
        else if !saved then
          reply == StoreFailed && sheet.rows == old(sheet.rows) && outbox == old(outbox)
        else
          var text := CheckoutMessage(s.value.name, Academy(config));
          && reply == Done(s.value.name + "님 하원 처리 완료", Notified(now, text))
          && sheet.rows == WithStatus(old(sheet.rows), row, Int(0))
          && outbox == old(outbox) + Notify(s.value.phone, text, s.value.name)
    {
      var students := sheet.ReadStudents(config.startRow);
      var found := Find(students, row);
      if found.None? {
        return NotFound;
      }
      var student := found.value;
      if student.status == 0 {
        return Rejected(student.name + "님은 이미 하원 상태입니다.");
      }
      var ok := UpdateStatus(row, 0, saved);
      if ok {
        var message := "\"" + student.name + "\"님이 \"" + Academy(config) + "\"에서 하원하였습니다.";
        if student.phone != "" {
          outbox := outbox + [Sms(student.phone, message, student.name)];
        }
        reply := Done(student.name + "님 하원 처리 완료", Notified(now, message));
      } else {
        reply := StoreFailed;
      }
    }

    /** `send_message(row)`: an unknown row, a student without a phone, or a
        `type` other than the three kinds is refused and nothing is sent;
        otherwise exactly one message of the chosen kind is sent. The
        worksheet is never written. */
    method SendMessage(row: int, kind: Option<string>, custom: Option<string>, now: string) returns (reply: Reply)
      modifies this
      ensures var s := Lookup(sheet.rows, row);
        if s.None? then
          reply == NotFound && outbox == old(outbox)
        else if s.value.phone == "" then
          reply == Rejected("연락처가 없습니다.") && outbox == old(outbox)
        else if ParseKind(kind).None? then
          reply == Rejected("잘못된 메시지 타입입니다.") && outbox == old(outbox)
        else
          && reply == Done(s.value.name + "님에게 메시지 발송 완료", SentAt(now))
          && outbox == old(outbox) +
               [Sms(s.value.phone, ManualText(ParseKind(kind).value, s.value.name, Academy(config), custom), s.value.name)]
    {
      var students := sheet.ReadStudents(config.startRow);
      var found := Find(students, row);
      if found.None? {
        return NotFound;
      }
      var student := found.value;
      if student.phone == "" {
        return Rejected("연락처가 없습니다.");
      }
      var k := ParseKind(kind);
      if k.None? {
        return Rejected("잘못된 메시지 타입입니다.");
      }
      var message := ManualText(k.value, student.name, Academy(config), custom);
      outbox := outbox + [Sms(student.phone, message, student.name)];
      reply := Done(student.name + "님에게 메시지 발송 완료", SentAt(now));
    }

    /** `edit_phone(row)`: an unknown row, or a phone that is missing or blank,
        is refused; otherwise only that row's phone cell changes, to the
        stripped phone, which the reply echoes. Nothing is sent. */
    method EditPhone(row: int, phone: Option<string>, saved: bool) returns (reply: Reply)
      modifies sheet
      ensures var s := Lookup(old(sheet.rows), row);
        if s.None? then
          reply == NotFound && sheet.rows == old(sheet.rows)
        else if Filled(phone).None? then
          reply == Rejected("연락처를 입력해주세요.") && sheet.rows == old(sheet.rows)
        else if !saved then
          reply == StoreFailed && sheet.rows == old(sheet.rows)
        else
          && reply == Done(s.value.name + "님 연락처 수정 완료", NewPhone(Strip(phone.value)))
          && sheet.rows == WithPhone(old(sheet.rows), row, Str(Strip(phone.value)))
    {
      var students := sheet.ReadStudents(config.startRow);
      var found := Find(students, row);
      if found.None? {
        return NotFound;
      }
      var student := found.value;
      var newPhone := Filled(phone);
      if newPhone.None? {
        return Rejected("연락처를 입력해주세요.");
      }
      if !saved {
        return StoreFailed;
      }
      sheet.SetPhone(row, Str(newPhone.value));
      reply := Done(student.name + "님 연락처 수정 완료", NewPhone(newPhone.value));
    }

    /** `add_student()`: a name or phone that is missing or blank is refused;
        otherwise the student is written, stripped and checked out, at the
        first row at or after the start row whose name is empty, with the
        payment date only when it is not blank. Nothing is sent. */
    method AddStudent(name: Option<string>, phone: Option<string>, payment: Option<string>, saved: bool)
      returns (reply: Reply)
      modifies sheet
      ensures
        if Filled(name).None? then
          reply == Rejected("이름을 입력해주세요.") && sheet.rows == old(sheet.rows)
        else if Filled(phone).None? then
          reply == Rejected("연락처를 입력해주세요.") && sheet.rows == old(sheet.rows)
        else if config.startRow < 1 || !saved then
          reply == StoreFailed && sheet.rows == old(sheet.rows)
        else
          var d := config.startRow + |Roster(old(sheet.rows), config.startRow)|;
          && reply == Done(name.value + "님 등록 완료", Added(Strip(name.value), Strip(phone.value), EchoedDate(payment)))
          && sheet.rows == WithNewStudent(old(sheet.rows), d, Strip(name.value), Strip(phone.value), Filled(payment))
    {
      var strippedName := Filled(name);
      if strippedName.None? {
        return Rejected("이름을 입력해주세요.");
      }
      var strippedPhone := Filled(phone);
      if strippedPhone.None? {
        return Rejected("연락처를 입력해주세요.");
      }
      if config.startRow < 1 || !saved {
        return StoreFailed;
      }
      var row := sheet.AppendStudent(config.startRow, strippedName.value, strippedPhone.value, Filled(payment));
      var echoed := if payment.Some? && payment.value != "" then Some(Strip(payment.value)) else None;
      reply := Done(name.value + "님 등록 완료", Added(strippedName.value, strippedPhone.value, echoed));
    }

    /** `delete_student(row)`: an unknown row is refused; otherwise the row is
        deleted and the rows below it move up. Nothing is sent. */
    method DeleteStudent(row: int, saved: bool) returns (reply: Reply)
      modifies sheet
      ensures var s := Lookup(old(sheet.rows), row);
        if s.None? then
          reply == NotFound && sheet.rows == old(sheet.rows)
        else if !saved then
          reply == StoreFailed && sheet.rows == old(sheet.rows)
        else
          reply == Done(s.value.name + "님 삭제 완료", NoDetail) && sheet.rows == WithoutRow(old(sheet.rows), row)
    {
      var students := sheet.ReadStudents(config.startRow);
      var found := Find(students, row);
      if found.None? {
        return NotFound;
      }
      if !saved {
        return StoreFailed;
      }
      sheet.DeleteRow(row);
      reply := Done(found.value.name + "님 삭제 완료", NoDetail);
    }
  }

  /** A roster of one student "A" with phone "0101", checked out. A check-in
      sends one notification to that phone; a second check-in is refused and
      sends nothing more. */
  method CheckinOnceScenario() {
    var sheet := new Worksheet(map[2 := Row(Str("A"), Str("0101"), Int(0), Empty)]);
    var app := new App(Config(Some("OO학원"), 2), sheet);
    assert Roster(sheet.rows, 2) == [StudentAt(sheet.rows, 2)] + Scan(sheet.rows, 3);
    var first := app.Checkin(2, true, "t0");
    assert first.Done?;
    assert app.outbox == [Sms("0101", CheckinMessage("A", "OO학원"), "A")];
    StatusWriteReadsBack(map[2 := Row(Str("A"), Str("0101"), Int(0), Empty)], 2, 2, 1);
    var second := app.Checkin(2, true, "t1");
    assert second == Rejected("A님은 이미 등원중입니다.");
    assert |app.outbox| == 1;
  }
}
