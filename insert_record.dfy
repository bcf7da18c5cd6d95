/** The insert endpoint: `generateNextRecordId` turns the largest stored
    `record_id` into the next one, and the script appends one row
    `(record_id, symptom, detected_At)` to `heath_record` and answers with a
    line of text. */
module InsertRecord {
  import opened Wrappers
  import opened PhpConversions

  const LimitMessage := "Maximum record limit reached (999 records)"
  const InsertSql := "INSERT INTO heath_record (record_id, symptom, detected_At) VALUES (?, ?, ?)"
  const SuccessPrefix := "New health record added successfully with ID: "

  /** One row of `heath_record`. */
  datatype HealthRecord = HealthRecord(recordId: string, symptom: string, detectedAt: string)

  /** What one run of the script leaves behind: the table and the text it echoes. */
  datatype InsertResult = InsertResult(rows: seq<HealthRecord>, response: string)

  // ---------------------------------------------------------------------------
  // The identifier scheme: 'r' followed by three decimal digits.

  predicate IsRecordId(s: string)
  {
    |s| == 4 && s[0] == 'r' && IsDigit(s[1]) && IsDigit(s[2]) && IsDigit(s[3])
  }

  /** The number NNN of an identifier rNNN. */
  function IdNumber(s: string): (n: nat)
    requires IsRecordId(s)
    ensures n <= 999
  {
    100 * DigitValue(s[1]) + 10 * DigitValue(s[2]) + DigitValue(s[3])
  }

  /** The identifier of number `n`, digit by digit. */
  function RecordId(n: nat): (s: string)
    requires n <= 999
    ensures IsRecordId(s) && IdNumber(s) == n
  {
    SplitDigits(n);
    ['r', DigitChar(n / 100), DigitChar(n / 10 % 10), DigitChar(n % 10)]
  }

  lemma SplitDigits(n: nat)
    requires n <= 999
    ensures n / 100 < 10 && n == 100 * (n / 100) + 10 * (n / 10 % 10) + n % 10
  {
  }

  lemma JoinDigits(a: nat, b: nat, c: nat)
    requires a < 10 && b < 10 && c < 10
    ensures var n := 100 * a + 10 * b + c; n / 100 == a && n / 10 % 10 == b && n % 10 == c
  {
    var n := 100 * a + 10 * b + c;
    assert n / 10 == 10 * a + b;
  }

  lemma ThreeDigitsValue(d: string)
    requires |d| == 3 && AllDigits(d)
    ensures DigitsValue(d) == 100 * DigitValue(d[0]) + 10 * DigitValue(d[1]) + DigitValue(d[2])
  {
    var p2 := d[..2];
    var p1 := p2[..1];
    assert p1[..0] == [] && p1[0] == d[0] && p2[1] == d[1];
    assert DigitsValue(p1) == DigitValue(d[0]);
    assert DigitsValue(p2) == 10 * DigitValue(d[0]) + DigitValue(d[1]);
  }

  /** The digits of an identifier, read as PHP reads them, give its number. */
  lemma IdDigitsValue(s: string)
    requires IsRecordId(s)
    ensures AllDigits(s[1..]) && DigitsValue(s[1..]) == IdNumber(s)
  {
    ThreeDigitsValue(s[1..]);
  }

  /** An identifier is determined by its number. */
  lemma RecordIdOfNumber(s: string)
    requires IsRecordId(s)
    ensures s == RecordId(IdNumber(s))
  {
    var a, b, c := DigitValue(s[1]), DigitValue(s[2]), DigitValue(s[3]);
    JoinDigits(a, b, c);
    DigitCharOfValue(s[1]);
    DigitCharOfValue(s[2]);
    DigitCharOfValue(s[3]);
  }

  // ---------------------------------------------------------------------------
  // generateNextRecordId

  /** PHP truthiness of the fetched `max_id`: NULL, "" and "0" are false. */
  predicate PhpTruthy(maxId: Option<string>)
    ensures PhpTruthy(maxId) ==> maxId.Some? && |maxId.value| >= 1
  {
    maxId.Some? && maxId.value != "" && maxId.value != "0"
  }

  /** `$nextNum`: the part after the first character cast to int, plus one,
      or 0 when there is no (truthy) maximum. */
  function NextNum(maxId: Option<string>): (n: int)
    ensures !PhpTruthy(maxId) ==> n == 0
    ensures PhpTruthy(maxId) && AllDigits(maxId.value[1..]) ==> n == DigitsValue(maxId.value[1..]) + 1
  {
    if PhpTruthy(maxId) then IntCast(maxId.value[1..]) + 1 else 0
  }

  /** `'r' . str_pad($nextNum, 3, '0', STR_PAD_LEFT)`: at least four
      characters after any number, and rNNN of the number from 0 to 999. */
  function FormatRecordId(n: int): (s: string)
    ensures |s| >= 4 && s[0] == 'r'
    ensures 0 <= n <= 999 ==> IsRecordId(s) && IdNumber(s) == n
  {
    PaddedIsRecordId(n);
    "r" + StrPadLeft(IntToString(n), 3, '0')
  }

  lemma PaddedIsRecordId(n: int)
    ensures var s := "r" + StrPadLeft(IntToString(n), 3, '0');
            0 <= n <= 999 ==> IsRecordId(s) && IdNumber(s) == n
  {
    if 0 <= n <= 999 {
      PaddedDigits(n);
      PrefixedDigits(StrPadLeft(IntToString(n), 3, '0'));
    }
  }

  /** 'r' in front of three digits is an identifier numbered by their value. */
  lemma PrefixedDigits(d: string)
    requires |d| == 3 && AllDigits(d)
    ensures IsRecordId("r" + d) && IdNumber("r" + d) == DigitsValue(d)
  {
    var s := "r" + d;
    assert s[1] == d[0] && s[2] == d[1] && s[3] == d[2];
    ThreeDigitsValue(d);
  }

  lemma FormatIsRecordId(n: nat)
    requires n <= 999
    ensures FormatRecordId(n) == RecordId(n)
  {
    RecordIdOfNumber(FormatRecordId(n));
  }

  /** `str_pad` of a number below 1000 gives three digits spelling it. */
  lemma PaddedDigits(n: nat)
    requires n <= 999
    ensures var padded := StrPadLeft(IntToString(n), 3, '0');
            |padded| == 3 && AllDigits(padded) && DigitsValue(padded) == n
  {
    var digits := IntToString(n);
    NatToStringShort(n);
    assert StrPadLeft(digits, 3, '0') == Repeat('0', 3 - |digits|) + digits;
    ZeroPaddingKeepsValue(3 - |digits|, digits);
  }

  /** The next identifier, or the fatal limit message once the number would
      pass 999. */
  function GenerateNextRecordId(maxId: Option<string>): (r: Result<string, string>)
    ensures r.Failure? <==> NextNum(maxId) > 999
    ensures r.Failure? ==> r.error == LimitMessage
    ensures r.Success? ==> |r.value| >= 4 && r.value[0] == 'r'
    ensures r.Success? && NextNum(maxId) >= 0 ==> r.value == RecordId(NextNum(maxId))
  {
    var n := NextNum(maxId);
    if n > 999 then Failure(LimitMessage)
    else
      if n >= 0 then FormatIsRecordId(n); Success(FormatRecordId(n))
      else Success(FormatRecordId(n))
  }

  /** With no record (or a falsy maximum) numbering starts at r000. */
  lemma FirstRecordId(maxId: Option<string>)
    requires !PhpTruthy(maxId)
    ensures GenerateNextRecordId(maxId) == Success(RecordId(0))
    ensures RecordId(0) == "r000"
  {
  }

  /** The number after an identifier `rNNN` is NNN + 1, and r999 has no successor. */
  lemma NextAfter(n: nat)
    requires n <= 999
    ensures GenerateNextRecordId(Some(RecordId(n)))
            == if n < 999 then Success(RecordId(n + 1)) else Failure(LimitMessage)
  {
    NextNumAfter(RecordId(n));
  }

  /** `$nextNum` for a stored identifier rNNN is NNN + 1. */
  lemma NextNumAfter(id: string)
    requires IsRecordId(id)
    ensures NextNum(Some(id)) == IdNumber(id) + 1
  {
    assert PhpTruthy(Some(id)) by { assert |id| == 4; }
    IdDigitsValue(id);
  }

  /** Only what follows the first byte is read: a one-byte (ASCII) prefix is
      not checked. */
  lemma PrefixNotChecked(c: char, rest: string)
    requires c as int < 128 && rest != []
    ensures GenerateNextRecordId(Some([c] + rest)) == GenerateNextRecordId(Some("r" + rest))
  {
    var a, b := [c] + rest, "r" + rest;
    assert |a| >= 2 && |b| >= 2;
    assert PhpTruthy(Some(a)) && PhpTruthy(Some(b));
    assert a[1..] == rest && b[1..] == rest;
    assert NextNum(Some(a)) == NextNum(Some(b));
  }

  /** A one-character maximum leaves nothing to cast: "0" is falsy and gives
      r000, any other character counts as 0 and gives r001. */
  lemma SingleCharacterMaximum(c: char)
    ensures GenerateNextRecordId(Some([c])) == Success(if c == '0' then "r000" else "r001")
  {
    if c == '0' {
      assert [c] == "0";
      FirstRecordId(Some([c]));
    } else {
      assert [c][1..] == [] && PhpTruthy(Some([c]));
      assert NextNum(Some([c])) == 1;
      FormatIsRecordId(1);
      assert RecordId(1) == "r001";
    }
  }

  /** A negative suffix slips past the limit and str_pad keeps the sign:
      the maximum "r-5" yields "r0-4", which is not of the form rNNN. */
  lemma NegativeSuffix()
    ensures GenerateNextRecordId(Some("r-5")) == Success("r0-4")
    ensures !IsRecordId("r0-4")
  {
    var t := "r-5"[1..];
    assert t == "-5" && !IsPhpSpace(t[0]);
    assert SkipSpaces(t) == t;
    assert t[1..] == "5" && "5"[1..] == [];
    assert LeadingDigits(t[1..]) == "5";
    assert "5"[..0] == [];
    assert DigitsValue("5") == 5;
    assert IntCast(t) == -5;
    assert NextNum(Some("r-5")) == -4;
    assert NatToString(4) == "4";
    assert IntToString(-4) == "-4";
    assert StrPadLeft("-4", 3, '0') == "0-4";
    assert FormatRecordId(-4) == "r0-4";
    assert GenerateNextRecordId(Some("r-5")) == Success(FormatRecordId(-4));
    assert !IsDigit("r0-4"[2]);
  }

  // ---------------------------------------------------------------------------
  // SELECT MAX(record_id)

  /** The largest `record_id` under binary collation, or NULL on an empty table. */
  function MaxRecordId(rows: seq<HealthRecord>): (m: Option<string>)
    ensures m.None? <==> rows == []
    ensures m.Some? ==> exists i :: 0 <= i < |rows| && rows[i].recordId == m.value
    ensures m.Some? ==> forall i :: 0 <= i < |rows| ==> StrLe(rows[i].recordId, m.value)
  {
    if rows == [] then None
    else
      var last := rows[|rows| - 1].recordId;
      var m := MaxRecordId(rows[..|rows| - 1]);
      if m.None? then
        StrLeReflexive(last);
        Some(last)
      else if StrLe(m.value, last) then
        StrLeReflexive(last);
        forall i | 0 <= i < |rows| - 1 ensures StrLe(rows[i].recordId, last) {
          StrLeTransitive(rows[i].recordId, m.value, last);
        }
        Some(last)
      else
        StrLeTotal(m.value, last);
        Some(m.value)
  }

  /** On identifiers of the form rNNN the string order is the numeric order. */
  lemma RecordIdOrder(a: string, b: string)
    requires IsRecordId(a) && IsRecordId(b)
    ensures StrLe(a, b) <==> IdNumber(a) <= IdNumber(b)
  {
    var x, y := a[1..], b[1..];
    assert StrLe(a, b) == StrLe(x, y);
    var x2, y2 := x[1..][1..], y[1..][1..];
    assert x2 == [x[2]] && y2 == [y[2]] && x2[1..] == [] && y2[1..] == [];
    assert StrLe(x2, y2) <==> x[2] <= y[2];
    assert StrLe(x, y) <==> (x[0] < y[0] || (x[0] == y[0] && (x[1] < y[1] || (x[1] == y[1] && x[2] <= y[2]))));
  }

  // ---------------------------------------------------------------------------
  // The table

  /** Every identifier has the form rNNN and no two rows share one. */
  ghost predicate WellFormedTable(rows: seq<HealthRecord>)
  {
    (forall i :: 0 <= i < |rows| ==> IsRecordId(rows[i].recordId))
    && (forall i, j :: 0 <= i < j < |rows| ==> rows[i].recordId != rows[j].recordId)
  }

  /** The table built by this script alone from an empty one: r000, r001, ... */
  ghost predicate Sequential(rows: seq<HealthRecord>)
  {
    |rows| <= 1000
    && forall i :: 0 <= i < |rows| ==> IsRecordId(rows[i].recordId) && IdNumber(rows[i].recordId) == i
  }

  /** On well-formed identifiers MAX(record_id) is the numerically largest one. */
  lemma MaxIsNumericMax(rows: seq<HealthRecord>)
    requires rows != []
    requires forall i :: 0 <= i < |rows| ==> IsRecordId(rows[i].recordId)
    ensures IsRecordId(MaxRecordId(rows).value)
    ensures exists k :: 0 <= k < |rows| && rows[k].recordId == MaxRecordId(rows).value
    ensures forall i :: 0 <= i < |rows| ==> IdNumber(rows[i].recordId) <= IdNumber(MaxRecordId(rows).value)
  {
    var m := MaxRecordId(rows).value;
    var k :| 0 <= k < |rows| && rows[k].recordId == m;
    forall i | 0 <= i < |rows| ensures IdNumber(rows[i].recordId) <= IdNumber(m) {
      RecordIdOrder(rows[i].recordId, m);
    }
  }

  /** On a table of well-formed identifiers the next identifier is larger than
      every stored one, so it is new; allocation fails only when r999 is stored. */
  lemma NextIdExceedsAll(rows: seq<HealthRecord>)
    requires forall i :: 0 <= i < |rows| ==> IsRecordId(rows[i].recordId)
    ensures var next := GenerateNextRecordId(MaxRecordId(rows));
            && (next.Success? ==>
                  IsRecordId(next.value)
                  && forall i :: 0 <= i < |rows| ==> IdNumber(rows[i].recordId) < IdNumber(next.value))
            && (next.Failure? ==> exists i :: 0 <= i < |rows| && rows[i].recordId == RecordId(999))
  {
    if rows == [] {
      FirstRecordId(None);
      return;
    }
    MaxIsNumericMax(rows);
    var m := MaxRecordId(rows).value;
    var k :| 0 <= k < |rows| && rows[k].recordId == m;
    RecordIdOfNumber(m);
    var n := IdNumber(m);
    assert MaxRecordId(rows) == Some(RecordId(n));
    NextAfter(n);
    var next := GenerateNextRecordId(MaxRecordId(rows));
    if n < 999 {
      assert next == Success(RecordId(n + 1));
      assert IdNumber(next.value) == n + 1;
    } else {
      assert next.Failure?;
      assert rows[k].recordId == RecordId(n) && n == 999;
    }
  }

  lemma SequentialIsWellFormed(rows: seq<HealthRecord>)
    requires Sequential(rows)
    ensures WellFormedTable(rows)
  {
    forall i, j | 0 <= i < j < |rows| ensures rows[i].recordId != rows[j].recordId {
      assert IdNumber(rows[i].recordId) == i && IdNumber(rows[j].recordId) == j;
    }
  }

  /** In a sequential table the maximum is the last identifier handed out. */
  lemma SequentialMax(rows: seq<HealthRecord>)
    requires Sequential(rows) && rows != []
    ensures MaxRecordId(rows) == Some(RecordId(|rows| - 1))
  {
    var last := |rows| - 1;
    MaxIsNumericMax(rows);
    var m := MaxRecordId(rows).value;
    var k :| 0 <= k < |rows| && rows[k].recordId == m;
    assert IdNumber(m) == k;
    assert IdNumber(rows[last].recordId) == last;
    assert k == last;
    RecordIdOfNumber(m);
    assert MaxRecordId(rows) == Some(m);
  }

  lemma NextAfterMax(rows: seq<HealthRecord>, n: nat)
    requires n <= 999 && MaxRecordId(rows) == Some(RecordId(n))
    ensures GenerateNextRecordId(MaxRecordId(rows))
            == if n < 999 then Success(RecordId(n + 1)) else Failure(LimitMessage)
  {
    NextAfter(n);
  }

  /** Inserting into a sequential table of k rows allocates RecordId(k), until
      the thousandth row; then the limit is reached. */
  lemma SequentialNext(rows: seq<HealthRecord>)
    requires Sequential(rows)
    ensures GenerateNextRecordId(MaxRecordId(rows))
            == if |rows| < 1000 then Success(RecordId(|rows|)) else Failure(LimitMessage)
  {
    if rows == [] {
      assert MaxRecordId(rows) == None;
      FirstRecordId(None);
    } else {
      var last := |rows| - 1;
      assert MaxRecordId(rows) == Some(RecordId(last)) by {
        SequentialMax(rows);
      }
      NextAfterMax(rows, last);
    }
  }

  // ---------------------------------------------------------------------------
  // The script: allocate, insert, answer

  /** One run of the script against the rows stored now. `dbError` is the
      driver's message when the prepared INSERT fails to execute. */
  function RunInsert(rows: seq<HealthRecord>, symptom: string, detectedAt: string,
                     dbError: Option<string>): (out: InsertResult)
    ensures out.rows == rows || (|out.rows| == |rows| + 1 && out.rows[..|rows|] == rows)
    ensures |out.rows| == |rows| + 1 <==> GenerateNextRecordId(MaxRecordId(rows)).Success? && dbError.None?
    ensures |out.rows| == |rows| + 1 ==>
              var row := out.rows[|rows|];
              && row == HealthRecord(GenerateNextRecordId(MaxRecordId(rows)).value, symptom, detectedAt)
              && out.response == SuccessPrefix + row.recordId
    ensures GenerateNextRecordId(MaxRecordId(rows)).Failure? ==> out.response == LimitMessage
    ensures GenerateNextRecordId(MaxRecordId(rows)).Success? && dbError.Some? ==>
              out.response == "Error: " + InsertSql + "<br>" + dbError.value
  {
    match GenerateNextRecordId(MaxRecordId(rows))
    case Failure(message) => InsertResult(rows, message)
    case Success(recordId) =>
      match dbError
      case None =>
        InsertResult(rows + [HealthRecord(recordId, symptom, detectedAt)], SuccessPrefix + recordId)
      case Some(e) =>
        InsertResult(rows, "Error: " + InsertSql + "<br>" + e)
  }

  /** A run keeps the identifiers well-formed and distinct: the primary key
      is never violated by the allocator. */
  lemma InsertKeepsWellFormed(rows: seq<HealthRecord>, symptom: string,
                              detectedAt: string, dbError: Option<string>)
    requires WellFormedTable(rows)
    ensures WellFormedTable(RunInsert(rows, symptom, detectedAt, dbError).rows)
  {
    var out := RunInsert(rows, symptom, detectedAt, dbError);
    if |out.rows| == |rows| + 1 {
      NextIdExceedsAll(rows);
      var row := out.rows[|rows|];
      assert out.rows == rows + [row];
      AppendLargerKeepsWellFormed(rows, row);
    }
  }

  lemma AppendLargerKeepsWellFormed(rows: seq<HealthRecord>, row: HealthRecord)
    requires WellFormedTable(rows) && IsRecordId(row.recordId)
    requires forall i :: 0 <= i < |rows| ==> IdNumber(rows[i].recordId) < IdNumber(row.recordId)
    ensures WellFormedTable(rows + [row])
  {
    var t := rows + [row];
    forall i, j | 0 <= i < j < |t| ensures t[i].recordId != t[j].recordId {
      if j == |rows| {
        assert IdNumber(t[i].recordId) < IdNumber(t[j].recordId);
      }
    }
  }

  /** Runs from an empty table hand out r000, r001, r002, ... in order. */
  lemma InsertKeepsSequential(rows: seq<HealthRecord>, symptom: string,
                              detectedAt: string, dbError: Option<string>)
    requires Sequential(rows)
    ensures Sequential(RunInsert(rows, symptom, detectedAt, dbError).rows)
  {
    var out := RunInsert(rows, symptom, detectedAt, dbError);
    if |out.rows| == |rows| + 1 {
      var row := out.rows[|rows|];
      assert |rows| < 1000 && row.recordId == RecordId(|rows|) by {
        SequentialNext(rows);
      }
      assert out.rows == rows + [row];
      AppendKeepsSequential(rows, row);
    }
  }

  lemma AppendKeepsSequential(rows: seq<HealthRecord>, row: HealthRecord)
    requires Sequential(rows) && |rows| < 1000 && row.recordId == RecordId(|rows|)
    ensures Sequential(rows + [row])
  {
    var t := rows + [row];
    forall i | 0 <= i < |t| ensures IsRecordId(t[i].recordId) && IdNumber(t[i].recordId) == i {
      if i < |rows| {
        assert t[i] == rows[i];
      }
    }
  }

  /** The `heath_record` table, changed in place by the script. */
  class HealthRecordTable {
    var rows: seq<HealthRecord>

    constructor (existing: seq<HealthRecord>)
      ensures rows == existing
    {
      rows := existing;
    }

    /** The script body: `generateNextRecordId`, the prepared INSERT, the echo. */
    method Insert(symptom: string, detectedAt: string, dbError: Option<string>)
      returns (response: string)
      modifies this
      ensures InsertResult(rows, response) == RunInsert(old(rows), symptom, detectedAt, dbError)
      ensures WellFormedTable(old(rows)) ==> WellFormedTable(rows)
      ensures Sequential(old(rows)) ==> Sequential(rows)
    {
      if WellFormedTable(rows) {
        InsertKeepsWellFormed(rows, symptom, detectedAt, dbError);
      }
      if Sequential(rows) {
        InsertKeepsSequential(rows, symptom, detectedAt, dbError);
      }
      var next := GenerateNextRecordId(MaxRecordId(rows));
      if next.Failure? {
        response := next.error;
        return;
      }
      var recordId := next.value;
      if dbError.Some? {
        response := "Error: " + InsertSql + "<br>" + dbError.value;
      } else {
        rows := rows + [HealthRecord(recordId, symptom, detectedAt)];
        response := SuccessPrefix + recordId;
      }
    }
  }
}
