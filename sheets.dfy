/** The contacts spreadsheet: a worksheet of rows of cells, a header row
    followed by one row per user, looked up by the Telegram id in the third
    column and numbered in the first. */
module SheetsService {
  import opened Common

  const YES: string := "Да"
  const NO: string := "Нет"
  /** The cells of a row the service writes. */
  const ROW_WIDTH: nat := 10
  /** The header row of a worksheet the service creates. */
  const HEADER: seq<string> := ["№", "Дата", "Telegram ID", "Username", "Имя (Telegram)", "Имя (контакт)",
                                "Телефон", "Подписан", "Участник", "Рефералов подтверждено"]

  /** The worksheet: its rows in order, the header first. */
  class Worksheet {
    var rows: seq<seq<string>>

    constructor (rows0: seq<seq<string>>)
      ensures rows == rows0
    {
      rows := rows0;
    }
  }

  /** The values `add_contact` receives. */
  datatype SheetContact = SheetContact(
    tgUserId: int,
    username: Option<string>,
    telegramFirstName: Option<string>,
    telegramLastName: Option<string>,
    contactName: Option<string>,
    contactPhone: Option<string>,
    isSubscribed: bool,
    isParticipant: bool,
    referralsConfirmed: int)

  // ---------------------------------------------------------------------
  // Looking a user up

  /** The row's third cell is the user's id. */
  predicate HasKey(row: seq<string>, key: string) {
    |row| > 2 && row[2] == key
  }

  /** The first row from `start` on whose third cell is `key`. */
  function FirstKeyRow(rows: seq<seq<string>>, key: string, start: nat): (r: Option<nat>)
    requires start <= |rows|
    decreases |rows| - start
    ensures r.Some? ==> start <= r.value < |rows| && HasKey(rows[r.value], key)
    ensures r.Some? ==> forall i :: start <= i < r.value ==> !HasKey(rows[i], key)
    ensures r.None? <==> forall i :: start <= i < |rows| ==> !HasKey(rows[i], key)
  {
    if start == |rows| then None
    else if HasKey(rows[start], key) then Some(start)
    else FirstKeyRow(rows, key, start + 1)
  }

  /** The loop over the rows from `start` on that stops at the first match. */
  method ScanRows(rows: seq<seq<string>>, key: string, start: nat) returns (found: Option<nat>)
    requires start <= |rows|
    ensures found == FirstKeyRow(rows, key, start)
  {
    var i := start;
    while i < |rows|
      invariant start <= i <= |rows|
      invariant FirstKeyRow(rows, key, start) == FirstKeyRow(rows, key, i)
    {
      if HasKey(rows[i], key) {
        return Some(i);
      }
      i := i + 1;
    }
    return None;
  }

  /** An id is never the header's "Telegram ID", so the header is never
      taken for a user's row. */
  lemma HeaderHasNoKey(tgUserId: int)
    ensures !HasKey(HEADER, IntToString(tgUserId))
  {
    var s := IntToString(tgUserId);
    assert HEADER[2][0] == 'T';
  }

  /** The search over the whole column and the search over the data rows
      agree on a sheet that starts with the header. */
  lemma SearchSkipsHeader(rows: seq<seq<string>>, tgUserId: int)
    requires |rows| >= 1 && rows[0] == HEADER
    ensures FirstKeyRow(rows, IntToString(tgUserId), 0) == FirstKeyRow(rows, IntToString(tgUserId), 1)
  {
    HeaderHasNoKey(tgUserId);
  }

  /** When the search over the column finds nothing, the second search over
      the data rows finds nothing either. */
  lemma FallbackSearchAgrees(rows: seq<seq<string>>, key: string)
    requires |rows| > 1 && FirstKeyRow(rows, key, 0).None?
    ensures FirstKeyRow(rows, key, 1).None?
  {
  }

  /** The row the two searches of `add_contact` settle on. */
  method LocateRow(ws: Worksheet, key: string) returns (rowIndex: Option<nat>)
    ensures rowIndex == FirstKeyRow(ws.rows, key, 0)
  {
    rowIndex := ScanRows(ws.rows, key, 0);
    if rowIndex.None? {
      var allValues := ws.rows;
      if |allValues| > 1 {
        rowIndex := ScanRows(allValues, key, 1);
        FallbackSearchAgrees(allValues, key);
      }
    }
  }

  // ---------------------------------------------------------------------
  // Numbering

  /** The first cell of every row, "" for an empty row. */
  function ColumnA(rows: seq<seq<string>>): (col: seq<string>)
    ensures |col| == |rows|
    ensures forall i :: 0 <= i < |rows| ==> col[i] == (if |rows[i]| > 0 then rows[i][0] else "")
  {
    seq(|rows|, i requires 0 <= i < |rows| => if |rows[i]| > 0 then rows[i][0] else "")
  }

  /** The largest numeric serial among `values`, 0 when there is none. */
  function MaxSerial(values: seq<string>): (m: nat)
    ensures forall i :: 0 <= i < |values| && IsDigitString(values[i]) ==> DigitsValue(values[i]) <= m
    ensures m == 0 || exists i :: 0 <= i < |values| && IsDigitString(values[i]) && DigitsValue(values[i]) == m
  {
    if values == [] then 0
    else
      var rest := MaxSerial(values[..|values| - 1]);
      var last := values[|values| - 1];
      if IsDigitString(last) && DigitsValue(last) > rest then DigitsValue(last) else rest
  }

  /** The serial of a new row: "1" on a sheet with only the header, otherwise
      one more than the largest numeric serial under it. */
  function NextSerial(colA: seq<string>): (s: string)
    ensures IsDigitString(s)
  {
    if |colA| <= 1 then "1" else NatToString(MaxSerial(colA[1..]) + 1)
  }

  /** The new serial is larger than every numeric serial already there, so it
      repeats none of them. */
  lemma NextSerialIsFresh(colA: seq<string>)
    ensures forall i :: 1 <= i < |colA| && IsDigitString(colA[i]) ==> DigitsValue(colA[i]) < DigitsValue(NextSerial(colA))
    ensures |colA| > 1 ==> DigitsValue(NextSerial(colA)) == MaxSerial(colA[1..]) + 1
  {
    if |colA| > 1 {
      DigitsOfNatToString(MaxSerial(colA[1..]) + 1);
      assert forall i :: 1 <= i < |colA| ==> colA[i] == colA[1..][i - 1];
    } else {
      assert DigitsValue("1") == DigitsValue("") * 10 + 1;
    }
  }

  /** Blank cells are not numeric serials, so they never change the largest. */
  lemma {:induction false} MaxSerialIgnoresBlanks(values: seq<string>, blanks: seq<string>)
    requires forall k :: 0 <= k < |blanks| ==> blanks[k] == ""
    ensures MaxSerial(values + blanks) == MaxSerial(values)
    decreases |blanks|
  {
    if blanks == [] {
      assert values + blanks == values;
    } else {
      var shorter := blanks[..|blanks| - 1];
      assert (values + blanks)[..|values + blanks| - 1] == values + shorter;
      assert (values + blanks)[|values + blanks| - 1] == "";
      MaxSerialIgnoresBlanks(values, shorter);
    }
  }

  /** `col_values(1)` leaves out the blank cells after the last filled one,
      which `ColumnA` keeps; the next serial is the same either way. */
  lemma NextSerialIgnoresTrailingBlanks(colA: seq<string>, blanks: seq<string>)
    requires forall k :: 0 <= k < |blanks| ==> blanks[k] == ""
    ensures NextSerial(colA + blanks) == NextSerial(colA)
  {
    var full := colA + blanks;
    if |colA| > 1 {
      assert full[1..] == colA[1..] + blanks;
      MaxSerialIgnoresBlanks(colA[1..], blanks);
    } else if |full| > 1 {
      var tail := full[1..];
      assert forall k :: 0 <= k < |tail| ==> tail[k] == "";
      MaxSerialIgnoresBlanks([], tail);
      assert [] + tail == tail;
      assert NatToString(1) == "1";
    }
  }

  /** The loop that keeps the largest numeric serial it has seen. */
  lemma MaxSerialStep(values: seq<string>, i: nat)
    requires i < |values|
    ensures MaxSerial(values[..i + 1]) ==
      if IsDigitString(values[i]) && DigitsValue(values[i]) > MaxSerial(values[..i]) then DigitsValue(values[i])
      else MaxSerial(values[..i])
  {
    assert values[..i + 1][..i] == values[..i];
  }

  method NextSerialNumber(colA: seq<string>) returns (serial: string)
    ensures serial == NextSerial(colA)
  {
    serial := "1";
    if |colA| > 1 {
      var values := colA[1..];
      var maxNum: nat := 0;
      var i := 0;
      while i < |values|
        invariant 0 <= i <= |values|
        invariant maxNum == MaxSerial(values[..i])
      {
        MaxSerialStep(values, i);
        var v := values[i];
        if IsDigitString(v) && DigitsValue(v) > maxNum {
          maxNum := DigitsValue(v);
        }
        i := i + 1;
      }
      assert values[..i] == values;
      serial := NatToString(maxNum + 1);
    }
  }

  /** An updated row keeps its serial when it is numeric; otherwise it gets
      its position under the header. */
  function ExistingSerial(row: seq<string>, rowIndex: nat): (s: string)
    ensures |row| > 0 && IsDigitString(row[0]) ==> s == row[0]
    ensures IsDigitString(s)
  {
    if |row| > 0 && IsDigitString(row[0]) then row[0] else NatToString(rowIndex)
  }

  // ---------------------------------------------------------------------
  // Building a row

  function FlagCell(b: bool): (c: string)
    ensures c == YES || c == NO
  {
    if b then YES else NO
  }

  /** The first name, with the last name after a space only when there is a
      first name. */
  function TelegramName(firstName: Option<string>, lastName: Option<string>): (name: string)
    ensures name == "" <==> !Truthy(firstName)
    ensures |name| == (if !Truthy(firstName) then 0
                       else if Truthy(lastName) then |firstName.value| + 1 + |lastName.value|
                       else |firstName.value|)
    ensures Truthy(firstName) ==> name[..|firstName.value|] == firstName.value
  {
    if !Truthy(firstName) then ""
    else if Truthy(lastName) then firstName.value + " " + lastName.value
    else firstName.value
  }

  function OrEmpty(s: Option<string>): (r: string)
    ensures s.Some? ==> r == s.value
    ensures s.None? ==> r == ""
  {
    if s.Some? then s.value else ""
  }

  /** The ten cells of a user's row. */
  function BuildRow(serial: string, currentDate: string, c: SheetContact): (row: seq<string>)
    ensures |row| == ROW_WIDTH
    ensures row[0] == serial && HasKey(row, IntToString(c.tgUserId))
  {
    [serial, currentDate, IntToString(c.tgUserId), OrEmpty(c.username),
     TelegramName(c.telegramFirstName, c.telegramLastName),
     OrEmpty(c.contactName), OrEmpty(c.contactPhone),
     FlagCell(c.isSubscribed), FlagCell(c.isParticipant), IntToString(c.referralsConfirmed)]
  }

  /** The id, the flags and the counter read back from a built row. */
  lemma BuildRowReadsBack(serial: string, currentDate: string, c: SheetContact)
    ensures var row := BuildRow(serial, currentDate, c);
      && ParseInt(row[2]) == Some(c.tgUserId)
      && (row[7] == YES <==> c.isSubscribed)
      && (row[8] == YES <==> c.isParticipant)
      && ParseInt(row[9]) == Some(c.referralsConfirmed)
  {
    ParseIntOfIntToString(c.tgUserId);
    ParseIntOfIntToString(c.referralsConfirmed);
  }

  /** Writing ten cells over a row: the cells beyond the tenth stay. */
  function OverwriteRow(existing: seq<string>, row: seq<string>): (r: seq<string>)
    requires |row| == ROW_WIDTH
    ensures |r| == if |existing| > ROW_WIDTH then |existing| else ROW_WIDTH
    ensures r[..ROW_WIDTH] == row
    ensures forall k :: ROW_WIDTH <= k < |r| ==> r[k] == existing[k]
  {
    if |existing| > ROW_WIDTH then row + existing[ROW_WIDTH..] else row
  }

  // ---------------------------------------------------------------------
  // Writing contacts

  /** The rows with this id in the third cell. */
  function KeyCount(rows: seq<seq<string>>, key: string): nat {
    if rows == [] then 0
    else KeyCount(rows[..|rows| - 1], key) + (if HasKey(rows[|rows| - 1], key) then 1 else 0)
  }

  lemma {:induction false} KeyCountAppend(rows: seq<seq<string>>, row: seq<string>, key: string)
    ensures KeyCount(rows + [row], key) == KeyCount(rows, key) + (if HasKey(row, key) then 1 else 0)
  {
    assert (rows + [row])[..|rows|] == rows;
  }

  lemma {:induction false} KeyCountNone(rows: seq<seq<string>>, key: string)
    requires forall i :: 0 <= i < |rows| ==> !HasKey(rows[i], key)
    ensures KeyCount(rows, key) == 0
  {
    if rows != [] {
      KeyCountNone(rows[..|rows| - 1], key);
    }
  }

  lemma {:induction false} KeyCountReplace(rows: seq<seq<string>>, i: nat, row: seq<string>, key: string)
    requires i < |rows| && HasKey(rows[i], key) && HasKey(row, key)
    ensures KeyCount(rows[i := row], key) == KeyCount(rows, key)
  {
    if i < |rows| - 1 {
      assert rows[i := row][..|rows| - 1] == rows[..|rows| - 1][i := row];
      KeyCountReplace(rows[..|rows| - 1], i, row, key);
    } else {
      assert rows[i := row][..|rows| - 1] == rows[..|rows| - 1];
    }
  }

  /** What a successful `add_contact` leaves: the matching row overwritten in
      place, or a new row at the end. */
  function Upserted(rows: seq<seq<string>>, c: SheetContact, currentDate: string): (r: seq<seq<string>>)
    ensures var m := FirstKeyRow(rows, IntToString(c.tgUserId), 0);
      && (m.Some? ==> |r| == |rows| && forall i :: 0 <= i < |rows| && i != m.value ==> r[i] == rows[i])
      && (m.None? ==> |r| == |rows| + 1 && r[..|rows|] == rows)
      && HasKey(r[if m.Some? then m.value else |rows|], IntToString(c.tgUserId))
  {
    match FirstKeyRow(rows, IntToString(c.tgUserId), 0)
    case Some(i) =>
      rows[i := OverwriteRow(rows[i], BuildRow(ExistingSerial(rows[i], i), currentDate, c))]
    case None =>
      assert (rows + [BuildRow(NextSerial(ColumnA(rows)), currentDate, c)])[..|rows|] == rows;
      rows + [BuildRow(NextSerial(ColumnA(rows)), currentDate, c)]
  }

  /** An upsert never makes a second row for a user: the number of rows with
      the id becomes 1 when there was none and stays as it was otherwise. */
  lemma UpsertKeepsOneRowPerUser(rows: seq<seq<string>>, c: SheetContact, currentDate: string)
    ensures var key := IntToString(c.tgUserId);
      KeyCount(Upserted(rows, c, currentDate), key) == if KeyCount(rows, key) == 0 then 1 else KeyCount(rows, key)
  {
    var key := IntToString(c.tgUserId);
    match FirstKeyRow(rows, key, 0)
    case Some(i) =>
      var row := OverwriteRow(rows[i], BuildRow(ExistingSerial(rows[i], i), currentDate, c));
      assert HasKey(row, key) by {
        assert row[..ROW_WIDTH][2] == row[2];
      }
      KeyCountReplace(rows, i, row, key);
      assert KeyCount(rows, key) != 0 by {
        KeyCountPositive(rows, i, key);
      }
    case None =>
      KeyCountNone(rows, key);
      KeyCountAppend(rows, BuildRow(NextSerial(ColumnA(rows)), currentDate, c), key);
  }

  lemma {:induction false} KeyCountPositive(rows: seq<seq<string>>, i: nat, key: string)
    requires i < |rows| && HasKey(rows[i], key)
    ensures KeyCount(rows, key) > 0
  {
    if i < |rows| - 1 {
      KeyCountPositive(rows[..|rows| - 1], i, key);
    }
  }

  /** `add_contact`. `ws` is the worksheet the service could open, or null;
      `enabled` is whether the integration is configured. */
  method AddContact(ws: Worksheet?, enabled: bool, c: SheetContact, currentDate: string) returns (ok: bool)
    modifies ws
    ensures ok <==> enabled && Truthy(c.contactName) && Truthy(c.contactPhone) && ws != null
    ensures ws != null && !ok ==> ws.rows == old(ws.rows)
    ensures ok ==> ws.rows == Upserted(old(ws.rows), c, currentDate)
  {
    if !enabled {
      return false;
    }
    if !Truthy(c.contactName) || !Truthy(c.contactPhone) {
      return false;
    }
    if ws == null {
      return false;
    }
    var key := IntToString(c.tgUserId);
    var rowIndex := LocateRow(ws, key);
    var telegramName := TelegramName(c.telegramFirstName, c.telegramLastName);
    var serialNumber: string;
    if rowIndex.Some? {
      serialNumber := ExistingSerial(ws.rows[rowIndex.value], rowIndex.value);
    } else {
      serialNumber := NextSerialNumber(ColumnA(ws.rows));
    }
    var row := BuildRow(serialNumber, currentDate, c);
    if rowIndex.Some? {
      ws.rows := ws.rows[rowIndex.value := OverwriteRow(ws.rows[rowIndex.value], row)];
    } else {
      ws.rows := ws.rows + [row];
    }
    ok := true;
  }

  /** The optional new values of `update_contact`. */
  datatype ContactUpdate = ContactUpdate(
    contactName: Option<string>,
    contactPhone: Option<string>,
    isSubscribed: Option<bool>,
    isParticipant: Option<bool>,
    referralsConfirmed: Option<int>)

  /** Cell `k` (0-based) set to `v` when a value is given and the row has
      that cell. */
  function SetIfPresent(row: seq<string>, k: nat, v: Option<string>): (r: seq<string>)
    ensures |r| == |row|
    ensures forall j :: 0 <= j < |row| && j != k ==> r[j] == row[j]
    ensures k < |row| ==> r[k] == if v.Some? then v.value else row[k]
  {
    if v.Some? && |row| > k then row[k := v.value] else row
  }

  function MapFlag(b: Option<bool>): (r: Option<string>)
    ensures r.Some? <==> b.Some?
    ensures b.Some? ==> r.value == FlagCell(b.value)
  {
    if b.Some? then Some(FlagCell(b.value)) else None
  }

  function MapCount(n: Option<int>): (r: Option<string>)
    ensures r.Some? <==> n.Some?
    ensures n.Some? ==> r.value == IntToString(n.value)
  {
    if n.Some? then Some(IntToString(n.value)) else None
  }

  /** The number of cells of the widest row. */
  function SheetWidth(rows: seq<seq<string>>): (w: nat)
    ensures forall i :: 0 <= i < |rows| ==> |rows[i]| <= w
    ensures rows != [] ==> exists i :: 0 <= i < |rows| && |rows[i]| == w
  {
    if rows == [] then 0
    else
      var rest := SheetWidth(rows[..|rows| - 1]);
      var last := |rows[|rows| - 1]|;
      if last > rest then last else rest
  }

  /** `get_all_values` fills every row with blank cells up to the width of
      the widest one; a row and the same row with blank cells after it are
      the same content of the sheet. */
  function PadRow(row: seq<string>, w: nat): (r: seq<string>)
    ensures |r| == if |row| < w then w else |row|
    ensures r[..|row|] == row
    ensures forall j :: |row| <= j < |r| ==> r[j] == ""
  {
    if |row| < w then row + seq(w - |row|, _ => "") else row
  }

  /** The row after `update_contact`: columns 6 to 10 overwritten where a
      value is given and the row reaches that far; nothing else changes. */
  function PatchRow(row: seq<string>, u: ContactUpdate): (r: seq<string>)
    ensures |r| == |row|
    ensures forall j :: 0 <= j < |row| && (j < 5 || j >= ROW_WIDTH) ==> r[j] == row[j]
    ensures 5 < |row| ==> r[5] == if u.contactName.Some? then u.contactName.value else row[5]
    ensures 6 < |row| ==> r[6] == if u.contactPhone.Some? then u.contactPhone.value else row[6]
    ensures 7 < |row| ==> r[7] == if u.isSubscribed.Some? then FlagCell(u.isSubscribed.value) else row[7]
    ensures 8 < |row| ==> r[8] == if u.isParticipant.Some? then FlagCell(u.isParticipant.value) else row[8]
    ensures 9 < |row| ==> r[9] == if u.referralsConfirmed.Some? then IntToString(u.referralsConfirmed.value) else row[9]
  {
    var r1 := SetIfPresent(row, 5, u.contactName);
    var r2 := SetIfPresent(r1, 6, u.contactPhone);
    var r3 := SetIfPresent(r2, 7, MapFlag(u.isSubscribed));
    var r4 := SetIfPresent(r3, 8, MapFlag(u.isParticipant));
    SetIfPresent(r4, 9, MapCount(u.referralsConfirmed))
  }

  /** `update_contact`: only an existing data row is changed, and the id cell
      with it stays, so the user keeps their row. The length guards of the
      column updates see the row as `get_all_values` returns it, filled with
      blank cells up to the width of the sheet. */
  method UpdateContact(ws: Worksheet?, enabled: bool, tgUserId: int, u: ContactUpdate) returns (ok: bool)
    modifies ws
    ensures ws == null || !enabled ==> !ok
    ensures ws != null && enabled ==>
      var m := if |old(ws.rows)| == 0 then None else FirstKeyRow(old(ws.rows), IntToString(tgUserId), 1);
      && (ok <==> m.Some?)
      && ws.rows == if m.Some? then old(ws.rows)[m.value := PatchRow(PadRow(old(ws.rows)[m.value], SheetWidth(old(ws.rows))), u)] else old(ws.rows)
    ensures ws != null && !ok ==> ws.rows == old(ws.rows)
    ensures ws != null ==> |ws.rows| == |old(ws.rows)|
    ensures ws != null ==> KeyCount(ws.rows, IntToString(tgUserId)) == KeyCount(old(ws.rows), IntToString(tgUserId))
  {
    if !enabled || ws == null {
      return false;
    }
    var allValues := ws.rows;
    if |allValues| == 0 {
      return false;
    }
    var key := IntToString(tgUserId);
    var idx := ScanRows(allValues, key, 1);
    if idx.None? {
      return false;
    }
    var row := PadRow(allValues[idx.value], SheetWidth(allValues));
    assert row[2] == row[..|allValues[idx.value]|][2];
    var patched := PatchRow(row, u);
    assert HasKey(patched, key);
    KeyCountReplace(allValues, idx.value, patched, key);
    ws.rows := allValues[idx.value := patched];
    ok := true;
  }

  /** Under a header of the full width, every value given to `update_contact`
      lands in its column, however short the user's own row is. */
  lemma UpdateReachesEveryColumn(rows: seq<seq<string>>, m: nat, u: ContactUpdate)
    requires 0 <= m < |rows| && |rows[0]| >= ROW_WIDTH
    ensures var r := PatchRow(PadRow(rows[m], SheetWidth(rows)), u);
      && |r| >= ROW_WIDTH
      && (u.contactName.Some? ==> r[5] == u.contactName.value)
      && (u.contactPhone.Some? ==> r[6] == u.contactPhone.value)
      && (u.isSubscribed.Some? ==> r[7] == FlagCell(u.isSubscribed.value))
      && (u.isParticipant.Some? ==> r[8] == FlagCell(u.isParticipant.value))
      && (u.referralsConfirmed.Some? ==> r[9] == IntToString(u.referralsConfirmed.value))
  {
  }
}
