/** The helper logic of the ticket import page
    (src/app/admin/tickets/import/page.tsx): column detection on the parsed
    CSV, matching rows against the roster, the quantity and duplicate flags,
    the row selection, and the expansion of the selected rows by quantity
    into the payload of `POST /api/register-participants`. */
module TicketImport {
  import opened Common
  import opened Text
  import opened Schema
  import CsvParser
  import RegisterParticipants

  const IdKeywords: seq<string> := ["id", "番号", "コード"]
  const NameKeywords: seq<string> := ["name", "名前", "氏名"]
  const PriceKeywords: seq<string> := ["price", "金額", "値段", "product", "商品"]
  const QuantityKeywords: seq<string> := ["枚数", "個数", "数量", "qty", "quantity", "count"]

  /** The lower-cased header contains one of the keywords. */
  predicate Mentions(h: string, keywords: seq<string>)
  {
    Any(keywords, (kw: string) => Contains(ToLower(h), kw))
  }

  /** `headers[i]`, undefined past the end. */
  function At(headers: seq<string>, i: nat): (h: Option<string>)
    ensures h.Some? <==> i < |headers|
    ensures h.Some? ==> h.value == headers[i]
  {
    if i < |headers| then Some(headers[i]) else None
  }

  /** The column chosen for one role. */
  datatype Columns = Columns(id: Option<string>, name: Option<string>, price: Option<string>, quantity: Option<string>)

  /** The column of a role: the last header mentioning one of the role's
      keywords, and the default when none does. */
  function Role(headers: seq<string>, keywords: seq<string>, default: Option<string>): (c: Option<string>)
    ensures (forall i :: 0 <= i < |headers| ==> !Mentions(headers[i], keywords)) ==> c == default
    ensures forall i :: (0 <= i < |headers| && Mentions(headers[i], keywords)
      && forall j :: i < j < |headers| ==> !Mentions(headers[j], keywords)) ==> c == Some(headers[i])
  {
    match LastIndex(headers, (h: string) => Mentions(h, keywords))
    case None => default
    case Some(i) => Some(headers[i])
  }

  /** The columns the page settles on: id, name and price default to the
      first three headers, the quantity column to none. */
  function ColumnsOf(headers: seq<string>): Columns
  {
    Columns(
      Role(headers, IdKeywords, At(headers, 0)),
      Role(headers, NameKeywords, At(headers, 1)),
      Role(headers, PriceKeywords, At(headers, 2)),
      Role(headers, QuantityKeywords, None))
  }

  /** Role of a prefix one header longer. */
  lemma RoleStep(headers: seq<string>, k: nat, keywords: seq<string>, default: Option<string>)
    requires k < |headers|
    ensures Role(headers[..k + 1], keywords, default)
      == if Mentions(headers[k], keywords) then Some(headers[k]) else Role(headers[..k], keywords, default)
  {
    assert headers[..k + 1][..k] == headers[..k];
  }

  /** The `headers.forEach` that refines the defaults. */
  method DetectColumns(headers: seq<string>) returns (cols: Columns)
    ensures cols == ColumnsOf(headers)
  {
    var idCol, nameCol, priceCol := At(headers, 0), At(headers, 1), At(headers, 2);
    var quantityCol: Option<string> := None;
    for k := 0 to |headers|
      invariant idCol == Role(headers[..k], IdKeywords, At(headers, 0))
      invariant nameCol == Role(headers[..k], NameKeywords, At(headers, 1))
      invariant priceCol == Role(headers[..k], PriceKeywords, At(headers, 2))
      invariant quantityCol == Role(headers[..k], QuantityKeywords, None)
    {
      var h := headers[k];
      RoleStep(headers, k, IdKeywords, At(headers, 0));
      RoleStep(headers, k, NameKeywords, At(headers, 1));
      RoleStep(headers, k, PriceKeywords, At(headers, 2));
      RoleStep(headers, k, QuantityKeywords, None);
      if Mentions(h, IdKeywords) { idCol := Some(h); }
      if Mentions(h, NameKeywords) { nameCol := Some(h); }
      if Mentions(h, PriceKeywords) { priceCol := Some(h); }
      if Mentions(h, QuantityKeywords) { quantityCol := Some(h); }
    }
    assert headers[..|headers|] == headers;
    cols := Columns(idCol, nameCol, priceCol, quantityCol);
  }

  /** Whatever the headers, a header "ID" is picked as the id column when no
      later header mentions an id keyword. */
  lemma UpperCaseIdHeader(headers: seq<string>, i: nat)
    requires i < |headers| && headers[i] == "ID"
    requires forall j :: i < j < |headers| ==> !Mentions(headers[j], IdKeywords)
    ensures ColumnsOf(headers).id == Some("ID")
  {
    assert ToLower("ID") == "id";
    assert OccursAt(ToLower("ID"), "id", 0);
    assert IdKeywords[0] == "id";
  }

  /** `row[col]?.trim() || ''`. A missing cell and an empty one are both
      the empty string. */
  function CellText(row: CsvParser.Row, col: string): (v: string)
    ensures col !in row.values ==> v == ""
    ensures col in row.values ==> v == Trim(row.values[col])
  {
    if col in row.values then Trim(row.values[col]) else ""
  }

  /** `quantityCol ? (parseInt(row[quantityCol]) || 1) : 1`. */
  function Quantity(row: CsvParser.Row, quantityCol: Option<string>): (q: int)
    ensures q != 0
    ensures !Present(quantityCol) || quantityCol.value !in row.values ==> q == 1
  {
    if Present(quantityCol) && quantityCol.value in row.values then
      match ParseInt(row.values[quantityCol.value])
      case Some(n) => if n == 0 then 1 else n
      case None => 1
    else 1
  }

  /** A quantity cell holding the decimal text of a positive number yields
      that number. */
  lemma QuantityOfDecimal(row: CsvParser.Row, col: string, n: nat)
    requires col != "" && col in row.values && row.values[col] == NatToDecimal(n) && n > 0
    ensures Quantity(row, Some(col)) == n
  {
    ParseIntOfDigits(NatToDecimal(n));
    DecimalValue(n);
  }

  /** A quantity cell that is not a number, or is zero, counts as one ticket. */
  lemma QuantityDefaultsToOne(row: CsvParser.Row, col: string)
    requires col in row.values
    requires ParseInt(row.values[col]).None? || ParseInt(row.values[col]) == Some(0)
    ensures Quantity(row, Some(col)) == 1
  {
  }

  /** A roster record matches a row by an equal non-empty employee id or by
      an equal name. */
  predicate MatchesMaster(m: MasterRecord, employeeId: string, name: string)
  {
    (m.employeeId != "" && employeeId != "" && m.employeeId == employeeId) || m.name == name
  }

  /** A participation already registered for the chosen event, with its
      joined roster record's employee id. */
  datatype Existing = Existing(
    name: Option<string>,
    companyCode: Option<string>,
    masterDataId: Option<Id>,
    masterEmployeeId: Option<string>)

  datatype Membership = Member | Guest

  /** One prepared row; `index` is its position in the CSV data (`_id`). */
  datatype MatchedRow = MatchedRow(
    index: nat,
    name: string,
    employeeId: string,
    price: string,
    email: string,
    quantity: int,
    masterDataId: Option<Id>,
    status: Membership,
    isDuplicate: bool)

  /** The duplicate flag computed when the file is read. */
  predicate InitialDuplicate(existing: seq<Existing>, name: string, employeeId: string, master: Option<MasterRecord>)
  {
    Any(existing, (ep: Existing) =>
      || ep.name == Some(name)
      || (employeeId != "" && ep.companyCode == Some(employeeId))
      || (master.Some? && ep.masterDataId == Some(master.value.id)))
  }

  /** The duplicate flag the recheck computes, which also compares the
      joined roster record's employee id. */
  predicate RecheckDuplicate(existing: seq<Existing>, row: MatchedRow)
  {
    Any(existing, (ep: Existing) =>
      || ep.name == Some(row.name)
      || (row.employeeId != "" && ep.companyCode == Some(row.employeeId))
      || (row.employeeId != "" && ep.masterEmployeeId == Some(row.employeeId))
      || (row.masterDataId.Some? && ep.masterDataId == row.masterDataId))
  }

  /** The row built from CSV row `index`, given detected name and price columns. */
  function MatchRow(existing: seq<Existing>, master: seq<MasterRecord>, cols: Columns,
                    row: CsvParser.Row, index: nat): (r: MatchedRow)
    requires Present(cols.name) && Present(cols.price)
    ensures r.index == index
    ensures r.name == CellText(row, cols.name.value) && r.price == CellText(row, cols.price.value)
    ensures r.employeeId == if Present(cols.id) then CellText(row, cols.id.value) else ""
    ensures r.quantity == Quantity(row, cols.quantity)
    ensures r.status == Member <==> exists m :: m in master && MatchesMaster(m, r.employeeId, r.name)
    ensures r.status == Guest ==> r.email == "" && r.masterDataId == None
    ensures r.status == Member ==> exists k ::
      && 0 <= k < |master| && MatchesMaster(master[k], r.employeeId, r.name)
      && (forall j :: 0 <= j < k ==> !MatchesMaster(master[j], r.employeeId, r.name))
      && r.masterDataId == Some(master[k].id)
      && r.email == (if Present(master[k].email) then master[k].email.value else "")
  {
    var name := CellText(row, cols.name.value);
    var employeeId := if Present(cols.id) then CellText(row, cols.id.value) else "";
    var price := CellText(row, cols.price.value);
    var masterMatch := Find(master, (m: MasterRecord) => MatchesMaster(m, employeeId, name));
    MatchedRow(
      index,
      name,
      employeeId,
      price,
      if masterMatch.Some? && Present(masterMatch.value.email) then masterMatch.value.email.value else "",
      Quantity(row, cols.quantity),
      if masterMatch.Some? then Some(masterMatch.value.id) else None,
      if masterMatch.Some? then Member else Guest,
      InitialDuplicate(existing, name, employeeId, masterMatch))
  }

  /** `data.map((row, index) => ...)`. */
  function MatchRows(existing: seq<Existing>, master: seq<MasterRecord>, cols: Columns,
                     data: seq<CsvParser.Row>): (rows: seq<MatchedRow>)
    requires Present(cols.name) && Present(cols.price)
    ensures |rows| == |data|
    ensures forall i :: 0 <= i < |data| ==> rows[i] == MatchRow(existing, master, cols, data[i], i)
  {
    seq(|data|, i requires 0 <= i < |data| => MatchRow(existing, master, cols, data[i], i))
  }

  /** Every row flagged when the file is read is still flagged by the
      recheck against the same participations: the recheck only adds flags. */
  lemma InitialImpliesRecheck(existing: seq<Existing>, master: seq<MasterRecord>, cols: Columns,
                              row: CsvParser.Row, index: nat)
    requires Present(cols.name) && Present(cols.price)
    ensures MatchRow(existing, master, cols, row, index).isDuplicate ==>
      RecheckDuplicate(existing, MatchRow(existing, master, cols, row, index))
  {
  }

  /** Row indices `0 .. n - 1`. */
  function Indices(n: nat): (s: set<nat>)
    ensures forall i: int :: i in s <==> 0 <= i < n
  {
    if n == 0 then {} else Indices(n - 1) + {n - 1}
  }

  lemma {:induction false} IndicesSize(n: nat)
    ensures |Indices(n)| == n
  {
    if n > 0 {
      IndicesSize(n - 1);
    }
  }

  /** A subset is no larger than its superset. */
  lemma {:induction false} SubsetSize(a: set<nat>, b: set<nat>)
    requires a <= b
    ensures |a| <= |b|
    decreases |a|
  {
    if a != {} {
      var y :| y in a;
      SubsetSize(a - {y}, b - {y});
    }
  }

  /** A subset as large as its superset is the superset. */
  lemma {:induction false} SubsetOfSameSize(a: set<nat>, b: set<nat>)
    requires a <= b && |a| == |b|
    ensures a == b
  {
    if a != b {
      var x :| x in b && x !in a;
      SubsetSize(a, b - {x});
    }
  }

  /** Selecting every index of `n` rows is the same as selecting `n` of them. */
  lemma AllSelectedBySize(sel: set<nat>, n: nat)
    requires forall i :: i in sel ==> i < n
    ensures |sel| == n <==> sel == Indices(n)
  {
    IndicesSize(n);
    if |sel| == n {
      SubsetOfSameSize(sel, Indices(n));
    }
  }

  /** The ids of the rows not flagged duplicate. */
  function UnflaggedIds(rows: seq<MatchedRow>): (s: set<nat>)
    ensures forall i :: 0 <= i < |rows| && !rows[i].isDuplicate ==> rows[i].index in s
    ensures forall x :: x in s ==> exists i :: 0 <= i < |rows| && !rows[i].isDuplicate && rows[i].index == x
  {
    set i | 0 <= i < |rows| && !rows[i].isDuplicate :: rows[i].index
  }

  /** When every row's id is its position, the unflagged ids are exactly the
      positions of the unflagged rows. */
  lemma UnflaggedPositions(rows: seq<MatchedRow>)
    requires forall i :: 0 <= i < |rows| ==> rows[i].index == i
    ensures forall i: int :: i in UnflaggedIds(rows) <==> 0 <= i < |rows| && !rows[i].isDuplicate
  {
  }

  /** Matched rows are numbered by their position in the data. */
  lemma MatchRowsIndexed(existing: seq<Existing>, master: seq<MasterRecord>, cols: Columns,
                         data: seq<CsvParser.Row>)
    requires Present(cols.name) && Present(cols.price)
    ensures forall i :: 0 <= i < |data| ==> MatchRows(existing, master, cols, data)[i].index == i
  {
  }

  /** The ids of the rows flagged duplicate. */
  function FlaggedIds(rows: seq<MatchedRow>): (s: set<nat>)
    ensures forall i :: 0 <= i < |rows| && rows[i].isDuplicate ==> rows[i].index in s
    ensures forall x :: x in s ==> exists i :: 0 <= i < |rows| && rows[i].isDuplicate && rows[i].index == x
  {
    set i | 0 <= i < |rows| && rows[i].isDuplicate :: rows[i].index
  }

  /** `updated`: the rows with their recomputed duplicate flags. */
  function Rechecked(existing: seq<Existing>, rows: seq<MatchedRow>): (r: seq<MatchedRow>)
    ensures |r| == |rows|
    ensures forall i :: 0 <= i < |rows| ==>
      r[i] == rows[i].(isDuplicate := RecheckDuplicate(existing, rows[i]))
  {
    seq(|rows|, i requires 0 <= i < |rows| => rows[i].(isDuplicate := RecheckDuplicate(existing, rows[i])))
  }

  /** The duplicate flags, the sequence the recheck compares. */
  function Flags(rows: seq<MatchedRow>): (f: seq<bool>)
    ensures |f| == |rows| && forall i :: 0 <= i < |rows| ==> f[i] == rows[i].isDuplicate
  {
    seq(|rows|, i requires 0 <= i < |rows| => rows[i].isDuplicate)
  }

  /** `selectedRows` after `toggleRow(id)`. */
  function Toggled(sel: set<nat>, id: nat): (r: set<nat>)
    ensures id in r <==> id !in sel
    ensures forall j :: j != id ==> (j in r <==> j in sel)
  {
    if id in sel then sel - {id} else sel + {id}
  }

  /** Toggling the same row twice restores the selection. */
  lemma ToggleTwice(sel: set<nat>, id: nat)
    ensures Toggled(Toggled(sel, id), id) == sel
  {
  }

  /** `matchedData.filter((_, i) => selectedRows.has(i))`. */
  function Chosen(rows: seq<MatchedRow>, sel: set<nat>): (r: seq<MatchedRow>)
    ensures |r| <= |rows|
  {
    if rows == [] then []
    else Chosen(rows[..|rows| - 1], sel) + (if |rows| - 1 in sel then [rows[|rows| - 1]] else [])
  }

  /** Each chosen row is a selected row, and every selected row is chosen. */
  lemma {:induction false} ChosenSpec(rows: seq<MatchedRow>, sel: set<nat>)
    ensures forall r :: r in Chosen(rows, sel) ==> exists i :: 0 <= i < |rows| && i in sel && rows[i] == r
    ensures forall i :: 0 <= i < |rows| && i in sel ==> rows[i] in Chosen(rows, sel)
  {
    if rows != [] {
      var n := |rows| - 1;
      ChosenSpec(rows[..n], sel);
      forall r | r in Chosen(rows, sel)
        ensures exists i :: 0 <= i < |rows| && i in sel && rows[i] == r
      {
        if r in Chosen(rows[..n], sel) {
          var i :| 0 <= i < n && i in sel && rows[..n][i] == r;
          assert rows[i] == r;
        }
      }
      forall i | 0 <= i < |rows| && i in sel
        ensures rows[i] in Chosen(rows, sel)
      {
        if i < n {
          assert rows[..n][i] == rows[i];
        }
      }
    }
  }

  /** Selecting every row chooses all of them, in order. */
  lemma {:induction false} ChosenAll(rows: seq<MatchedRow>, sel: set<nat>)
    requires forall i :: 0 <= i < |rows| ==> i in sel
    ensures Chosen(rows, sel) == rows
  {
    if rows != [] {
      var n := |rows| - 1;
      ChosenAll(rows[..n], sel);
      assert rows[..n] + [rows[n]] == rows;
    }
  }

  /** One copy of a row, as pushed into `expandedParticipants`. */
  datatype Copy = Copy(row: MatchedRow, copyIndex: nat)

  /** `Math.max(1, p.quantity)`. */
  function CopyCount(r: MatchedRow): (n: nat)
    ensures n >= 1 && n >= r.quantity
    ensures r.quantity >= 1 ==> n == r.quantity
  {
    if r.quantity > 1 then r.quantity else 1
  }

  /** Copies `0 .. n - 1` of a row. */
  function Copies(r: MatchedRow, n: nat): (c: seq<Copy>)
    ensures |c| == n && forall i :: 0 <= i < n ==> c[i] == Copy(r, i)
  {
    seq(n, i requires 0 <= i < n => Copy(r, i))
  }

  /** The expansion of the chosen rows: each row's copies, rows in order. */
  function Expansion(rows: seq<MatchedRow>): seq<Copy>
  {
    if rows == [] then []
    else Expansion(rows[..|rows| - 1]) + Copies(rows[|rows| - 1], CopyCount(rows[|rows| - 1]))
  }

  /** The number of tickets the selected rows stand for. */
  function TotalCopies(rows: seq<MatchedRow>): nat
  {
    if rows == [] then 0 else TotalCopies(rows[..|rows| - 1]) + CopyCount(rows[|rows| - 1])
  }

  /** The payload has one entry per ticket, and at least one per row. */
  lemma {:induction false} ExpansionLength(rows: seq<MatchedRow>)
    ensures |Expansion(rows)| == TotalCopies(rows) >= |rows|
  {
    if rows != [] {
      ExpansionLength(rows[..|rows| - 1]);
    }
  }

  /** Expanding a concatenation expands each part in turn: rows keep their order. */
  lemma {:induction false} ExpansionAppend(a: seq<MatchedRow>, b: seq<MatchedRow>)
    ensures Expansion(a + b) == Expansion(a) + Expansion(b)
    decreases |b|
  {
    if b == [] {
      assert a + b == a;
    } else {
      var n := |b| - 1;
      var last := Copies(b[n], CopyCount(b[n]));
      assert (a + b)[..|a + b| - 1] == a + b[..n];
      assert (a + b)[|a + b| - 1] == b[n];
      assert Expansion(a + b) == Expansion(a + b[..n]) + last;
      ExpansionAppend(a, b[..n]);
      assert Expansion(b) == Expansion(b[..n]) + last;
      assert Expansion(a + b) == Expansion(a) + Expansion(b[..n]) + last;
    }
  }

  /** Every copy is of some chosen row, with an index below the row's count. */
  lemma {:induction false} ExpansionCopies(rows: seq<MatchedRow>)
    ensures forall c :: c in Expansion(rows) ==> c.row in rows && c.copyIndex < CopyCount(c.row)
  {
    if rows != [] {
      var n := |rows| - 1;
      ExpansionCopies(rows[..n]);
      assert forall r :: r in rows[..n] ==> r in rows;
    }
  }

  predicate IsFirstCopy(c: Copy)
  {
    c.copyIndex == 0
  }

  function RowOfCopy(c: Copy): MatchedRow
  {
    c.row
  }

  /** Of one row's copies only the first is a first copy. */
  lemma FirstOfCopies(r: MatchedRow)
    ensures Filter(Copies(r, CopyCount(r)), IsFirstCopy) == [Copy(r, 0)]
  {
    var cs := Copies(r, CopyCount(r));
    assert cs == [cs[0]] + cs[1..];
    FilterAppend([cs[0]], cs[1..], IsFirstCopy);
    FilterSingleton(cs[0], IsFirstCopy);
    FilterNone(cs[1..], IsFirstCopy);
  }

  /** The first copies of the rows are those of all rows but the last,
      then the last row's first copy. */
  lemma FirstCopiesOfLast(rows: seq<MatchedRow>)
    requires rows != []
    ensures Filter(Expansion(rows), IsFirstCopy) ==
      Filter(Expansion(rows[..|rows| - 1]), IsFirstCopy) + [Copy(rows[|rows| - 1], 0)]
  {
    var r := rows[|rows| - 1];
    FilterAppend(Expansion(rows[..|rows| - 1]), Copies(r, CopyCount(r)), IsFirstCopy);
    FirstOfCopies(r);
  }

  /** Keeping the first copy of each row gives the chosen rows back. */
  lemma {:induction false} FirstCopiesAreRows(rows: seq<MatchedRow>)
    ensures Map(Filter(Expansion(rows), IsFirstCopy), RowOfCopy) == rows
  {
    if rows != [] {
      var n := |rows| - 1;
      FirstCopiesAreRows(rows[..n]);
      FirstCopiesOfLast(rows);
      MapAppend(Filter(Expansion(rows[..n]), IsFirstCopy), Copy(rows[n], 0), RowOfCopy);
      LastSplit(rows);
    }
  }

  /** The nested loop of `handleRegister` that pushes `max(1, quantity)`
      copies of each chosen row, numbered from 0. */
  method ExpandRows(target: seq<MatchedRow>) returns (expanded: seq<Copy>)
    ensures expanded == Expansion(target)
  {
    expanded := [];
    for k := 0 to |target|
      invariant expanded == Expansion(target[..k])
    {
      var p := target[k];
      var count := if p.quantity > 1 then p.quantity else 1;
      ghost var before := expanded;
      for i := 0 to count
        invariant expanded == before + Copies(p, i)
      {
        assert Copies(p, i + 1) == Copies(p, i) + [Copy(p, i)];
        expanded := expanded + [Copy(p, i)];
      }
      assert target[..k + 1][..k] == target[..k];
    }
    assert target[..|target|] == target;
  }

  /** The participant the route receives for one copy: the row's fields
      under the names the route reads. */
  function ToRegistrant(c: Copy): (p: RegisterParticipants.Registrant)
    ensures p.name == Some(c.row.name) && p.email == Some(c.row.email)
    ensures p.employeeId == Some(c.row.employeeId) && p.price == Some(c.row.price)
    ensures p.masterDataId == c.row.masterDataId
  {
    RegisterParticipants.Registrant(Some(c.row.name), Some(c.row.email), Some(c.row.employeeId),
                                    Some(c.row.price), c.row.masterDataId)
  }

  datatype LoadResult = Loaded | EmptyFile | MissingColumns

  datatype RegisterResult = NoEventChosen | NothingSelected | Submitted(payload: seq<RegisterParticipants.Registrant>)

  /** The page's state: the roster, the chosen event's participations, the
      prepared rows and the selected row ids. */
  class ImportPage {
    var master: seq<MasterRecord>
    var existing: seq<Existing>
    var matched: seq<MatchedRow>
    var selected: set<nat>

    /** Each row's id is its position, and only row ids are selected. */
    ghost predicate Valid()
      reads this
    {
      && (forall i :: 0 <= i < |matched| ==> matched[i].index == i)
      && (forall i :: i in selected ==> i < |matched|)
    }

    constructor (master: seq<MasterRecord>, existing: seq<Existing>)
      ensures this.master == master && this.existing == existing
      ensures matched == [] && selected == {}
      ensures Valid()
    {
      this.master, this.existing := master, existing;
      matched, selected := [], {};
    }

    /** `handleFileChange` from the parsed rows on: nothing changes for an
        empty file or when no name or price column is found; otherwise every
        row is matched and the rows not flagged duplicate are selected. */
    method LoadFile(data: seq<CsvParser.Row>) returns (r: LoadResult)
      modifies this`matched, this`selected
      ensures r == EmptyFile <==> data == []
      ensures r == MissingColumns <==>
        data != [] && !(Present(ColumnsOf(data[0].keys).name) && Present(ColumnsOf(data[0].keys).price))
      ensures r != Loaded ==> matched == old(matched) && selected == old(selected)
      ensures r == Loaded ==>
        && var cols := ColumnsOf(data[0].keys);
        && Present(cols.name) && Present(cols.price)
        && matched == MatchRows(existing, master, cols, data)
        && (forall i :: i in selected <==> 0 <= i < |matched| && !matched[i].isDuplicate)
        && Valid()
    {
      if data == [] {
        return EmptyFile;
      }
      var cols := DetectColumns(data[0].keys);
      if !Present(cols.name) || !Present(cols.price) {
        return MissingColumns;
      }
      Load(data, cols);
      r := Loaded;
    }

    /** The rows of a file whose columns were found, every unflagged row
        selected. */
    method Load(data: seq<CsvParser.Row>, cols: Columns)
      requires Present(cols.name) && Present(cols.price)
      modifies this`matched, this`selected
      ensures matched == MatchRows(existing, master, cols, data)
      ensures forall i :: i in selected <==> 0 <= i < |matched| && !matched[i].isDuplicate
      ensures Valid()
    {
      matched := MatchRows(existing, master, cols, data);
      MatchRowsIndexed(existing, master, cols, data);
      UnflaggedPositions(matched);
      selected := UnflaggedIds(matched);
    }

    /** The effect that recomputes the duplicate flags: when some flag
        changed, the rows take the new flags and every row now flagged is
        deselected. */
    method Recheck()
      modifies this`matched, this`selected
      ensures var updated := Rechecked(existing, old(matched));
        if old(matched) != [] && Flags(old(matched)) != Flags(updated) then
          matched == updated && selected == old(selected) - FlaggedIds(updated)
        else
          matched == old(matched) && selected == old(selected)
      ensures selected <= old(selected)
      ensures old(Valid()) ==> Valid()
    {
      if |matched| > 0 {
        var updated := Rechecked(existing, matched);
        if Flags(matched) != Flags(updated) {
          matched := updated;
          var newSelected := Deselect(selected, updated);
          if |newSelected| != |selected| {
            selected := newSelected;
          } else {
            SubsetOfSameSize(newSelected, selected);
          }
        }
      }
    }

    /** `toggleRow(id)`. */
    method ToggleRow(id: nat)
      modifies this`selected
      ensures selected == Toggled(old(selected), id)
      ensures old(Valid()) && id < |matched| ==> Valid()
    {
      if id in selected {
        selected := selected - {id};
      } else {
        selected := selected + {id};
      }
    }

    /** `toggleAll`: clears a selection as large as the rows, and otherwise
        selects every row. */
    method ToggleAll()
      modifies this`selected
      ensures old(|selected|) == |matched| ==> selected == {}
      ensures old(|selected|) != |matched| ==> selected == Indices(|matched|)
      ensures old(Valid()) ==> Valid()
      ensures old(Valid()) ==> (selected == {} <==> old(selected) == Indices(|matched|))
    {
      if Valid() {
        AllSelectedBySize(selected, |matched|);
      }
      if |selected| == |matched| {
        selected := {};
      } else {
        selected := Indices(|matched|);
      }
    }

    /** `handleRegister` up to the request: an event must be chosen and a
        row selected; the payload is the expansion of the chosen rows. When
        the route answers with success, `accepted`, the rows and the
        selection are cleared. */
    method Register(eventId: string, accepted: bool) returns (r: RegisterResult)
      modifies this`matched, this`selected
      ensures eventId == "" <==> r == NoEventChosen
      ensures r == NothingSelected <==> eventId != "" && old(selected) == {}
      ensures r.Submitted? ==>
        r.payload == Map(Expansion(Chosen(old(matched), old(selected))), ToRegistrant)
      ensures r.Submitted? && accepted ==> matched == [] && selected == {}
      ensures !(r.Submitted? && accepted) ==> matched == old(matched) && selected == old(selected)
    {
      if eventId == "" {
        return NoEventChosen;
      }
      if |selected| == 0 {
        return NothingSelected;
      }
      var target := Chosen(matched, selected);
      var expanded := ExpandRows(target);
      r := Submitted(Map(expanded, ToRegistrant));
      if accepted {
        matched, selected := [], {};
      }
    }
  }

  /** The `forEach` that deletes every flagged row's id from a copy of the
      selection. */
  method Deselect(selected: set<nat>, updated: seq<MatchedRow>) returns (newSelected: set<nat>)
    ensures newSelected == selected - FlaggedIds(updated)
  {
    newSelected := selected;
    for k := 0 to |updated|
      invariant newSelected == selected - FlaggedIds(updated[..k])
    {
      assert FlaggedIds(updated[..k + 1]) ==
        FlaggedIds(updated[..k]) + (if updated[k].isDuplicate then {updated[k].index} else {}) by {
        assert forall i :: 0 <= i < k ==> updated[..k + 1][i] == updated[..k][i];
      }
      if updated[k].isDuplicate {
        newSelected := newSelected - {updated[k].index};
      }
    }
    assert updated[..|updated|] == updated;
  }
}
