/**
 The contact store and its append-only journal (rigflow-log/src/store.rs). Tables are
 sequences in row-id order and maps; a transaction either happens or does not.
 */
module LogStore {
  import opened Wrappers
  import opened Adif
  import opened AdifRoundTrip
  import opened Model
  import opened QsoRecord

  datatype Row = Row(id: int, qso: Qso)

  datatype ServiceRow = ServiceRow(uploadedAt: Option<string>, confirmedAt: Option<string>)

  type Services = map<(int, string), ServiceRow>

  /** A confirmation to record against a stored contact. */
  datatype Confirmation = Confirmation(qsoId: int, service: string, confirmedAt: Option<string>)

  /** How a journal append ends: on disk, on disk but not synced, or not even opened. */
  datatype Disk = Fine | SyncFails | OpenFails

  /** The tables, and the bytes of the journal file if it exists. */
  datatype Log = Log(rows: seq<Row>, services: Services, journal: Option<string>)

  datatype StoreError = ForeignKey

  const EMPTY := Log([], map[], None)

  // ---- rows --------------------------------------------------------------------

  predicate Ascending(rows: seq<Row>) {
    && (forall i :: 0 <= i < |rows| ==> rows[i].id > 0)
    && (forall i, j :: 0 <= i < j < |rows| ==> rows[i].id < rows[j].id)
  }

  predicate HasId(rows: seq<Row>, id: int) {
    exists i :: 0 <= i < |rows| && rows[i].id == id
  }

  /** Row ids ascend, and every service row belongs to a contact. */
  predicate Valid(log: Log) {
    Ascending(log.rows) && forall key | key in log.services :: HasId(log.rows, key.0)
  }

  /** The id SQLite gives a new row: one more than the largest. */
  function NextId(rows: seq<Row>): int {
    if rows == [] then 1 else rows[|rows| - 1].id + 1
  }

  function AddRows(rows: seq<Row>, qsos: seq<Qso>): seq<Row>
    decreases |qsos|
  {
    if qsos == [] then rows else AddRows(rows + [Row(NextId(rows), qsos[0])], qsos[1..])
  }

  function Snapshots(qsos: seq<Qso>, station: Station): (r: seq<Qso>)
    ensures |r| == |qsos|
  {
    if qsos == [] then [] else [WithStationSnapshot(qsos[0], station)] + Snapshots(qsos[1..], station)
  }

  function Records(qsos: seq<Qso>): (r: seq<AdifRecord>)
    ensures |r| == |qsos|
    ensures forall i :: 0 <= i < |qsos| ==> r[i] == ToRecord(qsos[i])
  {
    if qsos == [] then [] else [ToRecord(qsos[0])] + Records(qsos[1..])
  }

  // ---- the journal ---------------------------------------------------------------

  /** The file after appending `qsos`; the first append creates it with its header. */
  function Appended(journal: Option<string>, qsos: seq<Qso>, disk: Disk): Option<string> {
    if qsos == [] || disk == OpenFails then journal
    else
      var before := match journal case Some(bytes) => bytes case None => AdifHeader();
      Some(before + WriteAll(Records(qsos)))
  }

  function AppendReported(qsos: seq<Qso>, disk: Disk): bool {
    qsos == [] || disk == Fine
  }

  // ---- the operations ------------------------------------------------------------

  function Confirm(services: Services, c: Confirmation): Services {
    var key := (c.qsoId, c.service);
    var uploaded := if key in services then services[key].uploadedAt else None;
    services[key := ServiceRow(uploaded, c.confirmedAt)]
  }

  function ConfirmAll(services: Services, cs: seq<Confirmation>): Services
    decreases |cs|
  {
    if cs == [] then services else ConfirmAll(Confirm(services, cs[0]), cs[1..])
  }

  function Inserted(log: Log, qso: Qso, station: Station, disk: Disk): Log {
    var q := WithStationSnapshot(qso, station);
    log.(rows := AddRows(log.rows, [q]), journal := Appended(log.journal, [q], disk))
  }

  /** Whether every confirmation names a row that is there once the new rows are in. */
  predicate ForeignKeysHold(log: Log, qsos: seq<Qso>, cs: seq<Confirmation>, station: Station) {
    var rows := AddRows(log.rows, Snapshots(qsos, station));
    forall i :: 0 <= i < |cs| ==> HasId(rows, cs[i].qsoId)
  }

  function Committed(log: Log, qsos: seq<Qso>, cs: seq<Confirmation>, station: Station, disk: Disk): Log {
    if ForeignKeysHold(log, qsos, cs, station) then
      var staged := Snapshots(qsos, station);
      Log(AddRows(log.rows, staged), ConfirmAll(log.services, cs), Appended(log.journal, staged, disk))
    else log
  }

  function RemoveId(rows: seq<Row>, id: int): seq<Row> {
    if rows == [] then []
    else (if rows[0].id == id then [] else [rows[0]]) + RemoveId(rows[1..], id)
  }

  /** Deleting a contact cascades to its service rows; the journal keeps it. */
  function Deleted(log: Log, id: int): Log {
    log.(rows := RemoveId(log.rows, id),
         services := map key | key in log.services && key.0 != id :: log.services[key])
  }

  function UpdateId(rows: seq<Row>, id: int, q: Qso): (r: seq<Row>)
    ensures |r| == |rows| && forall i :: 0 <= i < |rows| ==> r[i].id == rows[i].id
  {
    if rows == [] then []
    else [if rows[0].id == id then Row(id, q) else rows[0]] + UpdateId(rows[1..], id, q)
  }

  function Updated(log: Log, id: int, qso: Qso): Log {
    log.(rows := UpdateId(log.rows, id, Normalized(qso)))
  }

  function Upload(services: Services, ids: seq<int>, service: string, now: string): Services
    decreases |ids|
  {
    if ids == [] then services
    else
      var key := (ids[0], service);
      var confirmed := if key in services then services[key].confirmedAt else None;
      Upload(services[key := ServiceRow(Some(now), confirmed)], ids[1..], service, now)
  }

  function Uploaded(log: Log, ids: seq<int>, service: string, now: string): Log {
    if forall i :: 0 <= i < |ids| ==> HasId(log.rows, ids[i])
    then log.(services := Upload(log.services, ids, service, now))
    else log
  }

  // ---- the store object ------------------------------------------------------------

  class Store {
    var rows: seq<Row>
    var services: Services
    var journal: Option<string>

    ghost function State(): Log
      reads this
    {
      Log(rows, services, journal)
    }

    constructor ()
      ensures State() == EMPTY
    {
      rows, services, journal := [], map[], None;
    }

    /** Log one contact: the row first, then its journal record. */
    method Insert(qso: Qso, station: Station, disk: Disk) returns (id: int, journalAppended: bool)
      modifies this
      ensures State() == Inserted(old(State()), qso, station, disk)
      ensures id == NextId(old(rows)) && journalAppended == (disk == Fine)
    {
      var q := WithStationSnapshot(qso, station);
      id := InsertRow(q);
      assert AddRows(old(rows) + [Row(id, q)], [q][1..]) == rows;
      journalAppended := AppendJournal([q], disk);
    }

    method InsertRow(q: Qso) returns (id: int)
      modifies this`rows
      ensures id == NextId(old(rows)) && rows == old(rows) + [Row(id, q)]
    {
      id := if |rows| == 0 then 1 else rows[|rows| - 1].id + 1;
      rows := rows + [Row(id, q)];
    }

    /** One transaction for contacts and confirmations, then one journal write. */
    method CommitImport(qsos: seq<Qso>, confirmations: seq<Confirmation>, station: Station, disk: Disk)
      returns (r: Result<(nat, nat, bool), StoreError>)
      modifies this
      ensures State() == Committed(old(State()), qsos, confirmations, station, disk)
      ensures r == if ForeignKeysHold(old(State()), qsos, confirmations, station)
                   then Ok((|qsos|, |confirmations|, AppendReported(qsos, disk))) else Err(ForeignKey)
    {
      if qsos == [] && confirmations == [] {
        return Ok((0, 0, true));
      }
      var staged := Snapshots(qsos, station);
      var rows0, services0 := rows, services;
      StageRows(staged);
      var ok := StageConfirmations(confirmations);
      if !ok {
        rows, services := rows0, services0;
        return Err(ForeignKey);
      }
      var appended := AppendJournal(staged, disk);
      r := Ok((|staged|, |confirmations|, appended));
    }

    method StageRows(staged: seq<Qso>)
      modifies this`rows
      ensures rows == AddRows(old(rows), staged)
    {
      for k := 0 to |staged|
        invariant AddRows(rows, staged[k..]) == AddRows(old(rows), staged)
      {
        assert staged[k..][1..] == staged[k + 1..];
        var id := InsertRow(staged[k]);
      }
    }

    /** Upsert every confirmation; a missing contact fails the whole transaction. */
    method StageConfirmations(cs: seq<Confirmation>) returns (ok: bool)
      modifies this`services
      ensures ok <==> forall i :: 0 <= i < |cs| ==> HasId(rows, cs[i].qsoId)
      ensures ok ==> services == ConfirmAll(old(services), cs)
    {
      for k := 0 to |cs|
        invariant ConfirmAll(services, cs[k..]) == ConfirmAll(old(services), cs)
        invariant forall i :: 0 <= i < k ==> HasId(rows, cs[i].qsoId)
      {
        assert cs[k..][1..] == cs[k + 1..];
        if !HasId(rows, cs[k].qsoId) {
          return false;
        }
        RecordConfirmation(cs[k]);
      }
      ok := true;
    }

    /** Upsert on `(contact, service)`: the upload date of an existing row stays. */
    method RecordConfirmation(c: Confirmation)
      modifies this`services
      ensures services == Confirm(old(services), c)
    {
      var key := (c.qsoId, c.service);
      if key in services {
        services := services[key := services[key].(confirmedAt := c.confirmedAt)];
      } else {
        services := services[key := ServiceRow(None, c.confirmedAt)];
      }
    }

    method AppendJournal(qsos: seq<Qso>, disk: Disk) returns (ok: bool)
      modifies this`journal
      ensures journal == Appended(old(journal), qsos, disk) && ok == AppendReported(qsos, disk)
    {
      if qsos == [] {
        return true;
      }
      if disk == OpenFails {
        return false;
      }
      var buf := Render(journal.None?, qsos);
      journal := Some(if journal.Some? then journal.value + buf else buf);
      ok := disk == Fine;
    }

    /** The text of one append: the header when the file is new, then every record. */
    method Render(isNew: bool, qsos: seq<Qso>) returns (buf: string)
      ensures buf == if isNew then AdifHeader() + WriteAll(Records(qsos)) else WriteAll(Records(qsos))
    {
      hide WriteRecord, ToRecord, WriteAll, AdifHeader;
      buf := if isNew then AdifHeader() else "";
      ghost var header := buf;
      for k := 0 to |qsos|
        invariant buf + WriteAll(Records(qsos[k..])) == header + WriteAll(Records(qsos))
      {
        WriteOneMore(qsos, k);
        buf := buf + WriteRecord(ToRecord(qsos[k]));
      }
      assert WriteAll(Records(qsos[|qsos|..])) == "" by {
        WriteNothing();
        assert qsos[|qsos|..] == [];
      }
      assert buf == header + WriteAll(Records(qsos));
    }

    method DeleteQso(id: int) returns (removed: bool)
      modifies this
      ensures State() == Deleted(old(State()), id) && removed == HasId(old(rows), id)
    {
      removed := HasId(rows, id);
      rows := RemoveId(rows, id);
      services := map key | key in services && key.0 != id :: services[key];
    }

    method UpdateQso(id: int, qso: Qso)
      modifies this`rows
      ensures State() == Updated(old(State()), id, qso)
    {
      var q := NormalizeFields(qso);
      rows := UpdateId(rows, id, q);
    }

    method MarkUploaded(ids: seq<int>, service: string, now: string) returns (ok: bool)
      modifies this`services
      ensures State() == Uploaded(old(State()), ids, service, now)
      ensures ok <==> forall i :: 0 <= i < |ids| ==> HasId(rows, ids[i])
    {
      var services0 := services;
      for k := 0 to |ids|
        invariant Upload(services, ids[k..], service, now) == Upload(services0, ids, service, now)
        invariant forall i :: 0 <= i < k ==> HasId(rows, ids[i])
      {
        assert ids[k..][1..] == ids[k + 1..];
        if !HasId(rows, ids[k]) {
          services := services0;
          return false;
        }
        var key := (ids[k], service);
        var confirmed := if key in services then services[key].confirmedAt else None;
        services := services[key := ServiceRow(Some(now), confirmed)];
      }
      ok := true;
    }
  }

  lemma WriteNothing()
    ensures WriteAll(Records([])) == ""
  {
  }

  lemma WriteOneMore(qsos: seq<Qso>, k: nat)
    requires k < |qsos|
    ensures WriteAll(Records(qsos[k..])) == WriteRecord(ToRecord(qsos[k])) + WriteAll(Records(qsos[k + 1..]))
  {
    hide WriteRecord, ToRecord;
    assert qsos[k..][1..] == qsos[k + 1..];
    assert Records(qsos[k..])[1..] == Records(qsos[k + 1..]);
  }

  // ---- whole runs ------------------------------------------------------------------

  datatype Op =
    | Insert(qso: Qso, station: Station, disk: Disk)
    | CommitImport(qsos: seq<Qso>, confirmations: seq<Confirmation>, station: Station, disk: Disk)
    | DeleteQso(id: int)
    | UpdateQso(id: int, qso: Qso)
    | MarkUploaded(ids: seq<int>, service: string, now: string)

  function Apply(log: Log, op: Op): Log {
    match op
    case Insert(q, s, disk) => Inserted(log, q, s, disk)
    case CommitImport(qs, cs, s, disk) => Committed(log, qs, cs, s, disk)
    case DeleteQso(id) => Deleted(log, id)
    case UpdateQso(id, q) => Updated(log, id, q)
    case MarkUploaded(ids, service, now) => Uploaded(log, ids, service, now)
  }

  function Run(log: Log, ops: seq<Op>): Log
    decreases |ops|
  {
    if ops == [] then log else Run(Apply(log, ops[0]), ops[1..])
  }

  /** The contacts an operation logs, as they are stored. */
  function Logs(log: Log, op: Op): seq<Qso> {
    match op
    case Insert(q, s, _) => [WithStationSnapshot(q, s)]
    case CommitImport(qs, cs, s, _) => if ForeignKeysHold(log, qs, cs, s) then Snapshots(qs, s) else []
    case _ => []
  }

  /** Those of them whose bytes reach the journal. */
  function Journals(log: Log, op: Op): seq<Qso> {
    if (op.Insert? || op.CommitImport?) && op.disk == OpenFails then [] else Logs(log, op)
  }

  function Journaled(log: Log, ops: seq<Op>): seq<Qso>
    decreases |ops|
  {
    if ops == [] then [] else Journals(log, ops[0]) + Journaled(Apply(log, ops[0]), ops[1..])
  }

  function BytesFor(qsos: seq<Qso>): Option<string> {
    if qsos == [] then None else Some(AdifHeader() + WriteAll(Records(qsos)))
  }

  lemma {:induction false} WriteAllAppend(xs: seq<AdifRecord>, ys: seq<AdifRecord>)
    ensures WriteAll(xs + ys) == WriteAll(xs) + WriteAll(ys)
    decreases |xs|
  {
    hide WriteRecord;
    if xs == [] {
      assert xs + ys == ys;
    } else {
      assert (xs + ys)[1..] == xs[1..] + ys;
      WriteAllAppend(xs[1..], ys);
    }
  }

  lemma {:induction false} RecordsAppend(xs: seq<Qso>, ys: seq<Qso>)
    ensures Records(xs + ys) == Records(xs) + Records(ys)
  {
    hide ToRecord;
  }

  lemma AppendedBytes(logged: seq<Qso>, qsos: seq<Qso>, disk: Disk)
    ensures Appended(BytesFor(logged), qsos, disk)
            == BytesFor(logged + (if disk == OpenFails then [] else qsos))
  {
    hide WriteRecord, ToRecord, WriteAll, AdifHeader;
    if disk == OpenFails || qsos == [] {
      assert logged + [] == logged;
    } else {
      RecordsAppend(logged, qsos);
      WriteAllAppend(Records(logged), Records(qsos));
      if logged == [] {
        assert logged + qsos == qsos;
      } else {
        assert AdifHeader() + WriteAll(Records(logged)) + WriteAll(Records(qsos))
            == AdifHeader() + (WriteAll(Records(logged)) + WriteAll(Records(qsos)));
      }
    }
  }

  /** One operation appends what it logs, and touches nothing the journal already holds. */
  lemma ApplyJournal(log: Log, op: Op, logged: seq<Qso>)
    requires log.journal == BytesFor(logged)
    ensures Apply(log, op).journal == BytesFor(logged + Journals(log, op))
  {
    hide BytesFor, Appended, WithStationSnapshot, ForeignKeysHold, AddRows;
    match op {
      case Insert(q, s, disk) => AppendedBytes(logged, [WithStationSnapshot(q, s)], disk);
      case CommitImport(qs, cs, s, disk) =>
        AppendedBytes(logged, Snapshots(qs, s), disk);
        assert logged + [] == logged;
      case _ => assert logged + [] == logged;
    }
  }

  lemma {:induction false} RunJournal(log: Log, ops: seq<Op>, logged: seq<Qso>)
    requires log.journal == BytesFor(logged)
    ensures Run(log, ops).journal == BytesFor(logged + Journaled(log, ops))
    decreases |ops|
  {
    hide BytesFor, Apply, Journals;
    if ops == [] {
      assert logged + [] == logged;
    } else {
      ApplyJournal(log, ops[0], logged);
      RunJournal(Apply(log, ops[0]), ops[1..], logged + Journals(log, ops[0]));
      assert logged + Journals(log, ops[0]) + Journaled(Apply(log, ops[0]), ops[1..])
          == logged + (Journals(log, ops[0]) + Journaled(Apply(log, ops[0]), ops[1..]));
    }
  }

  /** Earlier journal bytes are never rewritten, whatever operation runs. */
  lemma JournalOnlyGrows(log: Log, op: Op)
    requires log.journal.Some?
    ensures Apply(log, op).journal.Some? && log.journal.value <= Apply(log, op).journal.value
  {
    hide WriteAll, AddRows, ForeignKeysHold;
  }

  /**
   After any run from an empty store the journal holds exactly the contacts whose
   appends reached the file, as stored when they were logged and in that order: it parses
   back to them if and only if their field names could come from a document.
   */
  lemma JournalFaithful(ops: seq<Op>)
    ensures var logged := Journaled(EMPTY, ops);
            match Run(EMPTY, ops).journal
            case None => logged == []
            case Some(bytes) =>
              Parse(bytes, map[], []) == Ok(Records(logged))
              <==> forall i :: 0 <= i < |logged| ==> Writable(ToRecord(logged[i]))
  {
    hide Run, Journaled, Parse, ToRecord, Writable, WriteAll, AdifHeader;
    var logged := Journaled(EMPTY, ops);
    RunJournal(EMPTY, ops, []);
    assert [] + logged == logged;
    if logged != [] {
      HeaderParses(WriteAll(Records(logged)));
      WrittenParsesIff(Records(logged));
    }
  }

  // ---- journal against rows ----------------------------------------------------------

  function QsosOf(rows: seq<Row>): (r: seq<Qso>)
    ensures |r| == |rows| && forall i :: 0 <= i < |rows| ==> r[i] == rows[i].qso
  {
    seq(|rows|, i requires 0 <= i < |rows| => rows[i].qso)
  }

  lemma {:induction false} AddedQsos(rows: seq<Row>, qsos: seq<Qso>)
    ensures QsosOf(AddRows(rows, qsos)) == QsosOf(rows) + qsos
    ensures rows <= AddRows(rows, qsos)
    decreases |qsos|
  {
    if qsos != [] {
      AddedQsos(rows + [Row(NextId(rows), qsos[0])], qsos[1..]);
    }
  }

  /** A run that logs and marks, with a journal that can always be opened. */
  predicate LogsOnly(ops: seq<Op>) {
    forall i :: 0 <= i < |ops| ==>
      match ops[i]
      case Insert(_, _, disk) => disk != OpenFails
      case CommitImport(_, _, _, disk) => disk != OpenFails
      case MarkUploaded(_, _, _) => true
      case _ => false
  }

  lemma LogsReachRows(log: Log, op: Op)
    requires LogsOnly([op])
    ensures QsosOf(Apply(log, op).rows) == QsosOf(log.rows) + Journals(log, op)
  {
    hide WithStationSnapshot, Appended, ForeignKeysHold, QsosOf;
    assert LogsOnly([op]) && [op][0] == op;
    assert QsosOf(log.rows) + [] == QsosOf(log.rows);
    match op {
      case Insert(q, s, _) => AddedQsos(log.rows, [WithStationSnapshot(q, s)]);
      case CommitImport(qs, _, s, _) => AddedQsos(log.rows, Snapshots(qs, s));
      case MarkUploaded(_, _, _) =>
      case _ => assert false;
    }
  }

  /** Until something is deleted or edited, the journal lists exactly the stored contacts, in id order. */
  lemma {:induction false} JournalMirrorsRows(log: Log, ops: seq<Op>)
    requires LogsOnly(ops)
    ensures QsosOf(Run(log, ops).rows) == QsosOf(log.rows) + Journaled(log, ops)
    decreases |ops|
  {
    hide Apply, Journals, QsosOf;
    if ops == [] {
      assert QsosOf(log.rows) + [] == QsosOf(log.rows);
    } else {
      assert [ops[0]][0] == ops[0] && LogsOnly([ops[0]]);
      LogsReachRows(log, ops[0]);
      JournalMirrorsRows(Apply(log, ops[0]), ops[1..]);
      assert QsosOf(log.rows) + Journals(log, ops[0]) + Journaled(Apply(log, ops[0]), ops[1..])
          == QsosOf(log.rows) + (Journals(log, ops[0]) + Journaled(Apply(log, ops[0]), ops[1..]));
    }
  }

  // ---- integrity ---------------------------------------------------------------------

  lemma {:induction false} AddRowsAscending(rows: seq<Row>, qsos: seq<Qso>)
    requires Ascending(rows)
    ensures Ascending(AddRows(rows, qsos))
    ensures forall id :: HasId(rows, id) ==> HasId(AddRows(rows, qsos), id)
    decreases |qsos|
  {
    if qsos != [] {
      var more := rows + [Row(NextId(rows), qsos[0])];
      forall id | HasId(rows, id)
        ensures HasId(more, id)
      {
        var i :| 0 <= i < |rows| && rows[i].id == id;
        assert more[i].id == id;
      }
      AddRowsAscending(more, qsos[1..]);
    }
  }

  predicate KeysIn(services: Services, rows: seq<Row>) {
    forall key | key in services :: HasId(rows, key.0)
  }

  lemma {:induction false} ConfirmAllKeys(services: Services, cs: seq<Confirmation>, rows: seq<Row>)
    requires KeysIn(services, rows) && forall i :: 0 <= i < |cs| ==> HasId(rows, cs[i].qsoId)
    ensures KeysIn(ConfirmAll(services, cs), rows)
    decreases |cs|
  {
    hide HasId;
    if cs != [] {
      ConfirmAllKeys(Confirm(services, cs[0]), cs[1..], rows);
    }
  }

  lemma {:induction false} UploadKeys(services: Services, ids: seq<int>, service: string, now: string, rows: seq<Row>)
    requires KeysIn(services, rows) && forall i :: 0 <= i < |ids| ==> HasId(rows, ids[i])
    ensures KeysIn(Upload(services, ids, service, now), rows)
    decreases |ids|
  {
    hide HasId;
    if ids != [] {
      var key := (ids[0], service);
      var confirmed := if key in services then services[key].confirmedAt else None;
      UploadKeys(services[key := ServiceRow(Some(now), confirmed)], ids[1..], service, now, rows);
    }
  }

  lemma {:induction false} RemovedRows(rows: seq<Row>, id: int)
    requires Ascending(rows)
    ensures Ascending(RemoveId(rows, id))
    ensures forall other :: HasId(RemoveId(rows, id), other) <==> HasId(rows, other) && other != id
    decreases |rows|
  {
    if rows != [] {
      var rest := RemoveId(rows[1..], id);
      RemovedRows(rows[1..], id);
      forall other
        ensures HasId(rows, other) <==> rows[0].id == other || HasId(rows[1..], other)
      {
        HeadOrTail(rows, other);
      }
      assert RemoveId(rows, id) == (if rows[0].id == id then [] else [rows[0]]) + rest;
      if rows[0].id == id {
        assert RemoveId(rows, id) == rest;
      } else {
        var kept := [rows[0]] + rest;
        forall other
          ensures HasId(kept, other) <==> rows[0].id == other || HasId(rest, other)
        {
          assert kept[1..] == rest;
          HeadOrTail(kept, other);
        }
        forall j | 0 <= j < |rest|
          ensures rows[0].id < rest[j].id
        {
          assert HasId(rest, rest[j].id);
        }
      }
    }
  }

  lemma HeadOrTail(rows: seq<Row>, id: int)
    requires rows != []
    ensures HasId(rows, id) <==> rows[0].id == id || HasId(rows[1..], id)
  {
    if HasId(rows[1..], id) {
      var i :| 0 <= i < |rows[1..]| && rows[1..][i].id == id;
      assert rows[i + 1].id == id;
    }
    if HasId(rows, id) {
      var i :| 0 <= i < |rows| && rows[i].id == id;
      if i > 0 {
        assert rows[1..][i - 1].id == id;
      }
    }
  }

  lemma {:induction false} RemovedAreExact(rows: seq<Row>, id: int)
    ensures forall r :: r in RemoveId(rows, id) <==> r in rows && r.id != id
    ensures RemoveId(RemoveId(rows, id), id) == RemoveId(rows, id)
  {
    if rows != [] {
      RemovedAreExact(rows[1..], id);
      assert rows == [rows[0]] + rows[1..];
      if rows[0].id == id {
        assert [] + RemoveId(rows[1..], id) == RemoveId(rows[1..], id);
      } else {
        assert RemoveId(rows, id)[1..] == RemoveId(rows[1..], id);
      }
    }
  }

  /** A delete takes exactly the rows and service rows of its id, keeps the rest in order, and a second one changes nothing. */
  lemma DeleteRemovesExactly(log: Log, id: int)
    requires Valid(log)
    ensures var after := Deleted(log, id);
            && Valid(after) && after.journal == log.journal
            && (forall r :: r in after.rows <==> r in log.rows && r.id != id)
            && (forall key :: key in after.services <==> key in log.services && key.0 != id)
            && (forall key :: key in after.services ==> after.services[key] == log.services[key])
            && Deleted(after, id) == after
  {
    hide HasId, RemoveId, Ascending;
    RemovedRows(log.rows, id);
    RemovedAreExact(log.rows, id);
  }

  /** Every operation keeps row ids ascending and every service row attached to a contact. */
  lemma ApplyKeepsValid(log: Log, op: Op)
    requires Valid(log)
    ensures Valid(Apply(log, op))
  {
    hide WithStationSnapshot, Appended, HasId;
    match op {
      case Insert(q, s, _) => AddRowsAscending(log.rows, [WithStationSnapshot(q, s)]);
      case CommitImport(qs, cs, s, _) =>
        AddRowsAscending(log.rows, Snapshots(qs, s));
        if ForeignKeysHold(log, qs, cs, s) {
          ConfirmAllKeys(log.services, cs, AddRows(log.rows, Snapshots(qs, s)));
        }
      case DeleteQso(id) => RemovedRows(log.rows, id);
      case UpdateQso(id, q) => UpdateKeepsIds(log.rows, id, Normalized(q));
      case MarkUploaded(ids, service, now) =>
        if forall i :: 0 <= i < |ids| ==> HasId(log.rows, ids[i]) {
          UploadKeys(log.services, ids, service, now, log.rows);
        }
    }
  }

  lemma {:induction false} RunKeepsValid(log: Log, ops: seq<Op>)
    requires Valid(log)
    ensures Valid(Run(log, ops))
    decreases |ops|
  {
    hide Apply, Valid;
    if ops != [] {
      ApplyKeepsValid(log, ops[0]);
      RunKeepsValid(Apply(log, ops[0]), ops[1..]);
    }
  }

  lemma UpdateKeepsIds(rows: seq<Row>, id: int, q: Qso)
    ensures forall other :: HasId(UpdateId(rows, id, q), other) <==> HasId(rows, other)
  {
    var r := UpdateId(rows, id, q);
    forall other
      ensures HasId(r, other) <==> HasId(rows, other)
    {
      if HasId(rows, other) {
        var i :| 0 <= i < |rows| && rows[i].id == other;
        assert r[i].id == other;
      }
    }
  }
}
