/**
 The store read off its history: what each operation does to rows, columns and service dates, and how every
 one of them is decided by the last operation that names it.
 */
module StoreHistory {
  import opened Wrappers
  import opened Text
  import opened Adif
  import opened AdifRoundTrip
  import opened Model
  import opened LogStore

  // ---- what a log says -------------------------------------------------------------------

  /** The contact stored under an id. */
  function ContactAt(rows: seq<Row>, id: int): Option<Qso>
    decreases |rows|
  {
    if rows == [] then None
    else if rows[|rows| - 1].id == id then Some(rows[|rows| - 1].qso)
    else ContactAt(rows[..|rows| - 1], id)
  }

  function UploadDate(services: Services, key: (int, string)): Option<string> {
    if key in services then services[key].uploadedAt else None
  }

  function ConfirmDate(services: Services, key: (int, string)): Option<string> {
    if key in services then services[key].confirmedAt else None
  }

  lemma {:induction false} StoredIffHasId(rows: seq<Row>, id: int)
    ensures ContactAt(rows, id).Some? <==> HasId(rows, id)
    decreases |rows|
  {
    if rows != [] {
      var n := |rows| - 1;
      StoredIffHasId(rows[..n], id);
      if HasId(rows[..n], id) {
        var i :| 0 <= i < n && rows[..n][i].id == id;
        assert rows[i].id == id;
      }
      if HasId(rows, id) && rows[n].id != id {
        var i :| 0 <= i <= n && rows[i].id == id;
        assert rows[..n][i].id == id;
      }
    }
  }

  // ---- what decides it --------------------------------------------------------------------

  /** The id of the next new contact. */
  function Fresh(ops: seq<Op>): int {
    NextId(Run(EMPTY, ops).rows)
  }

  /** The contact that an operation behind `before` stores as a new one under `id`. */
  function Adds(before: seq<Op>, op: Op, id: int): Option<Qso> {
    match op
    case Insert(q, station, _) => if id == Fresh(before) then Some(WithStationSnapshot(q, station)) else None
    case CommitImport(qs, _, station, _) =>
      if Fresh(before) <= id < Fresh(before) + |qs|
      then Some(WithStationSnapshot(qs[id - Fresh(before)], station)) else None
    case _ => None
  }

  /** A commit goes through when every contact it confirms is stored or new with it. */
  predicate Succeeds(before: seq<Op>, op: Op)
    decreases |before|, 1
  {
    match op
    case CommitImport(_, cs, _, _) =>
      forall i :: 0 <= i < |cs| ==> Stored(before, cs[i].qsoId).Some? || Adds(before, op, cs[i].qsoId).Some?
    case MarkUploaded(ids, _, _) => forall i :: 0 <= i < |ids| ==> Stored(before, ids[i]).Some?
    case _ => true
  }

  /** The contact under an id: as it was last added or edited, unless it was deleted since. */
  function Stored(ops: seq<Op>, id: int): Option<Qso>
    decreases |ops|, 0
  {
    if ops == [] then None
    else
      var before, op := ops[..|ops| - 1], ops[|ops| - 1];
      if op == DeleteQso(id) then None
      else if Succeeds(before, op) && Adds(before, op, id).Some? then Adds(before, op, id)
      else if op.UpdateQso? && op.id == id && Stored(before, id).Some? then Some(Normalized(op.qso))
      else Stored(before, id)
  }

  /** The date of the last of some confirmations that names a key. */
  function LastNamed(cs: seq<Confirmation>, key: (int, string)): Option<Confirmation>
    decreases |cs|
  {
    if cs == [] then None
    else
      var c := cs[|cs| - 1];
      if (c.qsoId, c.service) == key then Some(c) else LastNamed(cs[..|cs| - 1], key)
  }

  /** The time of the last upload that names a key, since its contact was last deleted. */
  function UploadedOn(ops: seq<Op>, key: (int, string)): Option<string>
    decreases |ops|
  {
    if ops == [] then None
    else
      var before, op := ops[..|ops| - 1], ops[|ops| - 1];
      if op == DeleteQso(key.0) then None
      else if op.MarkUploaded? && Succeeds(before, op) && key.0 in op.ids && op.service == key.1 then Some(op.now)
      else UploadedOn(before, key)
  }

  /** The date of the last committed confirmation of a key, since its contact was last deleted. */
  function ConfirmedOn(ops: seq<Op>, key: (int, string)): Option<string>
    decreases |ops|
  {
    if ops == [] then None
    else
      var before, op := ops[..|ops| - 1], ops[|ops| - 1];
      if op == DeleteQso(key.0) then None
      else if op.CommitImport? && Succeeds(before, op) && LastNamed(op.confirmations, key).Some?
      then LastNamed(op.confirmations, key).value.confirmedAt
      else ConfirmedOn(before, key)
  }

  /** A log that is what its history says. */
  ghost predicate Matches(log: Log, ops: seq<Op>) {
    && (forall id :: ContactAt(log.rows, id) == Stored(ops, id))
    && (forall key :: UploadDate(log.services, key) == UploadedOn(ops, key))
    && (forall key :: ConfirmDate(log.services, key) == ConfirmedOn(ops, key))
  }

  // ---- single operations ---------------------------------------------------------------------

  /** One confirmation sets its own date and leaves every other date, uploads included. */
  lemma ConfirmSets(services: Services, c: Confirmation, key: (int, string))
    ensures ConfirmDate(Confirm(services, c), key)
            == if (c.qsoId, c.service) == key then c.confirmedAt else ConfirmDate(services, key)
    ensures UploadDate(Confirm(services, c), key) == UploadDate(services, key)
  {
  }

  lemma {:induction false} ConfirmAllSets(services: Services, cs: seq<Confirmation>, key: (int, string))
    ensures ConfirmDate(ConfirmAll(services, cs), key)
            == match LastNamed(cs, key) case Some(c) => c.confirmedAt case None => ConfirmDate(services, key)
    ensures UploadDate(ConfirmAll(services, cs), key) == UploadDate(services, key)
    decreases |cs|
  {
    hide Confirm;
    if cs != [] {
      ConfirmSets(services, cs[0], key);
      ConfirmAllSets(Confirm(services, cs[0]), cs[1..], key);
      NamedCons(cs, key);
    }
  }

  lemma {:induction false} NamedCons(cs: seq<Confirmation>, key: (int, string))
    requires cs != []
    ensures LastNamed(cs, key)
            == if LastNamed(cs[1..], key).Some? then LastNamed(cs[1..], key)
               else if (cs[0].qsoId, cs[0].service) == key then Some(cs[0]) else None
    decreases |cs|
  {
    var n := |cs| - 1;
    if n > 0 {
      assert cs[1..][n - 1] == cs[n] && cs[1..][..n - 1] == cs[..n][1..];
      NamedCons(cs[..n], key);
    }
  }

  /** An upload sets the upload date of every contact it lists and leaves every other date. */
  lemma {:induction false} UploadSets(services: Services, ids: seq<int>, service: string, now: string, key: (int, string))
    ensures UploadDate(Upload(services, ids, service, now), key)
            == if key.0 in ids && key.1 == service then Some(now) else UploadDate(services, key)
    ensures ConfirmDate(Upload(services, ids, service, now), key) == ConfirmDate(services, key)
    decreases |ids|
  {
    if ids != [] {
      var named := (ids[0], service);
      var confirmed := if named in services then services[named].confirmedAt else None;
      UploadSets(services[named := ServiceRow(Some(now), confirmed)], ids[1..], service, now, key);
      assert key.0 in ids <==> key.0 == ids[0] || key.0 in ids[1..];
    }
  }

  /** New contacts take the next free ids in order and leave every stored one. */
  lemma {:induction false} AddRowsAdds(rows: seq<Row>, qsos: seq<Qso>, id: int)
    requires Ascending(rows)
    ensures ContactAt(AddRows(rows, qsos), id)
            == if NextId(rows) <= id < NextId(rows) + |qsos| then Some(qsos[id - NextId(rows)]) else ContactAt(rows, id)
    decreases |qsos|
  {
    if qsos != [] {
      var next := NextId(rows);
      var more := rows + [Row(next, qsos[0])];
      assert more[..|rows|] == rows && NextId(more) == next + 1;
      assert ContactAt(more, id) == if id == next then Some(qsos[0]) else ContactAt(rows, id);
      AddRowsAdds(more, qsos[1..], id);
      hide ContactAt;
      if next < id < next + |qsos| {
        assert qsos[1..][id - next - 1] == qsos[id - next];
      }
    }
  }

  lemma {:induction false} SnapshotsAt(qsos: seq<Qso>, station: Station)
    ensures forall i :: 0 <= i < |qsos| ==> Snapshots(qsos, station)[i] == WithStationSnapshot(qsos[i], station)
  {
    hide WithStationSnapshot;
    if qsos != [] {
      SnapshotsAt(qsos[1..], station);
    }
  }

  lemma {:induction false} RemoveSnoc(rows: seq<Row>, r: Row, id: int)
    ensures RemoveId(rows + [r], id) == RemoveId(rows, id) + if r.id == id then [] else [r]
    decreases |rows|
  {
    if rows == [] {
      assert rows + [r] == [r] && [r][1..] == [];
    } else {
      assert (rows + [r])[0] == rows[0] && (rows + [r])[1..] == rows[1..] + [r];
      RemoveSnoc(rows[1..], r, id);
    }
  }

  lemma {:induction false} RemoveTakes(rows: seq<Row>, id: int, other: int)
    ensures ContactAt(RemoveId(rows, id), other) == if other == id then None else ContactAt(rows, other)
    decreases |rows|
  {
    if rows != [] {
      var n := |rows| - 1;
      var kept := RemoveId(rows[..n], id);
      assert rows == rows[..n] + [rows[n]];
      RemoveSnoc(rows[..n], rows[n], id);
      RemoveTakes(rows[..n], id, other);
      if rows[n].id != id {
        assert (kept + [rows[n]])[..|kept|] == kept;
      } else {
        assert kept + [] == kept;
      }
    }
  }

  lemma {:induction false} UpdateAt(rows: seq<Row>, id: int, q: Qso)
    ensures forall i :: 0 <= i < |rows| ==> UpdateId(rows, id, q)[i] == if rows[i].id == id then Row(id, q) else rows[i]
  {
    if rows != [] {
      UpdateAt(rows[1..], id, q);
    }
  }

  lemma {:induction false} EditedAt(rows: seq<Row>, edited: seq<Row>, id: int, q: Qso, other: int)
    requires |edited| == |rows|
    requires forall i :: 0 <= i < |rows| ==> edited[i] == if rows[i].id == id then Row(id, q) else rows[i]
    ensures ContactAt(edited, other)
            == if other == id && ContactAt(rows, id).Some? then Some(q) else ContactAt(rows, other)
    decreases |rows|
  {
    if rows != [] {
      var n := |rows| - 1;
      EditedAt(rows[..n], edited[..n], id, q, other);
    }
  }

  // ---- the laws of single operations, on the log ------------------------------------------------

  /** An edit puts the normalized contact at its id and leaves every other row, every date and the journal. */
  lemma UpdatesExactly(log: Log, id: int, q: Qso)
    ensures var after := Apply(log, UpdateQso(id, q));
            && |after.rows| == |log.rows|
            && (forall i :: 0 <= i < |log.rows| ==>
                  after.rows[i] == if log.rows[i].id == id then Row(id, Normalized(q)) else log.rows[i])
            && after.services == log.services && after.journal == log.journal
  {
    UpdateAt(log.rows, id, Normalized(q));
  }

  /** Every confirmation names a stored contact or one that comes with it. */
  predicate AllKnown(log: Log, count: nat, cs: seq<Confirmation>) {
    forall i :: 0 <= i < |cs| ==>
      ContactAt(log.rows, cs[i].qsoId).Some? || NextId(log.rows) <= cs[i].qsoId < NextId(log.rows) + count
  }

  lemma KnownIffKeysHold(log: Log, qs: seq<Qso>, cs: seq<Confirmation>, station: Station)
    requires Valid(log)
    ensures AllKnown(log, |qs|, cs) <==> ForeignKeysHold(log, qs, cs, station)
  {
    hide WithStationSnapshot, ContactAt, HasId, AddRows;
    var rows := AddRows(log.rows, Snapshots(qs, station));
    forall id
      ensures HasId(rows, id)
              <==> ContactAt(log.rows, id).Some? || NextId(log.rows) <= id < NextId(log.rows) + |qs|
    {
      AddRowsAdds(log.rows, Snapshots(qs, station), id);
      StoredIffHasId(rows, id);
    }
  }

  /**
   A commit that names an unknown contact changes nothing. Any other puts its contacts last, in order, under
   ids above every stored one; each keeps every column and every extra field it brought, and takes over only
   station fields it lacked.
   */
  lemma CommitsExactly(log: Log, qs: seq<Qso>, cs: seq<Confirmation>, station: Station, disk: Disk)
    requires Valid(log)
    ensures var after, n := Apply(log, CommitImport(qs, cs, station, disk)), |log.rows|;
            if AllKnown(log, |qs|, cs) then
              && log.rows <= after.rows && |after.rows| == n + |qs|
              && forall i :: 0 <= i < |qs| ==>
                   && (forall j :: 0 <= j < n + i ==> after.rows[j].id < after.rows[n + i].id)
                   && OnlyFilledIn(qs[i], after.rows[n + i].qso, station)
            else after == log
  {
    hide ForeignKeysHold, AllKnown, Appended, Snapshots, WithStationSnapshot, OnlyFilledIn;
    var staged, n := Snapshots(qs, station), |log.rows|;
    KnownIffKeysHold(log, qs, cs, station);
    AddRowsAscending(log.rows, staged);
    AddedQsos(log.rows, staged);
    SnapshotsAt(qs, station);
    var rows := AddRows(log.rows, staged);
    forall i | 0 <= i < |qs|
      ensures OnlyFilledIn(qs[i], rows[n + i].qso, station)
    {
      assert QsosOf(rows)[n + i] == staged[i];
      SnapshotFillsIn(qs[i], station);
    }
  }

  lemma InsertsExactly(log: Log, q: Qso, station: Station, disk: Disk)
    requires Valid(log)
    ensures var after, n := Apply(log, Insert(q, station, disk)), |log.rows|;
            && |after.rows| == n + 1 && log.rows <= after.rows && after.services == log.services
            && (forall j :: 0 <= j < n ==> after.rows[j].id < after.rows[n].id)
            && OnlyFilledIn(q, after.rows[n].qso, station)
  {
    hide Appended, WithStationSnapshot, OnlyFilledIn;
    var q' := WithStationSnapshot(q, station);
    AddRowsAscending(log.rows, [q']);
    AddedQsos(log.rows, [q']);
    assert QsosOf(AddRows(log.rows, [q']))[|log.rows|] == q';
    SnapshotFillsIn(q, station);
  }

  /** The station's own fields: a name it has, with the value it gives it. */
  predicate StationHas(station: Station, name: string, value: string) {
    match name
    case "STATION_CALLSIGN" => value == Trim(station.stationCall) != ""
    case "OPERATOR" => value == Trim(station.stationCall) != ""
    case "MY_GRIDSQUARE" => Gives(station.gridsquare, value)
    case "MY_NAME" => Gives(station.name, value)
    case "MY_STATE" => Gives(station.myState, value)
    case "MY_CNTY" => Gives(station.myCounty, value)
    case "MY_CQ_ZONE" => Gives(station.cqZone, value)
    case "MY_ITU_ZONE" => Gives(station.ituZone, value)
    case _ => false
  }

  predicate Gives(field: Option<string>, value: string) {
    field.Some? && value == Trim(field.value) != ""
  }

  /** The stored contact is the one brought, with exactly the station fields filled in that it did not carry. */
  ghost predicate OnlyFilledIn(brought: Qso, stored: Qso, station: Station) {
    && stored.(extra := brought.extra) == brought
    && (forall name | name in brought.extra :: name in stored.extra && stored.extra[name] == brought.extra[name])
    && (forall name | name !in brought.extra :: forall value ::
          name in stored.extra && stored.extra[name] == value <==> StationHas(station, name, value))
  }

  lemma SnapshotFillsIn(q: Qso, station: Station)
    ensures OnlyFilledIn(q, WithStationSnapshot(q, station), station)
  {
    hide MyAdifFields, StationHas;
    forall name, value
      ensures name in MyAdifFields(station) && MyAdifFields(station)[name] == value <==> StationHas(station, name, value)
    {
      StationFieldIff(station, name, value);
    }
  }

  /** A field adds its own name, with the value it gives, to names that are not it. */
  lemma FieldAdds(fields: map<string, string>, own: string, field: Option<string>, name: string, value: string)
    requires own !in fields
    ensures var more := fields + TrimmedField(own, field);
            && more.Keys <= fields.Keys + {own}
            && (name in more && more[name] == value
                <==> (name in fields && fields[name] == value) || (name == own && Gives(field, value)))
  {
    hide Trim;
  }

  lemma CallGives(station: Station, name: string, value: string)
    ensures var call := Trim(station.stationCall);
            var fields := if call != "" then map["STATION_CALLSIGN" := call, "OPERATOR" := call] else map[];
            && fields.Keys <= {"STATION_CALLSIGN", "OPERATOR"}
            && (name in fields && fields[name] == value
                <==> name in ["STATION_CALLSIGN", "OPERATOR"] && value == call != "")
  {
    hide Trim;
  }

  function FirstFields(s: Station): map<string, string> {
    var call := Trim(s.stationCall);
    (if call != "" then map["STATION_CALLSIGN" := call, "OPERATOR" := call] else map[])
    + TrimmedField("MY_GRIDSQUARE", s.gridsquare)
    + TrimmedField("MY_NAME", s.name)
    + TrimmedField("MY_STATE", s.myState)
  }

  const FIRST_NAMES := {"STATION_CALLSIGN", "OPERATOR", "MY_GRIDSQUARE", "MY_NAME", "MY_STATE"}

  lemma FirstFieldsGive(s: Station, name: string, value: string)
    ensures var fields := FirstFields(s);
            && fields.Keys <= FIRST_NAMES
            && (name in fields && fields[name] == value <==> name in FIRST_NAMES && StationHas(s, name, value))
  {
    hide Trim, TrimmedField, Gives;
    var call := Trim(s.stationCall);
    var fields := if call != "" then map["STATION_CALLSIGN" := call, "OPERATOR" := call] else map[];
    CallGives(s, name, value);
    FieldAdds(fields, "MY_GRIDSQUARE", s.gridsquare, name, value);
    var fields1 := fields + TrimmedField("MY_GRIDSQUARE", s.gridsquare);
    FieldAdds(fields1, "MY_NAME", s.name, name, value);
    FieldAdds(fields1 + TrimmedField("MY_NAME", s.name), "MY_STATE", s.myState, name, value);
  }

  lemma FieldsAre(s: Station)
    ensures MyAdifFields(s) == FirstFields(s) + TrimmedField("MY_CNTY", s.myCounty)
                               + TrimmedField("MY_CQ_ZONE", s.cqZone) + TrimmedField("MY_ITU_ZONE", s.ituZone)
  {
    hide Trim, TrimmedField;
  }

  lemma LastFieldsGive(s: Station, fields: map<string, string>, name: string, value: string)
    requires fields.Keys <= FIRST_NAMES
    ensures var all := fields + TrimmedField("MY_CNTY", s.myCounty)
                       + TrimmedField("MY_CQ_ZONE", s.cqZone) + TrimmedField("MY_ITU_ZONE", s.ituZone);
            name in all && all[name] == value
            <==> || (name in fields && fields[name] == value)
                 || (name == "MY_CNTY" && Gives(s.myCounty, value))
                 || (name == "MY_CQ_ZONE" && Gives(s.cqZone, value))
                 || (name == "MY_ITU_ZONE" && Gives(s.ituZone, value))
  {
    hide Trim, TrimmedField, Gives;
    FieldAdds(fields, "MY_CNTY", s.myCounty, name, value);
    var fields1 := fields + TrimmedField("MY_CNTY", s.myCounty);
    FieldAdds(fields1, "MY_CQ_ZONE", s.cqZone, name, value);
    FieldAdds(fields1 + TrimmedField("MY_CQ_ZONE", s.cqZone), "MY_ITU_ZONE", s.ituZone, name, value);
  }

  lemma StationFieldIff(s: Station, name: string, value: string)
    ensures name in MyAdifFields(s) && MyAdifFields(s)[name] == value <==> StationHas(s, name, value)
  {
    hide Trim, TrimmedField, Gives, FirstFields, MyAdifFields;
    FieldsAre(s);
    FirstFieldsGive(s, name, value);
    LastFieldsGive(s, FirstFields(s), name, value);
  }

  /**
   Whatever an append reports, the bytes before it stay. It reports success exactly when nothing was to be
   written or the file holds every record behind them and was synced.
   */
  lemma ReportIsHonest(journal: Option<string>, qs: seq<Qso>, disk: Disk)
    ensures var after := Appended(journal, qs, disk);
            && (journal.Some? ==> after.Some? && journal.value <= after.value)
            && (qs != [] && AppendReported(qs, disk) ==>
                  disk.Fine? && after.Some? && exists before :: after.value == before + WriteAll(Records(qs)))
            && (qs == [] || disk.Fine? ==> AppendReported(qs, disk))
  {
    hide WriteAll, AdifHeader;
    if qs != [] && disk != OpenFails {
      var before := match journal case Some(bytes) => bytes case None => AdifHeader();
      assert Appended(journal, qs, disk).value == before + WriteAll(Records(qs));
    }
  }

  // ---- whole runs ------------------------------------------------------------------------------------

  lemma {:induction false} RunSnoc(log: Log, ops: seq<Op>, op: Op)
    ensures Run(log, ops + [op]) == Apply(Run(log, ops), op)
    decreases |ops|
  {
    hide Apply;
    if ops == [] {
      assert ops + [op] == [op] && [op][1..] == [];
    } else {
      assert (ops + [op])[0] == ops[0] && (ops + [op])[1..] == ops[1..] + [op];
      RunSnoc(Apply(log, ops[0]), ops[1..], op);
    }
  }

  /** A commit goes through on the log exactly when its history says so. */
  lemma CommitSucceeds(before: seq<Op>, op: Op, log: Log)
    requires log == Run(EMPTY, before) && Valid(log) && op.CommitImport?
    requires forall id :: ContactAt(log.rows, id) == Stored(before, id)
    ensures Succeeds(before, op) <==> ForeignKeysHold(log, op.qsos, op.confirmations, op.station)
  {
    hide Run, WithStationSnapshot, ContactAt, HasId, Stored, AddRows;
    var rows := AddRows(log.rows, Snapshots(op.qsos, op.station));
    forall id
      ensures HasId(rows, id) <==> Stored(before, id).Some? || Adds(before, op, id).Some?
    {
      AddRowsAdds(log.rows, Snapshots(op.qsos, op.station), id);
      StoredIffHasId(rows, id);
    }
  }

  lemma UploadSucceeds(before: seq<Op>, op: Op, log: Log)
    requires op.MarkUploaded? && forall id :: ContactAt(log.rows, id) == Stored(before, id)
    ensures Succeeds(before, op) <==> forall i :: 0 <= i < |op.ids| ==> HasId(log.rows, op.ids[i])
  {
    hide ContactAt, HasId, Stored;
    forall id
      ensures HasId(log.rows, id) <==> Stored(before, id).Some?
    {
      StoredIffHasId(log.rows, id);
    }
  }

  lemma EffectOfAdding(before: seq<Op>, op: Op, log: Log, id: int)
    requires log == Run(EMPTY, before) && Valid(log) && forall other :: ContactAt(log.rows, other) == Stored(before, other)
    requires op.Insert? || op.CommitImport?
    ensures ContactAt(Apply(log, op).rows, id)
            == if Succeeds(before, op) && Adds(before, op, id).Some? then Adds(before, op, id) else Stored(before, id)
  {
    hide Run, WithStationSnapshot, Appended, ContactAt, Stored, ForeignKeysHold, AddRows;
    if op.Insert? {
      AddRowsAdds(log.rows, [WithStationSnapshot(op.qso, op.station)], id);
    } else {
      AddRowsAdds(log.rows, Snapshots(op.qsos, op.station), id);
      SnapshotsAt(op.qsos, op.station);
      CommitSucceeds(before, op, log);
    }
  }

  lemma EffectOfUpdate(rows: seq<Row>, edited: int, q: Qso, id: int)
    ensures ContactAt(UpdateId(rows, edited, q), id)
            == if id == edited && ContactAt(rows, id).Some? then Some(q) else ContactAt(rows, id)
  {
    hide ContactAt;
    UpdateAt(rows, edited, q);
    EditedAt(rows, UpdateId(rows, edited, q), edited, q, id);
  }

  lemma EffectOnContacts(before: seq<Op>, op: Op, log: Log, id: int)
    requires log == Run(EMPTY, before) && Valid(log) && forall other :: ContactAt(log.rows, other) == Stored(before, other)
    ensures ContactAt(Apply(log, op).rows, id) == Stored(before + [op], id)
  {
    hide Run, ContactAt, Succeeds, ForeignKeysHold, AddRows, UpdateId, RemoveId;
    var ops := before + [op];
    assert ops[..|ops| - 1] == before && ops[|ops| - 1] == op;
    match op {
      case Insert(_, _, _) => EffectOfAdding(before, op, log, id);
      case CommitImport(_, _, _, _) => EffectOfAdding(before, op, log, id);
      case DeleteQso(gone) => RemoveTakes(log.rows, gone, id);
      case UpdateQso(edited, q) => EffectOfUpdate(log.rows, edited, Normalized(q), id);
      case MarkUploaded(_, _, _) =>
    }
  }

  lemma EffectOnDates(before: seq<Op>, op: Op, log: Log, key: (int, string))
    requires log == Run(EMPTY, before) && Valid(log) && forall other :: ContactAt(log.rows, other) == Stored(before, other)
    requires UploadDate(log.services, key) == UploadedOn(before, key)
    requires ConfirmDate(log.services, key) == ConfirmedOn(before, key)
    ensures UploadDate(Apply(log, op).services, key) == UploadedOn(before + [op], key)
    ensures ConfirmDate(Apply(log, op).services, key) == ConfirmedOn(before + [op], key)
  {
    hide Run, WithStationSnapshot, Appended, ContactAt, Stored, Succeeds, ForeignKeysHold, Valid, HasId;
    var ops := before + [op];
    assert ops[..|ops| - 1] == before && ops[|ops| - 1] == op;
    match op {
      case Insert(_, _, _) =>
      case CommitImport(_, cs, _, _) =>
        CommitSucceeds(before, op, log);
        ConfirmAllSets(log.services, cs, key);
      case DeleteQso(_) =>
      case UpdateQso(_, _) =>
      case MarkUploaded(ids, service, now) =>
        UploadSucceeds(before, op, log);
        UploadSets(log.services, ids, service, now, key);
    }
  }

  /**
   After any run from an empty store, under every id stands the contact last added or edited there, every
   upload date is that of the last upload that named its contact and service, and every confirmation date is
   that of the last committed confirmation that did; a delete of the contact forgets all three.
   */
  lemma {:induction false} HistoryDecides(ops: seq<Op>)
    ensures Matches(Run(EMPTY, ops), ops)
    decreases |ops|
  {
    hide Run, Valid, ContactAt, Stored, UploadedOn, ConfirmedOn, UploadDate, ConfirmDate, Apply;
    if ops == [] {
      NothingYet();
    } else {
      var before, op := ops[..|ops| - 1], ops[|ops| - 1];
      var log := Run(EMPTY, before);
      assert ops == before + [op];
      HistoryDecides(before);
      RunSnoc(EMPTY, before, op);
      EmptyIsValid();
      RunKeepsValid(EMPTY, before);
      forall id
        ensures ContactAt(Apply(log, op).rows, id) == Stored(ops, id)
      {
        EffectOnContacts(before, op, log, id);
      }
      forall key
        ensures UploadDate(Apply(log, op).services, key) == UploadedOn(ops, key)
        ensures ConfirmDate(Apply(log, op).services, key) == ConfirmedOn(ops, key)
      {
        EffectOnDates(before, op, log, key);
      }
    }
  }

  lemma NothingYet()
    ensures Matches(Run(EMPTY, []), [])
  {
  }

  lemma EmptyIsValid()
    ensures Valid(EMPTY)
  {
  }
}
