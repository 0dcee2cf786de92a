/** What an import plan promises, and when importing a file again changes nothing. */
module ImportLaws {
  import opened Wrappers
  import opened Text
  import opened Adif
  import opened Normalize
  import opened Model
  import opened QsoRecord
  import opened Dedupe
  import opened LogStore
  import opened Import

  // ---- inside one plan -------------------------------------------------------------

  /** Two contacts that are duplicates of each other under the import index. */
  predicate FileDuplicate(a: Qso, b: Qso, w: int) {
    NaturalKey(a) == NaturalKey(b) && WithinWindow(b, a, w)
  }

  predicate NoFileDuplicates(qs: seq<Qso>, w: int) {
    forall i, j :: 0 <= i < j < |qs| ==> !FileDuplicate(qs[i], qs[j], w)
  }

  predicate Confirming(q: Qso) {
    Check(q).None? && ConfirmationsIn(q) != []
  }

  function CountConfirming(qs: seq<Qso>, i: nat): nat
    requires i <= |qs|
    decreases |qs| - i
  {
    if i == |qs| then 0 else (if Confirming(qs[i]) then 1 else 0) + CountConfirming(qs, i + 1)
  }

  /** Contacts and problems a plan accounts for; confirmations are counted apart. */
  function Accounted(p: Plan): nat {
    |p.unusable| + |p.importable| + p.duplicates
  }

  /** Counting confirmations leaves the rest of the plan alone. */
  predicate SameContacts(p: Plan, p': Plan) {
    p'.importable == p.importable && p'.duplicates == p.duplicates && p'.unusable == p.unusable
  }

  lemma {:induction false} MatchedKeepsContacts(
      services: Services, id: int, confs: seq<(string, Option<string>)>, p: Plan)
    ensures SameContacts(p, CountAllMatched(services, id, confs, p))
    decreases |confs|
  {
    if confs != [] {
      MatchedKeepsContacts(services, id, confs[1..], CountMatched(services, id, confs[0].0, confs[0].1, p));
    }
  }

  lemma {:induction false} UnmatchedKeepsContacts(q: Qso, confs: seq<(string, Option<string>)>, p: Plan)
    ensures SameContacts(p, CountAllUnmatched(q, confs, p))
    decreases |confs|
  {
    hide StrangerOf;
    if confs != [] {
      UnmatchedKeepsContacts(q, confs[1..], CountUnmatched(StrangerOf(q, confs[0].0), p));
    }
  }

  /** A record is new to a file import: usable, no confirmation, not in the log. */
  predicate NewTo(rows: seq<Row>, w: int, q: Qso) {
    Check(q).None? && ConfirmationsIn(q) == [] && DbDuplicates(rows, q, w) == []
  }

  function Accept(rows: seq<Row>, w: int, accepted: seq<Qso>, q: Qso): seq<Qso> {
    if NewTo(rows, w, q) && !SeenInFile(accepted, q, w) then accepted + [q] else accepted
  }

  /** One record of a file import, seen from the accepted contacts and the running totals. */
  lemma PlanOneContacts(log: Log, w: int, i: nat, q: Qso, p: Plan)
    ensures PlanOne(log, w, false, i, q, p).importable == Accept(log.rows, w, p.importable, q)
    ensures Accounted(PlanOne(log, w, false, i, q, p)) == Accounted(p) + if Confirming(q) then 0 else 1
  {
    hide Check, DbDuplicates, ConfirmationsIn, SeenInFile, CountAllMatched, CountAllUnmatched;
    var existing := DbDuplicates(log.rows, q, w);
    var confs := ConfirmationsIn(q);
    UnmatchedKeepsContacts(q, confs, p);
    if existing != [] {
      MatchedKeepsContacts(log.services, existing[0].id, confs, p);
    }
  }

  function AcceptFrom(rows: seq<Row>, w: int, qs: seq<Qso>, i: nat, accepted: seq<Qso>): seq<Qso>
    requires i <= |qs|
    decreases |qs| - i
  {
    if i == |qs| then accepted else AcceptFrom(rows, w, qs, i + 1, Accept(rows, w, accepted, qs[i]))
  }

  /** Every record of a file is a problem, a new contact, a duplicate or a confirmation. */
  lemma {:induction false} PlanConserves(log: Log, w: int, qs: seq<Qso>, i: nat, p: Plan)
    requires i <= |qs|
    ensures var out := PlanFrom(log, w, false, qs, i, p);
            && Accounted(out) + CountConfirming(qs, i) == Accounted(p) + |qs| - i
            && out.importable == AcceptFrom(log.rows, w, qs, i, p.importable)
    decreases |qs| - i
  {
    hide PlanOne, Accept, Confirming;
    if i < |qs| {
      PlanOneContacts(log, w, i, qs[i], p);
      PlanConserves(log, w, qs, i + 1, PlanOne(log, w, false, i, qs[i], p));
    }
  }

  lemma {:induction false} AcceptedApart(rows: seq<Row>, w: int, qs: seq<Qso>, i: nat, accepted: seq<Qso>)
    requires i <= |qs| && NoFileDuplicates(accepted, w)
    ensures NoFileDuplicates(AcceptFrom(rows, w, qs, i, accepted), w)
    decreases |qs| - i
  {
    hide NewTo, NaturalKey, WithinWindow;
    if i < |qs| {
      AcceptedApart(rows, w, qs, i + 1, Accept(rows, w, accepted, qs[i]));
    }
  }

  /**
   A planned file import accounts for every record once, and offers no two contacts with
   the same key within the window.
   */
  lemma FilePlan(log: Log, w: int, qs: seq<Qso>)
    ensures var plan := PlanFrom(log, w, false, qs, 0, NOTHING);
            && |qs| == |plan.unusable| + |plan.importable| + plan.duplicates + CountConfirming(qs, 0)
            && NoFileDuplicates(plan.importable, w)
  {
    hide PlanFrom, AcceptFrom, CountConfirming;
    PlanConserves(log, w, qs, 0, NOTHING);
    AcceptedApart(log.rows, w, qs, 0, []);
  }

  // ---- importing the same file again -------------------------------------------------

  /** A stored copy of some accepted contact stops `q` at the database. */
  predicate Covered(accepted: seq<Qso>, q: Qso, w: int) {
    exists j :: 0 <= j < |accepted| && SqlMatch(accepted[j], q) && WithinWindow(q, accepted[j], w)
  }

  /** On a tidy log the database query finds exactly the contacts that count as duplicates. */
  lemma {:induction false} DbDuplicatesAreDuplicates(rows: seq<Row>, q: Qso, w: int)
    requires TidyKey(q) && forall r | r in rows :: TidyKey(r.qso)
    ensures forall r :: r in DbDuplicates(rows, q, w) <==> r in rows && IsDuplicate(r.qso, q, w)
  {
    hide TidyKey, SqlMatch, SameNaturalKey, WithinWindow, NaturalKey;
    if rows != [] {
      KeysAgree(rows[0].qso, q);
      WindowSymmetric(rows[0].qso, q, w);
      DbDuplicatesAreDuplicates(rows[1..], q, w);
      assert rows == [rows[0]] + rows[1..];
    }
  }

  lemma {:induction false} DbDuplicatesAppend(rows: seq<Row>, r: Row, q: Qso, w: int)
    ensures DbDuplicates(rows + [r], q, w)
            == DbDuplicates(rows, q, w) + if SqlMatch(r.qso, q) && WithinWindow(q, r.qso, w) then [r] else []
    decreases |rows|
  {
    hide SqlMatch, WithinWindow;
    if rows == [] {
      assert [] + [r] == [r] && [r][1..] == [];
    } else {
      assert (rows + [r])[1..] == rows[1..] + [r];
      DbDuplicatesAppend(rows[1..], r, q, w);
    }
  }

  /** The station snapshot touches neither the key nor the time of a contact. */
  lemma SnapshotSameKey(p: Qso, station: Station, q: Qso, w: int)
    ensures SqlMatch(WithStationSnapshot(p, station), q) <==> SqlMatch(p, q)
    ensures WithinWindow(q, WithStationSnapshot(p, station), w) <==> WithinWindow(q, p, w)
  {
    hide MyAdifFields, ParseDt, SameText;
  }

  /** Committed contacts only add to what the database finds, behind what it found before. */
  lemma {:induction false} DbDuplicatesAfter(rows: seq<Row>, accepted: seq<Qso>, station: Station, q: Qso, w: int)
    ensures var after := DbDuplicates(AddRows(rows, Snapshots(accepted, station)), q, w);
            && DbDuplicates(rows, q, w) <= after
            && (after == [] <==> DbDuplicates(rows, q, w) == [] && !Covered(accepted, q, w))
    decreases |accepted|
  {
    hide SqlMatch, WithinWindow, WithStationSnapshot, DbDuplicates;
    if accepted != [] {
      var row := Row(NextId(rows), WithStationSnapshot(accepted[0], station));
      DbDuplicatesAppend(rows, row, q, w);
      SnapshotSameKey(accepted[0], station, q, w);
      DbDuplicatesAfter(rows + [row], accepted[1..], station, q, w);
      CoveredCons(accepted, q, w);
      assert Snapshots(accepted, station)[1..] == Snapshots(accepted[1..], station);
    }
  }

  lemma CoveredCons(accepted: seq<Qso>, q: Qso, w: int)
    requires accepted != []
    ensures Covered(accepted, q, w)
            <==> (SqlMatch(accepted[0], q) && WithinWindow(q, accepted[0], w)) || Covered(accepted[1..], q, w)
  {
    hide SqlMatch, WithinWindow;
    if Covered(accepted[1..], q, w) {
      var j :| 0 <= j < |accepted[1..]| && SqlMatch(accepted[1..][j], q) && WithinWindow(q, accepted[1..][j], w);
      assert accepted[j + 1] == accepted[1..][j];
    }
    if Covered(accepted, q, w) {
      var j :| 0 <= j < |accepted| && SqlMatch(accepted[j], q) && WithinWindow(q, accepted[j], w);
      assert j > 0 ==> accepted[1..][j - 1] == accepted[j];
    }
  }

  lemma {:induction false} AcceptGrows(rows: seq<Row>, w: int, qs: seq<Qso>, i: nat, accepted: seq<Qso>)
    requires i <= |qs|
    ensures accepted <= AcceptFrom(rows, w, qs, i, accepted)
    decreases |qs| - i
  {
    hide NewTo, SeenInFile;
    if i < |qs| {
      AcceptGrows(rows, w, qs, i + 1, Accept(rows, w, accepted, qs[i]));
    }
  }

  /** A file offers nothing exactly when none of its records is new to the log. */
  lemma {:induction false} NothingOffered(rows: seq<Row>, w: int, qs: seq<Qso>, i: nat)
    requires i <= |qs|
    ensures AcceptFrom(rows, w, qs, i, []) == [] <==> forall k :: i <= k < |qs| ==> !NewTo(rows, w, qs[k])
    decreases |qs| - i
  {
    hide NewTo;
    if i < |qs| {
      if NewTo(rows, w, qs[i]) {
        assert Accept(rows, w, [], qs[i]) == [qs[i]];
        AcceptGrows(rows, w, qs, i + 1, [qs[i]]);
      } else {
        NothingOffered(rows, w, qs, i + 1);
      }
    }
  }

  /** Every accepted contact is a record of the file that was new to the log. */
  lemma {:induction false} AcceptedAreNew(rows: seq<Row>, w: int, qs: seq<Qso>, i: nat, accepted: seq<Qso>)
    requires i <= |qs|
    requires forall p | p in accepted :: p in qs && NewTo(rows, w, p)
    ensures forall p | p in AcceptFrom(rows, w, qs, i, accepted) :: p in qs && NewTo(rows, w, p)
    decreases |qs| - i
  {
    hide NewTo, SeenInFile;
    if i < |qs| {
      AcceptedAreNew(rows, w, qs, i + 1, Accept(rows, w, accepted, qs[i]));
    }
  }

  /** Every new record is accepted or has a duplicate among the accepted. */
  lemma {:induction false} NewAreAccepted(rows: seq<Row>, w: int, qs: seq<Qso>, i: nat, accepted: seq<Qso>, k: nat)
    requires i <= k < |qs| && NewTo(rows, w, qs[k])
    ensures var all := AcceptFrom(rows, w, qs, i, accepted); qs[k] in all || SeenInFile(all, qs[k], w)
    decreases |qs| - i
  {
    hide NewTo, NaturalKey, WithinWindow;
    var next := Accept(rows, w, accepted, qs[i]);
    AcceptGrows(rows, w, qs, i + 1, next);
    if i < k {
      NewAreAccepted(rows, w, qs, i + 1, next, k);
    } else if SeenInFile(accepted, qs[k], w) {
      var all := AcceptFrom(rows, w, qs, i + 1, next);
      var j :| 0 <= j < |accepted| && NaturalKey(accepted[j]) == NaturalKey(qs[k]) && WithinWindow(qs[k], accepted[j], w);
      assert all[j] == accepted[j];
    } else {
      assert next[|accepted|] == qs[k];
    }
  }

  /** The log after committing what a file import offered. */
  function Imported(rows: seq<Row>, w: int, qs: seq<Qso>, station: Station): seq<Row> {
    AddRows(rows, Snapshots(AcceptFrom(rows, w, qs, 0, []), station))
  }

  lemma StillNew(rows: seq<Row>, w: int, qs: seq<Qso>, station: Station, q: Qso)
    ensures NewTo(Imported(rows, w, qs, station), w, q)
            <==> NewTo(rows, w, q) && !Covered(AcceptFrom(rows, w, qs, 0, []), q, w)
  {
    hide Covered, DbDuplicates, Check, ConfirmationsIn, AcceptFrom;
    DbDuplicatesAfter(rows, AcceptFrom(rows, w, qs, 0, []), station, q, w);
  }

  /**
   Importing a file a second time offers nothing if and only if every contact it imported
   has a readable time and every record it skipped as a duplicate within the file also
   matches an imported contact the way the database compares, without trimming.
   */
  lemma ReimportIff(rows: seq<Row>, w: int, qs: seq<Qso>, station: Station)
    requires w >= 0
    ensures var accepted := AcceptFrom(rows, w, qs, 0, []);
            AcceptFrom(Imported(rows, w, qs, station), w, qs, 0, []) == []
            <==> && (forall p | p in accepted :: TimeOf(p).Some?)
                 && (forall k | 0 <= k < |qs| && NewTo(rows, w, qs[k]) && qs[k] !in accepted ::
                       Covered(accepted, qs[k], w))
  {
    hide NewTo, AcceptFrom, Covered, TimeOf, WithinWindow;
    var accepted := AcceptFrom(rows, w, qs, 0, []);
    NothingOffered(Imported(rows, w, qs, station), w, qs, 0);
    AcceptedAreNew(rows, w, qs, 0, []);
    forall q
      ensures NewTo(Imported(rows, w, qs, station), w, q) <==> NewTo(rows, w, q) && !Covered(accepted, q, w)
    {
      StillNew(rows, w, qs, station, q);
    }
    forall p | p in accepted
      ensures Covered(accepted, p, w) <==> TimeOf(p).Some?
    {
      CoversItself(accepted, p, w);
    }
    forall p | p in accepted
      ensures exists k :: 0 <= k < |qs| && qs[k] == p
    {
    }
  }

  /** A stored contact stops its own reimport exactly when its time can be read. */
  lemma CoversItself(accepted: seq<Qso>, p: Qso, w: int)
    requires w >= 0 && p in accepted
    ensures Covered(accepted, p, w) <==> TimeOf(p).Some?
  {
    hide TimeOf;
    WindowReflexive(p, w);
    var i :| 0 <= i < |accepted| && accepted[i] == p;
    if TimeOf(p).Some? {
      assert SqlMatch(accepted[i], p) && WithinWindow(p, accepted[i], w);
    }
  }

  /** Without stray whitespace and with readable times, importing twice is importing once. */
  lemma ReimportOffersNothing(rows: seq<Row>, w: int, qs: seq<Qso>, station: Station)
    requires w >= 0
    requires forall k | 0 <= k < |qs| && NewTo(rows, w, qs[k]) :: TidyKey(qs[k]) && TimeOf(qs[k]).Some?
    ensures AcceptFrom(Imported(rows, w, qs, station), w, qs, 0, []) == []
  {
    hide NewTo, AcceptFrom, TimeOf, WithinWindow, TidyKey, SqlMatch, NaturalKey;
    var accepted := AcceptFrom(rows, w, qs, 0, []);
    AcceptedAreNew(rows, w, qs, 0, []);
    forall k | 0 <= k < |qs| && NewTo(rows, w, qs[k]) && qs[k] !in accepted
      ensures Covered(accepted, qs[k], w)
    {
      NewAreAccepted(rows, w, qs, 0, [], k);
      var j :| 0 <= j < |accepted| && NaturalKey(accepted[j]) == NaturalKey(qs[k]) && WithinWindow(qs[k], accepted[j], w);
      assert accepted[j] in accepted;
      KeysAgree(accepted[j], qs[k]);
    }
    ReimportIff(rows, w, qs, station);
  }

  /** A blank behind a call is enough to break it: the index trims it away, the database does not. */
  lemma BlankBreaksReimport(rows: seq<Row>, w: int, q: Qso, station: Station)
    requires w >= 0 && TidyKey(q) && TimeOf(q).Some?
    requires var spaced := q.(call := q.call + " "); NewTo(rows, w, q) && NewTo(rows, w, spaced)
    ensures var qs := [q, q.(call := q.call + " ")];
            && AcceptFrom(rows, w, qs, 0, []) == [q]
            && AcceptFrom(Imported(rows, w, qs, station), w, qs, 0, []) != []
  {
    var spaced := q.(call := q.call + " ");
    var qs := [q, spaced];
    SpacedIsSeen(q, w);
    SpacedIsNotCovered(q, w);
    EmptySeen(q, w);
    hide NewTo, TimeOf, SeenInFile, Covered, TidyKey, Imported;
    assert Accept(rows, w, [], q) == [q];
    assert AcceptFrom(rows, w, qs, 2, [q]) == [q] && AcceptFrom(rows, w, qs, 1, [q]) == [q];
    ReimportIff(rows, w, qs, station);
    assert qs[1] == spaced;
  }

  lemma SpacedIsSeen(q: Qso, w: int)
    requires w >= 0 && TidyKey(q) && TimeOf(q).Some?
    ensures SeenInFile([q], q.(call := q.call + " "), w)
  {
    var spaced := q.(call := q.call + " ");
    TrimmedCall(q.call);
    assert NaturalKey([q][0]) == NaturalKey(spaced) by {
      hide Trim, Upper;
    }
    WindowReflexive(q, w);
    assert WithinWindow(spaced, [q][0], w) by {
      hide ParseDt;
    }
  }

  lemma SpacedIsNotCovered(q: Qso, w: int)
    requires TidyKey(q)
    ensures !Covered([q], q.(call := q.call + " "), w) && q.(call := q.call + " ") != q
  {
    hide WithinWindow;
    assert |Lower(q.call)| != |Lower(q.call + " ")|;
  }

  lemma EmptySeen(q: Qso, w: int)
    ensures !SeenInFile([], q, w)
  {
  }

  lemma TrimmedCall(call: string)
    requires Trimmed(call)
    ensures Trim(call + " ") == Trim(call) && call != call + " "
  {
    var s := call + " ";
    TrimTrims(call);
    assert s[..|s| - 1] == call;
    if call == "" {
      assert TrimStart(s) == TrimStart(s[1..]) == "";
    } else {
      assert TrimStart(s) == s;
      assert TrimEnd(s) == TrimEnd(call);
    }
  }

  // ---- confirmations -----------------------------------------------------------------

  predicate AllDated(cs: seq<Confirmation>) {
    forall i :: 0 <= i < |cs| ==> cs[i].confirmedAt.Some?
  }

  predicate MarksDated(confs: seq<(string, Option<string>)>) {
    forall i :: 0 <= i < |confs| ==> confs[i].1.Some?
  }

  /** A confirmation of a usable contact always carries a date. */
  lemma ConfirmationsAreDated(q: Qso)
    requires Check(q).None?
    ensures MarksDated(ConfirmationsIn(q))
  {
    hide Trim, Says, HasApp;
    assert Trim(q.qsoDate) != "";
    assert forall field :: Dated(q, field).Some?;
    hide Dated;
  }

  /** The same counts, with every confirmation of the first plan already recorded for the second. */
  predicate Replays(p: Plan, p': Plan) {
    && p'.seenConfirmed == p.seenConfirmed && p'.seenUnmatched == p.seenUnmatched
    && p'.unmatched == p.unmatched && p'.confirmations == []
    && p'.alreadyConfirmed == p.alreadyConfirmed + |p.confirmations|
  }

  predicate RecordsAll(services: Services, cs: seq<Confirmation>) {
    forall i :: 0 <= i < |cs| ==> Recorded(services, cs[i].qsoId, cs[i].service)
  }

  predicate KeepsRecorded(services: Services, services': Services) {
    forall key | key in services :: Recorded(services, key.0, key.1) ==> Recorded(services', key.0, key.1)
  }

  lemma {:induction false} MatchedGrows(services: Services, id: int, confs: seq<(string, Option<string>)>, p: Plan)
    ensures p.confirmations <= CountAllMatched(services, id, confs, p).confirmations
    ensures AllDated(p.confirmations) && MarksDated(confs) ==>
              AllDated(CountAllMatched(services, id, confs, p).confirmations)
    decreases |confs|
  {
    hide Recorded;
    if confs != [] {
      var next := CountMatched(services, id, confs[0].0, confs[0].1, p);
      MatchedGrows(services, id, confs[1..], next);
    }
  }

  lemma {:induction false} MatchedReplays(
      services: Services, services': Services, id: int, confs: seq<(string, Option<string>)>, p: Plan, p': Plan)
    requires Replays(p, p') && KeepsRecorded(services, services')
    requires RecordsAll(services', CountAllMatched(services, id, confs, p).confirmations)
    ensures Replays(CountAllMatched(services, id, confs, p), CountAllMatched(services', id, confs, p'))
    decreases |confs|
  {
    hide RecordsAll;
    if confs != [] {
      var next := CountMatched(services, id, confs[0].0, confs[0].1, p);
      var next' := CountMatched(services', id, confs[0].0, confs[0].1, p');
      MatchedGrows(services, id, confs[1..], next);
      PrefixRecorded(services', next.confirmations, CountAllMatched(services, id, confs, p).confirmations);
      OneReplays(services, services', id, confs[0].0, confs[0].1, p, p');
      MatchedReplays(services, services', id, confs[1..], next, next');
    }
  }

  lemma PrefixRecorded(services: Services, cs: seq<Confirmation>, all: seq<Confirmation>)
    requires RecordsAll(services, all) && cs <= all
    ensures RecordsAll(services, cs)
  {
    hide Recorded;
    forall i | 0 <= i < |cs|
      ensures Recorded(services, cs[i].qsoId, cs[i].service)
    {
      assert all[i] == cs[i];
    }
  }

  lemma OneReplays(services: Services, services': Services, id: int, service: string, at: Option<string>, p: Plan, p': Plan)
    requires Replays(p, p') && KeepsRecorded(services, services')
    requires RecordsAll(services', CountMatched(services, id, service, at, p).confirmations)
    ensures Replays(CountMatched(services, id, service, at, p), CountMatched(services', id, service, at, p'))
  {
    if (id, service) !in p.seenConfirmed && !Recorded(services, id, service) {
      var cs := CountMatched(services, id, service, at, p).confirmations;
      assert cs[|p.confirmations|] == Confirmation(id, service, at);
    }
  }

  lemma {:induction false} UnmatchedReplays(q: Qso, confs: seq<(string, Option<string>)>, p: Plan, p': Plan)
    requires Replays(p, p')
    ensures Replays(CountAllUnmatched(q, confs, p), CountAllUnmatched(q, confs, p'))
    ensures CountAllUnmatched(q, confs, p).confirmations == p.confirmations
    decreases |confs|
  {
    hide StrangerOf;
    if confs != [] {
      var key := StrangerOf(q, confs[0].0);
      UnmatchedReplays(q, confs[1..], CountUnmatched(key, p), CountUnmatched(key, p'));
    }
  }

  lemma PlanOneGrows(log: Log, w: int, download: bool, i: nat, q: Qso, p: Plan)
    ensures p.confirmations <= PlanOne(log, w, download, i, q, p).confirmations
    ensures AllDated(p.confirmations) ==> AllDated(PlanOne(log, w, download, i, q, p).confirmations)
  {
    hide Check, DbDuplicates, ConfirmationsIn, SeenInFile, CountAllMatched, CountAllUnmatched;
    UnmatchedKeepsConfirmations(q, ConfirmationsIn(q), p);
    var existing := DbDuplicates(log.rows, q, w);
    if existing != [] {
      MatchedGrows(log.services, existing[0].id, ConfirmationsIn(q), p);
    }
    if Check(q).None? {
      ConfirmationsAreDated(q);
    }
  }

  lemma {:induction false} UnmatchedKeepsConfirmations(q: Qso, confs: seq<(string, Option<string>)>, p: Plan)
    ensures CountAllUnmatched(q, confs, p).confirmations == p.confirmations
    decreases |confs|
  {
    hide StrangerOf;
    if confs != [] {
      UnmatchedKeepsConfirmations(q, confs[1..], CountUnmatched(StrangerOf(q, confs[0].0), p));
    }
  }

  lemma {:induction false} PlanGrows(log: Log, w: int, download: bool, qs: seq<Qso>, i: nat, p: Plan)
    requires i <= |qs|
    ensures p.confirmations <= PlanFrom(log, w, download, qs, i, p).confirmations
    ensures AllDated(p.confirmations) ==> AllDated(PlanFrom(log, w, download, qs, i, p).confirmations)
    decreases |qs| - i
  {
    hide PlanOne, AllDated;
    if i < |qs| {
      PlanOneGrows(log, w, download, i, qs[i], p);
      PlanGrows(log, w, download, qs, i + 1, PlanOne(log, w, download, i, qs[i], p));
    }
  }

  /** Confirming records find the same first contact before and after. */
  predicate SameMatches(rows: seq<Row>, rows': seq<Row>, w: int, q: Qso) {
    Confirming(q) ==>
      var before, after := DbDuplicates(rows, q, w), DbDuplicates(rows', q, w);
      (before == [] <==> after == []) && (before != [] ==> before[0] == after[0])
  }

  lemma PlanOneReplays(log: Log, log': Log, w: int, download: bool, i: nat, q: Qso, p: Plan, p': Plan)
    requires Replays(p, p') && KeepsRecorded(log.services, log'.services) && SameMatches(log.rows, log'.rows, w, q)
    requires RecordsAll(log'.services, PlanOne(log, w, download, i, q, p).confirmations)
    ensures Replays(PlanOne(log, w, download, i, q, p), PlanOne(log', w, download, i, q, p'))
  {
    hide Check, DbDuplicates, ConfirmationsIn, SeenInFile, CountAllMatched, CountAllUnmatched, KeepsRecorded, RecordsAll;
    var existing := DbDuplicates(log.rows, q, w);
    var confs := ConfirmationsIn(q);
    UnmatchedReplays(q, confs, p, p');
    if Confirming(q) && existing != [] {
      MatchedReplays(log.services, log'.services, existing[0].id, confs, p, p');
    }
  }

  lemma {:induction false} PlanReplays(
      log: Log, log': Log, w: int, download: bool, qs: seq<Qso>, i: nat, p: Plan, p': Plan)
    requires i <= |qs| && Replays(p, p') && KeepsRecorded(log.services, log'.services)
    requires forall k :: 0 <= k < |qs| ==> SameMatches(log.rows, log'.rows, w, qs[k])
    requires RecordsAll(log'.services, PlanFrom(log, w, download, qs, i, p).confirmations)
    ensures Replays(PlanFrom(log, w, download, qs, i, p), PlanFrom(log', w, download, qs, i, p'))
    decreases |qs| - i
  {
    hide PlanOne, Replays, KeepsRecorded, SameMatches, RecordsAll;
    if i < |qs| {
      var next := PlanOne(log, w, download, i, qs[i], p);
      PlanGrows(log, w, download, qs, i + 1, next);
      PrefixRecorded(log'.services, next.confirmations, PlanFrom(log, w, download, qs, i, p).confirmations);
      PlanOneReplays(log, log', w, download, i, qs[i], p, p');
      PlanReplays(log, log', w, download, qs, i + 1, next, PlanOne(log', w, download, i, qs[i], p'));
    }
  }

  /** Recording dated confirmations keeps what was recorded and records each of them. */
  lemma {:induction false} ConfirmAllRecords(services: Services, cs: seq<Confirmation>)
    requires AllDated(cs)
    ensures KeepsRecorded(services, ConfirmAll(services, cs)) && RecordsAll(ConfirmAll(services, cs), cs)
    decreases |cs|
  {
    if cs != [] {
      var next := Confirm(services, cs[0]);
      ConfirmAllRecords(next, cs[1..]);
      var all := ConfirmAll(next, cs[1..]);
      assert Recorded(next, cs[0].qsoId, cs[0].service);
      forall i | 0 <= i < |cs|
        ensures Recorded(all, cs[i].qsoId, cs[i].service)
      {
        if i > 0 {
          assert cs[i] == cs[1..][i - 1];
        } else {
          assert (cs[0].qsoId, cs[0].service) in next;
        }
      }
      forall key | key in services && Recorded(services, key.0, key.1)
        ensures Recorded(all, key.0, key.1)
      {
        assert key in next && Recorded(next, key.0, key.1);
      }
    }
  }

  /** A download plans no new contacts. */
  lemma {:induction false} DownloadAddsNothing(log: Log, w: int, qs: seq<Qso>, i: nat, p: Plan)
    requires i <= |qs|
    ensures PlanFrom(log, w, true, qs, i, p).importable == p.importable
    ensures PlanFrom(log, w, true, qs, i, p).duplicates == p.duplicates
    decreases |qs| - i
  {
    hide Check, DbDuplicates, ConfirmationsIn, CountAllMatched, CountAllUnmatched;
    if i < |qs| {
      var existing, confs := DbDuplicates(log.rows, qs[i], w), ConfirmationsIn(qs[i]);
      UnmatchedKeepsContacts(qs[i], confs, p);
      if existing != [] {
        MatchedKeepsContacts(log.services, existing[0].id, confs, p);
      }
      DownloadAddsNothing(log, w, qs, i + 1, PlanOne(log, w, true, i, qs[i], p));
    }
  }

  // ---- foreign keys ------------------------------------------------------------------

  lemma {:induction false} DbDuplicatesAreRows(rows: seq<Row>, q: Qso, w: int)
    ensures forall r | r in DbDuplicates(rows, q, w) :: r in rows
    decreases |rows|
  {
    hide SqlMatch, WithinWindow;
    if rows != [] {
      DbDuplicatesAreRows(rows[1..], q, w);
    }
  }

  predicate Anchored(rows: seq<Row>, cs: seq<Confirmation>) {
    forall i :: 0 <= i < |cs| ==> HasId(rows, cs[i].qsoId)
  }

  lemma {:induction false} MatchedAnchored(
      rows: seq<Row>, services: Services, id: int, confs: seq<(string, Option<string>)>, p: Plan)
    requires Anchored(rows, p.confirmations) && HasId(rows, id)
    ensures Anchored(rows, CountAllMatched(services, id, confs, p).confirmations)
    decreases |confs|
  {
    hide HasId, Recorded;
    if confs != [] {
      MatchedAnchored(rows, services, id, confs[1..], CountMatched(services, id, confs[0].0, confs[0].1, p));
    }
  }

  /** Every confirmation of a plan belongs to a stored contact. */
  lemma {:induction false} PlanAnchored(log: Log, w: int, download: bool, qs: seq<Qso>, i: nat, p: Plan)
    requires i <= |qs| && Anchored(log.rows, p.confirmations)
    ensures Anchored(log.rows, PlanFrom(log, w, download, qs, i, p).confirmations)
    decreases |qs| - i
  {
    hide Check, DbDuplicates, ConfirmationsIn, SeenInFile, CountAllMatched, CountAllUnmatched, HasId, Anchored;
    if i < |qs| {
      var existing, confs := DbDuplicates(log.rows, qs[i], w), ConfirmationsIn(qs[i]);
      UnmatchedKeepsConfirmations(qs[i], confs, p);
      if existing != [] {
        FirstIsRow(log.rows, qs[i], w);
        MatchedAnchored(log.rows, log.services, existing[0].id, confs, p);
      }
      PlanAnchored(log, w, download, qs, i + 1, PlanOne(log, w, download, i, qs[i], p));
    }
  }

  lemma FirstIsRow(rows: seq<Row>, q: Qso, w: int)
    requires DbDuplicates(rows, q, w) != []
    ensures HasId(rows, DbDuplicates(rows, q, w)[0].id)
  {
    DbDuplicatesAreRows(rows, q, w);
    var r := DbDuplicates(rows, q, w)[0];
    assert r in rows;
  }

  /** A plan can always be committed: none of its confirmations breaks the transaction. */
  lemma PlanCommits(log: Log, w: int, download: bool, qs: seq<Qso>, station: Station)
    requires Valid(log)
    ensures var plan := PlanFrom(log, w, download, qs, 0, NOTHING);
            ForeignKeysHold(log, plan.importable, plan.confirmations, station)
  {
    hide HasId, PlanFrom;
    var plan := PlanFrom(log, w, download, qs, 0, NOTHING);
    PlanAnchored(log, w, download, qs, 0, NOTHING);
    AddRowsAscending(log.rows, Snapshots(plan.importable, station));
  }

  /**
   A committed download, fetched and planned again, confirms nothing new: every
   confirmation it recorded is now counted as already confirmed, nothing else changes.
   */
  lemma RedownloadConfirmsNothing(log: Log, w: int, qs: seq<Qso>, station: Station, disk: Disk)
    requires Valid(log)
    ensures var plan := PlanFrom(log, w, true, qs, 0, NOTHING);
            var log' := Committed(log, plan.importable, plan.confirmations, station, disk);
            var again := PlanFrom(log', w, true, qs, 0, NOTHING);
            && log'.rows == log.rows
            && again.importable == [] && again.confirmations == []
            && again.alreadyConfirmed == plan.alreadyConfirmed + |plan.confirmations|
            && again.unmatched == plan.unmatched
  {
    hide PlanFrom, ForeignKeysHold, Appended, ConfirmAll, DbDuplicates, Confirming;
    var plan := PlanFrom(log, w, true, qs, 0, NOTHING);
    DownloadAddsNothing(log, w, qs, 0, NOTHING);
    PlanCommits(log, w, true, qs, station);
    PlanGrows(log, w, true, qs, 0, NOTHING);
    ConfirmAllRecords(log.services, plan.confirmations);
    var log' := Committed(log, plan.importable, plan.confirmations, station, disk);
    DownloadAddsNothing(log', w, qs, 0, NOTHING);
    PlanReplays(log, log', w, true, qs, 0, NOTHING, NOTHING);
  }

  /**
   The file-level law: plan a file, commit the plan, plan the file again. With no stray
   whitespace around calls and bands and with readable times, nothing is offered.
   */
  lemma ImportIdempotent(log: Log, w: int, qs: seq<Qso>, station: Station, disk: Disk)
    requires Valid(log) && w >= 0
    requires forall k | 0 <= k < |qs| && NewTo(log.rows, w, qs[k]) :: TidyKey(qs[k]) && TimeOf(qs[k]).Some?
    ensures var plan := PlanFrom(log, w, false, qs, 0, NOTHING);
            var log' := Committed(log, plan.importable, plan.confirmations, station, disk);
            PlanFrom(log', w, false, qs, 0, NOTHING).importable == []
  {
    hide PlanFrom, ForeignKeysHold, Appended, ConfirmAll, NewTo, TidyKey, TimeOf;
    var plan := PlanFrom(log, w, false, qs, 0, NOTHING);
    PlanCommits(log, w, false, qs, station);
    PlanConserves(log, w, qs, 0, NOTHING);
    var log' := Committed(log, plan.importable, plan.confirmations, station, disk);
    PlanConserves(log', w, qs, 0, NOTHING);
    ReimportOffersNothing(log.rows, w, qs, station);
  }

  /** The same for a parsed file: only calls, bands and times need care, modes are tidied on the way in. */
  lemma ImportFileTwice(log: Log, w: int, records: seq<AdifRecord>, station: Station, disk: Disk)
    requires Valid(log) && w >= 0
    requires forall r | r in records ::
               var q := ContactOf(r);
               Check(q).None? ==> Trimmed(q.call) && Trimmed(q.band) && TimeOf(q).Some?
    ensures var plan := PlanFile(log, w, false, records);
            var log' := Committed(log, plan.importable, plan.confirmations, station, disk);
            PlanFile(log', w, false, records).importable == []
  {
    hide PlanFrom, Committed, ContactOf, Check, TimeOf, DbDuplicates, ConfirmationsIn, Trimmed;
    var qs := Contacts(records);
    forall k | 0 <= k < |qs| && NewTo(log.rows, w, qs[k])
      ensures TidyKey(qs[k]) && TimeOf(qs[k]).Some?
    {
      assert records[k] in records;
      ModeIsTrimmed(records[k]);
    }
    ImportIdempotent(log, w, qs, station, disk);
  }

  lemma ModeIsTrimmed(r: AdifRecord)
    ensures Trimmed(ContactOf(r).mode)
  {
    hide NormalizeMode, Trimmed;
    NormalizeModeIdempotent(ToQso(r).mode, ToQso(r).submode);
  }
}
