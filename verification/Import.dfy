/**
 Planning an ADIF import against the log (rigflow-log/src/import.rs): a read-only
 pass that sorts every record into new contact, duplicate, confirmation or problem.
 */
module Import {
  import opened Wrappers
  import opened Text
  import opened Decimal
  import opened Adif
  import opened Model
  import opened QsoRecord
  import opened Dedupe
  import opened LogStore

  datatype Reason = NoCall | BadDate(date: string) | BadTime(time: string) | NoMode

  /** A record that cannot become a contact, by its 1-based place in the file. */
  datatype Problem = Problem(record: nat, call: string, reason: Reason)

  type ServiceKey = (int, string)
  type StrangerKey = (string, string, string, string)

  /** The plan under construction, and which confirmations it has already counted. */
  datatype Plan = Plan(
    importable: seq<Qso>, duplicates: nat, confirmations: seq<Confirmation>,
    alreadyConfirmed: nat, unmatched: nat, unusable: seq<Problem>,
    seenConfirmed: set<ServiceKey>, seenUnmatched: set<StrangerKey>)

  const NOTHING := Plan([], 0, [], 0, 0, [], {}, {})

  // ---- one record ----------------------------------------------------------------

  /** Why a contact is unusable, if it is: it must name a station, a date, a time and a mode. */
  function Check(q: Qso): Option<Reason> {
    var d, t := Trim(q.qsoDate), Trim(q.timeOn);
    if Trim(q.call) == "" then Some(NoCall)
    else if ByteLen(d) != 8 || !AllDigits(d) then Some(BadDate(q.qsoDate))
    else if (ByteLen(t) != 4 && ByteLen(t) != 6) || !AllDigits(t) then Some(BadTime(q.timeOn))
    else if Trim(q.mode) == "" then Some(NoMode)
    else None
  }

  /** Stored contacts under the same key within the window, in id order. */
  function DbDuplicates(rows: seq<Row>, q: Qso, w: int): seq<Row> {
    if rows == [] then []
    else (if SqlMatch(rows[0].qso, q) && WithinWindow(q, rows[0].qso, w) then [rows[0]] else [])
         + DbDuplicates(rows[1..], q, w)
  }

  predicate Says(q: Qso, field: string, word: string) {
    field in q.extra && Upper(Trim(q.extra[field])) == word
  }

  predicate HasApp(q: Qso, prefix: string) {
    exists name | name in q.extra :: prefix <= name
  }

  /** A stored confirmation date, or else the contact's own date. */
  function Dated(q: Qso, field: string): Option<string> {
    var own := Trim(q.qsoDate);
    if field in q.extra && Trim(q.extra[field]) != "" then Some(Trim(q.extra[field]))
    else if own != "" then Some(own)
    else None
  }

  function LotwMark(q: Qso): seq<(string, Option<string>)> {
    if Says(q, "LOTW_QSL_RCVD", "Y") then [("lotw", Dated(q, "LOTW_QSLRDATE"))] else []
  }

  function EqslMark(q: Qso): seq<(string, Option<string>)> {
    if Says(q, "EQSL_QSL_RCVD", "Y") || "EQSL_AG" in q.extra || HasApp(q, "APP_EQSL")
    then [("eqsl", Dated(q, "EQSL_QSLRDATE"))] else []
  }

  function QrzMark(q: Qso): seq<(string, Option<string>)> {
    if Says(q, "APP_QRZLOG_STATUS", "C") then [("qrz", Dated(q, "APP_QRZLOG_QSLDATE"))] else []
  }

  /** A bare `QSL_RCVD` belongs to the service whose marker stands beside it, unless already found. */
  function CardMark(q: Qso, found: seq<(string, Option<string>)>): seq<(string, Option<string>)> {
    var service := if HasApp(q, "APP_LOTW") then "lotw" else if HasApp(q, "APP_EQSL") then "eqsl" else "qsl";
    if Says(q, "QSL_RCVD", "Y") && forall i :: 0 <= i < |found| ==> found[i].0 != service
    then [(service, Dated(q, "QSLRDATE"))] else []
  }

  /** Every confirmation a contact carries. */
  function ConfirmationsIn(q: Qso): seq<(string, Option<string>)> {
    var found := LotwMark(q) + EqslMark(q) + QrzMark(q);
    found + CardMark(q, found)
  }

  /** Confirmed means dated: a row left by an upload alone does not count. */
  predicate Recorded(services: Services, id: int, service: string) {
    (id, service) in services && services[(id, service)].confirmedAt.Some?
  }

  function CountMatched(services: Services, id: int, service: string, at: Option<string>, p: Plan): Plan {
    if (id, service) in p.seenConfirmed then p
    else
      var seen := p.(seenConfirmed := p.seenConfirmed + {(id, service)});
      if Recorded(services, id, service) then seen.(alreadyConfirmed := p.alreadyConfirmed + 1)
      else seen.(confirmations := p.confirmations + [Confirmation(id, service, at)])
  }

  function StrangerOf(q: Qso, service: string): StrangerKey {
    (Upper(Trim(q.call)), q.band, q.mode, service)
  }

  function CountUnmatched(key: StrangerKey, p: Plan): Plan {
    if key in p.seenUnmatched then p
    else p.(seenUnmatched := p.seenUnmatched + {key}, unmatched := p.unmatched + 1)
  }

  function CountAllMatched(services: Services, id: int, confs: seq<(string, Option<string>)>, p: Plan): Plan
    decreases |confs|
  {
    if confs == [] then p
    else CountAllMatched(services, id, confs[1..], CountMatched(services, id, confs[0].0, confs[0].1, p))
  }

  function CountAllUnmatched(q: Qso, confs: seq<(string, Option<string>)>, p: Plan): Plan
    decreases |confs|
  {
    if confs == [] then p
    else CountAllUnmatched(q, confs[1..], CountUnmatched(StrangerOf(q, confs[0].0), p))
  }

  /** Some contact already accepted from this file has the same key within the window. */
  predicate SeenInFile(accepted: seq<Qso>, q: Qso, w: int) {
    exists j :: 0 <= j < |accepted| && NaturalKey(accepted[j]) == NaturalKey(q) && WithinWindow(q, accepted[j], w)
  }

  /** What contact `i` of the file adds to the plan, by scanning everything accepted so far. */
  function PlanOne(log: Log, w: int, download: bool, i: nat, q: Qso, p: Plan): Plan {
    var problem := Check(q);
    if problem.Some? then p.(unusable := p.unusable + [Problem(i + 1, Trim(q.call), problem.value)])
    else
      var existing := DbDuplicates(log.rows, q, w);
      var confs := ConfirmationsIn(q);
      if confs != [] && existing != [] then CountAllMatched(log.services, existing[0].id, confs, p)
      else if confs != [] then CountAllUnmatched(q, confs, p)
      else if download then p
      else if existing != [] || SeenInFile(p.importable, q, w) then p.(duplicates := p.duplicates + 1)
      else p.(importable := p.importable + [q])
  }

  function PlanFrom(log: Log, w: int, download: bool, qs: seq<Qso>, i: nat, p: Plan): Plan
    requires i <= |qs|
    decreases |qs| - i
  {
    if i == |qs| then p else PlanFrom(log, w, download, qs, i + 1, PlanOne(log, w, download, i, qs[i], p))
  }

  function ContactOf(r: AdifRecord): Qso {
    Normalized(ToQso(r))
  }

  function Contacts(records: seq<AdifRecord>): (qs: seq<Qso>)
    ensures |qs| == |records| && forall i :: 0 <= i < |qs| ==> qs[i] == ContactOf(records[i])
  {
    seq(|records|, i requires 0 <= i < |records| => ContactOf(records[i]))
  }

  /** The plan for a file: its records as normalized contacts, one after the other. */
  function PlanFile(log: Log, w: int, download: bool, records: seq<AdifRecord>): Plan {
    PlanFrom(log, w, download, Contacts(records), 0, NOTHING)
  }

  // ---- the source's loop with its bucket index -------------------------------------

  type Key = (string, string, string)

  /** The index lists, for each key, exactly the accepted contacts that have it. */
  ghost predicate Indexed(seen: map<Key, seq<nat>>, accepted: seq<Qso>) {
    && (forall key | key in seen :: forall j | j in seen[key] :: j < |accepted| && NaturalKey(accepted[j]) == key)
    && (forall j: nat | j < |accepted| :: NaturalKey(accepted[j]) in seen && j in seen[NaturalKey(accepted[j])])
  }

  function Bucket(seen: map<Key, seq<nat>>, key: Key): seq<nat> {
    if key in seen then seen[key] else []
  }

  lemma IndexOne(seen: map<Key, seq<nat>>, accepted: seq<Qso>, q: Qso)
    requires Indexed(seen, accepted)
    ensures Indexed(seen[NaturalKey(q) := Bucket(seen, NaturalKey(q)) + [|accepted|]], accepted + [q])
  {
    hide NaturalKey;
  }

  /** Looking only at the bucket of the key finds what the scan over everything finds. */
  method SeenInBucket(seen: map<Key, seq<nat>>, accepted: seq<Qso>, q: Qso, w: int) returns (dup: bool)
    requires Indexed(seen, accepted)
    ensures dup <==> SeenInFile(accepted, q, w)
  {
    hide NaturalKey, WithinWindow;
    var bucket := Bucket(seen, NaturalKey(q));
    forall i | 0 <= i < |bucket|
      ensures bucket[i] < |accepted| && NaturalKey(accepted[bucket[i]]) == NaturalKey(q)
    {
      assert bucket[i] in seen[NaturalKey(q)];
    }
    for k := 0 to |bucket|
      invariant forall i :: 0 <= i < k ==> !WithinWindow(q, accepted[bucket[i]], w)
    {
      assert bucket[k] in bucket;
      if WithinWindow(q, accepted[bucket[k]], w) {
        return true;
      }
    }
    dup := false;
  }

  method PlanInner(log: Log, w: int, download: bool, records: seq<AdifRecord>) returns (plan: Plan)
    ensures plan == PlanFile(log, w, download, records)
  {
    hide PlanOne, Indexed, ContactOf;
    ghost var qs := Contacts(records);
    plan := NOTHING;
    var seen: map<Key, seq<nat>> := map[];
    assert Indexed(seen, []) by { EmptyIndex(); }
    for i := 0 to |records|
      invariant Indexed(seen, plan.importable)
      invariant PlanFrom(log, w, download, qs, i, plan) == PlanFile(log, w, download, records)
    {
      var q := NormalizeFields(ToQso(records[i]));
      assert q == qs[i] by { ContactIs(records[i]); }
      seen, plan := PlanRecord(log, w, download, i, q, seen, plan);
    }
  }

  lemma EmptyIndex()
    ensures Indexed(map[], [])
  {
  }

  lemma ContactIs(r: AdifRecord)
    ensures ContactOf(r) == Normalized(ToQso(r))
  {
  }

  /** The body of the loop: unusable, confirming, ignored, known or new. */
  method PlanRecord(log: Log, w: int, download: bool, i: nat, q: Qso, seen: map<Key, seq<nat>>, plan: Plan)
    returns (seen': map<Key, seq<nat>>, plan': Plan)
    requires Indexed(seen, plan.importable)
    ensures plan' == PlanOne(log, w, download, i, q, plan)
    ensures Indexed(seen', plan'.importable)
  {
    hide Check, DbDuplicates, ConfirmationsIn, Indexed, NaturalKey, SeenInFile, CountAllMatched, CountAllUnmatched;
    seen', plan' := seen, plan;
    var problem := Check(q);
    if problem.Some? {
      plan' := plan.(unusable := plan.unusable + [Problem(i + 1, Trim(q.call), problem.value)]);
      return;
    }
    var existing := DbDuplicates(log.rows, q, w);
    var confs := ConfirmationsIn(q);
    if confs != [] {
      if existing != [] {
        plan' := CountMatchedLoop(log.services, existing[0].id, confs, plan);
      } else {
        plan' := CountUnmatchedLoop(q, confs, plan);
      }
      return;
    }
    if download {
      return;
    }
    if existing != [] {
      plan' := plan.(duplicates := plan.duplicates + 1);
      return;
    }
    var dup := SeenInBucket(seen, plan.importable, q, w);
    if dup {
      plan' := plan.(duplicates := plan.duplicates + 1);
      return;
    }
    IndexOne(seen, plan.importable, q);
    seen' := seen[NaturalKey(q) := Bucket(seen, NaturalKey(q)) + [|plan.importable|]];
    plan' := plan.(importable := plan.importable + [q]);
  }

  method CountMatchedLoop(services: Services, id: int, confs: seq<(string, Option<string>)>, plan: Plan) returns (p: Plan)
    ensures p == CountAllMatched(services, id, confs, plan) && p.importable == plan.importable
  {
    p := plan;
    for k := 0 to |confs|
      invariant CountAllMatched(services, id, confs[k..], p) == CountAllMatched(services, id, confs, plan)
      invariant p.importable == plan.importable
    {
      assert confs[k..][1..] == confs[k + 1..];
      p := CountMatched(services, id, confs[k].0, confs[k].1, p);
    }
  }

  method CountUnmatchedLoop(q: Qso, confs: seq<(string, Option<string>)>, plan: Plan) returns (p: Plan)
    ensures p == CountAllUnmatched(q, confs, plan) && p.importable == plan.importable
  {
    hide StrangerOf;
    p := plan;
    for k := 0 to |confs|
      invariant CountAllUnmatched(q, confs[k..], p) == CountAllUnmatched(q, confs, plan)
      invariant p.importable == plan.importable
    {
      assert confs[k..][1..] == confs[k + 1..];
      p := CountUnmatched(StrangerOf(q, confs[k].0), p);
    }
  }

  /** Planning a text: one that does not parse is refused whole. */
  method PlanText(log: Log, text: string, w: int, download: bool) returns (r: Result<(nat, Plan), AdifError>)
    ensures match Parse(text, map[], [])
            case Err(e) => r == Err(e)
            case Ok(records) => r == Ok((|records|, PlanFile(log, w, download, records)))
  {
    hide PlanFile, Parse;
    var parsed := ParseAdif(text);
    match parsed {
      case Err(e) => r := Err(e);
      case Ok(records) =>
        var plan := PlanInner(log, w, download, records);
        r := Ok((|records|, plan));
    }
  }
}
