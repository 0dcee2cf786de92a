/** What a plan makes of the confirmations in a file, and what committing it records. */
module ImportConfirmations {
  import opened Wrappers
  import opened Text
  import opened Decimal
  import opened Adif
  import opened AdifGrammar
  import opened Model
  import opened QsoRecord
  import opened Dedupe
  import opened LogStore
  import opened StoreHistory
  import opened Import
  import opened ImportLaws

  // ---- the marks of a file ------------------------------------------------------------

  /** One confirmation found in a file: of a stored contact, or of one the log does not have. */
  datatype Mark = Known(key: ServiceKey, at: Option<string>) | Stranger(who: StrangerKey)

  /** The marks of one contact: every service it names, filed under its first match in the log. */
  function MarksOf(rows: seq<Row>, w: int, q: Qso): (r: seq<Mark>)
    ensures |r| == if Check(q).None? then |ConfirmationsIn(q)| else 0
  {
    var confs := ConfirmationsIn(q);
    var existing := DbDuplicates(rows, q, w);
    if Check(q).Some? then []
    else if existing == [] then seq(|confs|, i requires 0 <= i < |confs| =>
      Stranger((Upper(Trim(q.call)), q.band, q.mode, confs[i].0)))
    else seq(|confs|, i requires 0 <= i < |confs| => Known((existing[0].id, confs[i].0), confs[i].1))
  }

  /** All marks of a file, in order. */
  function Marks(rows: seq<Row>, w: int, qs: seq<Qso>): seq<Mark>
    decreases |qs|
  {
    if qs == [] then [] else Marks(rows, w, qs[..|qs| - 1]) + MarksOf(rows, w, qs[|qs| - 1])
  }

  function KnownKeys(marks: seq<Mark>): set<ServiceKey> {
    set m | m in marks && m.Known? :: m.key
  }

  function Strangers(marks: seq<Mark>): set<StrangerKey> {
    set m | m in marks && m.Stranger? :: m.who
  }

  /** The date with which a file confirms a key first. */
  function FirstDate(marks: seq<Mark>, key: ServiceKey): Option<string> {
    if marks == [] then None
    else if marks[0].Known? && marks[0].key == key then marks[0].at
    else FirstDate(marks[1..], key)
  }

  function KeyOf(c: Confirmation): ServiceKey {
    (c.qsoId, c.service)
  }

  function Undated(services: Services, keys: set<ServiceKey>): set<ServiceKey> {
    set key | key in keys && ConfirmDate(services, key).None?
  }

  /** One confirmation for every key the log holds no date for, with the date the file gives first. */
  ghost predicate Lists(services: Services, marks: seq<Mark>, cs: seq<Confirmation>) {
    && (forall i :: 0 <= i < |cs| ==> KeyOf(cs[i]) in Undated(services, KnownKeys(marks)))
    && (forall key | key in Undated(services, KnownKeys(marks)) :: exists i :: 0 <= i < |cs| && KeyOf(cs[i]) == key)
    && (forall i, j :: 0 <= i < j < |cs| ==> KeyOf(cs[i]) != KeyOf(cs[j]))
    && (forall i :: 0 <= i < |cs| ==> cs[i].confirmedAt == FirstDate(marks, KeyOf(cs[i])))
  }

  /** The plan a list of marks stands for: what is undated listed, the rest counted, each key and stranger once. */
  ghost predicate Tallies(services: Services, marks: seq<Mark>, p: Plan) {
    && p.seenConfirmed == KnownKeys(marks) && p.seenUnmatched == Strangers(marks)
    && Lists(services, marks, p.confirmations)
    && p.alreadyConfirmed == |KnownKeys(marks) - Undated(services, KnownKeys(marks))|
    && p.unmatched == |Strangers(marks)|
  }

  // ---- one mark ---------------------------------------------------------------------------

  lemma KeysSnoc(marks: seq<Mark>, m: Mark)
    ensures KnownKeys(marks + [m]) == KnownKeys(marks) + if m.Known? then {m.key} else {}
    ensures Strangers(marks + [m]) == Strangers(marks) + if m.Stranger? then {m.who} else {}
  {
    assert forall x :: x in marks + [m] <==> x in marks || x == m;
  }

  lemma {:induction false} FirstDateSnoc(marks: seq<Mark>, m: Mark, key: ServiceKey)
    ensures FirstDate(marks + [m], key)
            == if key in KnownKeys(marks) then FirstDate(marks, key)
               else if m.Known? && m.key == key then m.at else None
    decreases |marks|
  {
    if marks == [] {
      assert marks + [m] == [m] && [m][1..] == [];
    } else {
      assert (marks + [m])[0] == marks[0] && (marks + [m])[1..] == marks[1..] + [m];
      FirstDateSnoc(marks[1..], m, key);
      assert marks == [marks[0]] + marks[1..];
      assert key in KnownKeys(marks) <==> (marks[0].Known? && marks[0].key == key) || key in KnownKeys(marks[1..]);
    }
  }

  /** Behind a further mark, the dates of the keys seen before stay. */
  lemma FirstDatesStay(marks: seq<Mark>, m: Mark, cs: seq<Confirmation>)
    requires forall i :: 0 <= i < |cs| ==> KeyOf(cs[i]) in KnownKeys(marks)
    ensures forall i :: 0 <= i < |cs| ==> FirstDate(marks + [m], KeyOf(cs[i])) == FirstDate(marks, KeyOf(cs[i]))
  {
    hide KnownKeys, FirstDate;
    forall i | 0 <= i < |cs|
      ensures FirstDate(marks + [m], KeyOf(cs[i])) == FirstDate(marks, KeyOf(cs[i]))
    {
      FirstDateSnoc(marks, m, KeyOf(cs[i]));
    }
  }

  lemma ListsStill(services: Services, marks: seq<Mark>, m: Mark, cs: seq<Confirmation>)
    requires Lists(services, marks, cs)
    requires m.Known? ==> m.key in KnownKeys(marks) || ConfirmDate(services, m.key).Some?
    ensures Lists(services, marks + [m], cs)
  {
    hide KnownKeys, FirstDate, Strangers, ConfirmDate;
    FirstDatesStay(marks, m, cs);
    KeysSnoc(marks, m);
    assert Undated(services, KnownKeys(marks + [m])) == Undated(services, KnownKeys(marks));
  }

  lemma ListsOneMore(services: Services, marks: seq<Mark>, key: ServiceKey, at: Option<string>, cs: seq<Confirmation>)
    requires Lists(services, marks, cs) && key !in KnownKeys(marks) && ConfirmDate(services, key).None?
    ensures Lists(services, marks + [Known(key, at)], cs + [Confirmation(key.0, key.1, at)])
  {
    hide KnownKeys, FirstDate, Strangers, ConfirmDate;
    var m, c := Known(key, at), Confirmation(key.0, key.1, at);
    FirstDatesStay(marks, m, cs);
    FirstDateSnoc(marks, m, key);
    KeysSnoc(marks, m);
    var before := Undated(services, KnownKeys(marks));
    assert Undated(services, KnownKeys(marks + [m])) == before + {key};
    assert KeyOf(c) == key;
    hide Undated, KeyOf;
    forall k | k in before + {key}
      ensures exists i :: 0 <= i < |cs + [c]| && KeyOf((cs + [c])[i]) == k
    {
      if k in before {
        var i :| 0 <= i < |cs| && KeyOf(cs[i]) == k;
        assert (cs + [c])[i] == cs[i];
      } else {
        assert (cs + [c])[|cs|] == c;
      }
    }
  }

  lemma DatedCount(services: Services, keys: set<ServiceKey>, key: ServiceKey)
    requires key !in keys
    ensures |keys + {key} - Undated(services, keys + {key})|
            == |keys - Undated(services, keys)| + if ConfirmDate(services, key).Some? then 1 else 0
  {
    hide ConfirmDate;
    var before := keys - Undated(services, keys);
    if ConfirmDate(services, key).Some? {
      assert keys + {key} - Undated(services, keys + {key}) == before + {key};
    } else {
      assert keys + {key} - Undated(services, keys + {key}) == before;
    }
  }

  lemma KnownTallies(services: Services, marks: seq<Mark>, key: ServiceKey, at: Option<string>, p: Plan)
    requires Tallies(services, marks, p)
    ensures Tallies(services, marks + [Known(key, at)], CountMatched(services, key.0, key.1, at, p))
  {
    hide Lists, KnownKeys, Strangers, Undated;
    KeysSnoc(marks, Known(key, at));
    if key in KnownKeys(marks) {
      ListsStill(services, marks, Known(key, at), p.confirmations);
      assert KnownKeys(marks) + {key} == KnownKeys(marks);
    } else {
      DatedCount(services, KnownKeys(marks), key);
      if ConfirmDate(services, key).Some? {
        ListsStill(services, marks, Known(key, at), p.confirmations);
      } else {
        ListsOneMore(services, marks, key, at, p.confirmations);
      }
    }
  }

  lemma StrangerTallies(services: Services, marks: seq<Mark>, who: StrangerKey, p: Plan)
    requires Tallies(services, marks, p)
    ensures Tallies(services, marks + [Stranger(who)], CountUnmatched(who, p))
  {
    hide Lists, KnownKeys, Strangers, Undated;
    KeysSnoc(marks, Stranger(who));
    ListsStill(services, marks, Stranger(who), p.confirmations);
    assert KnownKeys(marks) + {} == KnownKeys(marks);
    if who in Strangers(marks) {
      assert Strangers(marks) + {who} == Strangers(marks);
    }
  }

  // ---- one contact, one file ------------------------------------------------------------------

  lemma {:induction false} AllKnownTally(
    services: Services, marks: seq<Mark>, id: int, confs: seq<(string, Option<string>)>, p: Plan)
    requires Tallies(services, marks, p)
    ensures Tallies(services, marks + seq(|confs|, i requires 0 <= i < |confs| => Known((id, confs[i].0), confs[i].1)),
                    CountAllMatched(services, id, confs, p))
    decreases |confs|
  {
    hide Tallies, CountMatched;
    var all := seq(|confs|, i requires 0 <= i < |confs| => Known((id, confs[i].0), confs[i].1));
    if confs == [] {
      assert marks + all == marks;
    } else {
      var rest := confs[1..];
      KnownTallies(services, marks, (id, confs[0].0), confs[0].1, p);
      AllKnownTally(services, marks + [all[0]], id, rest, CountMatched(services, id, confs[0].0, confs[0].1, p));
      assert marks + all
          == marks + [all[0]] + seq(|rest|, i requires 0 <= i < |rest| => Known((id, rest[i].0), rest[i].1));
    }
  }

  lemma {:induction false} AllStrangersTally(
    services: Services, marks: seq<Mark>, q: Qso, confs: seq<(string, Option<string>)>, p: Plan)
    requires Tallies(services, marks, p)
    ensures Tallies(services, marks + seq(|confs|, i requires 0 <= i < |confs| => Stranger(StrangerOf(q, confs[i].0))),
                    CountAllUnmatched(q, confs, p))
    decreases |confs|
  {
    hide Tallies, CountUnmatched, StrangerOf;
    var all := seq(|confs|, i requires 0 <= i < |confs| => Stranger(StrangerOf(q, confs[i].0)));
    if confs == [] {
      assert marks + all == marks;
    } else {
      var rest := confs[1..];
      StrangerTallies(services, marks, StrangerOf(q, confs[0].0), p);
      AllStrangersTally(services, marks + [all[0]], q, rest, CountUnmatched(StrangerOf(q, confs[0].0), p));
      assert marks + all
          == marks + [all[0]] + seq(|rest|, i requires 0 <= i < |rest| => Stranger(StrangerOf(q, rest[i].0)));
    }
  }

  lemma ContactTallies(log: Log, w: int, download: bool, i: nat, q: Qso, marks: seq<Mark>, p: Plan)
    requires Tallies(log.services, marks, p)
    ensures Tallies(log.services, marks + MarksOf(log.rows, w, q), PlanOne(log, w, download, i, q, p))
  {
    hide Check, DbDuplicates, ConfirmationsIn, SeenInFile, CountAllMatched, CountAllUnmatched, KnownKeys, Lists,
      Undated, Strangers, Upper, Trim;
    var existing, confs := DbDuplicates(log.rows, q, w), ConfirmationsIn(q);
    if Check(q).Some? || confs == [] {
      assert MarksOf(log.rows, w, q) == [] && marks + [] == marks;
    } else if existing == [] {
      assert MarksOf(log.rows, w, q) == seq(|confs|, i requires 0 <= i < |confs| => Stranger(StrangerOf(q, confs[i].0)));
      AllStrangersTally(log.services, marks, q, confs, p);
    } else {
      AllKnownTally(log.services, marks, existing[0].id, confs, p);
    }
  }

  lemma {:induction false} FileTallies(
    log: Log, w: int, download: bool, qs: seq<Qso>, i: nat, p: Plan)
    requires i <= |qs| && Tallies(log.services, Marks(log.rows, w, qs[..i]), p)
    ensures Tallies(log.services, Marks(log.rows, w, qs), PlanFrom(log, w, download, qs, i, p))
    decreases |qs| - i
  {
    hide PlanOne, Tallies, MarksOf;
    if i == |qs| {
      assert qs[..i] == qs;
    } else {
      ContactTallies(log, w, download, i, qs[i], Marks(log.rows, w, qs[..i]), p);
      assert qs[..i + 1][..i] == qs[..i] && qs[..i + 1][i] == qs[i];
      FileTallies(log, w, download, qs, i + 1, PlanOne(log, w, download, i, qs[i], p));
    }
  }

  /**
   What a plan makes of the confirmations in a file, for every log and every file: it lists exactly the
   contacts and services the file confirms and the log holds no date for, whatever an upload left there;
   the others are counted, and so are the strangers, each once.
   */
  lemma PlanTallies(log: Log, w: int, download: bool, qs: seq<Qso>)
    ensures Tallies(log.services, Marks(log.rows, w, qs), PlanFrom(log, w, download, qs, 0, NOTHING))
  {
    hide PlanFrom;
    assert qs[..0] == [];
    assert Marks(log.rows, w, []) == [];
    FileTallies(log, w, download, qs, 0, NOTHING);
  }

  // ---- committing it --------------------------------------------------------------------------

  lemma {:induction false} LastNamedMeaning(cs: seq<Confirmation>, key: ServiceKey)
    ensures match LastNamed(cs, key)
            case Some(c) => c in cs && KeyOf(c) == key
            case None => forall i :: 0 <= i < |cs| ==> KeyOf(cs[i]) != key
    decreases |cs|
  {
    if cs != [] && KeyOf(cs[|cs| - 1]) != key {
      LastNamedMeaning(cs[..|cs| - 1], key);
    }
  }

  lemma {:induction false} FirstDateMeaning(marks: seq<Mark>, key: ServiceKey)
    ensures key !in KnownKeys(marks) ==> FirstDate(marks, key) == None
    ensures key in KnownKeys(marks) ==> exists i :: 0 <= i < |marks| && marks[i] == Known(key, FirstDate(marks, key))
    decreases |marks|
  {
    if marks != [] {
      assert marks == [marks[0]] + marks[1..];
      if marks[0].Known? && marks[0].key == key {
        assert marks[0] == Known(key, FirstDate(marks, key));
      } else {
        FirstDateMeaning(marks[1..], key);
        if key in KnownKeys(marks[1..]) {
          var i :| 0 <= i < |marks[1..]| && marks[1..][i] == Known(key, FirstDate(marks[1..], key));
          assert marks[i + 1] == Known(key, FirstDate(marks, key));
        }
      }
    }
  }

  lemma {:induction false} MarksAreDated(rows: seq<Row>, w: int, qs: seq<Qso>)
    ensures forall i :: 0 <= i < |Marks(rows, w, qs)| && Marks(rows, w, qs)[i].Known? ==> Marks(rows, w, qs)[i].at.Some?
    decreases |qs|
  {
    hide Check, DbDuplicates, ConfirmationsIn, Upper, Trim;
    if qs != [] {
      var n := |qs| - 1;
      MarksAreDated(rows, w, qs[..n]);
      if Check(qs[n]).None? {
        ConfirmationsAreDated(qs[n]);
      }
    }
  }

  /** A contact's confirmations are among the marks of its file. */
  lemma {:induction false} MarksHold(rows: seq<Row>, w: int, qs: seq<Qso>, k: nat, i: nat)
    requires k < |qs| && Check(qs[k]).None? && DbDuplicates(rows, qs[k], w) != [] && i < |ConfirmationsIn(qs[k])|
    ensures (DbDuplicates(rows, qs[k], w)[0].id, ConfirmationsIn(qs[k])[i].0) in KnownKeys(Marks(rows, w, qs))
    decreases |qs|
  {
    hide Check, DbDuplicates, ConfirmationsIn, Upper, Trim;
    var n := |qs| - 1;
    var m := Known((DbDuplicates(rows, qs[k], w)[0].id, ConfirmationsIn(qs[k])[i].0), ConfirmationsIn(qs[k])[i].1);
    if k == n {
      assert MarksOf(rows, w, qs[k])[i] == m;
      assert m in Marks(rows, w, qs);
    } else {
      MarksHold(rows, w, qs[..n], k, i);
      assert Marks(rows, w, qs[..n]) <= Marks(rows, w, qs);
    }
  }

  lemma DatesAfter(services: Services, marks: seq<Mark>, cs: seq<Confirmation>, key: ServiceKey)
    requires Lists(services, marks, cs)
    ensures UploadDate(ConfirmAll(services, cs), key) == UploadDate(services, key)
    ensures ConfirmDate(ConfirmAll(services, cs), key)
            == if ConfirmDate(services, key).Some? then ConfirmDate(services, key) else FirstDate(marks, key)
  {
    hide ConfirmDate, UploadDate, ConfirmAll, LastNamed, KnownKeys, FirstDate;
    ConfirmAllSets(services, cs, key);
    LastNamedMeaning(cs, key);
    FirstDateMeaning(marks, key);
    if LastNamed(cs, key) == None {
      assert key !in Undated(services, KnownKeys(marks));
    }
  }

  /**
   Committing a plan records every confirmation the file has for a stored contact, in the row an upload may have
   left there: no upload date changes, a date already held stays, and any other becomes the first in the file.
   */
  lemma CommitRecords(log: Log, w: int, download: bool, qs: seq<Qso>, station: Station, disk: Disk)
    requires Valid(log)
    ensures var plan := PlanFrom(log, w, download, qs, 0, NOTHING);
            var after := Committed(log, plan.importable, plan.confirmations, station, disk).services;
            forall key ::
              && UploadDate(after, key) == UploadDate(log.services, key)
              && ConfirmDate(after, key)
                 == if ConfirmDate(log.services, key).Some? then ConfirmDate(log.services, key)
                    else FirstDate(Marks(log.rows, w, qs), key)
  {
    hide PlanFrom, ForeignKeysHold, Appended, ConfirmAll, Marks, UploadDate, ConfirmDate, Lists, Valid, FirstDate;
    var plan := PlanFrom(log, w, download, qs, 0, NOTHING);
    PlanTallies(log, w, download, qs);
    PlanCommits(log, w, download, qs, station);
    forall key
      ensures UploadDate(ConfirmAll(log.services, plan.confirmations), key) == UploadDate(log.services, key)
      ensures ConfirmDate(ConfirmAll(log.services, plan.confirmations), key)
              == if ConfirmDate(log.services, key).Some? then ConfirmDate(log.services, key)
                 else FirstDate(Marks(log.rows, w, qs), key)
    {
      DatesAfter(log.services, Marks(log.rows, w, qs), plan.confirmations, key);
    }
  }

  /** Afterwards every usable contact with a match is confirmed with every service that confirms it. */
  lemma CommitConfirms(
    log: Log, w: int, download: bool, qs: seq<Qso>, station: Station, disk: Disk, k: nat, i: nat)
    requires Valid(log) && k < |qs| && Check(qs[k]).None?
    requires DbDuplicates(log.rows, qs[k], w) != [] && i < |ConfirmationsIn(qs[k])|
    ensures var plan := PlanFrom(log, w, download, qs, 0, NOTHING);
            var after := Committed(log, plan.importable, plan.confirmations, station, disk).services;
            var key := (DbDuplicates(log.rows, qs[k], w)[0].id, ConfirmationsIn(qs[k])[i].0);
            key in after && after[key].confirmedAt.Some?
  {
    hide PlanFrom, Committed, Marks, Valid, DbDuplicates, ConfirmationsIn, Check, KnownKeys, FirstDate;
    var key := (DbDuplicates(log.rows, qs[k], w)[0].id, ConfirmationsIn(qs[k])[i].0);
    var marks := Marks(log.rows, w, qs);
    CommitRecords(log, w, download, qs, station, disk);
    MarksHold(log.rows, w, qs, k, i);
    MarksAreDated(log.rows, w, qs);
    FirstDateMeaning(marks, key);
    var plan := PlanFrom(log, w, download, qs, 0, NOTHING);
    assert ConfirmDate(Committed(log, plan.importable, plan.confirmations, station, disk).services, key).Some?;
  }

  // ---- problems ------------------------------------------------------------------------------------

  /** A contact is usable exactly when it names a station and a mode and its date and time have the shape to be read. */
  lemma UsableIff(q: Qso)
    ensures Check(q).None? <==> Trim(q.call) != "" && DigitsOf(q.qsoDate, q.timeOn) && Trim(q.mode) != ""
  {
    hide Trim;
    DigitBytes(Trim(q.qsoDate));
    DigitBytes(Trim(q.timeOn));
  }

  lemma {:induction false} DigitBytes(s: string)
    ensures AllDigits(s) ==> ByteLen(s) == |s|
  {
    if s != "" {
      DigitBytes(s[1..]);
    }
  }

  /** The unusable contacts of a file in order, each by its 1-based place. */
  function Problems(qs: seq<Qso>): seq<Problem>
    decreases |qs|
  {
    if qs == [] then []
    else
      var q := qs[|qs| - 1];
      Problems(qs[..|qs| - 1]) + match Check(q) case Some(why) => [Problem(|qs|, Trim(q.call), why)] case None => []
  }

  lemma NewProblem(log: Log, w: int, download: bool, i: nat, q: Qso, p: Plan)
    ensures PlanOne(log, w, download, i, q, p).unusable
            == p.unusable + match Check(q) case Some(why) => [Problem(i + 1, Trim(q.call), why)] case None => []
  {
    hide Check, DbDuplicates, ConfirmationsIn, SeenInFile, CountAllMatched, CountAllUnmatched, Trim;
    UnmatchedKeepsContacts(q, ConfirmationsIn(q), p);
    if DbDuplicates(log.rows, q, w) != [] {
      MatchedKeepsContacts(log.services, DbDuplicates(log.rows, q, w)[0].id, ConfirmationsIn(q), p);
    }
    assert p.unusable + [] == p.unusable;
  }

  lemma {:induction false} ProblemsFrom(log: Log, w: int, download: bool, qs: seq<Qso>, i: nat, p: Plan)
    requires i <= |qs| && p.unusable == Problems(qs[..i])
    ensures PlanFrom(log, w, download, qs, i, p).unusable == Problems(qs)
    decreases |qs| - i
  {
    hide PlanOne, Check, Trim;
    if i == |qs| {
      assert qs[..i] == qs;
    } else {
      NewProblem(log, w, download, i, qs[i], p);
      assert qs[..i + 1][..i] == qs[..i] && qs[..i + 1][i] == qs[i];
      ProblemsFrom(log, w, download, qs, i + 1, PlanOne(log, w, download, i, qs[i], p));
    }
  }

  /** A plan reports exactly the unusable contacts, whatever the others do. */
  lemma PlanProblems(log: Log, w: int, download: bool, qs: seq<Qso>)
    ensures PlanFrom(log, w, download, qs, 0, NOTHING).unusable == Problems(qs)
  {
    hide PlanFrom, Check;
    assert qs[..0] == [];
    ProblemsFrom(log, w, download, qs, 0, NOTHING);
  }

  // ---- which services confirm a contact --------------------------------------------------------------

  /** A field that says a word, in any letter case and between any blanks. */
  lemma SaysInAnyCase(q: Qso, field: string, word: string, front: string, said: string, back: string)
    requires field in q.extra && q.extra[field] == front + said + back
    requires Blank(front) && Blank(back) && said != "" && Trimmed(said)
    ensures Says(q, field, word) <==> Upper(said) == word
  {
    hide Trim, Upper;
    TrimBlanks(front, said, back);
  }

  /** A field of a program's own, by how its name begins. */
  predicate HasOwn(q: Qso, prefix: string) {
    exists name | name in q.extra :: |prefix| <= |name| && name[..|prefix|] == prefix
  }

  lemma OwnIsApp(q: Qso, prefix: string)
    ensures HasOwn(q, prefix) <==> HasApp(q, prefix)
  {
  }

  predicate Confirms(q: Qso, service: string) {
    match service
    case "lotw" => Says(q, "LOTW_QSL_RCVD", "Y") || (Says(q, "QSL_RCVD", "Y") && HasOwn(q, "APP_LOTW"))
    case "eqsl" => Says(q, "EQSL_QSL_RCVD", "Y") || "EQSL_AG" in q.extra || HasOwn(q, "APP_EQSL")
    case "qrz" => Says(q, "APP_QRZLOG_STATUS", "C")
    case "qsl" => Says(q, "QSL_RCVD", "Y") && !HasOwn(q, "APP_LOTW") && !HasOwn(q, "APP_EQSL")
    case _ => false
  }

  /** The date field a service is read from: a bare `QSL_RCVD` brings its own. */
  function DateField(q: Qso, service: string): string {
    match service
    case "lotw" => if Says(q, "LOTW_QSL_RCVD", "Y") then "LOTW_QSLRDATE" else "QSLRDATE"
    case "eqsl" => "EQSL_QSLRDATE"
    case "qrz" => "APP_QRZLOG_QSLDATE"
    case _ => "QSLRDATE"
  }

  lemma FoundMarks(q: Qso, found: seq<(string, Option<string>)>)
    requires found == LotwMark(q) + EqslMark(q) + QrzMark(q)
    ensures (exists i :: 0 <= i < |found| && found[i].0 == "lotw") <==> Says(q, "LOTW_QSL_RCVD", "Y")
    ensures (exists i :: 0 <= i < |found| && found[i].0 == "eqsl") <==> Confirms(q, "eqsl")
    ensures (exists i :: 0 <= i < |found| && found[i].0 == "qrz") <==> Confirms(q, "qrz")
    ensures forall i :: 0 <= i < |found| ==> found[i].0 in ["lotw", "eqsl", "qrz"] && Confirms(q, found[i].0)
    ensures forall i :: 0 <= i < |found| ==> found[i].1 == Dated(q, DateField(q, found[i].0))
    ensures forall i, j :: 0 <= i < j < |found| ==> found[i].0 != found[j].0
  {
    hide Says, HasApp, HasOwn, Dated;
    OwnIsApp(q, "APP_EQSL");
    var lotw, eqsl := LotwMark(q), EqslMark(q);
    if Says(q, "LOTW_QSL_RCVD", "Y") {
      assert found[0] == lotw[0];
    }
    if Confirms(q, "eqsl") {
      assert found[|lotw|] == eqsl[0];
    }
    if Confirms(q, "qrz") {
      assert found[|lotw| + |eqsl|] == QrzMark(q)[0];
    }
  }

  lemma CardMarks(q: Qso, found: seq<(string, Option<string>)>)
    requires found == LotwMark(q) + EqslMark(q) + QrzMark(q)
    ensures var card := CardMark(q, found);
            && |card| <= 1
            && (card != [] ==> card[0].0 in ["lotw", "eqsl", "qsl"] && Confirms(q, card[0].0))
            && (card != [] ==> forall i :: 0 <= i < |found| ==> found[i].0 != card[0].0)
            && (card != [] ==> card[0].1 == Dated(q, DateField(q, card[0].0)))
            && (Confirms(q, "qsl") ==> card != [] && card[0].0 == "qsl")
            && (Confirms(q, "lotw") && !Says(q, "LOTW_QSL_RCVD", "Y") ==> card != [] && card[0].0 == "lotw")
  {
    hide Says, HasApp, HasOwn, Dated, LotwMark, EqslMark, QrzMark;
    OwnIsApp(q, "APP_LOTW");
    OwnIsApp(q, "APP_EQSL");
    FoundMarks(q, found);
  }

  /** A date comes from its field, or from the contact itself when that field says nothing. */
  predicate ReadFrom(q: Qso, field: string, at: Option<string>) {
    if field in q.extra && Trim(q.extra[field]) != "" then at == Some(Trim(q.extra[field]))
    else at == if Trim(q.qsoDate) != "" then Some(Trim(q.qsoDate)) else None
  }

  lemma DatedIsRead(q: Qso, field: string)
    ensures ReadFrom(q, field, Dated(q, field))
  {
    hide Trim;
  }

  lemma FourServices(q: Qso, service: string)
    ensures Confirms(q, service) ==> service in ["lotw", "eqsl", "qrz", "qsl"]
  {
  }

  lemma MarksAreRead(q: Qso)
    ensures var confs := ConfirmationsIn(q);
            forall i :: 0 <= i < |confs| ==> ReadFrom(q, DateField(q, confs[i].0), confs[i].1)
  {
    hide Says, HasApp, HasOwn, Dated, LotwMark, EqslMark, QrzMark, CardMark, DateField, ReadFrom, Confirms;
    var found := LotwMark(q) + EqslMark(q) + QrzMark(q);
    var card, confs := CardMark(q, found), ConfirmationsIn(q);
    FoundMarks(q, found);
    CardMarks(q, found);
    forall i | 0 <= i < |confs|
      ensures ReadFrom(q, DateField(q, confs[i].0), confs[i].1)
    {
      assert confs[i] == if i < |found| then found[i] else card[0];
      DatedIsRead(q, DateField(q, confs[i].0));
    }
  }

  /** A contact carries one dated mark for every service that confirms it, and no other. */
  lemma ConfirmsIff(q: Qso, service: string)
    ensures var confs := ConfirmationsIn(q);
            && (Confirms(q, service) <==> exists i :: 0 <= i < |confs| && confs[i].0 == service)
            && (forall i :: 0 <= i < |confs| ==> ReadFrom(q, DateField(q, confs[i].0), confs[i].1))
            && (forall i, j :: 0 <= i < j < |confs| ==> confs[i].0 != confs[j].0)
  {
    hide Says, HasApp, HasOwn, Dated, LotwMark, EqslMark, QrzMark, CardMark, DateField, ReadFrom, Confirms;
    FourServices(q, service);
    var found := LotwMark(q) + EqslMark(q) + QrzMark(q);
    var card, confs := CardMark(q, found), ConfirmationsIn(q);
    FoundMarks(q, found);
    CardMarks(q, found);
    MarksAreRead(q);
    assert forall i :: 0 <= i < |found| ==> confs[i] == found[i];
    if card != [] {
      assert confs[|found|] == card[0];
    }
    if exists i :: 0 <= i < |found| && found[i].0 == service {
      var i :| 0 <= i < |found| && found[i].0 == service;
      assert confs[i].0 == service;
    }
  }
}
