/**
 The background worker of rigflow-client/src/logging/export.rs: jobs arrive in batches, operator
 actions are all run, and of the queries in a batch only the newest of each kind is.
 */
module ExportWorker {
  import opened Wrappers
  import opened Ends

  datatype Kind = Query | CallLookup | Count | CallbookLookup | Write | PlanImport | ServiceSync

  /** A submitted job; `body` stands for its request. */
  datatype Job = Job(kind: Kind, body: int)

  /** Explicit operator actions are never coalesced. */
  predicate Important(kind: Kind) {
    kind == Write || kind == PlanImport || kind == ServiceSync
  }

  // ---- what one batch is answered with -----------------------------------------------

  /** The operator actions of a batch, in order. */
  function Actions(batch: seq<Job>): seq<Job>
    decreases |batch|
  {
    if batch == [] then []
    else Actions(batch[..|batch| - 1]) + if Important(batch[|batch| - 1].kind) then [batch[|batch| - 1]] else []
  }

  /** The newest job of a kind. */
  function Latest(batch: seq<Job>, kind: Kind): (job: Option<Job>)
    ensures job.Some? ==> job.value.kind == kind
    decreases |batch|
  {
    if batch == [] then None
    else if batch[|batch| - 1].kind == kind then Some(batch[|batch| - 1])
    else Latest(batch[..|batch| - 1], kind)
  }

  function Listed(job: Option<Job>): seq<Job> {
    if job.Some? then [job.value] else []
  }

  /** The jobs run for a batch, in the order their events are sent. */
  function AnswerBatch(batch: seq<Job>): seq<Job> {
    Actions(batch) + Listed(Latest(batch, Query)) + Listed(Latest(batch, CallLookup))
    + Listed(Latest(batch, Count)) + Listed(Latest(batch, CallbookLookup))
  }

  function Answers(batches: seq<seq<Job>>): seq<Job>
    decreases |batches|
  {
    if batches == [] then [] else Answers(batches[..|batches| - 1]) + AnswerBatch(batches[|batches| - 1])
  }

  /** One batch, for an application that still takes `room` events and is gone behind them. */
  method RunBatch(batch: seq<Job>, room: nat) returns (sent: seq<Job>, gone: bool)
    ensures sent == First(AnswerBatch(batch), room)
    ensures gone <==> |AnswerBatch(batch)| > room
  {
    hide AnswerBatch;
    var latestQuery, latestLookup, latestCount, latestCallbook: Option<Job> := None, None, None, None;
    sent := [];
    for k := 0 to |batch|
      invariant sent == Actions(batch[..k]) && |sent| <= room
      invariant latestQuery == Latest(batch[..k], Query)
      invariant latestLookup == Latest(batch[..k], CallLookup)
      invariant latestCount == Latest(batch[..k], Count)
      invariant latestCallbook == Latest(batch[..k], CallbookLookup)
    {
      assert batch[..k + 1][..k] == batch[..k];
      var job := batch[k];
      match job.kind {
        case Query => latestQuery := Some(job);
        case CallLookup => latestLookup := Some(job);
        case Count => latestCount := Some(job);
        case CallbookLookup => latestCallbook := Some(job);
        case _ =>
          if |sent| == room {
            ActionsComeFirst(batch, k + 1);
            return sent, true;
          }
          sent := sent + [job];
      }
    }
    assert batch[..|batch|] == batch;
    var newest := Listed(latestQuery) + Listed(latestLookup) + Listed(latestCount) + Listed(latestCallbook);
    AnswersOf(batch);
    sent, gone := SendNewest(sent, newest, room);
  }

  /** The coalesced jobs of a batch, behind the actions that were already sent. */
  method SendNewest(actions: seq<Job>, newest: seq<Job>, room: nat) returns (sent: seq<Job>, gone: bool)
    requires |actions| <= room
    ensures sent == First(actions + newest, room)
    ensures gone <==> |actions + newest| > room
  {
    sent := actions;
    for k := 0 to |newest|
      invariant sent == actions + newest[..k] && |sent| <= room
    {
      if |sent| == room {
        assert sent == (actions + newest)[..room];
        return sent, true;
      }
      sent := sent + [newest[k]];
    }
    assert newest[..|newest|] == newest;
    gone := false;
  }

  lemma AnswersOf(batch: seq<Job>)
    ensures AnswerBatch(batch)
            == Actions(batch) + (Listed(Latest(batch, Query)) + Listed(Latest(batch, CallLookup))
                                 + Listed(Latest(batch, Count)) + Listed(Latest(batch, CallbookLookup)))
  {
  }

  lemma {:induction false} ActionsGrow(batch: seq<Job>, k: nat)
    requires k <= |batch|
    ensures Actions(batch[..k]) <= Actions(batch)
    decreases |batch|
  {
    if k == |batch| {
      assert batch[..k] == batch;
    } else {
      var front := batch[..|batch| - 1];
      assert front[..k] == batch[..k];
      ActionsGrow(front, k);
    }
  }

  lemma ActionsComeFirst(batch: seq<Job>, k: nat)
    requires 0 < k <= |batch| && Important(batch[k - 1].kind)
    ensures |AnswerBatch(batch)| > |Actions(batch[..k - 1])|
    ensures First(AnswerBatch(batch), |Actions(batch[..k - 1])|) == Actions(batch[..k - 1])
  {
    hide Latest;
    var n := |Actions(batch[..k - 1])|;
    assert batch[..k][..k - 1] == batch[..k - 1];
    ActionsGrow(batch, k);
    assert Actions(batch[..k - 1]) <= Actions(batch);
    assert AnswerBatch(batch)[..n] == Actions(batch)[..n];
  }

  /** The worker's loop over the batches it finds in the queue. */
  method Work(batches: seq<seq<Job>>, room: nat) returns (sent: seq<Job>)
    ensures sent == First(Answers(batches), room)
  {
    hide AnswerBatch, Answers, First;
    sent := [];
    NoBatch(batches[..0], room);
    for k := 0 to |batches|
      invariant sent == Answers(batches[..k]) == First(Answers(batches[..k]), room)
      invariant |sent| <= room
    {
      assert batches[..k + 1][..k] == batches[..k];
      var more, gone := RunBatch(batches[k], room - |sent|);
      NextBatch(batches[..k + 1], room);
      if gone {
        FirstIsFinal(batches, k + 1, room);
        return sent + more;
      }
      sent := sent + more;
    }
    assert batches[..|batches|] == batches;
  }

  lemma NoBatch(batches: seq<seq<Job>>, room: nat)
    requires batches == []
    ensures Answers(batches) == [] && First<Job>([], room) == []
  {
  }

  lemma NextBatch(batches: seq<seq<Job>>, room: nat)
    requires batches != []
    requires |Answers(batches[..|batches| - 1])| <= room
    ensures var before := Answers(batches[..|batches| - 1]);
            var answer := AnswerBatch(batches[|batches| - 1]);
            && Answers(batches) == before + answer
            && First(Answers(batches), room) == before + First(answer, room - |before|)
            && (|answer| <= room - |before| ==> First(answer, room - |before|) == answer && |Answers(batches)| <= room)
            && (|answer| > room - |before| ==> |Answers(batches)| > room)
  {
    hide AnswerBatch;
  }

  lemma {:induction false} FirstIsFinal(batches: seq<seq<Job>>, k: nat, room: nat)
    requires k <= |batches| && |Answers(batches[..k])| > room
    ensures First(Answers(batches), room) == First(Answers(batches[..k]), room)
    ensures |Answers(batches)| > room
    decreases |batches|
  {
    hide AnswerBatch;
    if k == |batches| {
      assert batches[..k] == batches;
    } else {
      var front := batches[..|batches| - 1];
      assert front[..k] == batches[..k];
      FirstIsFinal(front, k, room);
    }
  }
}
