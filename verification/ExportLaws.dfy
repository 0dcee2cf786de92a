/** However the queue is cut into batches, coalescing loses nothing that matters. */
module ExportLaws {
  import opened Wrappers
  import opened ExportWorker

  function Concat(batches: seq<seq<Job>>): seq<Job>
    decreases |batches|
  {
    if batches == [] then [] else Concat(batches[..|batches| - 1]) + batches[|batches| - 1]
  }

  function OfKind(jobs: seq<Job>, kind: Kind): (r: seq<Job>)
    ensures |r| <= |jobs|
    decreases |jobs|
  {
    if jobs == [] then []
    else OfKind(jobs[..|jobs| - 1], kind) + if jobs[|jobs| - 1].kind == kind then [jobs[|jobs| - 1]] else []
  }

  /** `xs` is `ys` with some elements left out. */
  predicate Subsequence(xs: seq<Job>, ys: seq<Job>)
    decreases |ys|
  {
    || xs == []
    || (ys != []
        && (Subsequence(xs, ys[..|ys| - 1])
            || (xs[|xs| - 1] == ys[|ys| - 1] && Subsequence(xs[..|xs| - 1], ys[..|ys| - 1]))))
  }

  // ---- list lemmas ---------------------------------------------------------------------

  lemma {:induction false} ActionsAppend(a: seq<Job>, b: seq<Job>)
    ensures Actions(a + b) == Actions(a) + Actions(b)
    decreases |b|
  {
    if b == [] {
      assert a + b == a && Actions(a) + [] == Actions(a);
    } else {
      assert (a + b)[..|a + b| - 1] == a + b[..|b| - 1];
      ActionsAppend(a, b[..|b| - 1]);
    }
  }

  lemma {:induction false} OfKindAppend(a: seq<Job>, b: seq<Job>, kind: Kind)
    ensures OfKind(a + b, kind) == OfKind(a, kind) + OfKind(b, kind)
    decreases |b|
  {
    if b == [] {
      assert a + b == a && OfKind(a, kind) + [] == OfKind(a, kind);
    } else {
      assert (a + b)[..|a + b| - 1] == a + b[..|b| - 1];
      OfKindAppend(a, b[..|b| - 1], kind);
    }
  }

  lemma {:induction false} ActionsOfActions(batch: seq<Job>)
    ensures Actions(Actions(batch)) == Actions(batch)
    decreases |batch|
  {
    if batch != [] {
      var front, last := batch[..|batch| - 1], batch[|batch| - 1];
      ActionsOfActions(front);
      if Important(last.kind) {
        assert (Actions(front) + [last])[..|Actions(front)|] == Actions(front);
      } else {
        assert Actions(batch) == Actions(front);
      }
    }
  }

  lemma {:induction false} ActionsHaveNoQueries(batch: seq<Job>, kind: Kind)
    requires !Important(kind)
    ensures OfKind(Actions(batch), kind) == []
    decreases |batch|
  {
    if batch != [] {
      var front, last := batch[..|batch| - 1], batch[|batch| - 1];
      ActionsHaveNoQueries(front, kind);
      if Important(last.kind) {
        assert (Actions(front) + [last])[..|Actions(front)|] == Actions(front);
      } else {
        assert Actions(batch) == Actions(front);
      }
    }
  }

  /** The newest job of a kind is the last of that kind. */
  lemma {:induction false} LatestIsLast(batch: seq<Job>, kind: Kind)
    ensures OfKind(batch, kind) == [] <==> Latest(batch, kind) == None
    ensures Latest(batch, kind).Some? ==> OfKind(batch, kind)[|OfKind(batch, kind)| - 1] == Latest(batch, kind).value
    decreases |batch|
  {
    if batch != [] {
      LatestIsLast(batch[..|batch| - 1], kind);
    }
  }

  // ---- one batch -------------------------------------------------------------------------

  lemma OneJob(job: Option<Job>, kind: Kind)
    ensures OfKind(Listed(job), kind) == if job.Some? && job.value.kind == kind then Listed(job) else []
    ensures Actions(Listed(job)) == if job.Some? && Important(job.value.kind) then Listed(job) else []
  {
    if job.Some? {
      assert [job.value][..0] == [];
    }
  }

  lemma BatchActions(batch: seq<Job>)
    ensures Actions(AnswerBatch(batch)) == Actions(batch)
  {
    hide Actions, Latest, Listed;
    var q, l, c, b := Listed(Latest(batch, Query)), Listed(Latest(batch, CallLookup)),
                      Listed(Latest(batch, Count)), Listed(Latest(batch, CallbookLookup));
    ActionsOfActions(batch);
    OneJob(Latest(batch, Query), Query);
    OneJob(Latest(batch, CallLookup), Query);
    OneJob(Latest(batch, Count), Query);
    OneJob(Latest(batch, CallbookLookup), Query);
    ActionsAppend(Actions(batch), q);
    ActionsAppend(Actions(batch) + q, l);
    ActionsAppend(Actions(batch) + q + l, c);
    ActionsAppend(Actions(batch) + q + l + c, b);
  }

  /** A batch answers at most one job of each coalesced kind: the newest. */
  lemma BatchOfKind(batch: seq<Job>, kind: Kind)
    requires !Important(kind)
    ensures OfKind(AnswerBatch(batch), kind) == Listed(Latest(batch, kind))
  {
    hide Actions, Latest, OfKind;
    var q, l, c, b := Listed(Latest(batch, Query)), Listed(Latest(batch, CallLookup)),
                      Listed(Latest(batch, Count)), Listed(Latest(batch, CallbookLookup));
    ActionsHaveNoQueries(batch, kind);
    OneJob(Latest(batch, Query), kind);
    OneJob(Latest(batch, CallLookup), kind);
    OneJob(Latest(batch, Count), kind);
    OneJob(Latest(batch, CallbookLookup), kind);
    OfKindAppend(Actions(batch), q, kind);
    OfKindAppend(Actions(batch) + q, l, kind);
    OfKindAppend(Actions(batch) + q + l, c, kind);
    OfKindAppend(Actions(batch) + q + l + c, b, kind);
    match kind
    case Query => assert Listed(Latest(batch, kind)) == q;
    case CallLookup => assert Listed(Latest(batch, kind)) == l;
    case Count => assert Listed(Latest(batch, kind)) == c;
    case CallbookLookup => assert Listed(Latest(batch, kind)) == b;
  }

  // ---- whole runs --------------------------------------------------------------------------

  /** Operator actions are answered exactly once each, in the order they were submitted. */
  lemma {:induction false} ActionsAnsweredInOrder(batches: seq<seq<Job>>)
    ensures Actions(Answers(batches)) == Actions(Concat(batches))
    decreases |batches|
  {
    hide AnswerBatch, Actions;
    if batches != [] {
      var front, last := batches[..|batches| - 1], batches[|batches| - 1];
      ActionsAnsweredInOrder(front);
      ActionsAppend(Answers(front), AnswerBatch(last));
      ActionsAppend(Concat(front), last);
      BatchActions(last);
    }
  }

  lemma {:induction false} SubsequenceOneMore(xs: seq<Job>, ys: seq<Job>, tail: seq<Job>)
    requires Subsequence(xs, ys)
    ensures Subsequence(xs, ys + tail)
    ensures tail != [] ==> Subsequence(xs + [tail[|tail| - 1]], ys + tail)
    decreases |tail|
  {
    if tail == [] {
      assert ys + tail == ys;
    } else {
      var all := ys + tail;
      assert all[..|all| - 1] == ys + tail[..|tail| - 1];
      SubsequenceOneMore(xs, ys, tail[..|tail| - 1]);
      assert (xs + [tail[|tail| - 1]])[..|xs|] == xs;
    }
  }

  /**
   Of each coalesced kind the answers follow submission order, and once every batch was served
   the answer given last is the one to the job submitted last.
   */
  lemma {:induction false} NewestAnswered(batches: seq<seq<Job>>, kind: Kind)
    requires !Important(kind)
    ensures Subsequence(OfKind(Answers(batches), kind), OfKind(Concat(batches), kind))
    ensures OfKind(Concat(batches), kind) == [] <==> OfKind(Answers(batches), kind) == []
    ensures Latest(Answers(batches), kind) == Latest(Concat(batches), kind)
    ensures |OfKind(Answers(batches), kind)| <= |batches|
    decreases |batches|
  {
    hide AnswerBatch, OfKind, Latest, Subsequence;
    if batches == [] {
      NothingOfKind(kind);
    } else {
      var front, last := batches[..|batches| - 1], batches[|batches| - 1];
      NewestAnswered(front, kind);
      OfKindAppend(Answers(front), AnswerBatch(last), kind);
      OfKindAppend(Concat(front), last, kind);
      BatchOfKind(last, kind);
      LatestIsLast(last, kind);
      var before, newest := OfKind(Answers(front), kind), OfKind(last, kind);
      SubsequenceOneMore(before, OfKind(Concat(front), kind), newest);
      assert OfKind(Answers(batches), kind) == if newest == [] then before else before + [newest[|newest| - 1]];
      LatestIsLast(Concat(batches), kind);
      LatestIsLast(Answers(batches), kind);
      LatestIsLast(Concat(front), kind);
      LatestIsLast(Answers(front), kind);
    }
  }

  lemma NothingOfKind(kind: Kind)
    ensures OfKind([], kind) == [] && Latest([], kind) == None
    ensures Subsequence([], [])
  {
  }

  /** Served one by one, nothing is coalesced: the batching alone decides what is skipped. */
  lemma {:induction false} SingleJobsAllAnswered(jobs: seq<Job>)
    ensures Answers(seq(|jobs|, k requires 0 <= k < |jobs| => [jobs[k]])) == jobs
    decreases |jobs|
  {
    if jobs != [] {
      var n := |jobs| - 1;
      var batches := seq(|jobs|, k requires 0 <= k < |jobs| => [jobs[k]]);
      var before := seq(n, k requires 0 <= k < n => [jobs[..n][k]]);
      assert batches[..n] == before;
      SingleJobsAllAnswered(jobs[..n]);
      SingleJobAnswered(jobs[n]);
      assert jobs == jobs[..n] + [jobs[n]];
    }
  }

  lemma SingleJobAnswered(job: Job)
    ensures AnswerBatch([job]) == [job]
  {
    hide Latest;
    LatestOfOne(job, Query);
    LatestOfOne(job, CallLookup);
    LatestOfOne(job, Count);
    LatestOfOne(job, CallbookLookup);
    assert [job][..0] == [];
    assert Actions([job]) == if Important(job.kind) then [job] else [];
    assert [] + [job] == [job];
  }

  lemma LatestOfOne(job: Job, kind: Kind)
    ensures Latest([job], kind) == if job.kind == kind then Some(job) else None
  {
    assert [job][..0] == [];
  }
}
