/** How a fetch ends, for every server: read off the requests it comes to. */
module QrzOutcome {
  import opened Wrappers
  import opened Text
  import opened Decimal
  import opened Adif
  import opened HtmlEntities
  import opened QrzPaging
  import opened QrzLaws

  // ---- one answer --------------------------------------------------------------------

  predicate Refused(answer: Answer) {
    answer.Replied? && answer.result != Some("OK") && answer.result != Some("PARTIAL")
  }

  /** The decoded text an answer brings, with its record count and largest logid, if it has records at all. */
  function PageIn(answer: Answer): Option<(string, nat)> {
    if answer.Failed? || Refused(answer) || answer.adif.None? then None
    else
      var text := HtmlDecode(answer.adif.value);
      match PageStats(text)
      case Some((count, maxLogid)) => if count > 0 then Some((text, maxLogid)) else None
      case None => None
  }

  /** The cursor a page leads on to: its largest logid, if that is beyond the one asked for. */
  function LeadsTo(answer: Answer, after: nat): Option<nat> {
    match PageIn(answer)
    case Some((_, maxLogid)) => if maxLogid > after then Some(maxLogid) else None
    case None => None
  }

  function Line(text: string): string {
    if text != "" && text[|text| - 1] == '\n' then text else text + "\n"
  }

  // ---- the requests of a fetch -----------------------------------------------------------

  /** The cursors a fetch asks for, in order. */
  function Asked(server: nat -> Answer, after: nat, pages: nat): (r: seq<nat>)
    ensures |r| <= pages && (pages > 0 ==> r != [] && r[0] == after)
    decreases pages
  {
    if pages == 0 then []
    else match LeadsTo(server(after), after)
      case Some(next) => [after] + Asked(server, next, pages - 1)
      case None => [after]
  }

  /** The pages with records, each on lines of its own. */
  function Received(server: nat -> Answer, asked: seq<nat>): string
    decreases |asked|
  {
    if asked == [] then ""
    else
      (match PageIn(server(asked[0])) case Some((text, _)) => Line(text) case None => "") + Received(server, asked[1..])
  }

  /** Some request did not get through. */
  predicate SomeFailed(server: nat -> Answer, asked: seq<nat>) {
    exists k :: 0 <= k < |asked| && server(asked[k]).Failed?
  }

  predicate SomeBad(server: nat -> Answer, asked: seq<nat>) {
    exists k :: 0 <= k < |asked| && BadPage(server(asked[k]))
  }

  // ---- the cursor a page brings ---------------------------------------------------------------

  /** A field names a logid: its declared number of bytes, trimmed, is that number. */
  predicate Names(v: Visit, id: nat) {
    exists n :: 0 <= n <= |v.after| && ByteLen(v.after[..n]) == v.len && ParseU64(Trim(v.after[..n])) == Some(id)
  }

  lemma NamesIff(v: Visit, id: nat)
    ensures Names(v, id) <==> ValueOf(v.after, v.len) == Some(id)
  {
    hide CutAt, ByteLen, Trim, ParseU64;
    CutMeaning(v.after, v.len);
    match CutAt(v.after, v.len)
    case Boundary(n) => assert ByteLen(v.after[..n]) == v.len;
    case _ =>
  }

  predicate SomeNames(visits: seq<Visit>, id: nat) {
    exists k :: 0 <= k < |visits| && Names(visits[k], id)
  }

  lemma SomeNamesCons(v: Visit, rest: seq<Visit>, id: nat)
    ensures SomeNames([v] + rest, id) <==> Names(v, id) || SomeNames(rest, id)
  {
    hide Names;
    assert ([v] + rest)[0] == v && forall k :: 0 <= k < |rest| ==> ([v] + rest)[k + 1] == rest[k];
  }

  /** The cursor of a page is the largest logid that a field of it names, and never below the one before. */
  lemma {:induction false} ScanIsLargest(s: string, best: nat, id: nat)
    ensures match Scan(s, best)
            case Some(m) => best <= m && (SomeNames(Visits(s), id) ==> id <= m) && (m == best || SomeNames(Visits(s), m))
            case None => true
    decreases |s|
  {
    hide Scan, Visits, FirstVisit, ValueOf, Names, SomeNames, CutAt, Step;
    match FirstVisit(s)
    case None =>
      NothingVisited(s, best);
      assert !SomeNames([], id) by { NoneNamed(id); }
    case Some(v) =>
      match CutAt(v.after, Step(v)) {
        case Boundary(n) =>
          var rest, next := v.after[n..], Larger(best, ValueOf(v.after, v.len));
          VisitGoesOn(s, best, v, n);
          ScanIsLargest(rest, next, id);
          NamesIff(v, id);
          SomeNamesCons(v, Visits(rest), id);
          if Scan(s, best).Some? {
            NamesIff(v, Scan(s, best).value);
            SomeNamesCons(v, Visits(rest), Scan(s, best).value);
          }
        case _ => VisitOutOfRange(s, best, v);
      }
  }

  lemma NoneNamed(id: nat)
    ensures !SomeNames([], id)
  {
  }

  // ---- blank texts have no records ---------------------------------------------------------

  lemma {:induction false} MatchIsSomewhere(s: string, pattern: string)
    requires pattern != "" && Matches(s, pattern) > 0
    ensures exists k :: 0 <= k < |s| && s[k] == pattern[0]
  {
    if pattern <= s {
      assert s[0] == pattern[0];
    } else {
      MatchIsSomewhere(s[1..], pattern);
      var k :| 0 <= k < |s[1..]| && s[1..][k] == pattern[0];
      assert s[k + 1] == pattern[0];
    }
  }

  lemma BlankHasNoRecords(s: string)
    requires Trim(s) == ""
    ensures Matches(Lower(s), EOR_TAG) == 0
  {
    hide Trim;
    if Matches(Lower(s), EOR_TAG) > 0 {
      MatchIsSomewhere(Lower(s), EOR_TAG);
      var k :| 0 <= k < |s| && Lower(s)[k] == '<';
      assert s[k] == '<';
      TrimKeeps(s, k);
      assert false;
    }
  }

  lemma EmptyIsBlank()
    ensures Trim("") == ""
  {
  }

  // ---- one turn -----------------------------------------------------------------------------

  lemma LineEnds(out: string, text: string)
    requires text != ""
    ensures NewlineEnded(out + text) == out + Line(text) && Line(text) != ""
  {
    if text[|text| - 1] == '\n' {
      assert (out + text)[|out| + |text| - 1] == '\n';
    } else {
      assert (out + text)[|out| + |text| - 1] != '\n';
      assert out + text + "\n" == out + (text + "\n");
    }
  }

  /** A turn without a page ends the fetch: with an error, a panic or what there is. */
  lemma TurnWithoutPage(answer: Answer, after: nat, out: string)
    requires PageIn(answer).None?
    ensures TakePage(answer, after, out)
            == Over(if answer.Failed? || (Refused(answer) && out == "") then FetchError
                    else if BadPage(answer) then Panicked else Log(out))
  {
    hide PageStats, Matches, Lower, HtmlDecode, Trim, NewlineEnded, BadPage;
    PanicsIffBadPage(answer, after, out);
  }

  /** A turn with a page keeps it, and goes on if the page leads on. */
  lemma TurnWithPage(answer: Answer, after: nat, out: string)
    requires PageIn(answer).Some?
    ensures var more := out + Line(PageIn(answer).value.0);
            && more != ""
            && TakePage(answer, after, out)
               == match LeadsTo(answer, after) case Some(next) => More(next, more) case None => Over(Log(more))
    ensures !BadPage(answer)
  {
    hide Matches, Lower, HtmlDecode, Trim, NewlineEnded, BadPage, Line, Scan;
    var text := HtmlDecode(answer.adif.value);
    assert Trim(text) != "" && text != "" by {
      if Trim(text) == "" {
        BlankHasNoRecords(text);
      }
      EmptyIsBlank();
    }
    LineEnds(out, text);
    PanicsIffBadPage(answer, after, out);
  }

  // ---- the whole fetch --------------------------------------------------------------------------

  lemma {:induction false} OutcomeFrom(server: nat -> Answer, after: nat, out: string, pages: nat)
    ensures var r, asked := FetchFrom(server, after, out, pages), Asked(server, after, pages);
            && (r.FetchError? <==> SomeFailed(server, asked) || (pages > 0 && out == "" && Refused(server(after))))
            && (r.Panicked? <==> SomeBad(server, asked))
            && (r.Log? ==> r.adif == out + Received(server, asked))
    decreases pages
  {
    hide TakePage, BadPage, PageIn, LeadsTo, Refused, Line;
    if pages > 0 {
      var answer := server(after);
      if PageIn(answer).None? {
        EndsWithout(server, after, out, pages);
      } else {
        TurnWithPage(answer, after, out);
        PageIsNoFailure(answer);
        var more := out + Line(PageIn(answer).value.0);
        if LeadsTo(answer, after).Some? {
          var next := LeadsTo(answer, after).value;
          OutcomeFrom(server, next, more, pages - 1);
          AskedCons(server, after, pages, next);
        } else {
          assert Asked(server, after, pages) == [after];
          assert Received(server, [after]) == Line(PageIn(answer).value.0) + Received(server, []);
        }
      }
    }
  }

  lemma PageIsNoFailure(answer: Answer)
    requires PageIn(answer).Some?
    ensures !answer.Failed? && !Refused(answer)
  {
    hide PageStats, HtmlDecode;
  }

  lemma EndsWithout(server: nat -> Answer, after: nat, out: string, pages: nat)
    requires pages > 0 && PageIn(server(after)).None?
    ensures var r, asked := FetchFrom(server, after, out, pages), Asked(server, after, pages);
            && (r.FetchError? <==> SomeFailed(server, asked) || (out == "" && Refused(server(after))))
            && (r.Panicked? <==> SomeBad(server, asked))
            && (r.Log? ==> r.adif == out + Received(server, asked))
  {
    hide TakePage, BadPage, PageIn, Refused, Line;
    TurnWithoutPage(server(after), after, out);
    assert Asked(server, after, pages) == [after];
    assert [after][0] == after && [after][1..] == [];
    NeverBoth(server(after));
  }

  lemma NeverBoth(answer: Answer)
    ensures BadPage(answer) ==> !answer.Failed? && !Refused(answer)
  {
    hide Visits, InRange, Payload, Lower;
  }

  lemma AskedCons(server: nat -> Answer, after: nat, pages: nat, next: nat)
    requires pages > 0 && LeadsTo(server(after), after) == Some(next)
    ensures var asked, rest := Asked(server, after, pages), Asked(server, next, pages - 1);
            && (SomeFailed(server, asked) <==> server(after).Failed? || SomeFailed(server, rest))
            && (SomeBad(server, asked) <==> BadPage(server(after)) || SomeBad(server, rest))
            && Received(server, asked)
               == (match PageIn(server(after)) case Some((text, _)) => Line(text) case None => "") + Received(server, rest)
  {
    hide BadPage, PageIn, LeadsTo, Line;
    var asked, rest := Asked(server, after, pages), Asked(server, next, pages - 1);
    assert asked == [after] + rest && asked[1..] == rest;
    assert forall k :: 0 <= k < |rest| ==> rest[k] == asked[k + 1];
    assert forall k :: 1 <= k < |asked| ==> asked[k] == rest[k - 1];
  }

  /**
   A fetch fails exactly when a request it comes to does not get through, or when its first one is refused; it
   panics exactly when one brings a page that cannot be sliced. Otherwise it holds every page with records, each
   on lines of its own: a page that does not lead on is the last, and still kept.
   */
  lemma FetchOutcome(server: nat -> Answer)
    ensures var r, asked := FetchFrom(server, 0, "", MAX_PAGES), Asked(server, 0, 400);
            && (r.FetchError? <==> SomeFailed(server, asked) || Refused(server(0)))
            && (r.Panicked? <==> SomeBad(server, asked))
            && (r.Log? ==> r.adif == Received(server, asked))
  {
    hide FetchFrom, Asked, Received, SomeFailed, SomeBad, Refused;
    OutcomeFrom(server, 0, "", 400);
    assert "" + Received(server, Asked(server, 0, 400)) == Received(server, Asked(server, 0, 400));
  }
}
