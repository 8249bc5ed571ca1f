/**
 Stop events from pull request webhooks. Deliveries arrive in any order, repeat, and are retried as a
 whole after a failure; the restart barrier and the last stop time make their effect independent of
 all that.
 */
module StopEvents {
  import opened Domain
  import opened Previews

  const PREVIEW_LABEL := "envy-preview"

  datatype DeliveryAction = PRClosed | Unlabeled(name: string) | OtherAction

  datatype Delivery = Delivery(pullRequest: bool, action: DeliveryAction, repository: int, number: int, at: int)

  /** A preview row with the pull request it belongs to. */
  datatype Row = Row(repository: int, number: int, preview: Preview)

  /** Deliveries that report the end of a preview request. */
  predicate StopsPreview(e: Delivery) {
    e.pullRequest && (e.action == PRClosed || e.action == Unlabeled(PREVIEW_LABEL))
  }

  predicate MatchesPRStopEvent(r: Row, e: Delivery) {
    && r.repository == e.repository && r.number == e.number
    && r.preview.body.restartBarrierAt < e.at && r.preview.body.lastStopEventAt < e.at
  }

  function Closing(b: Body, at: int): Body {
    b.(lastStopEventAt := at, requested := false, terminal := true, status := Closed)
  }

  /** A body stopped by an event of this time: terminal, no longer requested, closed, and otherwise as before. */
  predicate ClosedAt(before: Body, after: Body, at: int) {
    && after.terminal && !after.requested && after.status == Closed && after.lastStopEventAt == at
    && after == before.(lastStopEventAt := after.lastStopEventAt, requested := after.requested,
                        terminal := after.terminal, status := after.status)
  }

  /** One delivery applied to one row. */
  function Applied(r: Row, e: Delivery): Row {
    if StopsPreview(e) && MatchesPRStopEvent(r, e)
    then r.(preview := r.preview.(version := r.preview.version + 1, body := Closing(r.preview.body, e.at)))
    else r
  }

  /**
   What one delivery does to one row, field by field: it counts if it reports the end of the request of
   this very pull request, later than the restart barrier and than the last stop. Then the preview is
   stopped, once; a delivery that does not count, or counts again, changes nothing, not even the version.
   */
  lemma AppliedExactly(r: Row, e: Delivery)
    ensures var b, after := r.preview.body, Applied(r, e).preview;
            if e.pullRequest && (e.action == PRClosed || e.action == Unlabeled("envy-preview")) &&
               e.repository == r.repository && e.number == r.number &&
               b.restartBarrierAt < e.at && b.lastStopEventAt < e.at
            then after.version == r.preview.version + 1 && after.composition == r.preview.composition && ClosedAt(b, after.body, e.at)
            else Applied(r, e) == r
    ensures Applied(r, e).repository == r.repository && Applied(r, e).number == r.number
    ensures Applied(Applied(r, e), e) == Applied(r, e)
  {
  }

  function AppliedAll(r: Row, es: seq<Delivery>): Row {
    if es == [] then r else Applied(AppliedAll(r, es[..|es| - 1]), es[|es| - 1])
  }

  // ----- What a batch means, whatever its order -----

  /** Deliveries for this row later than its restart barrier and its last stop. */
  predicate Counts(r: Row, e: Delivery) {
    StopsPreview(e) && MatchesPRStopEvent(r, e)
  }

  ghost predicate IsLatest(r: Row, es: iset<Delivery>, at: int) {
    (exists e :: e in es && Counts(r, e) && e.at == at) && forall e :: e in es && Counts(r, e) ==> e.at <= at
  }

  /** The row after a set of deliveries: closed at the latest that counts, or as it was when none does. */
  ghost predicate Settled(before: Row, es: iset<Delivery>, after: Row) {
    && after.repository == before.repository && after.number == before.number
    && after.preview.composition == before.preview.composition
    && ((exists e :: e in es && Counts(before, e)) ==>
          exists at :: IsLatest(before, es, at) && ClosedAt(before.preview.body, after.preview.body, at))
    && (!(exists e :: e in es && Counts(before, e)) ==> after.preview.body == before.preview.body)
  }

  ghost function Elements(es: seq<Delivery>): iset<Delivery> {
    iset e | e in es
  }

  lemma ElementsLast(es: seq<Delivery>)
    requires es != []
    ensures Elements(es) == Elements(es[..|es| - 1]) + iset{es[|es| - 1]}
  {
    assert es == es[..|es| - 1] + [es[|es| - 1]];
  }

  lemma SettledStep(before: Row, es: iset<Delivery>, middle: Row, e: Delivery)
    requires Settled(before, es, middle)
    ensures Settled(before, es + iset{e}, Applied(middle, e))
  {
    var all := es + iset{e};
    if Counts(before, e) {
      assert e in all;
      if x :| x in es && Counts(before, x) {
        var at :| IsLatest(before, es, at) && ClosedAt(before.preview.body, middle.preview.body, at);
        assert IsLatest(before, all, if at < e.at then e.at else at);
      } else {
        assert IsLatest(before, all, e.at);
      }
    } else if x :| x in es && Counts(before, x) {
      var at :| IsLatest(before, es, at) && ClosedAt(before.preview.body, middle.preview.body, at);
      assert x in all && IsLatest(before, all, at);
    }
  }

  /** Applying deliveries one by one settles the row for their set: the last stop is their maximum past the barrier. */
  lemma {:induction false} BatchSettles(r: Row, es: seq<Delivery>)
    ensures Settled(r, Elements(es), AppliedAll(r, es))
  {
    if es != [] {
      BatchSettles(r, es[..|es| - 1]);
      ElementsLast(es);
      SettledStep(r, Elements(es[..|es| - 1]), AppliedAll(r, es[..|es| - 1]), es[|es| - 1]);
    }
  }

  lemma SettledOnce(r: Row, es: iset<Delivery>, a: Row, b: Row)
    requires Settled(r, es, a) && Settled(r, es, b)
    ensures a.preview.body == b.preview.body
  {
  }

  /** Order and repetition do not matter: equal sets of deliveries leave equal rows, up to the version. */
  lemma OrderDoesNotMatter(r: Row, a: seq<Delivery>, b: seq<Delivery>)
    requires forall e :: e in a <==> e in b
    ensures AppliedAll(r, a).preview.body == AppliedAll(r, b).preview.body
  {
    BatchSettles(r, a);
    BatchSettles(r, b);
    assert Elements(a) == Elements(b);
    SettledOnce(r, Elements(a), AppliedAll(r, a), AppliedAll(r, b));
  }

  /** Deliveries at or before the restart barrier change nothing. */
  lemma {:induction false} BarrierHolds(r: Row, es: seq<Delivery>)
    requires forall e :: e in es ==> e.at <= r.preview.body.restartBarrierAt
    ensures AppliedAll(r, es) == r
  {
    if es != [] {
      BarrierHolds(r, es[..|es| - 1]);
    }
  }

  /** A batch that failed part way and is delivered again ends where one delivery would have. */
  lemma RetryConverges(r: Row, part: seq<Delivery>, batch: seq<Delivery>)
    requires forall e :: e in part ==> e in batch
    ensures AppliedAll(AppliedAll(r, part), batch).preview.body == AppliedAll(r, batch).preview.body
  {
    AppliedInTurn(r, part, batch);
    OrderDoesNotMatter(r, part + batch, batch);
  }

  lemma {:induction false} AppliedInTurn(r: Row, a: seq<Delivery>, b: seq<Delivery>)
    ensures AppliedAll(AppliedAll(r, a), b) == AppliedAll(r, a + b)
  {
    if b == [] {
      assert a + b == a;
    } else {
      AppliedInTurn(r, a, b[..|b| - 1]);
      assert (a + b)[..|a + b| - 1] == a + b[..|b| - 1];
    }
  }

  /** The version does depend on the order: a later stop delivered first is saved once, delivered last twice. */
  lemma VersionCountsMaxima(r: Row, early: Delivery, late: Delivery)
    requires Counts(r, early) && Counts(r, late) && early.at < late.at
    ensures AppliedAll(r, [late, early]).preview.version == r.preview.version + 1
    ensures AppliedAll(r, [early, late]).preview.version == r.preview.version + 2
  {
    assert [late, early][..1] == [late] && [early, late][..1] == [early];
    assert [late][..0] == [] && [early][..0] == [];
    assert AppliedAll(r, [late]) == Applied(r, late) && AppliedAll(r, [early]) == Applied(r, early);
  }

  // ----- The code -----

  /** Applies one delivery to every row; a save may fail, and then the rest is left for the retry. */
  method ApplyPRStopEvent(rows: array<Row>, e: Delivery) returns (ok: bool)
    requires StopsPreview(e)
    modifies rows
    ensures forall i :: 0 <= i < rows.Length ==> rows[i] == old(rows[i]) || rows[i] == Applied(old(rows[i]), e)
    ensures ok ==> forall i :: 0 <= i < rows.Length ==> rows[i] == Applied(old(rows[i]), e)
    ensures ok ==> forall i :: 0 <= i < rows.Length && MatchesPRStopEvent(old(rows[i]), e) ==>
              ClosedAt(old(rows[i]).preview.body, rows[i].preview.body, e.at)
  {
    var i := 0;
    while i < rows.Length
      invariant i <= rows.Length
      invariant forall j :: 0 <= j < i ==> rows[j] == Applied(old(rows[j]), e)
      invariant forall j :: i <= j < rows.Length ==> rows[j] == old(rows[j])
    {
      var r := rows[i];
      if MatchesPRStopEvent(r, e) {
        var saved: bool := *;
        if !saved {
          return false;
        }
        var body := r.preview.body.(lastStopEventAt := e.at, requested := false, terminal := true, status := Closed);
        rows[i] := r.(preview := Preview(r.preview.version + 1, body, r.preview.composition));
      }
      i := i + 1;
    }
    return true;
  }

  /** Some of these deliveries, in some order, lead from one row to the other. */
  ghost predicate Reached(before: Row, es: iset<Delivery>, after: Row) {
    exists applied :: Elements(applied) <= es && after == AppliedAll(before, applied)
  }

  lemma ReachedStep(before: Row, es: iset<Delivery>, middle: Row, e: Delivery)
    requires Reached(before, es, middle) && e in es
    ensures Reached(before, es, Applied(middle, e))
  {
    var applied :| Elements(applied) <= es && middle == AppliedAll(before, applied);
    var more := applied + [e];
    assert more[..|more| - 1] == applied;
    ElementsLast(more);
  }

  /** Applies a batch in whatever order its map is walked. On success every row is settled for the batch. */
  method ApplyPRStopEvents(rows: array<Row>, events: map<string, Delivery>) returns (ok: bool)
    modifies rows
    ensures ok ==> forall i :: 0 <= i < rows.Length ==> Settled(old(rows[i]), iset id | id in events :: events[id], rows[i])
    ensures forall i :: 0 <= i < rows.Length ==> Reached(old(rows[i]), iset id | id in events :: events[id], rows[i])
  {
    ghost var all := iset id | id in events :: events[id];
    ghost var before := rows[..];
    var rest := events.Keys;
    ghost var done: iset<Delivery> := iset{};
    assert forall i :: 0 <= i < rows.Length ==> AppliedAll(rows[i], []) == rows[i];
    ok := true;
    while rest != {} && ok
      invariant rest <= events.Keys && done <= all
      invariant forall id :: id in events && id !in rest ==> events[id] in done
      invariant forall i :: 0 <= i < rows.Length ==> Reached(before[i], all, rows[i])
      invariant ok ==> forall i :: 0 <= i < rows.Length ==> Settled(before[i], done, rows[i])
      decreases rest
    {
      var id :| id in rest;
      rest := rest - {id};
      var e := events[id];
      ghost var middle := rows[..];
      forall i | 0 <= i < rows.Length
        ensures Reached(before[i], all, Applied(middle[i], e))
      {
        ReachedStep(before[i], all, middle[i], e);
      }
      forall i | 0 <= i < rows.Length
        ensures Settled(before[i], done + iset{e}, Applied(middle[i], e))
      {
        SettledStep(before[i], done, middle[i], e);
      }
      done := done + iset{e};
      if StopsPreview(e) {
        ok := ApplyPRStopEvent(rows, e);
      }
    }
    if ok {
      assert done == all;
    }
  }
}
