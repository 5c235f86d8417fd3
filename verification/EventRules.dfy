/** What the event repository answers and leaves, in terms of the events' columns: which event a
    call finds, which columns it writes, and which rows a page holds. */
module EventRules {
  import opened Sorting
  import opened Decimal
  import opened Events

  // ----- writing -----

  /** The event of a source. */
  ghost predicate HasSource(t: Table, id: EventId, sourceType: string, sourceID: string) {
    id in t.byID && t.byID[id].sourceType == sourceType && t.byID[id].sourceID == sourceID
  }

  lemma IndexMeans(t: Table, sourceType: string, sourceID: string)
    requires Agree(t) && ValidSourceType(sourceType)
    ensures SourceKey(sourceType, sourceID) in t.idBySource <==> exists id :: HasSource(t, id, sourceType, sourceID)
    ensures forall id | HasSource(t, id, sourceType, sourceID) ::
              SourceKey(sourceType, sourceID) in t.idBySource && t.idBySource[SourceKey(sourceType, sourceID)] == id
  {
    var key := SourceKey(sourceType, sourceID);
    if key in t.idBySource {
      var id := t.idBySource[key];
      SourceKeyInjective(t.byID[id].sourceType, t.byID[id].sourceID, sourceType, sourceID);
      assert HasSource(t, id, sourceType, sourceID);
    }
  }

  /** A new event is refused when its source has one already, whatever its identifier, or when
      its identifier is taken; otherwise it is stored as it is. */
  lemma CreateAnswers(t: Table, e: Event)
    requires TableInv(t) && ValidSourceType(e.sourceType)
    ensures if exists id :: HasSource(t, id, e.sourceType, e.sourceID) then Create(t, e) == Failure(AlreadyExists)
            else if e.id in t.byID then Create(t, e) == Failure(DuplicateID)
            else Create(t, e).Success? && Create(t, e).value.byID == t.byID[e.id := e]
  {
    IndexMeans(t, e.sourceType, e.sourceID);
  }

  /** Synchronisation writes description, category and end of the source's event, and its status
      unless the event is closed or resolved; identifier, source and outcome stay. */
  lemma UpsertAnswers(t: Table, e: Event, id: EventId)
    requires TableInv(t) && ValidSourceType(e.sourceType) && HasSource(t, id, e.sourceType, e.sourceID)
    ensures var was := t.byID[id];
            && UpsertSource(t, e).Success? && UpsertSource(t, e).value.idBySource == t.idBySource
            && UpsertSource(t, e).value.byID == t.byID[id :=
                 Event(id, was.sourceType, was.sourceID, e.details, e.category, e.endTime,
                       if was.status == Closed || was.status == Resolved then was.status else e.status, was.outcome)]
  {
    IndexMeans(t, e.sourceType, e.sourceID);
  }

  lemma UpsertInserts(t: Table, e: Event)
    requires TableInv(t) && ValidSourceType(e.sourceType) && !exists id :: HasSource(t, id, e.sourceType, e.sourceID)
    ensures if e.id in t.byID then UpsertSource(t, e) == Failure(DuplicateID)
            else UpsertSource(t, e).Success? && UpsertSource(t, e).value.byID == t.byID[e.id := e]
  {
    IndexMeans(t, e.sourceType, e.sourceID);
  }

  /** A status change writes the status asked for, and nothing else, exactly when the event has
      the status expected. */
  lemma StatusAnswers(t: Table, id: EventId, expected: Status, status: Status)
    ensures if id !in t.byID then UpdateStatus(t, id, expected, status) == Failure(NotFound)
            else if t.byID[id].status != expected then UpdateStatus(t, id, expected, status) == Failure(InvalidTransition)
            else
              var e := t.byID[id];
              UpdateStatus(t, id, expected, status) == Success(Table(
                t.byID[id := Event(e.id, e.sourceType, e.sourceID, e.details, e.category, e.endTime, status, e.outcome)], t.idBySource))
  {
  }

  /** A resolution writes status and outcome, and nothing else. */
  lemma ResolveAnswers(t: Table, id: EventId, expected: Status, outcome: string, source: string)
    ensures if id !in t.byID then Resolve(t, id, expected, outcome, source) == Failure(NotFound)
            else if t.byID[id].status != expected then Resolve(t, id, expected, outcome, source) == Failure(InvalidTransition)
            else if source == "" then Resolve(t, id, expected, outcome, source) == Failure(SourceRequired)
            else
              var e := t.byID[id];
              Resolve(t, id, expected, outcome, source) == Success(Table(
                t.byID[id := Event(e.id, e.sourceType, e.sourceID, e.details, e.category, e.endTime, Resolved, Some(outcome))], t.idBySource))
  {
  }

  /** As the service calls them: an operator moves an event only from pending to active or closed
      and from active to closed, and only while it has the status the operator saw. */
  lemma OperatorMoves(t: Table, id: EventId, expected: Status, status: Status)
    requires TableInv(t)
    ensures After(t, OpUpdateStatus(id, expected, status)) ==
            if id in t.byID && t.byID[id].status == expected
               && ((expected == Pending && (status == Active || status == Closed)) || (expected == Active && status == Closed)) then
              Table(t.byID[id := t.byID[id].(status := status)], t.idBySource)
            else t
  {
  }

  /** A resolution goes through exactly for a closed event, with an outcome and a source. */
  lemma ResolvesClosed(t: Table, id: EventId, expected: Status, outcome: string, source: string)
    requires TableInv(t)
    ensures After(t, OpResolve(id, expected, outcome, source)) ==
            if id in t.byID && t.byID[id].status == Closed && expected == Closed && outcome != "" && source != "" then
              Table(t.byID[id := t.byID[id].(status := Resolved, outcome := Some(outcome))], t.idBySource)
            else t
  {
  }

  // ----- listing -----

  lemma {:induction false} DistinctCount(ids: seq<nat>)
    requires forall i, j | 0 <= i < j < |ids| :: ids[i] != ids[j]
    ensures |Elements(ids)| == |ids|
    decreases |ids|
  {
    if ids != [] {
      var rest, last := ids[..|ids| - 1], ids[|ids| - 1];
      DistinctCount(rest);
      assert ids == rest + [last];
      ElementsConcat(rest, [last]);
      assert Elements([last]) == {last};
      assert last !in Elements(rest);
    }
  }

  /** In a sorted sequence exactly `k` elements come before the one at `k`. */
  lemma RankIs(ids: seq<nat>, s: set<nat>, less: (nat, nat) -> bool, k: nat)
    requires IsSortOf(ids, s, less) && StrictTotal(s, less) && k < |ids|
    ensures |set x | x in s && less(x, ids[k])| == k && ids[k] in s
  {
    SortedDistinct(ids, s, less);
    var before := set x | x in s && less(x, ids[k]);
    forall x ensures x in before <==> x in Elements(ids[..k]) {
      if x in before {
        assert x in Elements(ids);
        var i :| 0 <= i < |ids| && ids[i] == x;
        assert i < k;
        assert ids[..k][i] == x;
      }
      if x in Elements(ids[..k]) {
        var i :| 0 <= i < |ids[..k]| && ids[..k][i] == x;
        assert ids[i] == x && less(ids[i], ids[k]);
      }
    }
    assert before == Elements(ids[..k]);
    DistinctCount(ids[..k]);
  }

  lemma ListedMeans(byID: map<EventId, Event>, f: ListFilters)
    ensures Listed(byID, f)
         == set x | x in byID && (f.category == "" || byID[x].category == f.category) && (f.status.None? || byID[x].status == f.status.value)
  {
  }

  /** The row at `i` of a page agrees with both filters, and exactly as many events that agree end
      sooner, or end at the same time with a smaller identifier, as the pages before and the rows
      above it hold. */
  lemma PageRow(byID: map<EventId, Event>, f: ListFilters, i: nat)
    requires (forall id | id in byID :: byID[id].id == id) && f.page >= 1 && i < |ListPage(byID, f).events|
    ensures var e := ListPage(byID, f).events[i];
            && i < f.limit && e.id in byID && byID[e.id] == e
            && (f.category == "" || e.category == f.category) && (f.status.None? || e.status == f.status.value)
            && |set x | x in byID && (f.category == "" || byID[x].category == f.category) && (f.status.None? || byID[x].status == f.status.value)
                        && (byID[x].endTime < e.endTime || (byID[x].endTime == e.endTime && x < e.id))| == (f.page - 1) * f.limit + i
  {
    EndingTotal(byID, f);
    var less := EndingFirst(byID);
    var ids := Sort(Listed(byID, f), less);
    SortedListed(byID, f, ids);
    OffsetNonNegative(f.page, f.limit);
    var k := (f.page - 1) * f.limit + i;
    RowAt(byID, f, ids, i);
    RankIs(ids, Listed(byID, f), less, k);
    hide ListPage, IsSortOf, StrictTotal, Window, Listed, EndingFirst;
    SoonerMeans(byID, f, ids[k]);
  }

  lemma SoonerMeans(byID: map<EventId, Event>, f: ListFilters, id: EventId)
    requires id in Listed(byID, f) && byID[id].id == id
    ensures var e := byID[id];
            && (f.category == "" || e.category == f.category) && (f.status.None? || e.status == f.status.value)
            && (set x | x in Listed(byID, f) && EndingFirst(byID)(x, id))
               == set x | x in byID && (f.category == "" || byID[x].category == f.category) && (f.status.None? || byID[x].status == f.status.value)
                          && (byID[x].endTime < e.endTime || (byID[x].endTime == e.endTime && x < e.id))
  {
  }

  lemma RowAt(byID: map<EventId, Event>, f: ListFilters, ids: seq<EventId>, i: nat)
    requires f.page >= 1 && ids == Sort(Listed(byID, f), EndingFirst(byID)) && StrictTotal(Listed(byID, f), EndingFirst(byID))
    requires i < |ListPage(byID, f).events|
    ensures (f.page - 1) * f.limit >= 0 && i < f.limit && (f.page - 1) * f.limit + i < |ids|
    ensures ids[(f.page - 1) * f.limit + i] in byID && ListPage(byID, f).events[i] == byID[ids[(f.page - 1) * f.limit + i]]
  {
    SortedListed(byID, f, ids);
    OffsetNonNegative(f.page, f.limit);
    var offset := (f.page - 1) * f.limit;
    assert Window(ids, f) == Slice(ids, offset, f.limit);
    hide IsSortOf, StrictTotal, Listed, EndingFirst;
    assert Window(ids, f)[i] == ids[offset + i];
  }

  /** A page holds what is left of the events that agree, up to its limit, and tells how many agree. */
  lemma PageSize(byID: map<EventId, Event>, f: ListFilters)
    requires f.page >= 1
    ensures var p, offset := ListPage(byID, f), (f.page - 1) * f.limit;
            && p.total == |set x | x in byID && (f.category == "" || byID[x].category == f.category) && (f.status.None? || byID[x].status == f.status.value)|
            && |p.events| == if p.total <= offset then 0 else if p.total < offset + f.limit then p.total - offset else f.limit
  {
    EndingTotal(byID, f);
    var ids := Sort(Listed(byID, f), EndingFirst(byID));
    SortedListed(byID, f, ids);
    OffsetNonNegative(f.page, f.limit);
    SortedDistinct(ids, Listed(byID, f), EndingFirst(byID));
    DistinctCount(ids);
    ListedMeans(byID, f);
    assert Window(ids, f) == Slice(ids, (f.page - 1) * f.limit, f.limit);
  }
}
