/** The event repository: one map of events, one index by source, and the status rules that
    source synchronisation, operators and resolution share. */
module Events {
  import opened Sorting
  import opened Decimal

  type EventId = nat

  datatype Status = Pending | Active | Closed | Resolved

  /** `details` stands for the title, the description and the resolution time. */
  datatype Event = Event(
    id: EventId, sourceType: string, sourceID: string, details: string, category: string, endTime: int,
    status: Status, outcome: Option<string>)

  datatype Error = NotFound | AlreadyExists | DuplicateID | InvalidTransition | SourceRequired

  datatype Result<+T> = Success(value: T) | Failure(error: Error)

  datatype Table = Table(byID: map<EventId, Event>, idBySource: map<string, EventId>)

  const NO_EVENTS := Table(map[], map[])

  const NUL: char := '\U{0000}'

  function SourceKey(sourceType: string, sourceID: string): string {
    sourceType + [NUL] + sourceID
  }

  predicate ValidSourceType(sourceType: string) {
    sourceType == "polymarket" || sourceType == "custom"
  }

  /** Two sources never share an index entry. */
  lemma SourceKeyInjective(a: string, x: string, b: string, y: string)
    requires ValidSourceType(a) && ValidSourceType(b) && SourceKey(a, x) == SourceKey(b, y)
    ensures a == b && x == y
  {
    assert NUL !in a && NUL !in b;
    HeadDetermined(a, b, x, y, NUL);
  }

  // ----- the repository's operations -----

  function KeyOf(e: Event): string {
    SourceKey(e.sourceType, e.sourceID)
  }

  function Stored(t: Table, e: Event): Table {
    Table(t.byID[e.id := e], t.idBySource[KeyOf(e) := e.id])
  }

  function Create(t: Table, e: Event): Result<Table> {
    if KeyOf(e) in t.idBySource then Failure(AlreadyExists)
    else if e.id in t.byID then Failure(DuplicateID)
    else Success(Stored(t, e))
  }

  predicate Terminal(s: Status) {
    s.Closed? || s.Resolved?
  }

  /** What synchronisation overwrites; a closed or resolved event keeps its status. */
  function Synced(stored: Event, e: Event): Event {
    stored.(details := e.details, category := e.category, endTime := e.endTime,
            status := if Terminal(stored.status) then stored.status else e.status)
  }

  function UpsertSource(t: Table, e: Event): Result<Table>
    requires Agree(t)
  {
    if KeyOf(e) !in t.idBySource then
      if e.id in t.byID then Failure(DuplicateID) else Success(Stored(t, e))
    else
      var id := t.idBySource[KeyOf(e)];
      Success(t.(byID := t.byID[id := Synced(t.byID[id], e)]))
  }

  /** Compare and set on the status. */
  function UpdateStatus(t: Table, id: EventId, expected: Status, status: Status): Result<Table> {
    if id !in t.byID then Failure(NotFound)
    else if t.byID[id].status != expected then Failure(InvalidTransition)
    else Success(t.(byID := t.byID[id := t.byID[id].(status := status)]))
  }

  function Resolve(t: Table, id: EventId, expected: Status, outcome: string, source: string): Result<Table> {
    if id !in t.byID then Failure(NotFound)
    else if t.byID[id].status != expected then Failure(InvalidTransition)
    else if source == "" then Failure(SourceRequired)
    else Success(t.(byID := t.byID[id := t.byID[id].(status := Resolved, outcome := Some(outcome))]))
  }

  predicate CanTransition(from: Status, to: Status) {
    (from.Pending? && (to.Active? || to.Closed?)) || (from.Active? && to.Closed?)
  }

  // ----- what it keeps -----

  /** The two maps agree on every event and every source. */
  ghost predicate Agree(t: Table) {
    && (forall id {:trigger t.byID[id]} | id in t.byID ::
          t.byID[id].id == id && ValidSourceType(t.byID[id].sourceType)
          && KeyOf(t.byID[id]) in t.idBySource && t.idBySource[KeyOf(t.byID[id])] == id)
    && (forall k {:trigger t.idBySource[k]} | k in t.idBySource :: t.idBySource[k] in t.byID && KeyOf(t.byID[t.idBySource[k]]) == k)
  }

  /** An event has an outcome, a non-empty one, exactly when it is resolved. */
  ghost predicate OutcomeOk(e: Event) {
    match e.outcome
    case None => !e.status.Resolved?
    case Some(outcome) => e.status.Resolved? && outcome != ""
  }

  ghost predicate TableInv(t: Table) {
    Agree(t) && forall id {:trigger OutcomeOk(t.byID[id])} | id in t.byID :: OutcomeOk(t.byID[id])
  }

  /** Events are never lost, keep their source, leave `closed` only for `resolved`, and once
      resolved keep their outcome. */
  ghost predicate Protected(a: Event, b: Event) {
    && a.id == b.id && a.sourceType == b.sourceType && a.sourceID == b.sourceID
    && (a.status.Closed? ==> Terminal(b.status))
    && (a.status.Resolved? ==> b.status.Resolved? && b.outcome == a.outcome)
  }

  ghost predicate TableAdvances(a: Table, b: Table) {
    && (forall id | id in a.byID :: id in b.byID && Protected(a.byID[id], b.byID[id]))
    && (forall k | k in a.idBySource :: k in b.idBySource && b.idBySource[k] == a.idBySource[k])
  }

  // ----- the calls the service makes -----

  /** Every repository call, as the service makes it. The status a compare-and-set expects
      was read earlier and may be stale. */
  datatype Op =
    | OpCreate(e: Event)
    | OpSync(e: Event)
    | OpUpdateStatus(id: EventId, expected: Status, status: Status)
    | OpResolve(id: EventId, expected: Status, outcome: string, source: string)

  predicate Validated(op: Op) {
    match op
    case OpCreate(e) => ValidSourceType(e.sourceType) && e.status.Pending? && e.outcome.None?
    case OpSync(e) => e.sourceType == "polymarket" && !e.status.Resolved? && e.outcome.None?
    case OpUpdateStatus(_, expected, status) => CanTransition(expected, status)
    case OpResolve(_, expected, outcome, _) => expected.Closed? && outcome != ""
  }

  ghost function After(t: Table, op: Op): Table
    requires TableInv(t)
  {
    if !Validated(op) then t
    else
      var r := match op
        case OpCreate(e) => Create(t, e)
        case OpSync(e) => UpsertSource(t, e)
        case OpUpdateStatus(id, expected, status) => UpdateStatus(t, id, expected, status)
        case OpResolve(id, expected, outcome, source) => Resolve(t, id, expected, outcome, source);
      if r.Success? then r.value else t
  }

  lemma StoredInv(t: Table, e: Event)
    requires TableInv(t) && e.id !in t.byID && KeyOf(e) !in t.idBySource && ValidSourceType(e.sourceType) && OutcomeOk(e)
    ensures TableInv(Stored(t, e)) && TableAdvances(t, Stored(t, e))
  {
    var r := Stored(t, e);
    forall id | id in r.byID ensures OutcomeOk(r.byID[id]) {
      assert id != e.id ==> OutcomeOk(t.byID[id]);
    }
  }

  /** One event changes, not its identifier or source. */
  lemma ChangedInv(t: Table, id: EventId, e: Event)
    requires TableInv(t) && id in t.byID && Protected(t.byID[id], e) && OutcomeOk(e)
    ensures var r := t.(byID := t.byID[id := e]); TableInv(r) && TableAdvances(t, r)
  {
    var r := t.(byID := t.byID[id := e]);
    forall x | x in r.byID ensures OutcomeOk(r.byID[x]) {
      assert x != id ==> OutcomeOk(t.byID[x]);
    }
  }

  /** Whatever call comes, however stale what it read. */
  lemma AfterInv(t: Table, op: Op)
    requires TableInv(t)
    ensures TableInv(After(t, op)) && TableAdvances(t, After(t, op))
  {
    var r := After(t, op);
    if Validated(op) && r != t {
      match op
      case OpCreate(e) => StoredInv(t, e);
      case OpSync(e) =>
        if KeyOf(e) !in t.idBySource { StoredInv(t, e); } else {
          var id := t.idBySource[KeyOf(e)];
          assert OutcomeOk(t.byID[id]);
          ChangedInv(t, id, Synced(t.byID[id], e));
        }
      case OpUpdateStatus(id, _, _) => assert OutcomeOk(t.byID[id]); ChangedInv(t, id, r.byID[id]);
      case OpResolve(id, _, _, _) => ChangedInv(t, id, r.byID[id]);
    }
  }

  ghost function Run(t: Table, ops: seq<Op>): Table
    requires TableInv(t)
    decreases |ops|
  {
    if ops == [] then t
    else
      AfterInv(t, ops[0]);
      Run(After(t, ops[0]), ops[1..])
  }

  /** Over every run: the maps agree, and closed and resolved events are protected. */
  lemma {:induction false} RunInv(t: Table, ops: seq<Op>)
    requires TableInv(t)
    ensures TableInv(Run(t, ops)) && TableAdvances(t, Run(t, ops))
    decreases |ops|
  {
    if ops != [] {
      AfterInv(t, ops[0]);
      RunInv(After(t, ops[0]), ops[1..]);
    }
  }

  /** Of two resolutions that both read `closed`, whatever happens in between, only the first
      takes effect. */
  lemma FirstResolutionWins(t: Table, id: EventId, first: string, ops: seq<Op>, second: string, source: string)
    requires TableInv(t) && id in t.byID && t.byID[id].status.Closed? && first != "" && source != ""
    ensures var won := Resolve(t, id, Closed, first, source);
            && won.Success? && TableInv(won.value)
            && var later := Run(won.value, ops);
               && id in later.byID && later.byID[id].outcome == Some(first)
               && Resolve(later, id, Closed, second, source) == Failure(InvalidTransition)
  {
    AfterInv(t, OpResolve(id, Closed, first, source));
    RunInv(Resolve(t, id, Closed, first, source).value, ops);
  }

  // ----- listing -----

  datatype ListFilters = ListFilters(category: string, status: Option<Status>, page: nat, limit: nat)

  datatype Page = Page(events: seq<Event>, total: nat)

  predicate MatchesFilters(e: Event, f: ListFilters) {
    (f.category == "" || e.category == f.category) && (f.status.None? || e.status == f.status.value)
  }

  function Listed(byID: map<EventId, Event>, f: ListFilters): set<EventId> {
    set id | id in byID && MatchesFilters(byID[id], f)
  }

  function EndingFirst(byID: map<EventId, Event>): (nat, nat) -> bool {
    (a: nat, b: nat) => a in byID && b in byID
      && (if byID[a].endTime == byID[b].endTime then a < b else byID[a].endTime < byID[b].endTime)
  }

  lemma EndingTotal(byID: map<EventId, Event>, f: ListFilters)
    ensures StrictTotal(Listed(byID, f), EndingFirst(byID))
  {
    var s := Listed(byID, f);
    assert forall x | x in s :: x in byID;
  }

  /** The rows of one page. */
  function Window(ids: seq<EventId>, f: ListFilters): (w: seq<EventId>)
    requires f.page >= 1
    ensures forall id | id in w :: id in ids
  {
    OffsetNonNegative(f.page, f.limit);
    Slice(ids, (f.page - 1) * f.limit, f.limit)
  }

  function Slice(ids: seq<EventId>, offset: nat, limit: nat): (w: seq<EventId>)
    ensures forall id | id in w :: id in ids
  {
    if offset >= |ids| then []
    else if offset + limit <= |ids| then ids[offset..offset + limit]
    else ids[offset..]
  }

  lemma OffsetNonNegative(page: nat, limit: nat)
    requires page >= 1
    ensures (page - 1) * limit >= 0
  {
  }

  function Rows(byID: map<EventId, Event>, ids: seq<EventId>): seq<Event>
    requires forall id | id in ids :: id in byID
  {
    seq(|ids|, i requires 0 <= i < |ids| => byID[ids[i]])
  }

  lemma SortedListed(byID: map<EventId, Event>, f: ListFilters, ids: seq<EventId>)
    requires IsSortOf(ids, Listed(byID, f), EndingFirst(byID))
    ensures forall id | id in ids :: id in byID
  {
    forall id | id in ids ensures id in byID {
      var i :| 0 <= i < |ids| && ids[i] == id;
      assert id in Elements(ids);
    }
  }

  /** What the repository answers to a listing. */
  ghost function ListPage(byID: map<EventId, Event>, f: ListFilters): Page
    requires f.page >= 1
  {
    EndingTotal(byID, f);
    var ids := Sort(Listed(byID, f), EndingFirst(byID));
    SortedListed(byID, f, ids);
    Page(Rows(byID, Window(ids, f)), |ids|)
  }

  // ----- the repository as it is updated in place -----

  class MemoryRepository {
    var byID: map<EventId, Event>
    var idBySource: map<string, EventId>

    ghost function Now(): Table
      reads this
    {
      Table(byID, idBySource)
    }

    ghost predicate Valid()
      reads this
    {
      TableInv(Now())
    }

    constructor ()
      ensures Valid() && Now() == NO_EVENTS
    {
      byID, idBySource := map[], map[];
    }

    method CreateEvent(value: Event) returns (r: Result<EventId>)
      requires Valid() && Validated(OpCreate(value))
      modifies this
      ensures Valid()
      ensures match Create(old(Now()), value)
              case Success(next) => Now() == next && r == Success(value.id)
              case Failure(error) => Now() == old(Now()) && r == Failure(error)
    {
      AfterInv(Now(), OpCreate(value));
      var sourceKey := SourceKey(value.sourceType, value.sourceID);
      if sourceKey in idBySource {
        return Failure(AlreadyExists);
      }
      if value.id in byID {
        return Failure(DuplicateID);
      }
      byID := byID[value.id := value];
      idBySource := idBySource[sourceKey := value.id];
      return Success(value.id);
    }

    method UpsertSourceEvent(value: Event) returns (r: Result<EventId>)
      requires Valid() && Validated(OpSync(value))
      modifies this
      ensures Valid()
      ensures match UpsertSource(old(Now()), value)
              case Success(next) => Now() == next && r == Success(idBySource[KeyOf(value)])
              case Failure(error) => Now() == old(Now()) && r == Failure(error)
    {
      AfterInv(Now(), OpSync(value));
      var sourceKey := SourceKey(value.sourceType, value.sourceID);
      if sourceKey !in idBySource {
        if value.id in byID {
          return Failure(DuplicateID);
        }
        byID := byID[value.id := value];
        idBySource := idBySource[sourceKey := value.id];
        return Success(value.id);
      }
      var eventID := idBySource[sourceKey];
      var existing := byID[eventID];
      existing := existing.(details := value.details, category := value.category, endTime := value.endTime);
      if existing.status != Closed && existing.status != Resolved {
        existing := existing.(status := value.status);
      }
      byID := byID[eventID := existing];
      return Success(eventID);
    }

    method SetStatus(eventID: EventId, expected: Status, status: Status) returns (r: Result<EventId>)
      requires Valid() && Validated(OpUpdateStatus(eventID, expected, status))
      modifies this
      ensures Valid()
      ensures match UpdateStatus(old(Now()), eventID, expected, status)
              case Success(next) => Now() == next && r == Success(eventID)
              case Failure(error) => Now() == old(Now()) && r == Failure(error)
    {
      AfterInv(Now(), OpUpdateStatus(eventID, expected, status));
      if eventID !in byID {
        return Failure(NotFound);
      }
      if byID[eventID].status != expected {
        return Failure(InvalidTransition);
      }
      byID := byID[eventID := byID[eventID].(status := status)];
      return Success(eventID);
    }

    method ResolveEvent(eventID: EventId, expected: Status, outcome: string, source: string) returns (r: Result<EventId>)
      requires Valid() && Validated(OpResolve(eventID, expected, outcome, source))
      modifies this
      ensures Valid()
      ensures match Resolve(old(Now()), eventID, expected, outcome, source)
              case Success(next) => Now() == next && r == Success(eventID)
              case Failure(error) => Now() == old(Now()) && r == Failure(error)
    {
      AfterInv(Now(), OpResolve(eventID, expected, outcome, source));
      if eventID !in byID {
        return Failure(NotFound);
      }
      if byID[eventID].status != expected {
        return Failure(InvalidTransition);
      }
      if source == "" {
        return Failure(SourceRequired);
      }
      byID := byID[eventID := byID[eventID].(status := Resolved, outcome := Some(outcome))];
      return Success(eventID);
    }

    /** The matching events, soonest end first, one page of them. */
    method List(filters: ListFilters) returns (page: Page)
      requires filters.page >= 1
      ensures page == ListPage(byID, filters)
    {
      var values: seq<EventId> := [];
      var rest := byID.Keys;
      while rest != {}
        invariant rest <= byID.Keys
        invariant forall id :: id in values <==> id in Listed(byID, filters) - rest
        decreases |rest|
      {
        var id :| id in rest;
        rest := rest - {id};
        if MatchesFilters(byID[id], filters) {
          values := values + [id];
        }
      }
      EndingTotal(byID, filters);
      var ids := SortSlice(values, Listed(byID, filters), EndingFirst(byID));
      SortedListed(byID, filters, ids);
      page := Page(Rows(byID, Window(ids, filters)), |ids|);
    }
  }
}
