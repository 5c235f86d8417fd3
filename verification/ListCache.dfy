/** The versioned cache of event lists: readers, writers and evictions, every cache and
    repository call an atomic step, in any interleaving. A miss or a failed call can happen at
    any get or put. */
module ListCache {
  import opened Decimal
  import opened Events

  type ProcId = nat

  type Catalogue = map<EventId, Event>

  /** A cached page. The moment it was read, its filters and its version are history. */
  datatype Entry = Entry(f: ListFilters, v: string, page: Page, at: nat)

  /** Where a `List` call or a write stands. `since` is the newest write whose invalidation
      had completed when the call began. */
  datatype Phase =
    | Asking(f: ListFilters, since: nat)
    | Announcing(f: ListFilters, since: nat, v: string)
    | Looking(f: ListFilters, since: nat, v: string)
    | Reading(f: ListFilters, since: nat, v: string)
    | Storing(f: ListFilters, since: nat, v: string, entry: Entry)
    | Answered(f: ListFilters, since: nat, entry: Entry)
    | Writing(table: Catalogue)
    | Written(at: nat)
    | Invalidating(at: nat, v: string)
    | Invalidated(at: nat)
    | NotInvalidated(at: nat)

  /** `history` is every state of the repository, the last one current. `births` (when each
      version was put), `issued` and `fence` are history variables. */
  datatype World = World(
    history: seq<Catalogue>, versionKey: Option<string>, lists: map<string, Entry>, procs: map<ProcId, Phase>,
    births: map<string, nat>, issued: set<string>, fence: nat)

  const START := World([map[]], None, map[], map[], map[], {}, 0)

  /** The index of the repository's current state. */
  function Moment(w: World): nat {
    if |w.history| == 0 then 0 else |w.history| - 1
  }

  // ----- keys and versions -----

  function StatusText(s: Option<Status>): string {
    match s
    case None => ""
    case Some(status) =>
      match status
      case Pending => "pending"
      case Active => "active"
      case Closed => "closed"
      case Resolved => "resolved"
  }

  /** What is digested into the key of a cached list. */
  function KeyData(f: ListFilters, v: string): string {
    v + [NUL] + f.category + [NUL] + StatusText(f.status) + [NUL] + Itoa(f.page) + [NUL] + Itoa(f.limit)
  }

  lemma StatusTextInjective(a: Option<Status>, b: Option<Status>)
    requires StatusText(a) == StatusText(b)
    ensures a == b
  {
    assert StatusText(Some(Pending))[0] == 'p' && StatusText(Some(Active))[0] == 'a';
    assert StatusText(Some(Closed))[0] == 'c' && StatusText(Some(Resolved))[0] == 'r';
  }

  /** No two listings share a key, whatever characters a category holds. */
  lemma KeyDataInjective(f: ListFilters, v: string, g: ListFilters, u: string)
    requires NUL !in v && NUL !in u && KeyData(f, v) == KeyData(g, u)
    ensures f == g && v == u
  {
    var f3, g3 := v + [NUL] + f.category + [NUL] + StatusText(f.status) + [NUL] + Itoa(f.page),
                  u + [NUL] + g.category + [NUL] + StatusText(g.status) + [NUL] + Itoa(g.page);
    DigitsFree(Itoa(f.limit), NUL);
    DigitsFree(Itoa(g.limit), NUL);
    TailDetermined(f3, g3, Itoa(f.limit), Itoa(g.limit), NUL);
    var f2, g2 := v + [NUL] + f.category + [NUL] + StatusText(f.status), u + [NUL] + g.category + [NUL] + StatusText(g.status);
    DigitsFree(Itoa(f.page), NUL);
    DigitsFree(Itoa(g.page), NUL);
    TailDetermined(f2, g2, Itoa(f.page), Itoa(g.page), NUL);
    TailDetermined(v + [NUL] + f.category, u + [NUL] + g.category, StatusText(f.status), StatusText(g.status), NUL);
    HeadDetermined(v, u, f.category, g.category, NUL);
    ItoaInjective(f.limit, g.limit);
    ItoaInjective(f.page, g.page);
    StatusTextInjective(f.status, g.status);
  }

  /** The text of a new version: a clock reading and a counter. */
  function Epoch(nanos: nat, sequence: nat): string {
    Itoa(nanos) + "-" + Itoa(sequence)
  }

  /** One process never repeats a version, even when its clock stands still. */
  lemma EpochsDistinct(a: nat, m: nat, b: nat, n: nat)
    requires Epoch(a, m) == Epoch(b, n)
    ensures a == b && m == n
    ensures NUL !in Epoch(a, m) && Epoch(a, m) != ""
  {
    DigitsFree(Itoa(a), '-');
    DigitsFree(Itoa(b), '-');
    HeadDetermined(Itoa(a), Itoa(b), Itoa(m), Itoa(n), '-');
    ItoaInjective(a, b);
    ItoaInjective(m, n);
    DigitsFree(Itoa(a), NUL);
    DigitsFree(Itoa(m), NUL);
  }

  // ----- steps -----

  /** What the environment decides at a step. */
  datatype Choice = Choice(hit: bool, putOk: bool, version: string)

  predicate NewVersion(w: World, v: string) {
    v !in w.issued && v != "" && NUL !in v
  }

  function At(w: World, p: ProcId, phase: Phase): World {
    w.(procs := w.procs[p := phase])
  }

  function Put(w: World, v: string): World {
    w.(versionKey := Some(v), births := w.births[v := Moment(w)])
  }

  function Max(a: nat, b: nat): nat { if a >= b then a else b }

  /** `eventListCacheVersion`, first half: the stored version, or a new one to be put. */
  function Ask(w: World, p: ProcId, f: ListFilters, since: nat, choice: Choice): World {
    if choice.hit && w.versionKey.Some? then At(w, p, Looking(f, since, w.versionKey.value))
    else if !NewVersion(w, choice.version) then w
    else At(w.(issued := w.issued + {choice.version}), p, Announcing(f, since, choice.version))
  }

  function Announce(w: World, p: ProcId, f: ListFilters, since: nat, v: string, choice: Choice): World {
    if choice.putOk then At(Put(w, v), p, Looking(f, since, v)) else At(w, p, Looking(f, since, ""))
  }

  function Look(w: World, p: ProcId, f: ListFilters, since: nat, v: string, choice: Choice): World {
    if v != "" && choice.hit && KeyData(f, v) in w.lists then At(w, p, Answered(f, since, w.lists[KeyData(f, v)]))
    else At(w, p, Reading(f, since, v))
  }

  ghost function Read(w: World, p: ProcId, f: ListFilters, since: nat, v: string): World
    requires |w.history| >= 1 && f.page >= 1
  {
    At(w, p, Storing(f, since, v, Entry(f, v, ListPage(w.history[Moment(w)], f), Moment(w))))
  }

  function Store(w: World, p: ProcId, f: ListFilters, since: nat, v: string, entry: Entry, choice: Choice): World {
    At(if v != "" && choice.putOk then w.(lists := w.lists[KeyData(f, v) := entry]) else w, p, Answered(f, since, entry))
  }

  function Write(w: World, p: ProcId, table: Catalogue): World {
    At(w.(history := w.history + [table]), p, Written(|w.history|))
  }

  function Renew(w: World, p: ProcId, at: nat, choice: Choice): World {
    if !NewVersion(w, choice.version) then w
    else At(w.(issued := w.issued + {choice.version}), p, Invalidating(at, choice.version))
  }

  function Invalidate(w: World, p: ProcId, at: nat, v: string, choice: Choice): World {
    if choice.putOk then At(Put(w, v).(fence := Max(w.fence, at)), p, Invalidated(at)) else At(w, p, NotInvalidated(at))
  }

  ghost function Advance(w: World, p: ProcId, choice: Choice): World
    requires CacheInv(w) && p in w.procs
  {
    assert PhaseOk(w, w.procs[p]);
    match w.procs[p]
    case Asking(f, since) => Ask(w, p, f, since, choice)
    case Announcing(f, since, v) => Announce(w, p, f, since, v, choice)
    case Looking(f, since, v) => Look(w, p, f, since, v, choice)
    case Reading(f, since, v) => Read(w, p, f, since, v)
    case Storing(f, since, v, entry) => Store(w, p, f, since, v, entry, choice)
    case Writing(table) => Write(w, p, table)
    case Written(at) => Renew(w, p, at, choice)
    case Invalidating(at, v) => Invalidate(w, p, at, v, choice)
    case _ => w
  }

  datatype Move =
    | StartList(p: ProcId, f: ListFilters)
    | StartWrite(p: ProcId, table: Catalogue)
    | Step(p: ProcId, choice: Choice)
    | EvictVersion
    | EvictList(key: string)

  ghost function Moved(w: World, move: Move): World
    requires CacheInv(w)
  {
    match move
    case StartList(p, f) => if p in w.procs || f.page < 1 then w else At(w, p, Asking(f, w.fence))
    case StartWrite(p, table) => if p in w.procs then w else At(w, p, Writing(table))
    case Step(p, choice) => if p in w.procs then Advance(w, p, choice) else w
    case EvictVersion => w.(versionKey := None)
    case EvictList(key) => w.(lists := w.lists - {key})
  }

  // ----- what every step keeps -----

  /** The entry is the repository's page at the moment it was read. */
  ghost predicate Truthful(w: World, e: Entry) {
    && e.f.page >= 1 && e.at < |w.history| && e.page == ListPage(w.history[e.at], e.f)
  }

  /** Nothing cached under a version was read before that version was put. */
  ghost predicate Fresh(w: World, e: Entry) {
    e.v != "" ==> e.v in w.births && w.births[e.v] <= e.at
  }

  /** A version a reader works with was put after the writes it must not miss. */
  ghost predicate Usable(w: World, v: string, since: nat) {
    v != "" ==> v in w.births && w.births[v] >= since
  }

  function Held(phase: Phase): Option<string> {
    match phase
    case Announcing(_, _, v) => Some(v)
    case Invalidating(_, v) => Some(v)
    case _ => None
  }

  /** A version generated but not yet put. */
  predicate Unborn(w: World, v: string) {
    v in w.issued && v !in w.births && v != "" && NUL !in v
  }

  ghost predicate PhaseOk(w: World, phase: Phase) {
    && (Held(phase).Some? ==> Unborn(w, Held(phase).value))
    && match phase
       case Asking(f, since) => f.page >= 1 && since <= w.fence
       case Announcing(f, since, _) => f.page >= 1 && since <= w.fence
       case Looking(f, since, v) => f.page >= 1 && since <= w.fence && Usable(w, v, since)
       case Reading(f, since, v) => f.page >= 1 && since <= w.fence && Usable(w, v, since)
       case Storing(f, since, v, e) =>
         e.f == f && e.v == v && since <= w.fence && Usable(w, v, since) && Truthful(w, e) && Fresh(w, e) && since <= e.at
       case Answered(f, since, e) => e.f == f && since <= w.fence && Truthful(w, e) && since <= e.at
       case Writing(_) => true
       case Written(at) => at < |w.history|
       case Invalidating(at, _) => at < |w.history|
       case Invalidated(at) => at <= w.fence
       case NotInvalidated(_) => true
  }

  ghost predicate VersionsOk(w: World) {
    && |w.history| >= 1 && w.fence < |w.history|
    && (forall v | v in w.births :: w.births[v] < |w.history| && v in w.issued && v != "" && NUL !in v)
    && (w.versionKey.Some? ==> w.versionKey.value in w.births && w.births[w.versionKey.value] >= w.fence)
  }

  ghost predicate ListsOk(w: World) {
    forall k {:trigger w.lists[k]} | k in w.lists ::
      var e := w.lists[k]; k == KeyData(e.f, e.v) && e.v != "" && Truthful(w, e) && Fresh(w, e)
  }

  ghost predicate HeldApart(procs: map<ProcId, Phase>) {
    forall p, q {:trigger procs[p], procs[q]} | p in procs && q in procs && p != q && Held(procs[p]).Some? ::
      Held(procs[p]) != Held(procs[q])
  }

  ghost predicate CacheInv(w: World) {
    && VersionsOk(w) && ListsOk(w) && HeldApart(w.procs)
    && (forall p {:trigger w.procs[p]} | p in w.procs :: PhaseOk(w, w.procs[p]))
  }

  // ----- proofs -----

  /** Versions and moments only grow. */
  ghost predicate Grows(w: World, r: World) {
    && w.history <= r.history && w.issued <= r.issued && w.fence <= r.fence
    && (forall v | v in w.births :: v in r.births && r.births[v] == w.births[v])
  }

  /** What a move leaves of the phases it does not touch: versions put are not held there. */
  ghost predicate Untouched(w: World, r: World, phase: Phase) {
    Held(phase).Some? ==> (Held(phase).value in r.births ==> Held(phase).value in w.births)
  }

  lemma EntryKept(w: World, r: World, e: Entry)
    requires Truthful(w, e) && Fresh(w, e) && Grows(w, r)
    ensures Truthful(r, e) && Fresh(r, e)
  {
    assert r.history[e.at] == w.history[e.at];
  }

  lemma TruthKept(w: World, r: World, e: Entry)
    requires Truthful(w, e) && Grows(w, r)
    ensures Truthful(r, e)
  {
    assert r.history[e.at] == w.history[e.at];
  }

  lemma PhaseKept(w: World, r: World, phase: Phase)
    requires PhaseOk(w, phase) && Grows(w, r) && Untouched(w, r, phase)
    ensures PhaseOk(r, phase)
  {
    match phase
    case Storing(_, _, _, e) => EntryKept(w, r, e);
    case Answered(_, _, e) => TruthKept(w, r, e);
    case _ =>
  }

  /** A process keeps the listing it was asked for and the fence it started behind. */
  ghost predicate SameCall(a: Phase, b: Phase) {
    IsList(a) ==> IsList(b) && b.f == a.f && b.since == a.since
  }

  predicate IsList(phase: Phase) {
    phase.Asking? || phase.Announcing? || phase.Looking? || phase.Reading? || phase.Storing? || phase.Answered?
  }

  /** One process moved, and everything shared only grew. */
  ghost predicate Stepped(w: World, p: ProcId, r: World) {
    && p in w.procs && p in r.procs && r.procs == w.procs[p := r.procs[p]] && SameCall(w.procs[p], r.procs[p])
    && Grows(w, r) && VersionsOk(r) && PhaseOk(r, r.procs[p])
    && (forall k | k in r.lists ::
          (k in w.lists && r.lists[k] == w.lists[k])
          || (k == KeyData(r.lists[k].f, r.lists[k].v) && r.lists[k].v != "" && Truthful(r, r.lists[k]) && Fresh(r, r.lists[k])))
    && (forall v | v in r.births && v !in w.births :: Held(w.procs[p]) == Some(v))
    && (Held(r.procs[p]).Some? ==> Held(r.procs[p]).value !in w.issued)
  }

  lemma SteppedInv(w: World, p: ProcId, r: World)
    requires CacheInv(w) && Stepped(w, p, r)
    ensures CacheInv(r)
  {
    forall q | q in r.procs ensures PhaseOk(r, r.procs[q]) {
      if q != p {
        assert r.procs[q] == w.procs[q] && PhaseOk(w, w.procs[q]);
        assert Held(w.procs[p]).Some? ==> Held(w.procs[p]) != Held(w.procs[q]);
        PhaseKept(w, r, w.procs[q]);
      }
    }
    assert ListsOk(r) by { ListsKept(w, p, r); }
    assert HeldApart(r.procs) by { ApartKept(w, p, r); }
  }

  lemma ListsKept(w: World, p: ProcId, r: World)
    requires ListsOk(w) && Stepped(w, p, r)
    ensures ListsOk(r)
  {
    forall k | k in r.lists
      ensures var e := r.lists[k]; k == KeyData(e.f, e.v) && e.v != "" && Truthful(r, e) && Fresh(r, e)
    {
      if k in w.lists && r.lists[k] == w.lists[k] {
        EntryKept(w, r, w.lists[k]);
      }
    }
  }

  lemma ApartKept(w: World, p: ProcId, r: World)
    requires CacheInv(w) && Stepped(w, p, r)
    ensures HeldApart(r.procs)
  {
    forall a, b | a in r.procs && b in r.procs && a != b && Held(r.procs[a]).Some?
      ensures Held(r.procs[a]) != Held(r.procs[b])
    {
      assert a != p ==> r.procs[a] == w.procs[a] && PhaseOk(w, w.procs[a]);
      assert b != p ==> r.procs[b] == w.procs[b] && PhaseOk(w, w.procs[b]);
    }
  }

  /** A step that changes nothing shared. */
  lemma StillSteps(w: World, p: ProcId, phase: Phase)
    requires CacheInv(w) && p in w.procs && PhaseOk(w, phase) && Held(phase).None? && SameCall(w.procs[p], phase)
    ensures Stepped(w, p, At(w, p, phase))
  {
    hide PhaseOk, ListsOk, HeldApart, KeyData;
    PhaseKept(w, At(w, p, phase), phase);
  }

  lemma LookSteps(w: World, p: ProcId, f: ListFilters, since: nat, v: string, choice: Choice)
    requires CacheInv(w) && p in w.procs && w.procs[p] == Looking(f, since, v)
    ensures Stepped(w, p, Look(w, p, f, since, v, choice))
  {
    hide KeyData, Stepped, HeldApart, ListPage;
    assert PhaseOk(w, w.procs[p]);
    if v != "" && choice.hit && KeyData(f, v) in w.lists {
      LookupIsOurs(w, f, v);
      StillSteps(w, p, Answered(f, since, w.lists[KeyData(f, v)]));
    } else {
      StillSteps(w, p, Reading(f, since, v));
    }
  }

  /** What is cached under our key was read for our filters, after our version was put. */
  lemma LookupIsOurs(w: World, f: ListFilters, v: string)
    requires VersionsOk(w) && ListsOk(w) && v in w.births && KeyData(f, v) in w.lists
    ensures var e := w.lists[KeyData(f, v)];
            e.f == f && e.v == v && Truthful(w, e) && w.births[v] <= e.at
  {
    var e := w.lists[KeyData(f, v)];
    assert KeyData(f, v) == KeyData(e.f, e.v) && Truthful(w, e) && Fresh(w, e);
    KeyDataInjective(f, v, e.f, e.v);
  }

  /** Generating a version. */
  lemma IssueSteps(w: World, p: ProcId, v: string, phase: Phase)
    requires CacheInv(w) && p in w.procs && NewVersion(w, v) && Held(phase) == Some(v) && SameCall(w.procs[p], phase)
    requires PhaseOk(w.(issued := w.issued + {v}), phase)
    ensures Stepped(w, p, At(w.(issued := w.issued + {v}), p, phase))
  {
    hide PhaseOk, ListsOk, HeldApart, KeyData;
    var s := w.(issued := w.issued + {v});
    PhaseKept(s, At(s, p, phase), phase);
  }

  /** Putting the version a process holds. */
  lemma PutSteps(w: World, p: ProcId, v: string, fence: nat, phase: Phase)
    requires CacheInv(w) && p in w.procs && Held(w.procs[p]) == Some(v) && Unborn(w, v) && Held(phase).None?
    requires SameCall(w.procs[p], phase)
    requires w.fence <= fence < |w.history| && PhaseOk(Put(w, v).(fence := fence), phase)
    ensures Stepped(w, p, At(Put(w, v).(fence := fence), p, phase))
  {
    hide PhaseOk, ListsOk, HeldApart, KeyData;
    var s := Put(w, v).(fence := fence);
    PhaseKept(s, At(s, p, phase), phase);
  }

  lemma AskSteps(w: World, p: ProcId, f: ListFilters, since: nat, choice: Choice)
    requires CacheInv(w) && p in w.procs && w.procs[p] == Asking(f, since)
    ensures Ask(w, p, f, since, choice) == w || Stepped(w, p, Ask(w, p, f, since, choice))
  {
    assert PhaseOk(w, w.procs[p]);
    hide Stepped, ListsOk, HeldApart;
    if choice.hit && w.versionKey.Some? {
      StillSteps(w, p, Looking(f, since, w.versionKey.value));
    } else if NewVersion(w, choice.version) {
      IssueSteps(w, p, choice.version, Announcing(f, since, choice.version));
    }
  }

  lemma AnnounceSteps(w: World, p: ProcId, f: ListFilters, since: nat, v: string, choice: Choice)
    requires CacheInv(w) && p in w.procs && w.procs[p] == Announcing(f, since, v)
    ensures Stepped(w, p, Announce(w, p, f, since, v, choice))
  {
    assert PhaseOk(w, w.procs[p]);
    hide Stepped, ListsOk, HeldApart;
    if choice.putOk {
      PutSteps(w, p, v, w.fence, Looking(f, since, v));
      assert Put(w, v).(fence := w.fence) == Put(w, v);
    } else {
      StillSteps(w, p, Looking(f, since, ""));
    }
  }

  lemma ReadSteps(w: World, p: ProcId, f: ListFilters, since: nat, v: string)
    requires CacheInv(w) && p in w.procs && w.procs[p] == Reading(f, since, v)
    ensures |w.history| >= 1 && f.page >= 1 && Stepped(w, p, Read(w, p, f, since, v))
  {
    assert PhaseOk(w, w.procs[p]);
    hide Stepped, ListsOk, HeldApart, ListPage;
    StillSteps(w, p, Read(w, p, f, since, v).procs[p]);
  }

  lemma StoreSteps(w: World, p: ProcId, f: ListFilters, since: nat, v: string, entry: Entry, choice: Choice)
    requires CacheInv(w) && p in w.procs && w.procs[p] == Storing(f, since, v, entry)
    ensures Stepped(w, p, Store(w, p, f, since, v, entry, choice))
  {
    hide KeyData, Stepped, HeldApart, ListPage;
    assert PhaseOk(w, w.procs[p]);
    if v != "" && choice.putOk {
      CacheSteps(w, p, f, since, entry);
    } else {
      StillSteps(w, p, Answered(f, since, entry));
    }
  }

  lemma CacheSteps(w: World, p: ProcId, f: ListFilters, since: nat, entry: Entry)
    requires CacheInv(w) && p in w.procs && PhaseOk(w, Answered(f, since, entry)) && SameCall(w.procs[p], Answered(f, since, entry))
    requires entry.v != "" && Truthful(w, entry) && Fresh(w, entry)
    ensures Stepped(w, p, At(w.(lists := w.lists[KeyData(entry.f, entry.v) := entry]), p, Answered(f, since, entry)))
  {
    hide KeyData, HeldApart, ListPage, ListsOk, PhaseOk;
    var r := At(w.(lists := w.lists[KeyData(entry.f, entry.v) := entry]), p, Answered(f, since, entry));
    PhaseKept(w, r, Answered(f, since, entry));
    EntryKept(w, r, entry);
  }

  lemma WriteSteps(w: World, p: ProcId, table: Catalogue)
    requires CacheInv(w) && p in w.procs && w.procs[p] == Writing(table)
    ensures Stepped(w, p, Write(w, p, table))
  {
    hide ListsOk, HeldApart, KeyData, ListPage;
    var r := Write(w, p, table);
    assert Grows(w, r) && VersionsOk(r);
    hide VersionsOk;
  }

  lemma RenewSteps(w: World, p: ProcId, at: nat, choice: Choice)
    requires CacheInv(w) && p in w.procs && w.procs[p] == Written(at)
    ensures Renew(w, p, at, choice) == w || Stepped(w, p, Renew(w, p, at, choice))
  {
    assert PhaseOk(w, w.procs[p]);
    hide Stepped, ListsOk, HeldApart;
    if NewVersion(w, choice.version) {
      IssueSteps(w, p, choice.version, Invalidating(at, choice.version));
    }
  }

  lemma InvalidateSteps(w: World, p: ProcId, at: nat, v: string, choice: Choice)
    requires CacheInv(w) && p in w.procs && w.procs[p] == Invalidating(at, v)
    ensures Stepped(w, p, Invalidate(w, p, at, v, choice))
  {
    assert PhaseOk(w, w.procs[p]);
    hide Stepped, ListsOk, HeldApart;
    if choice.putOk {
      PutSteps(w, p, v, Max(w.fence, at), Invalidated(at));
    } else {
      StillSteps(w, p, NotInvalidated(at));
    }
  }

  lemma AdvanceSteps(w: World, p: ProcId, choice: Choice)
    requires CacheInv(w) && p in w.procs
    ensures Advance(w, p, choice) == w || Stepped(w, p, Advance(w, p, choice))
  {
    assert PhaseOk(w, w.procs[p]);
    hide Stepped, PhaseOk, VersionsOk, ListsOk, HeldApart, Ask, Announce, Look, Read, Store, Write, Renew, Invalidate;
    match w.procs[p]
    case Asking(f, since) => AskSteps(w, p, f, since, choice);
    case Announcing(f, since, v) => AnnounceSteps(w, p, f, since, v, choice);
    case Looking(f, since, v) => LookSteps(w, p, f, since, v, choice);
    case Reading(f, since, v) => ReadSteps(w, p, f, since, v);
    case Storing(f, since, v, entry) => StoreSteps(w, p, f, since, v, entry, choice);
    case Writing(table) => WriteSteps(w, p, table);
    case Written(at) => RenewSteps(w, p, at, choice);
    case Invalidating(at, v) => InvalidateSteps(w, p, at, v, choice);
    case _ =>
  }

  lemma ArrivalInv(w: World, p: ProcId, phase: Phase)
    requires CacheInv(w) && p !in w.procs && PhaseOk(w, phase) && Held(phase).None?
    ensures CacheInv(At(w, p, phase))
  {
    var r := At(w, p, phase);
    forall q | q in r.procs ensures PhaseOk(r, r.procs[q]) {
      PhaseKept(w, r, if q == p then phase else w.procs[q]);
    }
    forall k | k in r.lists ensures Truthful(r, r.lists[k]) && Fresh(r, r.lists[k]) {
      EntryKept(w, r, w.lists[k]);
    }
  }

  lemma SameMoment(w: World, r: World, e: Entry)
    requires r.history == w.history && r.births == w.births && Truthful(w, e) && Fresh(w, e)
    ensures Truthful(r, e) && Fresh(r, e)
  {
  }

  lemma EvictionLists(w: World, r: World)
    requires ListsOk(w) && r.history == w.history && r.births == w.births
    requires forall k | k in r.lists :: k in w.lists && r.lists[k] == w.lists[k]
    ensures ListsOk(r)
  {
    hide KeyData, Truthful, Fresh;
    forall k | k in r.lists
      ensures var e := r.lists[k]; k == KeyData(e.f, e.v) && e.v != "" && Truthful(r, e) && Fresh(r, e)
    {
      var e := w.lists[k];
      assert k == KeyData(e.f, e.v);
      SameMoment(w, r, e);
    }
  }

  lemma EvictionPhases(w: World, r: World)
    requires forall p {:trigger w.procs[p]} | p in w.procs :: PhaseOk(w, w.procs[p])
    requires r.history == w.history && r.births == w.births && r.issued == w.issued && r.fence == w.fence && r.procs == w.procs
    ensures forall p {:trigger r.procs[p]} | p in r.procs :: PhaseOk(r, r.procs[p])
  {
    forall p | p in r.procs ensures PhaseOk(r, r.procs[p]) {
      PhaseKept(w, r, w.procs[p]);
    }
  }

  lemma EvictVersionInv(w: World)
    requires CacheInv(w)
    ensures CacheInv(w.(versionKey := None))
  {
    var r := w.(versionKey := None);
    EvictionLists(w, r);
    EvictionPhases(w, r);
    hide ListsOk, PhaseOk, HeldApart;
  }

  lemma Without<K, V>(m: map<K, V>, key: K)
    ensures forall k | k in m - {key} :: k in m && (m - {key})[k] == m[k]
  {
  }

  lemma EvictListInv(w: World, key: string)
    requires CacheInv(w)
    ensures CacheInv(w.(lists := w.lists - {key}))
  {
    hide ListsOk, PhaseOk, HeldApart;
    var r := w.(lists := w.lists - {key});
    assert ListsOk(r) by {
      Without(w.lists, key);
      EvictionLists(w, r);
    }
    EvictionPhases(w, r);
  }

  lemma MovedInv(w: World, move: Move)
    requires CacheInv(w)
    ensures CacheInv(Moved(w, move))
  {
    match move
    case StartList(p, f) => if p !in w.procs && f.page >= 1 { ArrivalInv(w, p, Asking(f, w.fence)); }
    case StartWrite(p, table) => if p !in w.procs { ArrivalInv(w, p, Writing(table)); }
    case Step(p, choice) =>
      if p in w.procs {
        AdvanceSteps(w, p, choice);
        if Advance(w, p, choice) != w {
          SteppedInv(w, p, Advance(w, p, choice));
        }
      }
    case EvictVersion => EvictVersionInv(w);
    case EvictList(key) => EvictListInv(w, key);
  }

  // ----- whole runs -----

  ghost function Run(w: World, moves: seq<Move>): World
    requires CacheInv(w)
    decreases |moves|
  {
    if moves == [] then w
    else
      MovedInv(w, moves[0]);
      Run(Moved(w, moves[0]), moves[1..])
  }

  lemma StartInv()
    ensures CacheInv(START)
  {
  }

  lemma MovedKeepsCalls(w: World, move: Move, p: ProcId)
    requires CacheInv(w) && p in w.procs
    ensures p in Moved(w, move).procs && SameCall(w.procs[p], Moved(w, move).procs[p])
    ensures w.history <= Moved(w, move).history
  {
    if move.Step? && move.p in w.procs {
      AdvanceSteps(w, move.p, move.choice);
    }
    hide CacheInv, PhaseOk, Advance, VersionsOk;
  }

  lemma {:induction false} RunKeepsCalls(w: World, moves: seq<Move>, p: ProcId)
    requires CacheInv(w) && p in w.procs
    ensures CacheInv(Run(w, moves)) && p in Run(w, moves).procs && SameCall(w.procs[p], Run(w, moves).procs[p])
    ensures w.history <= Run(w, moves).history
    decreases |moves|
  {
    if moves != [] {
      MovedInv(w, moves[0]);
      MovedKeepsCalls(w, moves[0], p);
      RunKeepsCalls(Moved(w, moves[0]), moves[1..], p);
    }
  }

  lemma {:induction false} RunInv(w: World, moves: seq<Move>)
    requires CacheInv(w)
    ensures CacheInv(Run(w, moves))
    decreases |moves|
  {
    if moves != [] {
      MovedInv(w, moves[0]);
      RunInv(Moved(w, moves[0]), moves[1..]);
    }
  }

  lemma AnswersBehindFence(r: World, p: ProcId, f: ListFilters, since: nat)
    requires CacheInv(r) && p in r.procs && IsList(r.procs[p]) && r.procs[p].f == f && r.procs[p].since == since
    requires r.procs[p].Answered?
    ensures f.page >= 1
    ensures var e := r.procs[p].entry; since <= e.at < |r.history| && e.page == ListPage(r.history[e.at], f)
  {
    assert PhaseOk(r, r.procs[p]);
  }

  /** A listing that starts after the invalidation of a write has completed answers with
      the repository's page as of that write or later, whatever ran before and
      whatever runs beside it. */
  lemma NeverStale(before: seq<Move>, writer: ProcId, p: ProcId, f: ListFilters, during: seq<Move>)
    requires f.page >= 1
    requires var w := Run(START, before); writer in w.procs && w.procs[writer].Invalidated? && p !in w.procs
    ensures CacheInv(Run(START, before))
    ensures var w := Run(START, before);
            CacheInv(Moved(w, StartList(p, f)))
            && var r := Run(Moved(w, StartList(p, f)), during);
               p in r.procs && (r.procs[p].Answered? ==>
                 var e := r.procs[p].entry;
                 w.procs[writer].at <= e.at < |r.history| && e.page == ListPage(r.history[e.at], f))
  {
    var w := Run(START, before);
    RunInv(START, before);
    assert w.procs[writer].at <= w.fence by { assert PhaseOk(w, w.procs[writer]); }
    var s := Moved(w, StartList(p, f));
    MovedInv(w, StartList(p, f));
    assert p in s.procs && s.procs[p] == Asking(f, w.fence);
    hide CacheInv, Run, Moved, ListPage;
    RunKeepsCalls(s, during, p);
    var r := Run(s, during);
    if r.procs[p].Answered? { AnswersBehindFence(r, p, f, w.fence); }
  }

  // ----- what a listing after a write sees -----

  /** The process has written, and its write is state `at` of the repository. */
  predicate Wrote(phase: Phase, at: nat) {
    (phase.Written? || phase.Invalidating? || phase.Invalidated? || phase.NotInvalidated?) && phase.at == at
  }

  lemma MovedKeepsWrite(w: World, move: Move, p: ProcId, at: nat)
    requires CacheInv(w) && p in w.procs && Wrote(w.procs[p], at)
    ensures p in Moved(w, move).procs && Wrote(Moved(w, move).procs[p], at)
  {
    hide PhaseOk, VersionsOk, ListsOk, HeldApart, ListPage;
    if move.Step? && move.p in w.procs {
      AdvanceSteps(w, move.p, move.choice);
      if move.p != p { hide Advance; }
    }
  }

  lemma {:induction false} RunKeepsWrite(w: World, moves: seq<Move>, p: ProcId, at: nat)
    requires CacheInv(w) && p in w.procs && Wrote(w.procs[p], at)
    ensures CacheInv(Run(w, moves)) && p in Run(w, moves).procs && Wrote(Run(w, moves).procs[p], at)
    decreases |moves|
  {
    if moves != [] {
      MovedInv(w, moves[0]);
      MovedKeepsWrite(w, moves[0], p, at);
      hide CacheInv, Moved;
      RunKeepsWrite(Moved(w, moves[0]), moves[1..], p, at);
    }
  }

  /** A write makes its table the repository's newest state. */
  lemma WriteAppends(w: World, p: ProcId, choice: Choice, table: Catalogue)
    requires CacheInv(w) && p in w.procs && w.procs[p] == Writing(table)
    ensures var r := Moved(w, Step(p, choice));
            r.history == w.history + [table] && p in r.procs && Wrote(r.procs[p], |w.history|)
  {
    hide CacheInv;
  }

  lemma {:induction false} RunJoins(w: World, a: seq<Move>, b: seq<Move>)
    requires CacheInv(w)
    ensures CacheInv(Run(w, a)) && Run(w, a + b) == Run(Run(w, a), b)
    decreases |a|
  {
    if a == [] {
      assert a + b == b;
    } else {
      MovedInv(w, a[0]);
      RunJoins(Moved(w, a[0]), a[1..], b);
      assert (a + b)[0] == a[0] && (a + b)[1..] == a[1..] + b;
    }
  }

  lemma OneStep(w: World, move: Move)
    requires CacheInv(w)
    ensures CacheInv(Moved(w, move)) && Run(w, [move]) == Moved(w, move)
  {
    MovedInv(w, move);
    assert [move][1..] == [];
  }

  /** A process writes a table, anything runs, and the invalidation of the write completes: a
      listing that starts then, whatever runs beside it, answers with the page of that table or
      of a later state of the repository. */
  lemma WrittenIsListed(a: seq<Move>, writer: ProcId, choice: Choice, table: Catalogue, b: seq<Move>, p: ProcId, f: ListFilters, during: seq<Move>)
    requires f.page >= 1 && writer in Run(START, a).procs && Run(START, a).procs[writer] == Writing(table)
    requires var w := Run(START, a + [Step(writer, choice)] + b); writer in w.procs && w.procs[writer].Invalidated? && p !in w.procs
    ensures var w := Run(START, a + [Step(writer, choice)] + b);
            CacheInv(w) && CacheInv(Moved(w, StartList(p, f)))
            && var r, k := Run(Moved(w, StartList(p, f)), during), |Run(START, a).history|;
               && k < |r.history| && r.history[k] == table
               && p in r.procs && (r.procs[p].Answered? ==>
                    var e := r.procs[p].entry; k <= e.at < |r.history| && e.page == ListPage(r.history[e.at], f))
  {
    var step := Step(writer, choice);
    RunInv(START, a);
    var w0 := Run(START, a);
    hide CacheInv, Run, Moved, ListPage;
    RunJoins(START, a + [step], b);
    RunJoins(START, a, [step]);
    OneStep(w0, step);
    WriteAppends(w0, writer, choice, table);
    var w1 := Moved(w0, step);
    RunKeepsWrite(w1, b, writer, |w0.history|);
    RunKeepsCalls(w1, b, writer);
    var w := Run(w1, b);
    NeverStale(a + [step] + b, writer, p, f, during);
    var s := Moved(w, StartList(p, f));
    MovedKeepsCalls(w, StartList(p, f), writer);
    OneMoreList(w, p, f);
    RunKeepsCalls(s, during, p);
  }

  lemma OneMoreList(w: World, p: ProcId, f: ListFilters)
    requires CacheInv(w) && p !in w.procs && f.page >= 1
    ensures p in Moved(w, StartList(p, f)).procs
  {
  }

  // ----- what a cached listing saves -----

  /** The next `n` steps of one process whose gets hit and whose puts succeed. */
  ghost function Steps(w: World, p: ProcId, n: nat): World
    requires CacheInv(w)
    decreases n
  {
    if n == 0 then w
    else
      MovedInv(w, Step(p, Choice(true, true, "")));
      Steps(Moved(w, Step(p, Choice(true, true, ""))), p, n - 1)
  }

  /** A whole listing: the request and as many steps as any of its ways takes. */
  ghost function ListAlone(w: World, p: ProcId, f: ListFilters): World
    requires CacheInv(w)
  {
    MovedInv(w, StartList(p, f));
    Steps(Moved(w, StartList(p, f)), p, 4)
  }

  lemma StepsOne(w: World, p: ProcId, n: nat)
    requires CacheInv(w) && p in w.procs
    ensures CacheInv(Advance(w, p, Choice(true, true, ""))) && Steps(w, p, n + 1) == Steps(Advance(w, p, Choice(true, true, "")), p, n)
  {
    MovedInv(w, Step(p, Choice(true, true, "")));
    hide CacheInv, Advance;
  }

  lemma {:induction false} StepsNowhere(w: World, p: ProcId, n: nat)
    requires CacheInv(w) && p in w.procs && w.procs[p].Answered?
    ensures Steps(w, p, n) == w
  {
    if n > 0 {
      StepsOne(w, p, n - 1);
      assert Advance(w, p, Choice(true, true, "")) == w;
      hide CacheInv, Advance;
      StepsNowhere(w, p, n - 1);
    }
  }

  lemma AtTwice(w: World, p: ProcId, a: Phase, b: Phase)
    ensures At(At(w, p, a), p, b) == At(w, p, b)
  {
    assert w.procs[p := a][p := b] == w.procs[p := b];
  }

  lemma StartsAsking(w: World, p: ProcId, f: ListFilters)
    requires CacheInv(w) && p !in w.procs && f.page >= 1
    ensures CacheInv(At(w, p, Asking(f, w.fence))) && ListAlone(w, p, f) == Steps(At(w, p, Asking(f, w.fence)), p, 4)
  {
    MovedInv(w, StartList(p, f));
    hide CacheInv, Steps;
  }

  /** The version is there: the listing looks for its page under it. */
  lemma AsksVersion(w: World, p: ProcId, f: ListFilters, v: string)
    requires CacheInv(w) && p !in w.procs && f.page >= 1 && w.versionKey == Some(v)
    ensures v != "" && CacheInv(At(w, p, Looking(f, w.fence, v)))
    ensures ListAlone(w, p, f) == Steps(At(w, p, Looking(f, w.fence, v)), p, 3)
  {
    StartsAsking(w, p, f);
    var s := At(w, p, Asking(f, w.fence));
    StepsOne(s, p, 3);
    AtTwice(w, p, Asking(f, w.fence), Looking(f, w.fence, v));
    assert Advance(s, p, Choice(true, true, "")) == Ask(s, p, f, w.fence, Choice(true, true, ""));
    hide ListsOk, HeldApart, PhaseOk, Steps, Advance, ListAlone;
  }

  lemma LooksUp(w: World, p: ProcId, f: ListFilters, since: nat, v: string)
    requires CacheInv(At(w, p, Looking(f, since, v)))
    ensures Advance(At(w, p, Looking(f, since, v)), p, Choice(true, true, "")) ==
            At(w, p, if v != "" && KeyData(f, v) in w.lists then Answered(f, since, w.lists[KeyData(f, v)]) else Reading(f, since, v))
  {
    hide CacheInv, KeyData;
    AtTwice(w, p, Looking(f, since, v), if v != "" && KeyData(f, v) in w.lists then Answered(f, since, w.lists[KeyData(f, v)]) else Reading(f, since, v));
  }

  lemma ReadingOk(w: World, p: ProcId)
    requires CacheInv(w) && p in w.procs && w.procs[p].Reading?
    ensures |w.history| >= 1 && w.procs[p].f.page >= 1
  {
    hide ListsOk, HeldApart;
    assert PhaseOk(w, w.procs[p]);
  }

  lemma ReadsNow(w: World, p: ProcId, f: ListFilters, since: nat, v: string)
    requires CacheInv(At(w, p, Reading(f, since, v)))
    ensures |w.history| >= 1 && f.page >= 1
    ensures Advance(At(w, p, Reading(f, since, v)), p, Choice(true, true, ""))
         == At(w, p, Storing(f, since, v, Entry(f, v, ListPage(w.history[|w.history| - 1], f), |w.history| - 1)))
  {
    hide CacheInv, ListPage;
    ReadingOk(At(w, p, Reading(f, since, v)), p);
    AtTwice(w, p, Reading(f, since, v), Storing(f, since, v, Entry(f, v, ListPage(w.history[|w.history| - 1], f), |w.history| - 1)));
  }

  lemma StoresPage(w: World, p: ProcId, f: ListFilters, since: nat, v: string, e: Entry)
    requires CacheInv(At(w, p, Storing(f, since, v, e))) && v != ""
    ensures Advance(At(w, p, Storing(f, since, v, e)), p, Choice(true, true, ""))
         == At(w.(lists := w.lists[KeyData(f, v) := e]), p, Answered(f, since, e))
  {
    hide CacheInv, KeyData;
    AtTwice(w.(lists := w.lists[KeyData(f, v) := e]), p, Storing(f, since, v, e), Answered(f, since, e));
  }

  /** A page that is cached under the current version is answered from the cache. */
  lemma CachedIsAnswered(w: World, p: ProcId, f: ListFilters, v: string)
    requires CacheInv(w) && p !in w.procs && f.page >= 1 && w.versionKey == Some(v) && KeyData(f, v) in w.lists
    ensures ListAlone(w, p, f) == At(w, p, Answered(f, w.fence, w.lists[KeyData(f, v)]))
  {
    hide CacheInv, Steps, Advance, ListAlone, KeyData;
    AsksVersion(w, p, f, v);
    LooksUp(w, p, f, w.fence, v);
    StepsOne(At(w, p, Looking(f, w.fence, v)), p, 2);
    StepsNowhere(At(w, p, Answered(f, w.fence, w.lists[KeyData(f, v)])), p, 2);
  }

  /** A page that is not is read from the repository as it is, answered, and cached. */
  lemma MissIsReadAndCached(w: World, p: ProcId, f: ListFilters, v: string)
    requires CacheInv(w) && p !in w.procs && f.page >= 1 && w.versionKey == Some(v) && KeyData(f, v) !in w.lists
    ensures |w.history| >= 1
    ensures var e := Entry(f, v, ListPage(w.history[|w.history| - 1], f), |w.history| - 1);
            ListAlone(w, p, f) == At(w.(lists := w.lists[KeyData(f, v) := e]), p, Answered(f, w.fence, e))
  {
    hide CacheInv, Steps, Advance, ListAlone, KeyData, ListPage;
    AsksVersion(w, p, f, v);
    LooksUp(w, p, f, w.fence, v);
    StepsOne(At(w, p, Looking(f, w.fence, v)), p, 2);
    ReadsNow(w, p, f, w.fence, v);
    var e := Entry(f, v, ListPage(w.history[|w.history| - 1], f), |w.history| - 1);
    StepsOne(At(w, p, Reading(f, w.fence, v)), p, 1);
    StoresPage(w, p, f, w.fence, v, e);
    StepsOne(At(w, p, Storing(f, w.fence, v, e)), p, 0);
    StepsNowhere(At(w.(lists := w.lists[KeyData(f, v) := e]), p, Answered(f, w.fence, e)), p, 0);
  }

  /** So of two listings of the same page with nothing between them the second reads nothing. */
  lemma SecondListIsCached(w: World, p: ProcId, q: ProcId, f: ListFilters, v: string)
    requires CacheInv(w) && p != q && p !in w.procs && q !in w.procs && f.page >= 1 && w.versionKey == Some(v)
    ensures var first := ListAlone(w, p, f);
            && CacheInv(first) && p in first.procs && first.procs[p].Answered? && KeyData(f, v) in first.lists
            && ListAlone(first, q, f) == At(first, q, Answered(f, w.fence, first.procs[p].entry))
  {
    AloneInv(w, p, f);
    hide CacheInv, ListAlone, KeyData, ListPage;
    if KeyData(f, v) in w.lists { CachedIsAnswered(w, p, f, v); } else { MissIsReadAndCached(w, p, f, v); }
    CachedIsAnswered(ListAlone(w, p, f), q, f, v);
  }

  lemma {:induction false} StepsInv(w: World, p: ProcId, n: nat)
    requires CacheInv(w)
    ensures CacheInv(Steps(w, p, n))
    decreases n
  {
    if n > 0 {
      MovedInv(w, Step(p, Choice(true, true, "")));
      StepsInv(Moved(w, Step(p, Choice(true, true, ""))), p, n - 1);
    }
  }

  lemma AloneInv(w: World, p: ProcId, f: ListFilters)
    requires CacheInv(w)
    ensures CacheInv(ListAlone(w, p, f))
  {
    MovedInv(w, StartList(p, f));
    hide CacheInv, Moved, Steps;
    StepsInv(Moved(w, StartList(p, f)), p, 4);
  }
}
