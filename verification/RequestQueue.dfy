/**
 The library worker's queue: three bounded lanes, served in order of priority, in which a search
 pushes out the queued searches of its owner's older generations.
 */
module RequestQueue {
  import opened Wrappers

  const CONTROL_CAPACITY: nat := 16
  const VISIBLE_CAPACITY: nat := 64
  const MAINTENANCE_CAPACITY: nat := 2

  datatype Lane = Control | Visible | Maintenance

  /** A search owner's query; a later query has a higher generation. */
  datatype Query = Query(owner: nat, generation: nat)

  datatype Priority = Shown | Prefetch

  /** The requests that carry no search generation. */
  datatype Kind =
    | SoundById | SoundByPath | SoundForBinding | Adjacent | PositionForSound
    | HotkeyPage | HotkeyBindingsAfter | HotkeyBinding | HotkeyGroup | HotkeyBindingsForSound
    | SetHotkeyBinding | DeleteHotkeyBinding | HotkeyConflict
    | LoudnessStats | LibraryStats | LoudnessBackfillAfter | LoudnessRefinementCandidates
    | Roots | FolderChildren | HiddenFolders | ManualTabs | Edit | UpdateSound | DeleteSound | ApplyLoudnessUpdates
    | BeginRootScan | FinishRootScan | CancelRootScan | RemoveRoot
    | ApplyBatch | RootScanBatch

  /** What matters to the queue of a request: its kind. `ticket` tells requests apart. */
  datatype Request =
    | Command(kind: Kind, ticket: nat)
    | Count(query: Option<Query>, ticket: nat)
    | Page(query: Option<Query>, priority: Priority, ticket: nat)

  function QueryOf(r: Request): Option<Query> {
    match r case Command(_, _) => None case Count(q, _) => q case Page(q, _, _) => q
  }

  function LaneOfKind(kind: Kind): Lane {
    match kind
    case SoundById | SoundByPath | SoundForBinding | Adjacent | PositionForSound => Control
    case HotkeyPage | HotkeyBindingsAfter | HotkeyBinding | HotkeyGroup | HotkeyBindingsForSound => Control
    case SetHotkeyBinding | DeleteHotkeyBinding | HotkeyConflict => Control
    case LoudnessStats | LibraryStats | LoudnessBackfillAfter | LoudnessRefinementCandidates => Control
    case Roots | FolderChildren | HiddenFolders | ManualTabs | Edit | UpdateSound | DeleteSound => Visible
    case ApplyLoudnessUpdates | BeginRootScan | FinishRootScan | CancelRootScan | RemoveRoot => Visible
    case ApplyBatch | RootScanBatch => Maintenance
  }

  function LaneOf(r: Request): Lane {
    match r
    case Command(kind, _) => LaneOfKind(kind)
    case Count(_, _) => Visible
    case Page(_, priority, _) => if priority == Prefetch then Maintenance else Visible
  }

  function Capacity(lane: Lane): nat {
    match lane
    case Control => CONTROL_CAPACITY
    case Visible => VISIBLE_CAPACITY
    case Maintenance => MAINTENANCE_CAPACITY
  }

  datatype Queue = Queue(control: seq<Request>, visible: seq<Request>, maintenance: seq<Request>,
                         generations: map<nat, nat>, closed: bool)

  const EMPTY: Queue := Queue([], [], [], map[], false)

  function Waiting(q: Queue, lane: Lane): seq<Request> {
    match lane case Control => q.control case Visible => q.visible case Maintenance => q.maintenance
  }

  function WithLane(q: Queue, lane: Lane, waiting: seq<Request>): Queue {
    match lane
    case Control => q.(control := waiting)
    case Visible => q.(visible := waiting)
    case Maintenance => q.(maintenance := waiting)
  }

  /** An older query of the same owner. */
  predicate Superseded(r: Request, newer: Query) {
    QueryOf(r).Some? && QueryOf(r).value.owner == newer.owner && QueryOf(r).value.generation < newer.generation
  }

  function Retain(waiting: seq<Request>, newer: Query): seq<Request> {
    if waiting == [] then []
    else (if Superseded(waiting[0], newer) then [] else [waiting[0]]) + Retain(waiting[1..], newer)
  }

  function Dropped(waiting: seq<Request>, newer: Query): multiset<Request> {
    if waiting == [] then multiset{}
    else (if Superseded(waiting[0], newer) then multiset{waiting[0]} else multiset{}) + Dropped(waiting[1..], newer)
  }

  datatype Outcome = Queued | Stale | Full | Closed

  /** A query older than the newest one seen from its owner. */
  predicate Outdated(q: Queue, r: Request) {
    QueryOf(r).Some? && QueryOf(r).value.owner in q.generations
    && QueryOf(r).value.generation < q.generations[QueryOf(r).value.owner]
  }

  /** Records the request's generation; a new one clears the owner's older searches from the lanes. */
  function Coalesce(q: Queue, r: Request): Queue {
    match QueryOf(r)
    case None => q
    case Some(query) =>
      if query.owner in q.generations && q.generations[query.owner] == query.generation then q
      else q.(generations := q.generations[query.owner := query.generation],
              visible := Retain(q.visible, query), maintenance := Retain(q.maintenance, query))
  }

  function Push(q: Queue, r: Request): (Queue, Outcome) {
    if q.closed then (q, Closed)
    else if Outdated(q, r) then (q, Stale)
    else
      var coalesced := Coalesce(q, r);
      if |Waiting(coalesced, LaneOf(r))| >= Capacity(LaneOf(r)) then (coalesced, Full)
      else (WithLane(coalesced, LaneOf(r), Waiting(coalesced, LaneOf(r)) + [r]), Queued)
  }

  function Pop(q: Queue): (Queue, Option<Request>) {
    if q.control != [] then (q.(control := q.control[1..]), Some(q.control[0]))
    else if q.visible != [] then (q.(visible := q.visible[1..]), Some(q.visible[0]))
    else if q.maintenance != [] then (q.(maintenance := q.maintenance[1..]), Some(q.maintenance[0]))
    else (q, None)
  }

  function All(q: Queue): seq<Request> {
    q.control + q.visible + q.maintenance
  }

  /** The queue behind its lock: each method is one critical section. */
  class SharedQueue {
    var control: seq<Request>
    var visible: seq<Request>
    var maintenance: seq<Request>
    var searchGenerations: map<nat, nat>
    var closed: bool

    function State(): Queue
      reads this
    {
      Queue(control, visible, maintenance, searchGenerations, closed)
    }

    constructor ()
      ensures State() == EMPTY
    {
      control, visible, maintenance, searchGenerations, closed := [], [], [], map[], false;
    }

    /** `accepted` is what the sender sees: a stale search is dropped without an error. */
    method PushRequest(r: Request) returns (outcome: Outcome, accepted: bool)
      modifies this
      ensures (State(), outcome) == Push(old(State()), r)
      ensures accepted <==> outcome == Queued || outcome == Stale
    {
      if closed {
        return Closed, false;
      }
      var query := QueryOf(r);
      if query.Some? {
        var owner, generation := query.value.owner, query.value.generation;
        if owner in searchGenerations && generation < searchGenerations[owner] {
          return Stale, true;
        }
        if !(owner in searchGenerations && searchGenerations[owner] == generation) {
          searchGenerations := searchGenerations[owner := generation];
          visible := Retain(visible, query.value);
          maintenance := Retain(maintenance, query.value);
        }
      }
      var lane := LaneOf(r);
      if lane == Control {
        if |control| >= CONTROL_CAPACITY { return Full, false; }
        control := control + [r];
      } else if lane == Visible {
        if |visible| >= VISIBLE_CAPACITY { return Full, false; }
        visible := visible + [r];
      } else {
        if |maintenance| >= MAINTENANCE_CAPACITY { return Full, false; }
        maintenance := maintenance + [r];
      }
      return Queued, true;
    }

    method TryPop() returns (r: Option<Request>)
      modifies this
      ensures (State(), r) == Pop(old(State()))
    {
      if control != [] {
        r, control := Some(control[0]), control[1..];
      } else if visible != [] {
        r, visible := Some(visible[0]), visible[1..];
      } else if maintenance != [] {
        r, maintenance := Some(maintenance[0]), maintenance[1..];
      } else {
        r := None;
      }
    }

    /** A blocking pop that gets to return: something is waiting, or the queue is closed. */
    method PopRequest() returns (r: Option<Request>)
      requires All(State()) != [] || closed
      modifies this
      ensures (State(), r) == Pop(old(State()))
      ensures r.None? ==> closed && All(State()) == []
    {
      r := TryPop();
    }

    method Close()
      modifies this
      ensures State() == old(State()).(closed := true)
    {
      closed := true;
    }
  }

  // ---- runs -----------------------------------------------------------------------------------------

  datatype Action = Sent(request: Request) | Served | Shut

  /** The queue, and where every request sent so far has gone. */
  datatype History = History(queue: Queue, sent: seq<Request>, served: seq<Request>, superseded: multiset<Request>,
                             stale: multiset<Request>, rejected: multiset<Request>)

  const START: History := History(EMPTY, [], [], multiset{}, multiset{}, multiset{})

  function Cleared(q: Queue, r: Request): multiset<Request> {
    if q.closed || Outdated(q, r) || QueryOf(r).None? then multiset{}
    else if QueryOf(r).value.owner in q.generations
      && q.generations[QueryOf(r).value.owner] == QueryOf(r).value.generation
    then multiset{}
    else Dropped(q.visible, QueryOf(r).value) + Dropped(q.maintenance, QueryOf(r).value)
  }

  /** A sent request's ticket is its place in the order of sending. */
  function Act(h: History, action: Action): History {
    match action
    case Sent(request) =>
      var r := request.(ticket := |h.sent|);
      var (queue, outcome) := Push(h.queue, r);
      h.(queue := queue, sent := h.sent + [r],
         superseded := h.superseded + Cleared(h.queue, r),
         stale := h.stale + if outcome == Stale then multiset{r} else multiset{},
         rejected := h.rejected + if outcome == Full || outcome == Closed then multiset{r} else multiset{})
    case Served =>
      var (queue, r) := Pop(h.queue);
      h.(queue := queue, served := h.served + match r { case None => [] case Some(x) => [x] })
    case Shut => h.(queue := h.queue.(closed := true))
  }

  function Acts(actions: seq<Action>): History
    decreases |actions|
  {
    if actions == [] then START else Act(Acts(actions[..|actions| - 1]), actions[|actions| - 1])
  }

  // ---- what every run keeps ----------------------------------------------------------------------------

  ghost predicate InLane(waiting: seq<Request>, lane: Lane) {
    |waiting| <= Capacity(lane) && forall i :: 0 <= i < |waiting| ==> LaneOf(waiting[i]) == lane
  }

  /** Every waiting search carries its owner's newest generation. */
  ghost predicate Current(waiting: seq<Request>, generations: map<nat, nat>) {
    forall i :: 0 <= i < |waiting| && QueryOf(waiting[i]).Some? ==>
      var query := QueryOf(waiting[i]).value;
      query.owner in generations && generations[query.owner] == query.generation
  }

  ghost predicate QueueOk(q: Queue) {
    && InLane(q.control, Control) && InLane(q.visible, Visible) && InLane(q.maintenance, Maintenance)
    && Current(q.visible, q.generations) && Current(q.maintenance, q.generations)
  }

  lemma {:induction false} RetainKeeps(waiting: seq<Request>, newer: Query)
    ensures |Retain(waiting, newer)| <= |waiting|
    ensures forall r :: r in Retain(waiting, newer) <==> r in waiting && !Superseded(r, newer)
    ensures multiset(waiting) == multiset(Retain(waiting, newer)) + Dropped(waiting, newer)
    ensures forall r :: r in Dropped(waiting, newer) ==> r in waiting && Superseded(r, newer)
  {
    if waiting != [] {
      RetainKeeps(waiting[1..], newer);
      assert waiting == [waiting[0]] + waiting[1..];
    }
  }

  lemma RetainLane(waiting: seq<Request>, lane: Lane, generations: map<nat, nat>, newer: Query)
    requires InLane(waiting, lane) && Current(waiting, generations)
    requires newer.owner in generations ==> generations[newer.owner] <= newer.generation
    ensures InLane(Retain(waiting, newer), lane)
    ensures Current(Retain(waiting, newer), generations[newer.owner := newer.generation])
  {
    RetainKeeps(waiting, newer);
    var kept := Retain(waiting, newer);
    forall i | 0 <= i < |kept| ensures kept[i] in waiting && !Superseded(kept[i], newer) {
      assert kept[i] in kept;
    }
  }

  lemma CoalesceKeeps(q: Queue, r: Request)
    requires QueueOk(q) && !q.closed && !Outdated(q, r)
    ensures QueueOk(Coalesce(q, r)) && Newest(Coalesce(q, r), r)
  {
    hide InLane, Current, Retain;
    if QueryOf(r).Some? {
      var query := QueryOf(r).value;
      RetainLane(q.visible, Visible, q.generations, query);
      RetainLane(q.maintenance, Maintenance, q.generations, query);
    }
  }

  lemma CoalesceCounts(q: Queue, r: Request)
    requires !q.closed && !Outdated(q, r)
    ensures multiset(All(q)) == multiset(All(Coalesce(q, r))) + Cleared(q, r)
  {
    hide Retain, Dropped, All, QueryOf, Superseded;
    AllMultiset(q);
    AllMultiset(Coalesce(q, r));
    if QueryOf(r).Some? {
      RetainKeeps(q.visible, QueryOf(r).value);
      RetainKeeps(q.maintenance, QueryOf(r).value);
    }
  }

  lemma AllMultiset(q: Queue)
    ensures multiset(All(q)) == multiset(q.control) + multiset(q.visible) + multiset(q.maintenance)
  {}

  /** The request's own generation is the newest one recorded for its owner. */
  ghost predicate Newest(q: Queue, r: Request) {
    QueryOf(r).Some? ==>
      QueryOf(r).value.owner in q.generations && q.generations[QueryOf(r).value.owner] == QueryOf(r).value.generation
  }

  function Append(q: Queue, r: Request): Queue {
    WithLane(q, LaneOf(r), Waiting(q, LaneOf(r)) + [r])
  }

  lemma AppendKeeps(q: Queue, r: Request)
    requires QueueOk(q) && Newest(q, r) && |Waiting(q, LaneOf(r))| < Capacity(LaneOf(r))
    ensures QueueOk(Append(q, r)) && multiset(All(Append(q, r))) == multiset(All(q)) + multiset{r}
  {
    hide InLane, Current, LaneOf, QueryOf, All;
    LaneGrows(Waiting(q, LaneOf(r)), LaneOf(r), q.generations, r);
    AllMultiset(q);
    AllMultiset(Append(q, r));
  }

  /** A push keeps the lanes in order, and accounts for the request and for all it clears. */
  lemma PushKeeps(q: Queue, r: Request)
    requires QueueOk(q)
    ensures var (next, outcome) := Push(q, r);
      && QueueOk(next) && next.closed == q.closed
      && multiset(All(next)) + Cleared(q, r)
         == multiset(All(q)) + (if outcome == Queued then multiset{r} else multiset{})
  {
    hide QueueOk, Coalesce, Newest, All, Dropped, WithLane, Waiting, LaneOf, QueryOf, Outdated, Cleared;
    ClearedNothing(q, r);
    if !q.closed && !Outdated(q, r) {
      CoalesceKeeps(q, r);
      CoalesceCounts(q, r);
      CoalesceFrame(q, r);
      if |Waiting(Coalesce(q, r), LaneOf(r))| < Capacity(LaneOf(r)) {
        AppendKeeps(Coalesce(q, r), r);
        assert Push(q, r) == (Append(Coalesce(q, r), r), Queued);
        assert Append(Coalesce(q, r), r).closed == q.closed by { AppendFrame(Coalesce(q, r), r); }
      }
    }
  }

  lemma AppendFrame(q: Queue, r: Request)
    ensures Append(q, r).closed == q.closed && Append(q, r).generations == q.generations
  {}

  lemma ClearedNothing(q: Queue, r: Request)
    ensures q.closed || Outdated(q, r) ==> Cleared(q, r) == multiset{}
  {}

  lemma CoalesceFrame(q: Queue, r: Request)
    ensures Coalesce(q, r).closed == q.closed
  {}

  // ---- when a request is queued ---------------------------------------------------------------------------

  /** The request is this owner's search of this generation: a count or a page, visible or prefetched. */
  ghost predicate Asks(r: Request, owner: nat, generation: nat) {
    || (r.Count? && r.query == Some(Query(owner, generation)))
    || (r.Page? && r.query == Some(Query(owner, generation)))
  }

  /** An older search of the request's owner. */
  ghost predicate OlderThan(waiting: Request, r: Request) {
    exists owner, older, newer :: Asks(waiting, owner, older) && Asks(r, owner, newer) && older < newer
  }

  lemma OlderIs(waiting: Request, r: Request)
    ensures OlderThan(waiting, r) <==> QueryOf(r).Some? && Superseded(waiting, QueryOf(r).value)
  {
    if QueryOf(r).Some? && Superseded(waiting, QueryOf(r).value) {
      var owner, older, newer := QueryOf(r).value.owner, QueryOf(waiting).value.generation, QueryOf(r).value.generation;
      assert Asks(waiting, owner, older) && Asks(r, owner, newer);
    }
  }

  /** What is left of a lane once the older searches of the request's owner are gone, in its order. */
  ghost function Remaining(waiting: seq<Request>, r: Request): seq<Request>
    decreases |waiting|
  {
    if waiting == [] then []
    else
      var last := waiting[|waiting| - 1];
      Remaining(waiting[..|waiting| - 1], r) + if OlderThan(last, r) then [] else [last]
  }

  /** Where a request waits: bulk writes and prefetched pages last, lookups and hotkeys first. */
  ghost predicate WaitsIn(r: Request, lane: Lane) {
    match lane
    case Maintenance => (r.Page? && r.priority.Prefetch?) || (r.Command? && r.kind in {ApplyBatch, RootScanBatch})
    case Visible =>
      || r.Count? || (r.Page? && r.priority.Shown?)
      || (r.Command? && r.kind in {Roots, FolderChildren, HiddenFolders, ManualTabs, Edit, UpdateSound, DeleteSound,
                                   ApplyLoudnessUpdates, BeginRootScan, FinishRootScan, CancelRootScan, RemoveRoot})
    case Control =>
      r.Command? && r.kind in {SoundById, SoundByPath, SoundForBinding, Adjacent, PositionForSound, HotkeyPage,
                               HotkeyBindingsAfter, HotkeyBinding, HotkeyGroup, HotkeyBindingsForSound,
                               SetHotkeyBinding, DeleteHotkeyBinding, HotkeyConflict, LoudnessStats, LibraryStats,
                               LoudnessBackfillAfter, LoudnessRefinementCandidates}
  }

  ghost predicate Exceeds(q: Queue, r: Request) {
    || (WaitsIn(r, Control) && |Remaining(q.control, r)| >= 16)
    || (WaitsIn(r, Visible) && |Remaining(q.visible, r)| >= 64)
    || (WaitsIn(r, Maintenance) && |Remaining(q.maintenance, r)| >= 2)
  }

  /** The request's owner has already asked for something newer. */
  ghost predicate Behind(q: Queue, r: Request) {
    exists owner, generation :: Asks(r, owner, generation)
      && owner in q.generations && generation < q.generations[owner]
  }

  lemma {:induction false} RemainingIsRetain(waiting: seq<Request>, r: Request)
    requires QueryOf(r).Some?
    ensures Retain(waiting, QueryOf(r).value) == Remaining(waiting, r)
    decreases |waiting|
  {
    if waiting != [] {
      var n := |waiting| - 1;
      RemainingIsRetain(waiting[..n], r);
      OlderIs(waiting[n], r);
      RetainAppends(waiting[..n], waiting[n], QueryOf(r).value);
      assert waiting[..n] + [waiting[n]] == waiting;
    }
  }

  lemma {:induction false} RetainAppends(waiting: seq<Request>, last: Request, newer: Query)
    ensures Retain(waiting + [last], newer) == Retain(waiting, newer) + if Superseded(last, newer) then [] else [last]
  {
    if waiting == [] {
      assert Retain([last], newer) == (if Superseded(last, newer) then [] else [last]) + Retain([], newer);
    } else {
      RetainAppends(waiting[1..], last, newer);
      assert (waiting + [last])[1..] == waiting[1..] + [last];
    }
  }

  lemma {:induction false} NoneOlder(waiting: seq<Request>, r: Request)
    requires forall i :: 0 <= i < |waiting| ==> !OlderThan(waiting[i], r)
    ensures Remaining(waiting, r) == waiting
    decreases |waiting|
  {
    if waiting != [] { NoneOlder(waiting[..|waiting| - 1], r); }
  }

  lemma CoalesceIs(q: Queue, r: Request)
    requires QueueOk(q) && !Outdated(q, r)
    ensures var next := Coalesce(q, r);
      && next.control == q.control == Remaining(q.control, r)
      && next.visible == Remaining(q.visible, r) && next.maintenance == Remaining(q.maintenance, r)
      && next.closed == q.closed
      && next.generations == match QueryOf(r) { case None => q.generations
                                                case Some(query) => q.generations[query.owner := query.generation] }
  {
    hide Remaining, Retain, OlderThan;
    forall w ensures OlderThan(w, r) <==> QueryOf(r).Some? && Superseded(w, QueryOf(r).value) { OlderIs(w, r); }
    NoneOlder(q.control, r);
    if QueryOf(r).None? || q.generations == q.generations[QueryOf(r).value.owner := QueryOf(r).value.generation] {
      NoneOlder(q.visible, r);
      NoneOlder(q.maintenance, r);
    }
    if QueryOf(r).Some? {
      RemainingIsRetain(q.visible, r);
      RemainingIsRetain(q.maintenance, r);
    }
  }

  /**
   Exactly what a push does. A closed queue turns the request away, a newer search of its owner makes
   it void, and both leave the queue alone. Otherwise the owner's older searches are gone, and the
   request is turned away if and only if 16, 64 or 2 requests are then left in its lane; else it waits
   there as the last one.
   */
  lemma PushExactly(q: Queue, r: Request)
    requires QueueOk(q)
    ensures var (next, outcome) := Push(q, r);
      && (outcome == Closed <==> q.closed)
      && (outcome == Stale <==> !q.closed && Behind(q, r))
      && (outcome == Full <==> !q.closed && !Behind(q, r) && Exceeds(q, r))
      && (q.closed || Behind(q, r) ==> next == q)
      && (!q.closed && !Behind(q, r) ==>
            && next.control == Remaining(q.control, r) + (if outcome == Queued && WaitsIn(r, Control) then [r] else [])
            && next.visible == Remaining(q.visible, r) + (if outcome == Queued && WaitsIn(r, Visible) then [r] else [])
            && next.maintenance
               == Remaining(q.maintenance, r) + (if outcome == Queued && WaitsIn(r, Maintenance) then [r] else [])
            && next.closed == q.closed
            && (forall owner, generation :: Asks(r, owner, generation) ==>
                  next.generations == q.generations[owner := generation])
            && ((forall owner, generation :: !Asks(r, owner, generation)) ==> next.generations == q.generations))
  {
    hide QueueOk, Remaining, Coalesce;
    assert Outdated(q, r) <==> Behind(q, r) by { OutdatedIs(q, r); }
    forall lane ensures WaitsIn(r, lane) <==> LaneOf(r) == lane { LaneIs(r, lane); }
    if !q.closed && !Outdated(q, r) { CoalesceIs(q, r); }
    assert QueryOf(r).Some? ==> Asks(r, QueryOf(r).value.owner, QueryOf(r).value.generation);
  }

  lemma OutdatedIs(q: Queue, r: Request)
    ensures Outdated(q, r) <==> Behind(q, r)
  {
    if Outdated(q, r) {
      assert Asks(r, QueryOf(r).value.owner, QueryOf(r).value.generation);
    }
  }

  lemma LaneIs(r: Request, lane: Lane)
    ensures WaitsIn(r, lane) <==> LaneOf(r) == lane
  {}

  /** An owner's recorded generation never goes back. */
  lemma GenerationsRise(q: Queue, r: Request)
    ensures forall o :: o in q.generations ==>
      o in Push(q, r).0.generations && q.generations[o] <= Push(q, r).0.generations[o]
  {
    hide Retain, Waiting;
    AppendFrame(Coalesce(q, r), r);
  }

  lemma LaneGrows(waiting: seq<Request>, lane: Lane, generations: map<nat, nat>, r: Request)
    requires InLane(waiting, lane) && LaneOf(r) == lane && |waiting| < Capacity(lane)
    requires QueryOf(r).Some? ==>
      QueryOf(r).value.owner in generations && generations[QueryOf(r).value.owner] == QueryOf(r).value.generation
    ensures InLane(waiting + [r], lane)
    ensures Current(waiting, generations) ==> Current(waiting + [r], generations)
    ensures multiset(waiting + [r]) == multiset(waiting) + multiset{r}
  {}

  lemma PopKeeps(q: Queue)
    requires QueueOk(q)
    ensures var (next, r) := Pop(q);
      && QueueOk(next) && next.generations == q.generations && next.closed == q.closed
      && All(q) == (match r case None => [] case Some(x) => [x]) + All(next)
  {
    if q.control != [] { LaneShrinks(q.control, Control, q.generations); }
    else if q.visible != [] { LaneShrinks(q.visible, Visible, q.generations); }
    else if q.maintenance != [] { LaneShrinks(q.maintenance, Maintenance, q.generations); }
  }

  lemma LaneShrinks(waiting: seq<Request>, lane: Lane, generations: map<nat, nat>)
    requires waiting != [] && InLane(waiting, lane)
    ensures InLane(waiting[1..], lane) && waiting == [waiting[0]] + waiting[1..]
    ensures Current(waiting, generations) ==> Current(waiting[1..], generations)
  {}

  /** Every request sent is in exactly one place: served, waiting, superseded, stale or rejected. */
  ghost predicate Conserved(h: History) {
    multiset(h.sent) == multiset(h.served) + multiset(All(h.queue)) + h.superseded + h.stale + h.rejected
  }

  /** Only a search whose owner has moved on is dropped without an error. */
  ghost predicate DroppedForNewer(h: History) {
    forall r :: r in h.superseded || r in h.stale ==> Outdated(h.queue, r)
  }

  lemma ActConserves(h: History, action: Action)
    requires QueueOk(h.queue) && Conserved(h)
    ensures QueueOk(Act(h, action).queue) && Conserved(Act(h, action))
  {
    hide QueueOk, Push, Pop, All, Cleared;
    match action
    case Sent(request) =>
      var r := request.(ticket := |h.sent|);
      PushKeeps(h.queue, r);
      assert multiset(h.sent + [r]) == multiset(h.sent) + multiset{r};
      Balances(h, Push(h.queue, r).0, Push(h.queue, r).1, r);
    case Served => PopKeeps(h.queue);
    case Shut => ShutKeeps(h.queue);
  }

  /** The books of one push: the request goes to one place, the cleared ones move to superseded. */
  lemma Balances(h: History, next: Queue, outcome: Outcome, r: Request)
    requires Conserved(h)
    requires multiset(All(next)) + Cleared(h.queue, r)
          == multiset(All(h.queue)) + (if outcome == Queued then multiset{r} else multiset{})
    ensures multiset(h.sent) + multiset{r}
         == multiset(h.served) + multiset(All(next)) + (h.superseded + Cleared(h.queue, r))
            + (h.stale + if outcome == Stale then multiset{r} else multiset{})
            + (h.rejected + if outcome == Full || outcome == Closed then multiset{r} else multiset{})
  {
    hide All, Cleared;
    var one := multiset{r};
    var left := multiset(All(next)) + Cleared(h.queue, r);
    var right := multiset(All(h.queue)) + if outcome == Queued then one else multiset{};
    var sent := multiset(h.served) + multiset(All(next)) + (h.superseded + Cleared(h.queue, r))
                + (h.stale + if outcome == Stale then one else multiset{})
                + (h.rejected + if outcome == Full || outcome == Closed then one else multiset{});
    forall x: Request ensures (multiset(h.sent) + one)[x] == sent[x] {
      assert left[x] == right[x];
      assert multiset(h.sent)[x]
          == (multiset(h.served) + multiset(All(h.queue)) + h.superseded + h.stale + h.rejected)[x];
    }
  }

  lemma ShutKeeps(q: Queue)
    requires QueueOk(q)
    ensures QueueOk(q.(closed := true)) && All(q.(closed := true)) == All(q)
  {}

  lemma ClearedAreOutdated(q: Queue, r: Request)
    ensures forall x :: x in Cleared(q, r) ==> Outdated(Push(q, r).0, x)
  {
    hide Retain, Dropped, Waiting;
    if QueryOf(r).Some? {
      RetainKeeps(q.visible, QueryOf(r).value);
      RetainKeeps(q.maintenance, QueryOf(r).value);
    }
    AppendFrame(Coalesce(q, r), r);
  }

  lemma StaysOutdated(q: Queue, next: Queue, x: Request)
    requires forall o :: o in q.generations ==> o in next.generations && q.generations[o] <= next.generations[o]
    ensures Outdated(q, x) ==> Outdated(next, x)
  {}

  lemma ActDropsStale(h: History, action: Action)
    requires DroppedForNewer(h)
    ensures DroppedForNewer(Act(h, action))
  {
    hide Push, Cleared, Outdated;
    var next := Act(h, action);
    assert forall o :: o in h.queue.generations ==>
      o in next.queue.generations && h.queue.generations[o] <= next.queue.generations[o] by {
      if action.Sent? { GenerationsRise(h.queue, action.request.(ticket := |h.sent|)); }
    }
    forall x ensures Outdated(h.queue, x) ==> Outdated(next.queue, x) {
      StaysOutdated(h.queue, next.queue, x);
    }
    if action.Sent? {
      var r := action.request.(ticket := |h.sent|);
      ClearedAreOutdated(h.queue, r);
      StaleIsOutdated(h.queue, r);
    }
  }

  lemma StaleIsOutdated(q: Queue, r: Request)
    ensures Push(q, r).1 == Stale ==> Outdated(q, r)
  {}

  // ---- order --------------------------------------------------------------------------------------------

  /** Tickets rise along the sequence and are below `bound`. */
  ghost predicate Rising(rows: seq<Request>, bound: nat) {
    && (forall i, j :: 0 <= i < j < |rows| ==> rows[i].ticket < rows[j].ticket)
    && (forall i :: 0 <= i < |rows| ==> rows[i].ticket < bound)
  }

  function OnLane(rows: seq<Request>, lane: Lane): seq<Request> {
    if rows == [] then []
    else OnLane(rows[..|rows| - 1], lane) + if LaneOf(rows[|rows| - 1]) == lane then [rows[|rows| - 1]] else []
  }

  /** First in, first out: on every lane, what was served and what waits are in the order of sending. */
  ghost predicate Fifo(h: History) {
    forall lane: Lane :: Rising(OnLane(h.served, lane) + Waiting(h.queue, lane), |h.sent|)
  }

  lemma {:induction false} RetainRising(front: seq<Request>, waiting: seq<Request>, newer: Query, bound: nat)
    requires Rising(front + waiting, bound)
    ensures Rising(front + Retain(waiting, newer), bound)
    decreases |waiting|
  {
    if waiting != [] {
      var rest := waiting[1..];
      if Superseded(waiting[0], newer) {
        WithoutOne(front, waiting, bound);
        RetainRising(front, rest, newer, bound);
        assert Retain(waiting, newer) == Retain(rest, newer);
      } else {
        assert front + waiting == (front + [waiting[0]]) + rest;
        RetainRising(front + [waiting[0]], rest, newer, bound);
        assert front + Retain(waiting, newer) == (front + [waiting[0]]) + Retain(rest, newer);
      }
    }
  }

  lemma WithoutOne(front: seq<Request>, waiting: seq<Request>, bound: nat)
    requires waiting != [] && Rising(front + waiting, bound)
    ensures Rising(front + waiting[1..], bound)
  {
    var all, rows := front + waiting, front + waiting[1..];
    forall i | 0 <= i < |rows| ensures rows[i] == all[if i < |front| then i else i + 1] {}
  }

  lemma AppendRising(rows: seq<Request>, bound: nat, r: Request)
    requires Rising(rows, bound) && r.ticket == bound
    ensures Rising(rows + [r], bound + 1)
  {}

  lemma RisingHigher(rows: seq<Request>, bound: nat)
    requires Rising(rows, bound)
    ensures Rising(rows, bound + 1)
  {}

  lemma CoalesceRising(q: Queue, r: Request, lane: Lane, front: seq<Request>, bound: nat)
    requires Rising(front + Waiting(q, lane), bound)
    ensures Rising(front + Waiting(Coalesce(q, r), lane), bound)
  {
    hide Rising, Retain;
    if QueryOf(r).Some? && lane != Control {
      RetainRising(front, Waiting(q, lane), QueryOf(r).value, bound);
    }
  }

  lemma PushRising(q: Queue, r: Request, lane: Lane, front: seq<Request>)
    requires Rising(front + Waiting(q, lane), r.ticket)
    ensures Rising(front + Waiting(Push(q, r).0, lane), r.ticket + 1)
  {
    hide Rising, Coalesce, Outdated;
    CoalesceRising(q, r, lane, front, r.ticket);
    var coalesced := Coalesce(q, r);
    RisingHigher(front + Waiting(q, lane), r.ticket);
    RisingHigher(front + Waiting(coalesced, lane), r.ticket);
    AppendRising(front + Waiting(coalesced, lane), r.ticket, r);
    assert front + (Waiting(coalesced, lane) + [r]) == (front + Waiting(coalesced, lane)) + [r];
  }

  lemma OnLaneAppend(rows: seq<Request>, r: Request, lane: Lane)
    ensures OnLane(rows + [r], lane) == OnLane(rows, lane) + if LaneOf(r) == lane then [r] else []
  {
    assert (rows + [r])[..|rows|] == rows;
  }

  /** Serving moves the head of its lane from waiting to served and leaves the other lanes. */
  lemma PopLane(q: Queue, lane: Lane)
    requires QueueOk(q)
    ensures var (next, r) := Pop(q);
      Waiting(q, lane) == (if r.Some? && LaneOf(r.value) == lane then [r.value] else []) + Waiting(next, lane)
  {
    if Pop(q).1.Some? {
      assert Pop(q).1.value in q.control || Pop(q).1.value in q.visible || Pop(q).1.value in q.maintenance;
    }
  }

  lemma ActFifo(h: History, action: Action)
    requires QueueOk(h.queue) && Fifo(h)
    ensures Fifo(Act(h, action))
  {
    hide Rising, Push, Pop, QueueOk, OnLane, Waiting, Cleared;
    var next := Act(h, action);
    forall lane: Lane ensures Rising(OnLane(next.served, lane) + Waiting(next.queue, lane), |next.sent|) {
      match action
      case Sent(request) => PushRising(h.queue, request.(ticket := |h.sent|), lane, OnLane(h.served, lane));
      case Served => ServeRising(h, lane);
      case Shut => assert Waiting(next.queue, lane) == Waiting(h.queue, lane) by { ShutLane(h.queue, lane); }
    }
  }

  lemma ShutLane(q: Queue, lane: Lane)
    ensures Waiting(q.(closed := true), lane) == Waiting(q, lane)
  {}

  lemma ServeRising(h: History, lane: Lane)
    requires QueueOk(h.queue) && Rising(OnLane(h.served, lane) + Waiting(h.queue, lane), |h.sent|)
    ensures var next := Act(h, Served); Rising(OnLane(next.served, lane) + Waiting(next.queue, lane), |next.sent|)
  {
    hide Rising, QueueOk, Waiting, Pop, OnLane;
    PopLane(h.queue, lane);
    var (queue, r) := Pop(h.queue);
    if r.Some? {
      OnLaneAppend(h.served, r.value, lane);
      var moved := if LaneOf(r.value) == lane then [r.value] else [];
      assert OnLane(h.served, lane) + (moved + Waiting(queue, lane))
          == (OnLane(h.served, lane) + moved) + Waiting(queue, lane);
    } else {
      assert OnLane(h.served, lane) + ([] + Waiting(queue, lane)) == OnLane(h.served, lane) + Waiting(queue, lane);
      assert h.served + [] == h.served;
    }
  }

  // ---- every run ------------------------------------------------------------------------------------------

  /**
   Queue safety over all runs: lanes stay within capacity and first in first out; a waiting search
   is always its owner's newest; every request sent is served, waiting, rejected, or a search that
   was dropped because its owner moved on.
   */
  lemma {:induction false} RunSafe(actions: seq<Action>)
    ensures var h := Acts(actions);
      QueueOk(h.queue) && Conserved(h) && DroppedForNewer(h) && Fifo(h)
    decreases |actions|
  {
    hide Act, QueueOk, Conserved, DroppedForNewer, Fifo;
    if actions == [] {
      StartSafe();
    } else {
      var h := Acts(actions[..|actions| - 1]);
      RunSafe(actions[..|actions| - 1]);
      ActConserves(h, actions[|actions| - 1]);
      ActDropsStale(h, actions[|actions| - 1]);
      ActFifo(h, actions[|actions| - 1]);
    }
  }

  /**
   Over all runs, a request is rejected if and only if it finds the queue closed, or not void and its
   lane full, at the moment it is sent.
   */
  lemma RejectedExactly(actions: seq<Action>, request: Request)
    ensures var before, after := Acts(actions), Acts(actions + [Sent(request)]);
            var r := request.(ticket := |before.sent|);
            var full := !Behind(before.queue, r) && Exceeds(before.queue, r);
            var void := !before.queue.closed && Behind(before.queue, r);
      && after.rejected == before.rejected + (if before.queue.closed || full then multiset{r} else multiset{})
      && after.stale == before.stale + (if void then multiset{r} else multiset{})
  {
    hide QueueOk, Push, Behind, Exceeds, Cleared, Conserved, DroppedForNewer, Fifo;
    var before := Acts(actions);
    assert (actions + [Sent(request)])[..|actions|] == actions;
    RunSafe(actions);
    PushExactly(before.queue, request.(ticket := |before.sent|));
  }

  lemma StartSafe()
    ensures QueueOk(START.queue) && Conserved(START) && DroppedForNewer(START) && Fifo(START)
  {}

  /** Between any two points of a run no owner's recorded generation goes back. */
  lemma {:induction false} RunGenerationsRise(actions: seq<Action>, earlier: nat)
    requires earlier <= |actions|
    ensures var before, after := Acts(actions[..earlier]).queue.generations, Acts(actions).queue.generations;
      forall o :: o in before ==> o in after && before[o] <= after[o]
    decreases |actions|
  {
    hide Push, Pop, Cleared;
    if earlier == |actions| {
      assert actions[..earlier] == actions;
    } else {
      var prior, last := actions[..|actions| - 1], actions[|actions| - 1];
      RunGenerationsRise(prior, earlier);
      assert prior[..earlier] == actions[..earlier];
      if last.Sent? { GenerationsRise(Acts(prior).queue, last.request.(ticket := |Acts(prior).sent|)); }
      if last.Served? { PopGenerations(Acts(prior).queue); }
    }
  }

  lemma PopGenerations(q: Queue)
    ensures Pop(q).0.generations == q.generations
  {}

  /** The queue after `n` serves. */
  function Drain(q: Queue, n: nat): (Queue, seq<Request>)
    decreases n
  {
    if n == 0 then (q, [])
    else
      var (next, r) := Pop(q);
      var (end, more) := Drain(next, n - 1);
      (end, (match r case None => [] case Some(x) => [x]) + more)
  }

  /**
   A closed queue refuses every push and serves what is waiting, controls first, then visible
   requests, then maintenance, before it answers with nothing.
   */
  lemma {:induction false} ClosedDrains(q: Queue, n: nat)
    requires q.closed && n == |All(q)|
    ensures forall r :: Push(q, r) == (q, Closed)
    ensures Drain(q, n).1 == All(q) && Pop(Drain(q, n).0).1 == None && Drain(q, n).0.closed
    decreases n
  {
    if n > 0 {
      var (next, r) := Pop(q);
      assert All(q) == [r.value] + All(next);
      ClosedDrains(next, n - 1);
    }
  }
}
