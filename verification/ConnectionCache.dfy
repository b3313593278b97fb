/**
 The guest's cached connection (sdk/src/iroh_transport.rs): a replaceable slot holding a
 fill-once cell, shared by concurrent `open_stream`, `check_connection` and
 `drop_connection` calls. Every await and every lock is one atomic step; what QUIC answers
 is an outcome chosen by the environment.
 */
module ConnectionCache {
  import opened Prelude

  /** A connection is known by the cell it was dialled for and by who dialled it when. */
  datatype Conn = Conn(slot: nat, dialler: nat, began: nat)

  /** A `OnceCell`: its value, the call holding the permit to fill it, and its creation. */
  datatype Slot = Slot(held: Option<Conn>, dialer: Option<nat>, createdAt: nat)

  /** Every cell there ever was, and which one `conn` points to. */
  datatype Cache = Cache(slots: seq<Slot>, current: nat)

  function Replaced(c: Cache, now: nat): Cache {
    Cache(c.slots + [Slot(None, None, now)], |c.slots|)
  }

  /** `evict`: only the cell that failed is replaced. */
  function Evicted(c: Cache, slot: nat, now: nat): Cache {
    if c.current == slot then Replaced(c, now) else c
  }

  //-- Calls -------------------------------------------------------------------------------

  /**
   How the environment answers. A stream can open on a connection that turns out closed for
   good, and a failure can carry the close code that ends the share.
   */
  datatype Outcome = Succeeds | OpensOnClosed | Fails | FailsForGood

  datatype Attempt = First | Second

  datatype Phase =
    | Started
    | Trying(slot: nat, attempt: Attempt)
    | Failed(slot: nat, attempt: Attempt, outcome: Outcome)
    | NeedsCell
    | Filling(slot: nat)
    | Dialing(slot: nat, began: nat)
    | Checking(slot: nat)
    | Probing(slot: nat)
    | Condemned(slot: nat, outcome: Outcome)
    | Done

  /** A call, the cell that was current when it started, the dials it began, the connections it used. */
  datatype Call = Call(opens: bool, base: nat, phase: Phase, dials: nat, used: seq<Conn>)

  datatype State = State(cache: Cache, calls: seq<Call>, now: nat)

  datatype Event =
    | OpenStream
    | CheckConnection
    | Advance(call: nat, outcome: Outcome)
    | Cancel(call: nat)
    | DropConnection

  const INITIAL := State(Cache([Slot(None, None, 0)], 0), [], 0)

  /** One step of a call: its new phase and the cache. A call waiting for a permit stays put. */
  function CallStep(c: Cache, i: nat, t: Call, o: Outcome, now: nat): (r: (Cache, Call))
    requires c.current < |c.slots| && CallSlot(t.phase) < |c.slots|
  {
    match t.phase
    case Started =>
      (c, match c.slots[c.current].held
          case Some(conn) =>
            t.(phase := if t.opens then Trying(c.current, First) else Checking(c.current), used := t.used + [conn])
          case None => t.(phase := if t.opens then NeedsCell else Done))
    case Trying(slot, attempt) =>
      (c, t.(phase := if o.Succeeds? || o.OpensOnClosed? then Done else Failed(slot, attempt, o)))
    case Failed(slot, attempt, failure) =>
      (Evicted(c, slot, now + 1), t.(phase := if attempt.First? && failure.Fails? then NeedsCell else Done))
    case NeedsCell => (c, t.(phase := Filling(c.current)))
    case Filling(slot) =>
      var cell := c.slots[slot];
      (match cell.held
       case Some(conn) => (c, t.(phase := Trying(slot, Second), used := t.used + [conn]))
       case None =>
         if cell.dialer.Some? then (c, t)
         else (c.(slots := c.slots[slot := cell.(dialer := Some(i))]), t.(phase := Dialing(slot, now), dials := t.dials + 1)))
    case Dialing(slot, began) =>
      var cell := c.slots[slot];
      if o.Succeeds? then
        (c.(slots := c.slots[slot := cell.(held := Some(Conn(slot, i, began)), dialer := None)]), t.(phase := Filling(slot)))
      else
        (c.(slots := c.slots[slot := cell.(dialer := None)]), t.(phase := Done))
    case Checking(slot) => (c, t.(phase := if o.Succeeds? then Probing(slot) else Condemned(slot, o)))
    case Probing(slot) => (c, t.(phase := if o.Succeeds? then Done else Condemned(slot, o)))
    case Condemned(slot, _) => (Evicted(c, slot, now + 1), t.(phase := Done))
    case Done => (c, t)
  }

  /** The cell a call has a reference to; 0 when it has none. */
  function CallSlot(p: Phase): nat {
    match p
    case Trying(slot, _) => slot
    case Failed(slot, _, _) => slot
    case Filling(slot) => slot
    case Dialing(slot, _) => slot
    case Checking(slot) => slot
    case Probing(slot) => slot
    case Condemned(slot, _) => slot
    case _ => 0
  }

  predicate HasSlot(p: Phase) {
    !p.Started? && !p.NeedsCell? && !p.Done?
  }

  function Step(s: State, e: Event): (r: State)
    requires Good(s)
    ensures r.now == s.now + 1
  {
    var now := s.now + 1;
    match e
    case OpenStream => s.(calls := s.calls + [Call(true, s.cache.current, Started, 0, [])], now := now)
    case CheckConnection => s.(calls := s.calls + [Call(false, s.cache.current, Started, 0, [])], now := now)
    case DropConnection => s.(cache := Replaced(s.cache, now), now := now)
    case Advance(i, o) =>
      if i >= |s.calls| then s.(now := now)
      else
        var (cache, call) := CallStep(s.cache, i, s.calls[i], o, s.now);
        State(cache, s.calls[i := call], now)
    case Cancel(i) =>
      if i >= |s.calls| then s.(now := now)
      else State(Released(s.cache, s.calls[i].phase), s.calls[i := s.calls[i].(phase := Done)], now)
  }

  /** Dropping a dial gives its permit back. */
  function Released(c: Cache, p: Phase): Cache {
    if p.Dialing? && p.slot < |c.slots| then c.(slots := c.slots[p.slot := c.slots[p.slot].(dialer := None)]) else c
  }

  //-- What every step keeps -----------------------------------------------------------------

  /** The current cell is the newest, and what a cell holds was dialled for it, after it was made. */
  ghost predicate GoodCache(c: Cache, now: nat) {
    && |c.slots| > 0 && c.current == |c.slots| - 1
    && (forall k, m :: 0 <= k <= m < |c.slots| ==> c.slots[k].createdAt <= c.slots[m].createdAt)
    && (forall k :: 0 <= k < |c.slots| ==> GoodSlot(c.slots[k], k, now))
  }

  predicate GoodSlot(s: Slot, k: nat, now: nat) {
    && s.createdAt <= now
    && (s.held.Some? ==> s.held.value.slot == k && s.held.value.began >= s.createdAt)
    && (s.held.Some? ==> s.dialer.None?)
  }

  /** A call has only used connections that are still in the cells it found them in. */
  predicate Holds(c: Cache, conn: Conn) {
    conn.slot < |c.slots| && c.slots[conn.slot].held == Some(conn)
  }

  ghost predicate GoodCall(c: Cache, i: nat, t: Call, now: nat) {
    && t.base < |c.slots|
    && CallSlot(t.phase) < |c.slots|
    && (HasSlot(t.phase) ==> t.base <= CallSlot(t.phase))
    && (forall u :: u in t.used ==> t.base <= u.slot && Holds(c, u))
    && (|t.used| == 2 ==> t.used[0].slot < t.used[1].slot)
    && GoodPhase(c, i, t, now)
  }

  ghost predicate GoodPhase(c: Cache, i: nat, t: Call, now: nat)
    requires CallSlot(t.phase) < |c.slots|
  {
    match t.phase
    case Started => t.used == [] && t.dials == 0
    case Trying(slot, attempt) => t.opens && Spent(t, attempt) && OnSlot(t, slot)
    case Failed(slot, attempt, o) => t.opens && Spent(t, attempt) && OnSlot(t, slot) && (o.Fails? || o.FailsForGood?)
    case NeedsCell => t.opens && t.dials == 0 && |t.used| <= 1 && (|t.used| == 1 ==> t.used[0].slot < c.current)
    case Filling(slot) =>
      && t.opens && |t.used| <= 1 && (|t.used| == 1 ==> t.used[0].slot < slot)
      && (t.dials == 0 || (t.dials == 1 && c.slots[slot].held.Some?))
      && c.slots[slot].createdAt <= now
    case Dialing(slot, began) =>
      && t.opens && |t.used| <= 1 && (|t.used| == 1 ==> t.used[0].slot < slot)
      && t.dials == 1
      && c.slots[slot].createdAt <= began
      && c.slots[slot].held.None? && c.slots[slot].dialer == Some(i)
    case Checking(slot) => Probes(t) && OnSlot(t, slot)
    case Probing(slot) => Probes(t) && OnSlot(t, slot)
    case Condemned(slot, _) => Probes(t) && OnSlot(t, slot)
    case Done => t.dials <= 1 && |t.used| <= 2 && (!t.opens ==> t.dials == 0 && |t.used| <= 1)
  }

  predicate Spent(t: Call, attempt: Attempt) {
    match attempt
    case First => t.dials == 0 && |t.used| == 1
    case Second => t.dials <= 1 && 1 <= |t.used| <= 2
  }

  predicate Probes(t: Call) {
    !t.opens && t.dials == 0 && |t.used| == 1
  }

  /** The call is working with the connection in `slot`. */
  predicate OnSlot(t: Call, slot: nat) {
    |t.used| > 0 && t.used[|t.used| - 1].slot == slot
  }

  ghost predicate Good(s: State) {
    && GoodCache(s.cache, s.now)
    && forall i :: 0 <= i < |s.calls| ==> GoodCall(s.cache, i, s.calls[i], s.now)
  }

  /** What a step of call `mover` leaves alone: filled cells, and cells others are dialling for. */
  ghost predicate Extends(c: Cache, d: Cache, mover: nat) {
    && |c.slots| <= |d.slots| && c.current <= d.current
    && forall k :: 0 <= k < |c.slots| ==> KeepsSlot(c.slots[k], d.slots[k], mover)
  }

  predicate KeepsSlot(a: Slot, b: Slot, mover: nat) {
    && b.createdAt == a.createdAt
    && (a.held.Some? ==> b.held == a.held)
    && (a.dialer.Some? && a.dialer != Some(mover) ==> b == a)
  }

  lemma OthersStayGood(c: Cache, d: Cache, mover: nat, i: nat, t: Call, now: nat)
    requires GoodCall(c, i, t, now) && Extends(c, d, mover) && i != mover
    ensures GoodCall(d, i, t, now + 1)
  {
    forall u | u in t.used ensures t.base <= u.slot && Holds(d, u) {
      assert Holds(c, u);
      assert KeepsSlot(c.slots[u.slot], d.slots[u.slot], mover);
    }
    assert KeepsSlot(c.slots[CallSlot(t.phase)], d.slots[CallSlot(t.phase)], mover);
  }

  ghost predicate StepKeeps(c: Cache, i: nat, t: Call, o: Outcome, now: nat)
    requires GoodCache(c, now) && GoodCall(c, i, t, now)
  {
    var (d, t') := CallStep(c, i, t, o, now);
    GoodCache(d, now + 1) && GoodCall(d, i, t', now + 1) && Extends(c, d, i)
  }

  lemma LaterIsGood(c: Cache, now: nat)
    requires GoodCache(c, now)
    ensures GoodCache(c, now + 1)
  {
  }

  lemma ReplacedIsGood(c: Cache, now: nat, i: nat)
    requires GoodCache(c, now)
    ensures GoodCache(Replaced(c, now + 1), now + 1) && Extends(c, Replaced(c, now + 1), i)
  {
  }

  lemma UsedStays(c: Cache, d: Cache, i: nat, t: Call)
    requires Extends(c, d, i) && forall u :: u in t.used ==> t.base <= u.slot && Holds(c, u)
    ensures forall u :: u in t.used ==> t.base <= u.slot && Holds(d, u)
  {
    forall u | u in t.used ensures Holds(d, u) {
      assert Holds(c, u);
      assert KeepsSlot(c.slots[u.slot], d.slots[u.slot], i);
    }
  }

  lemma EvictingKeeps(c: Cache, i: nat, t: Call, o: Outcome, now: nat)
    requires GoodCache(c, now) && GoodCall(c, i, t, now)
    requires t.phase.Failed? || t.phase.Condemned?
    ensures StepKeeps(c, i, t, o, now)
  {
    ReplacedIsGood(c, now, i);
    LaterIsGood(c, now);
    var (d, _) := CallStep(c, i, t, o, now);
    hide GoodCache;
    UsedStays(c, d, i, t);
  }

  /** Taking up the connection in `slot`: it is the one dialled for that cell. */
  lemma Takes(c: Cache, t: Call, slot: nat, now: nat)
    requires GoodCache(c, now) && slot < |c.slots| && c.slots[slot].held.Some?
    requires t.base <= slot && forall u :: u in t.used ==> t.base <= u.slot && Holds(c, u)
    ensures var used := t.used + [c.slots[slot].held.value];
            && used[|t.used|].slot == slot
            && forall u :: u in used ==> t.base <= u.slot && Holds(c, u)
  {
    assert GoodSlot(c.slots[slot], slot, now);
  }

  lemma BaseIsOld(c: Cache, t: Call, now: nat)
    requires GoodCache(c, now) && t.base < |c.slots|
    ensures t.base <= c.current < |c.slots| && c.slots[c.current].createdAt <= now
  {
    assert GoodSlot(c.slots[c.current], c.current, now);
  }

  lemma FillingKeeps(c: Cache, i: nat, t: Call, o: Outcome, now: nat)
    requires GoodCache(c, now) && GoodCall(c, i, t, now) && t.phase.Filling?
    ensures StepKeeps(c, i, t, o, now)
  {
    LaterIsGood(c, now);
    var slot := t.phase.slot;
    var cell := c.slots[slot];
    if cell.held.Some? {
      Takes(c, t, slot, now);
      hide GoodCache;
    } else if cell.dialer.None? {
      SlotUpdateKeeps(c, i, slot, cell.(dialer := Some(i)), now);
      UsedStays(c, c.(slots := c.slots[slot := cell.(dialer := Some(i))]), i, t);
      hide GoodCache, Extends;
    }
  }

  lemma SlotUpdateKeeps(c: Cache, i: nat, slot: nat, cell: Slot, now: nat)
    requires GoodCache(c, now) && slot < |c.slots|
    requires KeepsSlot(c.slots[slot], cell, i) && GoodSlot(cell, slot, now)
    ensures var d := c.(slots := c.slots[slot := cell]); GoodCache(d, now + 1) && Extends(c, d, i)
  {
  }

  lemma DialingKeeps(c: Cache, i: nat, t: Call, o: Outcome, now: nat)
    requires GoodCache(c, now) && GoodCall(c, i, t, now) && t.phase.Dialing?
    ensures StepKeeps(c, i, t, o, now)
  {
    var slot := t.phase.slot;
    var cell := c.slots[slot];
    assert GoodSlot(cell, slot, now);
    var conn := Conn(slot, i, t.phase.began);
    var cell' := if o.Succeeds? then cell.(held := Some(conn), dialer := None) else cell.(dialer := None);
    SlotUpdateKeeps(c, i, slot, cell', now);
    UsedStays(c, c.(slots := c.slots[slot := cell']), i, t);
    hide GoodCache, Extends;
  }

  lemma ReadingKeeps(c: Cache, i: nat, t: Call, o: Outcome, now: nat)
    requires GoodCache(c, now) && GoodCall(c, i, t, now)
    requires t.phase.Trying? || t.phase.NeedsCell? || t.phase.Checking? || t.phase.Probing? || t.phase.Done?
    ensures StepKeeps(c, i, t, o, now)
  {
    LaterIsGood(c, now);
    BaseIsOld(c, t, now);
    hide GoodCache;
  }

  lemma StartingKeeps(c: Cache, i: nat, t: Call, o: Outcome, now: nat)
    requires GoodCache(c, now) && GoodCall(c, i, t, now) && t.phase.Started?
    ensures StepKeeps(c, i, t, o, now)
  {
    LaterIsGood(c, now);
    BaseIsOld(c, t, now);
    if c.slots[c.current].held.Some? {
      Takes(c, t, c.current, now);
    }
    hide GoodCache;
  }

  /** One step of one call, seen from every call and from the cache. */
  lemma AdvanceKeeps(c: Cache, i: nat, t: Call, o: Outcome, now: nat)
    requires GoodCache(c, now) && GoodCall(c, i, t, now)
    ensures StepKeeps(c, i, t, o, now)
  {
    hide StepKeeps, GoodCache, GoodCall;
    match t.phase
    case Failed(_, _, _) => EvictingKeeps(c, i, t, o, now);
    case Condemned(_, _) => EvictingKeeps(c, i, t, o, now);
    case Filling(_) => FillingKeeps(c, i, t, o, now);
    case Dialing(_, _) => DialingKeeps(c, i, t, o, now);
    case Started => StartingKeeps(c, i, t, o, now);
    case _ => ReadingKeeps(c, i, t, o, now);
  }

  lemma CancelKeeps(c: Cache, i: nat, t: Call, now: nat)
    requires GoodCache(c, now) && GoodCall(c, i, t, now)
    ensures var d := Released(c, t.phase);
            GoodCache(d, now + 1) && GoodCall(d, i, t.(phase := Done), now + 1) && Extends(c, d, i)
  {
    LaterIsGood(c, now);
    if t.phase.Dialing? {
      var slot := t.phase.slot;
      assert GoodSlot(c.slots[slot], slot, now);
      SlotUpdateKeeps(c, i, slot, c.slots[slot].(dialer := None), now);
    }
    hide GoodCache;
    UsedStays(c, Released(c, t.phase), i, t);
  }

  /** A call's own step, then everyone else's view of it. */
  lemma OneCallMoved(s: State, i: nat, d: Cache, t: Call)
    requires Good(s) && i < |s.calls|
    requires GoodCache(d, s.now + 1) && GoodCall(d, i, t, s.now + 1) && Extends(s.cache, d, i)
    ensures Good(State(d, s.calls[i := t], s.now + 1))
  {
    hide GoodCache, GoodCall, Extends;
    var calls := s.calls[i := t];
    forall k | 0 <= k < |calls| ensures GoodCall(d, k, calls[k], s.now + 1) {
      if k != i {
        OthersStayGood(s.cache, d, i, k, s.calls[k], s.now);
      }
    }
  }

  lemma EveryoneStays(s: State, d: Cache)
    requires Good(s) && GoodCache(d, s.now + 1) && Extends(s.cache, d, |s.calls|)
    ensures Good(State(d, s.calls, s.now + 1))
  {
    hide GoodCache, GoodCall, Extends;
    forall k | 0 <= k < |s.calls| ensures GoodCall(d, k, s.calls[k], s.now + 1) {
      OthersStayGood(s.cache, d, |s.calls|, k, s.calls[k], s.now);
    }
  }

  lemma Unmoved(s: State)
    requires Good(s)
    ensures Good(s.(now := s.now + 1)) && Extends(s.cache, s.cache, |s.calls|)
  {
    LaterIsGood(s.cache, s.now);
    EveryoneStays(s, s.cache);
  }

  lemma Spawned(s: State, opens: bool)
    requires Good(s)
    ensures Good(s.(calls := s.calls + [Call(opens, s.cache.current, Started, 0, [])], now := s.now + 1))
  {
    Unmoved(s);
    var t := Call(opens, s.cache.current, Started, 0, []);
    assert GoodCall(s.cache, |s.calls|, t, s.now + 1);
    hide GoodCall, GoodCache;
  }

  /** The call that a step moves, if any. */
  function Mover(s: State, e: Event): nat {
    if (e.Advance? || e.Cancel?) && e.call < |s.calls| then e.call else |s.calls|
  }

  lemma StepKeepsGood(s: State, e: Event)
    requires Good(s)
    ensures Good(Step(s, e)) && Extends(s.cache, Step(s, e).cache, Mover(s, e))
  {
    hide GoodCache, GoodCall, Extends, CallStep, Good;
    Unmoved(s);
    match e
    case OpenStream => Spawned(s, true);
    case CheckConnection => Spawned(s, false);
    case DropConnection => DropKeeps(s);
    case Advance(i, o) => if i < |s.calls| { AdvancedKeeps(s, i, o); }
    case Cancel(i) => if i < |s.calls| { CancelledKeeps(s, i); }
  }

  lemma DropKeeps(s: State)
    requires Good(s)
    ensures var r := Step(s, DropConnection); Good(r) && Extends(s.cache, r.cache, |s.calls|)
  {
    ReplacedIsGood(s.cache, s.now, |s.calls|);
    hide GoodCache, GoodCall, Extends;
    EveryoneStays(s, Replaced(s.cache, s.now + 1));
  }

  lemma AdvancedKeeps(s: State, i: nat, o: Outcome)
    requires Good(s) && i < |s.calls|
    ensures var r := Step(s, Advance(i, o)); Good(r) && Extends(s.cache, r.cache, i)
  {
    AdvanceKeeps(s.cache, i, s.calls[i], o, s.now);
    hide GoodCache, GoodCall, Extends;
    var (d, t) := CallStep(s.cache, i, s.calls[i], o, s.now);
    hide CallStep;
    OneCallMoved(s, i, d, t);
  }

  lemma CancelledKeeps(s: State, i: nat)
    requires Good(s) && i < |s.calls|
    ensures var r := Step(s, Cancel(i)); Good(r) && Extends(s.cache, r.cache, i)
  {
    CancelKeeps(s.cache, i, s.calls[i], s.now);
    hide GoodCache, GoodCall, Extends;
    OneCallMoved(s, i, Released(s.cache, s.calls[i].phase), s.calls[i].(phase := Done));
  }

  //-- Every run ------------------------------------------------------------------------------

  /** The state before event `k` of a run from an empty cache. */
  function At(events: seq<Event>, k: nat): (s: State)
    requires k <= |events|
    ensures Good(s) && s.now == k
  {
    if k == 0 then INITIAL
    else
      var s := At(events, k - 1);
      StepKeepsGood(s, events[k - 1]);
      Step(s, events[k - 1])
  }

  lemma RunStep(events: seq<Event>, k: nat)
    requires k < |events|
    ensures At(events, k + 1) == Step(At(events, k), events[k])
    ensures Extends(At(events, k).cache, At(events, k + 1).cache, Mover(At(events, k), events[k]))
  {
    StepKeepsGood(At(events, k), events[k]);
  }

  /**
   A cell holds at most one connection in its life, keeps its place, and never becomes
   current again once another has replaced it.
   */
  lemma {:induction false} CellsFillOnce(events: seq<Event>, j: nat, k: nat, slot: nat)
    requires j <= k <= |events| && slot < |At(events, j).cache.slots|
    ensures var before, after := At(events, j).cache, At(events, k).cache;
            && slot < |after.slots|
            && (before.slots[slot].held.Some? ==> after.slots[slot].held == before.slots[slot].held)
            && after.slots[slot].createdAt == before.slots[slot].createdAt
            && before.current <= after.current
            && (slot < before.current ==> after.current != slot)
    decreases k - j
  {
    hide At, Good;
    if j < k {
      CellsFillOnce(events, j, k - 1, slot);
      RunStep(events, k - 1);
      var c, d := At(events, k - 1).cache, At(events, k).cache;
      assert KeepsSlot(c.slots[slot], d.slots[slot], Mover(At(events, k - 1), events[k - 1]));
    }
  }

  /**
   A cell stops being current only through `drop_connection` or through a call whose own
   attempt failed on the connection in that very cell; and such a failure always replaces it.
   */
  lemma OnlyItsFailureEvicts(events: seq<Event>, k: nat)
    requires k < |events|
    ensures var s, s' := At(events, k), At(events, k + 1);
            s'.cache.current != s.cache.current ==>
              || events[k].DropConnection?
              || (events[k].Advance? && events[k].call < |s.calls| && FailedOn(s.cache, s.calls[events[k].call], s.cache.current))
    ensures var s, s' := At(events, k), At(events, k + 1);
            events[k].Advance? && events[k].call < |s.calls| ==>
              var t := s.calls[events[k].call];
              t.phase.Failed? || t.phase.Condemned? ==> s'.cache.current != t.phase.slot
  {
    var s := At(events, k);
    RunStep(events, k);
    hide At;
    if events[k].Advance? && events[k].call < |s.calls| {
      var t := s.calls[events[k].call];
      assert GoodCall(s.cache, events[k].call, t, s.now);
      FailureReplaces(s.cache, events[k].call, t, events[k].outcome, s.now);
      hide CallStep, Good, GoodCall;
    }
  }

  /** The call is about to evict `slot`, which holds the connection it last used. */
  predicate FailedOn(c: Cache, t: Call, slot: nat) {
    && (t.phase.Failed? || t.phase.Condemned?)
    && t.phase.slot == slot < |c.slots|
    && |t.used| > 0 && c.slots[slot].held == Some(t.used[|t.used| - 1])
  }

  lemma FailureReplaces(c: Cache, i: nat, t: Call, o: Outcome, now: nat)
    requires GoodCache(c, now) && GoodCall(c, i, t, now)
    ensures var d := CallStep(c, i, t, o, now).0;
            && (d.current != c.current ==> FailedOn(c, t, c.current))
            && (t.phase.Failed? || t.phase.Condemned? ==> d.current != t.phase.slot)
  {
    if t.phase.Failed? || t.phase.Condemned? {
      assert Holds(c, t.used[|t.used| - 1]);
    }
  }

  /**
   Each `open_stream` dials at most once and makes at most two attempts, the second never
   on the connection the first failed on; `check_connection` never dials and probes one.
   */
  lemma AttemptsAreBounded(events: seq<Event>, k: nat, i: nat)
    requires k <= |events| && i < |At(events, k).calls|
    ensures var t := At(events, k).calls[i];
            && t.dials <= 1 && |t.used| <= 2
            && (|t.used| == 2 ==> t.used[0] != t.used[1])
            && (!t.opens ==> t.dials == 0 && |t.used| <= 1)
  {
    hide At;
    assert GoodCall(At(events, k).cache, i, At(events, k).calls[i], k);
  }

  /** The call was told its connection is closed for good, or has returned. */
  predicate Ending(p: Phase) {
    p.Done? || (p.Failed? && p.outcome.FailsForGood?)
  }

  lemma EndingStep(s: State, e: Event, i: nat)
    requires Good(s) && i < |s.calls|
    ensures var s' := Step(s, e);
            && i < |s'.calls|
            && (Ending(s.calls[i].phase) ==>
                  Ending(s'.calls[i].phase) && s'.calls[i].used == s.calls[i].used && s'.calls[i].dials == s.calls[i].dials)
            && (s.calls[i].phase.Trying? && e.Advance? && e.call == i && (e.outcome.OpensOnClosed? || e.outcome.FailsForGood?) ==>
                  Ending(s'.calls[i].phase) && s'.calls[i].used == s.calls[i].used && s'.calls[i].dials == s.calls[i].dials)
  {
    hide GoodCache;
  }

  lemma {:induction false} EndingStays(events: seq<Event>, j: nat, k: nat, i: nat)
    requires j <= k <= |events| && i < |At(events, j).calls| && Ending(At(events, j).calls[i].phase)
    ensures i < |At(events, k).calls| && Ending(At(events, k).calls[i].phase)
    ensures At(events, k).calls[i].used == At(events, j).calls[i].used && At(events, k).calls[i].dials == At(events, j).calls[i].dials
    decreases k
  {
    hide At, Step, Good;
    if j < k {
      RunStep(events, k - 1);
      EndingStays(events, j, k - 1, i);
      EndingStep(At(events, k - 1), events[k - 1], i);
    }
  }

  /** A call that learns the share has ended neither dials nor tries another connection. */
  lemma NoAttemptAfterTheEnd(events: seq<Event>, j: nat, k: nat, i: nat)
    requires j < k <= |events| && i < |At(events, j).calls| && At(events, j).calls[i].phase.Trying?
    requires events[j] == Advance(i, OpensOnClosed) || events[j] == Advance(i, FailsForGood)
    ensures i < |At(events, k).calls|
    ensures At(events, k).calls[i].used == At(events, j).calls[i].used && At(events, k).calls[i].dials == At(events, j).calls[i].dials
  {
    hide At, Step, Good;
    RunStep(events, j);
    EndingStep(At(events, j), events[j], i);
    EndingStays(events, j + 1, k, i);
  }

  /** `conn` was dialled by a call that, at step `conn.began`, found its cell empty. */
  ghost predicate DialBegan(events: seq<Event>, conn: Conn) {
    && conn.began < |events|
    && events[conn.began].Advance? && events[conn.began].call == conn.dialler
    && var s := At(events, conn.began);
       && conn.dialler < |s.calls| && s.calls[conn.dialler].phase == Filling(conn.slot)
       && conn.slot < |s.cache.slots| && s.cache.slots[conn.slot].held.None?
  }

  ghost predicate DialsKnown(events: seq<Event>, s: State) {
    && (forall k :: 0 <= k < |s.cache.slots| && s.cache.slots[k].held.Some? ==> DialBegan(events, s.cache.slots[k].held.value))
    && (forall i :: 0 <= i < |s.calls| && s.calls[i].phase.Dialing? ==>
          DialBegan(events, Conn(s.calls[i].phase.slot, i, s.calls[i].phase.began)))
  }

  /** Where the connections and the dials after a step of a call come from. */
  lemma StepDials(c: Cache, i: nat, t: Call, o: Outcome, now: nat)
    requires c.current < |c.slots| && CallSlot(t.phase) < |c.slots|
    ensures var (d, t') := CallStep(c, i, t, o, now);
            && (forall k :: 0 <= k < |d.slots| && d.slots[k].held.Some? ==>
                  || (k < |c.slots| && c.slots[k].held == d.slots[k].held)
                  || (t.phase.Dialing? && d.slots[k].held.value == Conn(t.phase.slot, i, t.phase.began)))
            && (t'.phase.Dialing? ==>
                  t.phase.Filling? && t'.phase == Dialing(t.phase.slot, now) && c.slots[t.phase.slot].held.None?)
  {
  }

  lemma DialAdvance(events: seq<Event>, k: nat)
    requires k < |events| && DialsKnown(events, At(events, k))
    requires events[k].Advance? && events[k].call < |At(events, k).calls|
    ensures DialsKnown(events, At(events, k + 1))
  {
    var s, i, o := At(events, k), events[k].call, events[k].outcome;
    var t := s.calls[i];
    RunStep(events, k);
    StepDials(s.cache, i, t, o, k);
    var (d, t') := CallStep(s.cache, i, t, o, k);
    assert At(events, k + 1) == State(d, s.calls[i := t'], k + 1);
    assert t'.phase.Dialing? ==> DialBegan(events, Conn(t'.phase.slot, i, t'.phase.began));
    hide At, CallStep, DialBegan, Good;
    var s' := At(events, k + 1);
    forall m | 0 <= m < |s'.calls| && s'.calls[m].phase.Dialing?
      ensures DialBegan(events, Conn(s'.calls[m].phase.slot, m, s'.calls[m].phase.began)) {
      assert m != i ==> s'.calls[m] == s.calls[m];
    }
  }

  lemma DialStep(events: seq<Event>, k: nat)
    requires k < |events| && DialsKnown(events, At(events, k))
    ensures DialsKnown(events, At(events, k + 1))
  {
    RunStep(events, k);
    hide At, DialBegan, CallStep, Good;
    if events[k].Advance? && events[k].call < |At(events, k).calls| {
      DialAdvance(events, k);
    }
  }

  lemma {:induction false} EveryDialBegan(events: seq<Event>, k: nat)
    requires k <= |events|
    ensures DialsKnown(events, At(events, k))
  {
    hide DialBegan, Good;
    if k == 0 {
      assert At(events, k) == INITIAL;
    } else {
      hide At, DialsKnown;
      EveryDialBegan(events, k - 1);
      DialStep(events, k - 1);
    }
  }

  predicate Spawns(e: Event) {
    e.OpenStream? || e.CheckConnection?
  }

  lemma StepKeepsBase(s: State, e: Event, n: nat)
    requires Good(s) && n < |s.calls|
    ensures var s' := Step(s, e); n < |s'.calls| && s'.calls[n].base == s.calls[n].base
  {
    hide Good;
  }

  lemma {:induction false} CallKeepsBase(events: seq<Event>, m: nat, k: nat)
    requires m < k <= |events| && Spawns(events[m])
    ensures var n := |At(events, m).calls|;
            n < |At(events, k).calls| && At(events, k).calls[n].base == At(events, m).cache.current
    decreases k
  {
    hide At, Good, CallStep;
    RunStep(events, k - 1);
    if m < k - 1 {
      CallKeepsBase(events, m, k - 1);
      hide Step;
      StepKeepsBase(At(events, k - 1), events[k - 1], |At(events, m).calls|);
    }
  }

  lemma DropMakesACell(events: seq<Event>, j: nat)
    requires j < |events| && events[j].DropConnection?
    ensures var c, slot := At(events, j + 1).cache, |At(events, j).cache.slots|;
            c.current == slot < |c.slots| && c.slots[slot].createdAt == j + 1
  {
    RunStep(events, j);
    hide At;
  }

  /** A connection a call used was dialled no earlier than the call's first possible cell was made. */
  lemma UsedIsRecent(s: State, n: nat, slot: nat, conn: Conn)
    requires Good(s) && n < |s.calls| && conn in s.calls[n].used && slot <= s.calls[n].base
    ensures slot <= conn.slot < |s.cache.slots| && s.cache.slots[conn.slot].held == Some(conn)
    ensures conn.began >= s.cache.slots[slot].createdAt
  {
    var c, t := s.cache, s.calls[n];
    assert GoodCall(c, n, t, s.now);
    assert Holds(c, conn);
    assert GoodSlot(c.slots[conn.slot], conn.slot, s.now);
  }

  /**
   A call starting after `drop_connection` never uses a connection whose dial began before
   the drop.
   */
  lemma DropIsABarrier(events: seq<Event>, j: nat, m: nat, k: nat, conn: Conn)
    requires j < m < k <= |events| && events[j].DropConnection? && Spawns(events[m])
    requires |At(events, m).calls| < |At(events, k).calls| && conn in At(events, k).calls[|At(events, m).calls|].used
    ensures conn.began > j && DialBegan(events, conn)
  {
    hide At, Good, DialBegan;
    var n, slot := |At(events, m).calls|, |At(events, j).cache.slots|;
    DropMakesACell(events, j);
    CellsFillOnce(events, j + 1, m, slot);
    CellsFillOnce(events, j + 1, k, slot);
    CallKeepsBase(events, m, k);
    EveryDialBegan(events, k);
    UsedIsRecent(At(events, k), n, slot, conn);
  }

  //-- The cache as the program keeps it ------------------------------------------------------

  /** The fill-once cell, compared by identity. */
  class Cell {
    var held: Option<Conn>
    var dialer: Option<nat>
    ghost const createdAt: nat

    constructor (ghost now: nat)
      ensures held == None && dialer == None && createdAt == now
    {
      held, dialer, createdAt := None, None, now;
    }
  }

  class Iroh {
    var conn: Cell
    ghost var born: seq<Cell>

    ghost predicate Valid()
      reads this
    {
      && |born| > 0 && conn == born[|born| - 1]
      && forall i, j :: 0 <= i < j < |born| ==> born[i] != born[j]
    }

    ghost function SlotOf(cell: Cell): Slot
      reads cell
    {
      Slot(cell.held, cell.dialer, cell.createdAt)
    }

    ghost function View(): (c: Cache)
      reads this, born
      requires Valid()
      ensures |c.slots| == |born| && forall k :: 0 <= k < |born| ==> c.slots[k] == SlotOf(born[k])
    {
      Cache(seq(|born|, k requires 0 <= k < |born| reads this, born => SlotOf(born[k])), |born| - 1)
    }

    constructor ()
      ensures Valid() && View() == INITIAL.cache && fresh(conn)
    {
      conn := new Cell(0);
      new;
      born := [conn];
    }

    method CachedConnection() returns (cell: Option<Cell>)
      requires Valid()
      ensures cell.Some? <==> View().slots[View().current].held.Some?
      ensures cell.Some? ==> cell.value == born[View().current]
    {
      return if conn.held.Some? then Some(conn) else None;
    }

    method DropConnection(ghost now: nat)
      requires Valid()
      modifies this
      ensures Valid() && View() == Replaced(old(View()), now)
      ensures fresh(conn) && born == old(born) + [conn]
    {
      conn := new Cell(now);
      born := born + [conn];
    }

    /** Pointer equality makes this `Evicted` for the place the failed cell was born at. */
    method Evict(cell: Cell, ghost slot: nat, ghost now: nat)
      requires Valid() && slot < |born| && born[slot] == cell
      modifies this
      ensures Valid() && View() == Evicted(old(View()), slot, now)
      ensures born[slot] == cell && conn != cell
    {
      if conn == cell {
        DropConnection(now);
      }
    }
  }
}
