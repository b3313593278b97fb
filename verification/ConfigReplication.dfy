/**
 How a guest's stored copy of a share follows the host's config: reloads swap the config
 when its hash changes (waserver/src/serving.rs), a stream is answered from the config it
 was accepted under (guest_api.rs), and refreshes ask conditionally and store the answer in
 one transaction (sdk/src/guest_node.rs, storage.rs). Any number of refreshes interleave.
 */
module ConfigReplication {
  import opened Prelude
  import opened ShareConfigs
  import opened SharedApps
  import opened EntityTags
  import Fnv1a

  /** What the guest's store holds of a share. */
  datatype Stored = Stored(hash: string, name: string, apps: seq<SharedApp>, caCertificates: seq<string>)

  function StoredOf(info: ShareInfo): Stored {
    Stored(HashText(info.configHash), info.name, info.apps, info.caCertificates)
  }

  function KnownHash(stored: Option<Stored>): Option<Fnv1a.word> {
    match stored
    case Some(s) => ParseHash(s.hash)
    case None => None
  }

  /** `reload`: the running config is replaced only if the hash differs. */
  function Reloaded(current: ShareConfig, loaded: ShareConfig): ShareConfig {
    if HashOf(loaded) != HashOf(current) then loaded else current
  }

  /** `get_share`: `None` is 304 Not Modified. */
  function Respond(c: ShareConfig, known: Option<Fnv1a.word>): Option<ShareInfo> {
    match known
    case Some(k) => if MatchesIfNoneMatch(HashOf(c), Etag(k)) then None else Some(ShareInfoOf(c))
    case None => Some(ShareInfoOf(c))
  }

  datatype Phase = Asking | Answered(info: Option<ShareInfo>) | Finished | Failed

  /** A refresh: the hash it read, and the config its stream was accepted under, once it has them. */
  datatype Refresh = Refresh(known: Option<Option<Fnv1a.word>>, ctx: Option<ShareConfig>, phase: Phase)

  datatype State = State(host: ShareConfig, stored: Option<Stored>, refreshes: seq<Refresh>)

  datatype Event =
    | Reload(loaded: Option<ShareConfig>)
    | Start
    | Join
    | ReadKnown(task: nat)
    | HostAccept(task: nat)
    | Answer(task: nat, ok: bool)
    | Store(task: nat)

  /** One step of a refresh. */
  function RefreshStep(host: ShareConfig, stored: Option<Stored>, t: Refresh, e: Event): Refresh {
    match e
    case ReadKnown(_) => if t.known.None? then t.(known := Some(KnownHash(stored))) else t
    case HostAccept(_) => if t.ctx.None? then t.(ctx := Some(host)) else t
    case Answer(_, ok) =>
      if t.phase.Asking? && t.known.Some? && t.ctx.Some? then
        t.(phase := if ok then Answered(Respond(t.ctx.value, t.known.value)) else Failed)
      else t
    case Store(_) =>
      if !t.phase.Answered? then t
      else t.(phase := if t.phase.info.Some? && !Storable(t.phase.info.value) then Failed else Finished)
    case _ => t
  }

  /** The key of the apps table is the app's id, so a list that repeats one cannot be stored. */
  predicate Storable(info: ShareInfo) {
    DistinctApps(info.apps)
  }

  predicate DistinctApps(apps: seq<SharedApp>) {
    forall i, j :: 0 <= i < j < |apps| ==> apps[i].id != apps[j].id
  }

  /** `write_share_info`, for a refresh that was sent a body: all of it or nothing. */
  function Written(stored: Option<Stored>, t: Refresh, e: Event): Option<Stored> {
    if e.Store? && t.phase.Answered? && t.phase.info.Some? && Storable(t.phase.info.value)
    then Some(StoredOf(t.phase.info.value)) else stored
  }

  function Step(s: State, e: Event): State {
    match e
    case Reload(loaded) => if loaded.Some? then s.(host := Reloaded(s.host, loaded.value)) else s
    case Start => s.(refreshes := s.refreshes + [Refresh(None, None, Asking)])
    case Join => s.(refreshes := s.refreshes + [Refresh(Some(None), None, Asking)])
    case _ =>
      if e.task >= |s.refreshes| then s
      else
        var t := s.refreshes[e.task];
        s.(stored := Written(s.stored, t, e), refreshes := s.refreshes[e.task := RefreshStep(s.host, s.stored, t, e)])
  }

  /** The state before event `k`, on a device that has not joined yet. */
  function At(host: ShareConfig, events: seq<Event>, k: nat): State
    requires k <= |events|
  {
    if k == 0 then State(host, None, []) else Step(At(host, events, k - 1), events[k - 1])
  }

  lemma AtNext(host: ShareConfig, events: seq<Event>, k: nat)
    requires k < |events|
    ensures At(host, events, k + 1) == Step(At(host, events, k), events[k])
  {
  }

  //-- One served config ----------------------------------------------------------------------

  /** `c` was being served at some moment up to `k`. */
  ghost predicate WasServed(host: ShareConfig, events: seq<Event>, k: nat, c: ShareConfig)
    requires k <= |events|
  {
    exists j :: 0 <= j <= k && At(host, events, j).host == c
  }

  ghost predicate StoredIsServed(host: ShareConfig, events: seq<Event>, k: nat, stored: Option<Stored>)
    requires k <= |events|
  {
    stored.Some? ==> exists c :: WasServed(host, events, k, c) && stored.value == StoredOf(ShareInfoOf(c))
  }

  ghost predicate GoodRefresh(host: ShareConfig, events: seq<Event>, k: nat, t: Refresh)
    requires k <= |events|
  {
    && (t.ctx.Some? ==> WasServed(host, events, k, t.ctx.value))
    && (t.phase.Answered? ==> t.ctx.Some? && t.known.Some? && t.phase.info == Respond(t.ctx.value, t.known.value))
  }

  ghost predicate Good(host: ShareConfig, events: seq<Event>, k: nat)
    requires k <= |events|
  {
    var s := At(host, events, k);
    && StoredIsServed(host, events, k, s.stored)
    && forall i :: 0 <= i < |s.refreshes| ==> GoodRefresh(host, events, k, s.refreshes[i])
  }

  lemma ServedStays(host: ShareConfig, events: seq<Event>, k: nat, c: ShareConfig)
    requires k < |events| && WasServed(host, events, k, c)
    ensures WasServed(host, events, k + 1, c)
  {
    var j :| 0 <= j <= k && At(host, events, j).host == c;
  }

  lemma GoodStays(host: ShareConfig, events: seq<Event>, k: nat, t: Refresh)
    requires k < |events| && GoodRefresh(host, events, k, t)
    ensures GoodRefresh(host, events, k + 1, t)
  {
    hide Respond, WasServed;
    if t.ctx.Some? {
      ServedStays(host, events, k, t.ctx.value);
    }
  }

  lemma StoredStays(host: ShareConfig, events: seq<Event>, k: nat, stored: Option<Stored>)
    requires k < |events| && StoredIsServed(host, events, k, stored)
    ensures StoredIsServed(host, events, k + 1, stored)
  {
    hide WasServed;
    if stored.Some? {
      var c :| WasServed(host, events, k, c) && stored.value == StoredOf(ShareInfoOf(c));
      ServedStays(host, events, k, c);
    }
  }

  lemma RefreshStepGood(host: ShareConfig, events: seq<Event>, k: nat, t: Refresh)
    requires k < |events| && GoodRefresh(host, events, k, t)
    ensures var s := At(host, events, k); GoodRefresh(host, events, k + 1, RefreshStep(s.host, s.stored, t, events[k]))
  {
    GoodStays(host, events, k, t);
    assert WasServed(host, events, k + 1, At(host, events, k).host);
    hide At, Respond, KnownHash, WasServed;
  }

  lemma WrittenIsServed(host: ShareConfig, events: seq<Event>, k: nat, stored: Option<Stored>, t: Refresh, e: Event)
    requires k <= |events| && GoodRefresh(host, events, k, t) && StoredIsServed(host, events, k, stored)
    ensures StoredIsServed(host, events, k, Written(stored, t, e))
  {
    hide WasServed, ShareInfoOf, MatchesIfNoneMatch;
  }

  lemma StepIsGood(host: ShareConfig, events: seq<Event>, k: nat)
    requires k < |events| && Good(host, events, k)
    ensures Good(host, events, k + 1)
  {
    var s, s', e := At(host, events, k), At(host, events, k + 1), events[k];
    assert s' == Step(s, e);
    StoredStays(host, events, k, s.stored);
    hide At, StoredIsServed, GoodRefresh, RefreshStep, StoredOf;
    forall i | 0 <= i < |s.refreshes| ensures GoodRefresh(host, events, k + 1, s.refreshes[i]) {
      GoodStays(host, events, k, s.refreshes[i]);
    }
    match e
    case Reload(_) =>
    case Start => NewIsGood(host, events, k + 1, None);
    case Join => NewIsGood(host, events, k + 1, Some(None));
    case _ =>
      if e.task < |s.refreshes| {
        var t := s.refreshes[e.task];
        RefreshStepGood(host, events, k, t);
        GoodStays(host, events, k, t);
        WrittenIsServed(host, events, k + 1, s.stored, t, e);
      }
  }

  lemma NewIsGood(host: ShareConfig, events: seq<Event>, k: nat, known: Option<Option<Fnv1a.word>>)
    requires k <= |events|
    ensures GoodRefresh(host, events, k, Refresh(known, None, Asking))
  {
  }

  lemma {:induction false} RunIsGood(host: ShareConfig, events: seq<Event>, k: nat)
    requires k <= |events|
    ensures Good(host, events, k)
  {
    hide Step;
    if k == 0 {
      assert At(host, events, 0) == State(host, None, []);
    } else {
      hide Good, At;
      RunIsGood(host, events, k - 1);
      StepIsGood(host, events, k - 1);
    }
  }

  /**
   In every interleaving, the stored hash, name, apps and certificates are together the view
   of one config the host served, with that config's hash.
   */
  lemma StoredIsOneServedView(host: ShareConfig, events: seq<Event>, k: nat)
    requires k <= |events| && At(host, events, k).stored.Some?
    ensures exists j :: 0 <= j <= k && At(host, events, k).stored == Some(StoredOf(ShareInfoOf(At(host, events, j).host)))
  {
    RunIsGood(host, events, k);
    hide At, ShareInfoOf, StoredOf;
    var stored := At(host, events, k).stored;
    var c :| WasServed(host, events, k, c) && stored.value == StoredOf(ShareInfoOf(c));
    var j :| 0 <= j <= k && At(host, events, j).host == c;
  }

  //-- A refresh that is not overlapped -----------------------------------------------------------

  /** Configs served in the run with equal hashes have equal views. */
  ghost predicate NoCollision(host: ShareConfig, events: seq<Event>, k: nat)
    requires k <= |events|
  {
    forall c, d :: WasServed(host, events, k, c) && WasServed(host, events, k, d) && HashOf(c) == HashOf(d) ==>
      ShareInfoOf(c) == ShareInfoOf(d)
  }

  lemma ReadStep(s: State, i: nat)
    requires i < |s.refreshes| && s.refreshes[i].known.None?
    ensures var s' := Step(s, ReadKnown(i)); |s'.refreshes| == |s.refreshes| && s'.refreshes[i].known == Some(KnownHash(s.stored))
  {
    hide KnownHash;
  }

  lemma StoreStep(s: State, i: nat)
    requires i < |s.refreshes|
    ensures Step(s, Store(i)).stored == Written(s.stored, s.refreshes[i], Store(i))
    ensures var t := s.refreshes[i];
            i < |Step(s, Store(i)).refreshes| && Step(s, Store(i)).refreshes[i].phase.Finished? && t.phase.Answered? && t.phase.info.Some? ==>
              Storable(t.phase.info.value)
  {
    hide Written, Storable;
  }

  lemma StoredStep(s: State, e: Event)
    requires !e.Store?
    ensures Step(s, e).stored == s.stored
  {
    hide KnownHash, Respond;
  }

  lemma KnownStep(s: State, e: Event, i: nat)
    requires i < |s.refreshes| && s.refreshes[i].known.Some?
    ensures i < |Step(s, e).refreshes| && Step(s, e).refreshes[i].known == s.refreshes[i].known
  {
    hide KnownHash, Respond, Written;
  }

  /** What a refresh has read never changes. */
  lemma {:induction false} KnownStays(host: ShareConfig, events: seq<Event>, m: nat, k: nat, i: nat)
    requires m <= k <= |events| && i < |At(host, events, m).refreshes| && At(host, events, m).refreshes[i].known.Some?
    ensures i < |At(host, events, k).refreshes|
    ensures At(host, events, k).refreshes[i].known == At(host, events, m).refreshes[i].known
    decreases k
  {
    hide *;
    if m < k {
      AtNext(host, events, k - 1);
      KnownStays(host, events, m, k - 1, i);
      KnownStep(At(host, events, k - 1), events[k - 1], i);
    }
  }

  lemma ContextStep(s: State, e: Event, i: nat)
    requires i < |s.refreshes|
    ensures i < |Step(s, e).refreshes|
    ensures s.refreshes[i].ctx.Some? ==> Step(s, e).refreshes[i].ctx == s.refreshes[i].ctx
    ensures s.refreshes[i].ctx.None? && e == HostAccept(i) ==> Step(s, e).refreshes[i].ctx == Some(s.host)
  {
    hide KnownHash, Respond, Written;
  }

  /** A stream is served from the config that was current when the host accepted it, reloads or not. */
  lemma {:induction false} AcceptedUnder(host: ShareConfig, events: seq<Event>, m: nat, k: nat, i: nat)
    requires m < k <= |events| && events[m] == HostAccept(i)
    requires i < |At(host, events, m).refreshes| && At(host, events, m).refreshes[i].ctx.None?
    ensures i < |At(host, events, k).refreshes| && At(host, events, k).refreshes[i].ctx == Some(At(host, events, m).host)
    decreases k
  {
    hide *;
    AtNext(host, events, k - 1);
    if m < k - 1 {
      AcceptedUnder(host, events, m, k - 1, i);
    }
    ContextStep(At(host, events, k - 1), events[k - 1], i);
  }

  lemma {:induction false} StoredUntouched(host: ShareConfig, events: seq<Event>, m: nat, k: nat)
    requires m <= k <= |events| && forall i :: m <= i < k ==> !events[i].Store?
    ensures At(host, events, k).stored == At(host, events, m).stored
    decreases k
  {
    hide *;
    if m < k {
      AtNext(host, events, k - 1);
      StoredUntouched(host, events, m, k - 1);
      StoredStep(At(host, events, k - 1), events[k - 1]);
    }
  }

  /** "Unchanged" is answered exactly to a guest that knows the hash of the served config. */
  lemma UnchangedExactly(c: ShareConfig, known: Option<Fnv1a.word>)
    ensures Respond(c, known) == if known == Some(HashOf(c)) then None else Some(ShareInfoOf(c))
  {
    hide MatchesIfNoneMatch, Etag;
    if known.Some? {
      ConditionalIsEquality(HashOf(c), known.value);
    }
  }

  lemma StoredHashReads(c: ShareConfig)
    ensures KnownHash(Some(StoredOf(ShareInfoOf(c)))) == Some(HashOf(c))
  {
    hide HashText, ParseHash, HashOf;
    HashTextReads(HashOf(c));
  }

  /**
   A refresh that ends well leaves the view served on its stream stored exactly if it was sent
   a body, or what is stored as it ends still has the hash it read.
   */
  lemma UpToDateExactly(host: ShareConfig, events: seq<Event>, k: nat, i: nat)
    requires k < |events| && NoCollision(host, events, k)
    requires events[k] == Store(i) && i < |At(host, events, k).refreshes| && At(host, events, k).refreshes[i].phase.Answered?
    requires i < |At(host, events, k + 1).refreshes| && At(host, events, k + 1).refreshes[i].phase.Finished?
    ensures var s, t := At(host, events, k), At(host, events, k).refreshes[i];
            && t.ctx.Some? && t.known.Some?
            && (At(host, events, k + 1).stored == Some(StoredOf(ShareInfoOf(t.ctx.value))) <==>
                  t.phase.info.Some? || KnownHash(s.stored) == t.known.value)
  {
    var s, t := At(host, events, k), At(host, events, k).refreshes[i];
    hide *;
    AtNext(host, events, k);
    StoreStep(s, i);
    RunIsGood(host, events, k);
    GoodParts(host, events, k, i);
    WrittenIsCurrent(host, events, k, s.stored, t, i);
  }

  /** So a refresh during which no other refresh of the share stores anything always does. */
  lemma QuietRefreshIsUpToDate(host: ShareConfig, events: seq<Event>, m: nat, k: nat, i: nat)
    requires m < k < |events| && NoCollision(host, events, k)
    requires events[m] == ReadKnown(i) && i < |At(host, events, m).refreshes| && At(host, events, m).refreshes[i].known.None?
    requires forall j :: m <= j < k ==> !events[j].Store?
    requires events[k] == Store(i) && i < |At(host, events, k).refreshes| && At(host, events, k).refreshes[i].phase.Answered?
    requires i < |At(host, events, k + 1).refreshes| && At(host, events, k + 1).refreshes[i].phase.Finished?
    ensures var t := At(host, events, k).refreshes[i];
            t.ctx.Some? && At(host, events, k + 1).stored == Some(StoredOf(ShareInfoOf(t.ctx.value)))
  {
    hide *;
    KnowsWhatIsStored(host, events, m, k, i);
    UpToDateExactly(host, events, k, i);
  }

  lemma KnowsWhatIsStored(host: ShareConfig, events: seq<Event>, m: nat, k: nat, i: nat)
    requires m < k <= |events| && forall j :: m <= j < k ==> !events[j].Store?
    requires events[m] == ReadKnown(i) && i < |At(host, events, m).refreshes| && At(host, events, m).refreshes[i].known.None?
    ensures i < |At(host, events, k).refreshes|
    ensures At(host, events, k).refreshes[i].known == Some(KnownHash(At(host, events, k).stored))
  {
    hide *;
    AtNext(host, events, m);
    ReadStep(At(host, events, m), i);
    KnownStays(host, events, m + 1, k, i);
    StoredUntouched(host, events, m, k);
  }

  lemma GoodParts(host: ShareConfig, events: seq<Event>, k: nat, i: nat)
    requires k <= |events| && Good(host, events, k) && i < |At(host, events, k).refreshes|
    ensures GoodRefresh(host, events, k, At(host, events, k).refreshes[i])
    ensures StoredIsServed(host, events, k, At(host, events, k).stored)
  {
  }

  lemma WrittenIsCurrent(host: ShareConfig, events: seq<Event>, k: nat, stored: Option<Stored>, t: Refresh, i: nat)
    requires k <= |events| && NoCollision(host, events, k)
    requires GoodRefresh(host, events, k, t) && StoredIsServed(host, events, k, stored)
    requires t.phase.Answered? && (t.phase.info.Some? ==> Storable(t.phase.info.value))
    ensures t.ctx.Some? && t.known.Some?
    ensures Written(stored, t, Store(i)) == Some(StoredOf(ShareInfoOf(t.ctx.value))) <==>
              t.phase.info.Some? || KnownHash(stored) == t.known.value
  {
    assert stored.None? ==> KnownHash(stored).None?;
    hide ShareInfoOf, StoredOf, Respond, KnownHash, HashOf, WasServed, Storable;
    UnchangedExactly(t.ctx.value, t.known.value);
    if t.phase.info.None? && stored.Some? {
      var c :| WasServed(host, events, k, c) && stored.value == StoredOf(ShareInfoOf(c));
      StoredHashReads(c);
      StoredHashReads(t.ctx.value);
    }
  }

  //-- A refresh that is overlapped ----------------------------------------------------------------

  /** The first copy stored, from any config. */
  const JOINED: seq<Event> := [Join, HostAccept(0), Answer(0, true), Store(0)]

  /** One refresh is told "unchanged", another stores the reloaded config, then the first ends. */
  function Overlapped(d: ShareConfig): seq<Event> {
    JOINED + [Start, ReadKnown(1), HostAccept(1), Answer(1, true), Reload(Some(d)),
              Start, ReadKnown(2), HostAccept(2), Answer(2, true), Store(2), Store(1)]
  }

  /** A refresh run by itself, from its start to the host's answer. */
  function Alone(s: State): State {
    s.(refreshes := s.refreshes + [Refresh(Some(KnownHash(s.stored)), Some(s.host), Answered(Respond(s.host, KnownHash(s.stored))))])
  }

  predicate Moves(e: Event, i: nat) {
    !e.Reload? && !e.Start? && !e.Join? && e.task == i
  }

  lemma LastMoves(s: State, others: seq<Refresh>, t: Refresh, e: Event)
    requires s.refreshes == others + [t] && Moves(e, |others|)
    ensures Step(s, e) == State(s.host, Written(s.stored, t, e), others + [RefreshStep(s.host, s.stored, t, e)])
  {
    hide Written, RefreshStep;
    assert s.refreshes[|others|] == t;
    assert s.refreshes[|others| := RefreshStep(s.host, s.stored, t, e)] == others + [RefreshStep(s.host, s.stored, t, e)];
  }

  lemma AnsweredAlone(host: ShareConfig, events: seq<Event>, k: nat, i: nat)
    requires k + 4 <= |events| && events[k..k + 4] == [Start, ReadKnown(i), HostAccept(i), Answer(i, true)]
    requires i == |At(host, events, k).refreshes|
    ensures At(host, events, k + 4) == Alone(At(host, events, k))
  {
    var e := events[k..k + 4];
    assert events[k] == e[0] && events[k + 1] == e[1] && events[k + 2] == e[2] && events[k + 3] == e[3];
    hide At, KnownHash, Respond;
    var s := At(host, events, k);
    AtNext(host, events, k);
    AtNext(host, events, k + 1);
    AtNext(host, events, k + 2);
    AtNext(host, events, k + 3);
    var t := Refresh(None, None, Asking);
    assert At(host, events, k + 1) == State(s.host, s.stored, s.refreshes + [t]);
    hide Step;
    LastMoves(At(host, events, k + 1), s.refreshes, t, ReadKnown(i));
    var t2 := t.(known := Some(KnownHash(s.stored)));
    LastMoves(At(host, events, k + 2), s.refreshes, t2, HostAccept(i));
    LastMoves(At(host, events, k + 3), s.refreshes, t2.(ctx := Some(s.host)), Answer(i, true));
  }

  lemma JoinedStores(c: ShareConfig, events: seq<Event>)
    requires JOINED <= events && Storable(ShareInfoOf(c))
    ensures At(c, events, 4) == State(c, Some(StoredOf(ShareInfoOf(c))), [Refresh(Some(None), Some(c), Finished)])
  {
    assert events[0] == Join && events[1] == HostAccept(0) && events[2] == Answer(0, true) && events[3] == Store(0);
    assert At(c, events, 0) == State(c, None, []);
    var t := Refresh(Some(None), None, Asking);
    AtNext(c, events, 0);
    assert At(c, events, 1) == State(c, None, [] + [t]);
    JoinMoves(c, events, t);
    hide At, Step, ShareInfoOf, StoredOf, Storable;
    AtNext(c, events, 3);
    LastMoves(At(c, events, 3), [], t.(ctx := Some(c), phase := Answered(Some(ShareInfoOf(c)))), Store(0));
  }

  lemma JoinMoves(c: ShareConfig, events: seq<Event>, t: Refresh)
    requires |events| > 3 && events[1] == HostAccept(0) && events[2] == Answer(0, true)
    requires t == Refresh(Some(None), None, Asking) && At(c, events, 1) == State(c, None, [] + [t])
    ensures At(c, events, 3) == State(c, None, [] + [t.(ctx := Some(c), phase := Answered(Some(ShareInfoOf(c))))])
  {
    hide At, Step, ShareInfoOf;
    AtNext(c, events, 1);
    AtNext(c, events, 2);
    LastMoves(At(c, events, 1), [], t, HostAccept(0));
    LastMoves(At(c, events, 2), [], t.(ctx := Some(c)), Answer(0, true));
  }

  /** Without the restriction the claim fails: for any two validated configs that hash differently. */
  lemma OverlapLeavesAnother(c: ShareConfig, d: ShareConfig)
    requires Validated(c) && Validated(d) && HashOf(c) != HashOf(d)
    ensures var s := At(c, Overlapped(d), 15);
            && |s.refreshes| == 3 && s.refreshes[1].phase.Finished? && s.refreshes[1].ctx == Some(c)
            && s.stored == Some(StoredOf(ShareInfoOf(d))) && ShareInfoOf(d) != ShareInfoOf(c)
  {
    assert ShareInfoOf(d) != ShareInfoOf(c);
    ValidatedIsStorable(c);
    ValidatedIsStorable(d);
    hide At, ShareInfoOf, StoredOf, HashOf, Overlapped, Storable, Validated;
    OverlappedShape(d);
    UpToTheReload(c, d);
    UpToTheEnd(c, d);
    LastSteps(c, Overlapped(d), At(c, Overlapped(d), 13));
  }

  /** A host that validated its config always sends a list of apps that can be stored. */
  lemma ValidatedIsStorable(c: ShareConfig)
    requires Validated(c)
    ensures Storable(ShareInfoOf(c))
  {
    hide ValidApp, Trim, HashOf;
    var apps := ShareInfoOf(c).apps;
    assert forall i :: 0 <= i < |apps| ==> apps[i].id == c.apps[i].id;
  }

  lemma OverlappedShape(d: ShareConfig)
    ensures var run := Overlapped(d);
            && |run| == 15 && JOINED <= run
            && run[4..8] == [Start, ReadKnown(1), HostAccept(1), Answer(1, true)]
            && run[8] == Reload(Some(d))
            && run[9..13] == [Start, ReadKnown(2), HostAccept(2), Answer(2, true)]
            && run[13] == Store(2) && run[14] == Store(1)
  {
  }

  lemma UpToTheReload(c: ShareConfig, d: ShareConfig)
    requires HashOf(c) != HashOf(d) && Storable(ShareInfoOf(c))
    ensures |Overlapped(d)| == 15
    ensures var s := At(c, Overlapped(d), 9);
            && s.host == d && s.stored == Some(StoredOf(ShareInfoOf(c)))
            && |s.refreshes| == 2 && s.refreshes[1] == Refresh(Some(Some(HashOf(c))), Some(c), Answered(None))
  {
    hide At, ShareInfoOf, StoredOf, Respond, KnownHash, HashOf, Overlapped, Storable;
    OverlappedShape(d);
    JoinedStores(c, Overlapped(d));
    AnsweredAlone(c, Overlapped(d), 4, 1);
    StoredHashReads(c);
    UnchangedExactly(c, Some(HashOf(c)));
    AtNext(c, Overlapped(d), 8);
  }

  lemma UpToTheEnd(c: ShareConfig, d: ShareConfig)
    requires HashOf(c) != HashOf(d) && Storable(ShareInfoOf(c))
    ensures |Overlapped(d)| == 15
    ensures var s := At(c, Overlapped(d), 13);
            && |s.refreshes| == 3 && s.refreshes[1] == Refresh(Some(Some(HashOf(c))), Some(c), Answered(None))
            && s.refreshes[2] == Refresh(Some(Some(HashOf(c))), Some(d), Answered(Some(ShareInfoOf(d))))
  {
    hide At, ShareInfoOf, StoredOf, Respond, KnownHash, HashOf, Overlapped, Storable;
    OverlappedShape(d);
    UpToTheReload(c, d);
    StoredHashReads(c);
    UnchangedExactly(d, Some(HashOf(c)));
    AnsweredAlone(c, Overlapped(d), 9, 2);
  }

  lemma LastSteps(c: ShareConfig, run: seq<Event>, s: State)
    requires |run| == 15 && run[13] == Store(2) && run[14] == Store(1) && s == At(c, run, 13) && |s.refreshes| == 3
    requires s.refreshes[1].phase == Answered(None) && s.refreshes[2].phase.Answered? && s.refreshes[2].phase.info.Some?
    requires Storable(s.refreshes[2].phase.info.value)
    ensures var s' := At(c, run, 15);
            && |s'.refreshes| == 3 && s'.refreshes[1] == s.refreshes[1].(phase := Finished)
            && s'.stored == Some(StoredOf(s.refreshes[2].phase.info.value))
  {
    hide At, StoredOf, Storable;
    AtNext(c, run, 13);
    AtNext(c, run, 14);
  }

  //-- Reloads --------------------------------------------------------------------------------------

  /**
   Among validated NUL-free configs a reload fails to serve the file it read only when two
   different byte streams have the same hash.
   */
  lemma LostReloadIsACollision(current: ShareConfig, loaded: ShareConfig)
    requires Validated(current) && Validated(loaded) && NulFree(Fields(current)) && NulFree(Fields(loaded))
    ensures Reloaded(current, loaded) != loaded <==>
              Stream(current) != Stream(loaded) && Fnv1a.Hash(Stream(current)) == Fnv1a.Hash(Stream(loaded))
  {
    StreamDeterminesConfig(current, loaded);
    hide Validated, NulFree, Fields, Fnv1a.Hash;
  }

  /** A reload can be lost: any config with an app or a certificate has a colliding one with another name. */
  lemma ReloadCanBeLost(current: ShareConfig) returns (loaded: ShareConfig)
    requires Validated(current) && (current.apps != [] || current.caCertificates != [])
    ensures Validated(loaded) && Reloaded(current, loaded) == current && loaded != current
  {
    hide Validated, Stream, Fields, Fnv1a.Hash;
    loaded := NulInNameCollides(current);
  }

  //-- The stored rows --------------------------------------------------------------------------------

  function KindOf(text: string): AppKind {
    if text == "jellyfin" then Jellyfin else if text == "immich" then Immich else Web
  }

  function WireModeText(mode: WireMode): string {
    match mode
    case WireReverseProxy => "reverse-proxy"
    case WireForwardProxy => "forward-proxy"
    case WireUnknown => "unknown"
  }

  function ModeOf(text: string): WireMode {
    if text == "reverse-proxy" then WireReverseProxy else if text == "forward-proxy" then WireForwardProxy else WireUnknown
  }

  datatype AppRow = AppRow(position: nat, name: string, kind: string, mode: string, startUrl: Option<string>, origins: seq<string>)

  function RowOf(position: nat, app: SharedApp): AppRow {
    AppRow(position, app.name, KindName(app.kind), WireModeText(app.mode), app.startUrl, app.proxiedOrigins)
  }

  function AppOf(id: string, row: AppRow): SharedApp {
    SharedApp(id, row.name, KindOf(row.kind), ModeOf(row.mode), row.startUrl, row.origins)
  }

  lemma AppReadsBack(position: nat, app: SharedApp)
    ensures AppOf(app.id, RowOf(position, app)) == app
  {
    assert KindOf(KindName(app.kind)) == app.kind;
    assert "reverse-proxy"[0] != "forward-proxy"[0];
    assert "unknown"[0] != "forward-proxy"[0] && "unknown"[0] != "reverse-proxy"[0];
  }

  /** The table holds exactly these apps, each at its place. */
  ghost predicate Tabled(table: map<string, AppRow>, apps: seq<SharedApp>) {
    && (forall i :: 0 <= i < |apps| ==> apps[i].id in table && table[apps[i].id] == RowOf(i, apps[i]))
    && (forall id :: id in table ==> table[id].position < |apps| && apps[table[id].position].id == id)
  }

  class ShareRow {
    var hash: Option<string>
    var name: string
    var caCertificates: seq<string>
    var apps: map<string, AppRow>
    ghost var copy: Option<Stored>

    ghost predicate Valid()
      reads this
    {
      match copy
      case Some(c) => hash == Some(c.hash) && name == c.name && caCertificates == c.caCertificates && Tabled(apps, c.apps)
      case None => hash == None && Tabled(apps, [])
    }

    constructor ()
      ensures Valid() && copy == None
    {
      hash, name, caCertificates, apps, copy := None, "", [], map[], None;
    }

    /** One transaction: a repeated app id rolls everything back. */
    method WriteShareInfo(info: ShareInfo) returns (ok: bool)
      requires Valid()
      modifies this
      ensures Valid() && ok == Storable(info)
      ensures copy == if ok then Some(StoredOf(info)) else old(copy)
    {
      var table := InsertApps(info.apps);
      if table.None? {
        return false;
      }
      name, hash, caCertificates, apps := info.name, Some(HashText(info.configHash)), info.caCertificates, table.value;
      copy := Some(StoredOf(info));
      return true;
    }

    /** The apps as last fetched, in the host's order. */
    method ReadApps() returns (r: seq<SharedApp>)
      requires Valid()
      ensures r == if copy.Some? then copy.value.apps else []
    {
      ghost var all := if copy.Some? then copy.value.apps else [];
      r := [];
      PlacesTaken(apps, all);
      while HasPlace(apps, |r|)
        invariant r <= all
        decreases |all| - |r|
      {
        var id: string :| id in apps && apps[id].position == |r|;
        AppReadsBack(|r|, all[|r|]);
        r := r + [AppOf(id, apps[id])];
      }
    }
  }

  /** The inserts of the transaction, each app with its position; `None` once a key repeats. */
  method InsertApps(apps: seq<SharedApp>) returns (r: Option<map<string, AppRow>>)
    ensures r.Some? <==> DistinctApps(apps)
    ensures r.Some? ==> Tabled(r.value, apps)
  {
    hide RowOf, Tabled;
    var table: map<string, AppRow> := map[];
    assert Tabled(table, []) by { EmptyTabled(); }
    for position := 0 to |apps|
      invariant Tabled(table, apps[..position])
      invariant DistinctApps(apps[..position])
    {
      var app := apps[position];
      InsertFinds(table, apps, position);
      if app.id in table {
        return None;
      }
      TabledGrows(table, apps[..position], app);
      assert apps[..position] + [app] == apps[..position + 1];
      table := table[app.id := RowOf(position, app)];
    }
    assert apps[..|apps|] == apps;
    return Some(table);
  }

  lemma EmptyTabled()
    ensures Tabled(map[], [])
  {
  }

  /** The key is taken exactly if an earlier app has the id. */
  lemma InsertFinds(table: map<string, AppRow>, apps: seq<SharedApp>, n: nat)
    requires n < |apps| && Tabled(table, apps[..n]) && DistinctApps(apps[..n])
    ensures apps[n].id in table ==> !DistinctApps(apps)
    ensures apps[n].id !in table ==> DistinctApps(apps[..n + 1])
  {
    var before, app := apps[..n], apps[n];
    if app.id in table {
      var j := table[app.id].position;
      assert before[j].id == app.id && apps[j] == before[j];
    } else {
      var more := apps[..n + 1];
      assert forall i :: 0 <= i < n ==> more[i] == before[i] && before[i].id in table;
    }
  }

  predicate HasPlace(table: map<string, AppRow>, n: nat) {
    exists id :: id in table && table[id].position == n
  }

  lemma PlacesTaken(table: map<string, AppRow>, apps: seq<SharedApp>)
    requires Tabled(table, apps)
    ensures forall n: nat :: HasPlace(table, n) <==> n < |apps|
  {
    forall n: nat | n < |apps| ensures HasPlace(table, n) {
      assert apps[n].id in table;
    }
  }

  lemma TabledGrows(table: map<string, AppRow>, apps: seq<SharedApp>, app: SharedApp)
    requires Tabled(table, apps) && app.id !in table
    ensures Tabled(table[app.id := RowOf(|apps|, app)], apps + [app])
  {
    assert RowOf(|apps|, app).position == |apps|;
    hide RowOf;
  }
}
