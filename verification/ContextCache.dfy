/** The context cache and its keyed invalidation, against a plain map from requests to contexts
    (context-cache-manager.ts:8-24, 70-148). */
module ContextCache {
  import opened Options
  import opened Strings
  import opened ContextKeys

  const CONTEXT_CACHE_TTL_MS: int := 30_000

  datatype CacheMode = Aggressive | Normal | Bypass
  datatype Cached<D, R> = Cached(data: D, expiresAt: int, runtime: Option<R>)
  datatype SliceId = Project | RecentTasks | LatestMetrics | GraphSummary | RecentEvents | Workflows | WorldState

  function SliceToSections(slice: SliceId): (r: seq<string>)
    ensures PlainSections(r) && (r == [] <==> slice.Project?)
  {
    match slice
    case Project => []
    case RecentTasks => ["tasks"]
    case LatestMetrics => ["metrics"]
    case GraphSummary => ["graphEntities", "graphRelationships"]
    case RecentEvents => ["events"]
    case Workflows => ["workflows"]
    case WorldState => ["worldState"]
  }

  // ---- Effects on the keyed map ----

  function AfterProject<V>(m: map<string, V>, projectId: string): map<string, V> {
    map k | k in m && !HitByProject(k, projectId) :: m[k]
  }

  function AfterSections<V>(m: map<string, V>, projectId: string, targets: seq<string>): map<string, V> {
    map k | k in m && !HitBySections(k, projectId, targets) :: m[k]
  }

  function AfterSlice<V>(m: map<string, V>, projectId: string, slice: SliceId): map<string, V> {
    var targets := SliceToSections(slice);
    if targets == [] then AfterProject(m, projectId) else AfterSections(m, projectId, targets)
  }

  function Entry<D, R>(data: D, mode: CacheMode, runtime: Option<R>, now: int): Cached<D, R> {
    Cached(data, now + (if mode.Aggressive? then CONTEXT_CACHE_TTL_MS * 4 else CONTEXT_CACHE_TTL_MS), runtime)
  }

  class ContextCache<D, R> {
    var entries: map<string, Cached<D, R>>
    var hasNotifier: bool
    /** The projects the notifier was called with, whether or not it threw. */
    var notified: seq<string>

    constructor ()
      ensures entries == map[] && !hasNotifier && notified == []
    {
      entries, hasNotifier, notified := map[], false, [];
    }

    method Get(key: string, mode: CacheMode) returns (r: Option<Cached<D, R>>)
      ensures r.Some? <==> !mode.Bypass? && key in entries
      ensures r.Some? ==> r.value == entries[key]
    {
      if mode.Bypass? || key !in entries {
        return None;
      }
      r := Some(entries[key]);
    }

    method Set(key: string, data: D, mode: CacheMode, runtime: Option<R>, now: int)
      modifies this`entries
      ensures entries == if mode.Bypass? then old(entries) else old(entries)[key := Entry(data, mode, runtime, now)]
    {
      if mode.Bypass? {
        return;
      }
      entries := entries[key := Entry(data, mode, runtime, now)];
    }

    method SetInvalidationNotifier()
      modifies this`hasNotifier
      ensures hasNotifier
    {
      hasNotifier := true;
    }

    /** The loop shared by an invalidation and by a notification from another process. */
    method DeleteProject(projectId: string)
      modifies this`entries
      ensures entries == AfterProject(old(entries), projectId)
    {
      var keys := entries.Keys;
      while keys != {}
        invariant keys <= old(entries).Keys
        invariant entries == map k | k in old(entries) && (k in keys || !HitByProject(k, projectId)) :: old(entries)[k]
        decreases |keys|
      {
        var key :| key in keys;
        keys := keys - {key};
        if HitByProject(key, projectId) {
          entries := entries - {key};
        }
      }
    }

    method InvalidateContextCache(projectId: string)
      modifies this`entries, this`notified
      ensures entries == AfterProject(old(entries), projectId)
      ensures notified == if hasNotifier then old(notified) + [projectId] else old(notified)
    {
      DeleteProject(projectId);
      if hasNotifier {
        notified := notified + [projectId];
      }
    }

    /** Only the invalidation of a whole project tells other processes. */
    method InvalidateContextSlice(projectId: string, slice: SliceId)
      modifies this`entries, this`notified
      ensures entries == AfterSlice(old(entries), projectId, slice)
      ensures notified == if slice.Project? && hasNotifier then old(notified) + [projectId] else old(notified)
    {
      var targets := SliceToSections(slice);
      if targets == [] {
        InvalidateContextCache(projectId);
        return;
      }
      var keys := entries.Keys;
      while keys != {}
        invariant keys <= old(entries).Keys && notified == old(notified)
        invariant entries == map k | k in old(entries) && (k in keys || !HitBySections(k, projectId, targets)) :: old(entries)[k]
        decreases |keys|
      {
        var key :| key in keys;
        keys := keys - {key};
        if HitBySections(key, projectId, targets) {
          entries := entries - {key};
        }
      }
    }

    method OnNotification(channel: string, payload: string)
      modifies this`entries
      ensures entries == if channel == "ctx_invalid" && payload != "" then AfterProject(old(entries), payload) else old(entries)
    {
      if channel == "ctx_invalid" && payload != "" {
        DeleteProject(payload);
      }
    }
  }

  // ---- The plain map ----

  /** What a caller asks for: the key's components, the sections as a set. */
  datatype Request = Request(projectId: string, sections: set<string>, planHash: string, sourceRoot: string)

  predicate Plain(r: Request) {
    && ':' !in r.projectId && ':' !in r.sourceRoot
    && forall s :: s in r.sections ==> s != "" && ',' !in s && ':' !in s
  }

  ghost function Listing(s: set<string>): (r: seq<string>)
    ensures Elements(r) == s
  {
    if s == {} then []
    else
      var x :| x in s;
      assert s == Elements(Listing(s - {x})) + {x};
      assert forall y :: y in Listing(s - {x}) + [x] <==> y in Listing(s - {x}) || y == x;
      Listing(s - {x}) + [x]
  }

  ghost function KeyOf(r: Request): string {
    BuildContextCacheKey(r.projectId, Listing(r.sections), r.planHash, r.sourceRoot)
  }

  lemma KeyOfAnyListing(p: string, sections: seq<string>, plan: string, root: string)
    ensures BuildContextCacheKey(p, sections, plan, root) == KeyOf(Request(p, Elements(sections), plan, root))
  {
    KeyDependsOnSetOfSections(p, sections, Listing(Elements(sections)), plan, root);
  }

  lemma PlainListing(r: Request)
    requires Plain(r)
    ensures PlainSections(Listing(r.sections))
  {
    var listing := Listing(r.sections);
    forall i | 0 <= i < |listing| ensures listing[i] in r.sections {
      assert listing[i] in Elements(listing);
    }
  }

  lemma KeyOfIsInjective(r: Request, s: Request)
    requires Plain(r) && Plain(s) && KeyOf(r) == KeyOf(s)
    ensures r == s
  {
    PlainListing(r);
    PlainListing(s);
    KeyDeterminesRequest(r.projectId, Listing(r.sections), r.planHash, r.sourceRoot,
                         s.projectId, Listing(s.sections), s.planHash, s.sourceRoot);
  }

  predicate Meets(targets: seq<string>, sections: set<string>) { exists i :: 0 <= i < |targets| && targets[i] in sections }

  lemma HitsOfRequest(r: Request, p: string, targets: seq<string>)
    requires Plain(r) && ':' !in p && PlainSections(targets)
    ensures HitByProject(KeyOf(r), p) <==> r.projectId == p
    ensures HitBySections(KeyOf(r), p, targets) <==> r.projectId == p && Meets(targets, r.sections)
  {
    var listing := Listing(r.sections);
    PlainListing(r);
    ProjectHitsItsKeys(p, r.projectId, listing, r.planHash, r.sourceRoot);
    SliceHitsItsSections(p, r.projectId, listing, r.planHash, r.sourceRoot, targets);
    assert forall s :: s in listing <==> s in Elements(listing);
  }

  datatype Op<D, R> =
    | Put(request: Request, data: D, mode: CacheMode, runtime: Option<R>, now: int)
    | DropProject(projectId: string)
    | DropSlice(projectId: string, slice: SliceId)

  predicate PlainOp<D, R>(op: Op<D, R>) { if op.Put? then Plain(op.request) else ':' !in op.projectId }

  /** What the operation does to the keyed map. */
  ghost function OnKeys<D, R>(m: map<string, Cached<D, R>>, op: Op<D, R>): map<string, Cached<D, R>> {
    match op
    case Put(r, data, mode, runtime, now) => if mode.Bypass? then m else m[KeyOf(r) := Entry(data, mode, runtime, now)]
    case DropProject(p) => AfterProject(m, p)
    case DropSlice(p, slice) => AfterSlice(m, p, slice)
  }

  predicate Dropped(r: Request, p: string, slice: SliceId) {
    r.projectId == p && (slice.Project? || Meets(SliceToSections(slice), r.sections))
  }

  /** What the caller means by it. */
  function OnRequests<D, R>(m: map<Request, Cached<D, R>>, op: Op<D, R>): map<Request, Cached<D, R>> {
    match op
    case Put(r, data, mode, runtime, now) => if mode.Bypass? then m else m[r := Entry(data, mode, runtime, now)]
    case DropProject(p) => map r | r in m && r.projectId != p :: m[r]
    case DropSlice(p, slice) => map r | r in m && !Dropped(r, p, slice) :: m[r]
  }

  /** The keyed map holds the plain map's entries, each under its key, and nothing else. */
  ghost predicate Represents<D, R>(keyed: map<string, Cached<D, R>>, plain: map<Request, Cached<D, R>>) {
    && (forall r :: r in plain ==> Plain(r) && KeyOf(r) in keyed && keyed[KeyOf(r)] == plain[r])
    && (forall k :: k in keyed ==> HasRequest(plain, k))
  }

  ghost predicate HasRequest<V>(plain: map<Request, V>, key: string) { exists r :: r in plain && KeyOf(r) == key }

  lemma PutRefines<D, R>(keyed: map<string, Cached<D, R>>, plain: map<Request, Cached<D, R>>, op: Op<D, R>)
    requires Represents(keyed, plain) && PlainOp(op) && op.Put?
    ensures Represents(OnKeys(keyed, op), OnRequests(plain, op))
  {
    if !op.mode.Bypass? {
      var after := OnRequests(plain, op);
      forall r | r in plain && KeyOf(r) == KeyOf(op.request) ensures r == op.request {
        KeyOfIsInjective(r, op.request);
      }
      forall k | k in OnKeys(keyed, op) ensures HasRequest(after, k) {
        if k == KeyOf(op.request) {
          assert op.request in after;
        } else {
          var r :| r in plain && KeyOf(r) == k;
          assert r in after;
        }
      }
    }
  }

  lemma DropAgrees<D, R>(keyed: map<string, Cached<D, R>>, plain: map<Request, Cached<D, R>>, op: Op<D, R>, r: Request)
    requires r in plain && Plain(r) && KeyOf(r) in keyed && PlainOp(op) && !op.Put?
    ensures r in OnRequests(plain, op) <==> KeyOf(r) in OnKeys(keyed, op)
  {
    HitsOfRequest(r, op.projectId, if op.DropSlice? then SliceToSections(op.slice) else []);
  }

  lemma DropRefines<D, R>(keyed: map<string, Cached<D, R>>, plain: map<Request, Cached<D, R>>, op: Op<D, R>)
    requires Represents(keyed, plain) && PlainOp(op) && !op.Put?
    ensures Represents(OnKeys(keyed, op), OnRequests(plain, op))
  {
    forall r | r in plain ensures r in OnRequests(plain, op) <==> KeyOf(r) in OnKeys(keyed, op) {
      DropAgrees(keyed, plain, op, r);
    }
    forall k | k in OnKeys(keyed, op) ensures HasRequest(OnRequests(plain, op), k) {
      var r :| r in plain && KeyOf(r) == k;
      assert r in OnRequests(plain, op);
    }
  }

  ghost function RunOnKeys<D, R>(ops: seq<Op<D, R>>): map<string, Cached<D, R>> {
    if ops == [] then map[] else OnKeys(RunOnKeys(ops[..|ops| - 1]), ops[|ops| - 1])
  }

  function RunOnRequests<D, R>(ops: seq<Op<D, R>>): map<Request, Cached<D, R>> {
    if ops == [] then map[] else OnRequests(RunOnRequests(ops[..|ops| - 1]), ops[|ops| - 1])
  }

  /** Over every run of writes and invalidations, the keyed cache answers each request as the plain
      map does. */
  lemma {:induction false} CacheRefinesPlainMap<D, R>(ops: seq<Op<D, R>>)
    requires forall i :: 0 <= i < |ops| ==> PlainOp(ops[i])
    ensures Represents(RunOnKeys(ops), RunOnRequests(ops))
    ensures forall r :: Plain(r) ==> (KeyOf(r) in RunOnKeys(ops) <==> r in RunOnRequests(ops))
  {
    if ops != [] {
      var init, op := ops[..|ops| - 1], ops[|ops| - 1];
      CacheRefinesPlainMap(init);
      if op.Put? {
        PutRefines(RunOnKeys(init), RunOnRequests(init), op);
      } else {
        DropRefines(RunOnKeys(init), RunOnRequests(init), op);
      }
    }
    forall r | Plain(r) && KeyOf(r) in RunOnKeys(ops) ensures r in RunOnRequests(ops) {
      assert HasRequest(RunOnRequests(ops), KeyOf(r));
      var s :| s in RunOnRequests(ops) && KeyOf(s) == KeyOf(r);
      KeyOfIsInjective(r, s);
    }
  }

  // ---- Requests without sections ----

  const ALL_CONTEXT_SECTIONS: set<string> :=
    {"tasks", "metrics", "graphEntities", "graphRelationships", "events", "workflows", "worldState"}

  /** The sections the loader loads for a request: all of them when none is named. */
  function Loaded(sections: set<string>): set<string> { if sections == {} then ALL_CONTEXT_SECTIONS else sections }

  /** An entry of the project that still holds a section of the slice. */
  predicate Stale<V>(m: map<Request, V>, p: string, slice: SliceId, r: Request) {
    r in m && r.projectId == p && Meets(SliceToSections(slice), Loaded(r.sections))
  }

  lemma SlicesAreLoaded(slice: SliceId)
    requires !slice.Project?
    ensures Meets(SliceToSections(slice), ALL_CONTEXT_SECTIONS)
  {
    assert SliceToSections(slice)[0] in ALL_CONTEXT_SECTIONS;
  }

  /** The keyed cache still holds, for a request of the project, a section of the slice. */
  ghost predicate StaleKey<V>(m: map<string, V>, p: string, slice: SliceId, r: Request) {
    KeyHeld(m, p, r) && Meets(SliceToSections(slice), Loaded(r.sections))
  }

  ghost predicate KeyHeld<V>(m: map<string, V>, p: string, r: Request) { Plain(r) && r.projectId == p && KeyOf(r) in m }

  lemma KeySurvivesIff<D, R>(m: map<string, Cached<D, R>>, p: string, slice: SliceId, r: Request)
    requires !slice.Project? && ':' !in p && Plain(r)
    ensures KeyOf(r) in AfterSlice(m, p, slice) <==>
              KeyOf(r) in m && !(r.projectId == p && Meets(SliceToSections(slice), r.sections))
  {
    HitsOfRequest(r, p, SliceToSections(slice));
  }

  /** Invalidating a slice leaves a stale entry of the project in the cache exactly when one of the
      project's entries was requested without naming sections. */
  lemma SliceLeavesStaleIff<D, R>(m: map<string, Cached<D, R>>, p: string, slice: SliceId)
    requires !slice.Project? && ':' !in p
    ensures (exists r :: StaleKey(AfterSlice(m, p, slice), p, slice, r)) <==>
            (exists r :: KeyHeld(m, p, r) && r.sections == {})
  {
    if r :| KeyHeld(m, p, r) && r.sections == {} {
      SlicesAreLoaded(slice);
      KeySurvivesIff(m, p, slice, r);
      assert StaleKey(AfterSlice(m, p, slice), p, slice, r);
    }
    if r :| StaleKey(AfterSlice(m, p, slice), p, slice, r) {
      KeySurvivesIff(m, p, slice, r);
      assert KeyHeld(m, p, r);
    }
  }

  /** The same for what the caller means by the cache. */
  lemma SliceLeavesStaleRequestIff<D, R>(m: map<Request, Cached<D, R>>, p: string, slice: SliceId)
    requires !slice.Project?
    ensures (exists r :: Stale(OnRequests(m, Op<D, R>.DropSlice(p, slice)), p, slice, r)) <==>
            (exists r :: r in m && r.projectId == p && r.sections == {})
  {
    var after := OnRequests(m, Op<D, R>.DropSlice(p, slice));
    if r :| r in m && r.projectId == p && r.sections == {} {
      SlicesAreLoaded(slice);
      assert Stale(after, p, slice, r);
    }
    if r :| Stale(after, p, slice, r) {
      assert r in m && !Dropped(r, p, slice);
    }
  }
}
