/**
 * The `RadixRouter` class of src/RadixRouter.php: routes are queued by
 * `addRoute`, injected into the trie matcher (and indexed by name) on the
 * first `match` or `generateUri` after they were queued, and the trie's
 * tables are loaded from or saved to a cache file when caching is enabled.
 */
module Router {
  import opened Wrappers
  import opened RouterErrors
  import opened PathNormalizer
  import opened PathTemplate
  import opened UriGeneration
  import opened PercentDecoding
  import opened TrieMatcher
  import opened FileStore

  /** A route: its path pattern, its name, and its methods (`None` for any). */
  datatype Route = Route(path: string, name: string, methods: Option<seq<string>>)

  /** The outcome of a match: the matched route with its parameters, or a
      failure carrying the allowed methods (`None` when the path matched
      nothing, a list when only the method was wrong). */
  datatype RouteResult =
    | Matched(route: Route, params: map<string, string>)
    | RouteFailure(allowedMethods: Option<seq<string>>)
  {
    predicate IsMethodFailure() {
      RouteFailure? && allowedMethods.Some?
    }
  }

  /** The configuration array; a key that is absent or null is `None`. */
  datatype Config = Config(cacheEnabled: Option<bool>, cacheFile: Option<string>)

  // ---- Name index ----

  /** Every route is stored under its own name. */
  predicate IndexedByName(routes: map<string, Route>) {
    forall name :: name in routes ==> routes[name].name == name
  }

  /** The index after storing each queued route under its name, in order. */
  function IndexAll(routes: map<string, Route>, queue: seq<Route>): map<string, Route> {
    if queue == [] then routes
    else
      var last := queue[|queue| - 1];
      IndexAll(routes, queue[..|queue| - 1])[last.name := last]
  }

  /** A queued route is found under its name unless a later route has the
      same name (the last one wins). */
  lemma {:induction false} IndexAllLastWins(routes: map<string, Route>, queue: seq<Route>, j: nat)
    requires j < |queue|
    requires forall k :: j < k < |queue| ==> queue[k].name != queue[j].name
    ensures queue[j].name in IndexAll(routes, queue)
    ensures IndexAll(routes, queue)[queue[j].name] == queue[j]
  {
    if j < |queue| - 1 {
      IndexAllLastWins(routes, queue[..|queue| - 1], j);
    }
  }

  /** A name no queued route carries keeps its earlier entry, or its absence. */
  lemma {:induction false} IndexAllKeeps(routes: map<string, Route>, queue: seq<Route>, name: string)
    requires forall k :: 0 <= k < |queue| ==> queue[k].name != name
    ensures name in IndexAll(routes, queue) <==> name in routes
    ensures name in routes ==> IndexAll(routes, queue)[name] == routes[name]
  {
    if queue != [] {
      IndexAllKeeps(routes, queue[..|queue| - 1], name);
    }
  }

  lemma {:induction false} IndexAllByName(routes: map<string, Route>, queue: seq<Route>)
    requires IndexedByName(routes)
    ensures IndexedByName(IndexAll(routes, queue))
  {
    if queue != [] {
      IndexAllByName(routes, queue[..|queue| - 1]);
    }
  }

  lemma IndexAllSnoc(routes: map<string, Route>, queue: seq<Route>, i: nat)
    requires i < |queue|
    ensures IndexAll(routes, queue[..i + 1]) == IndexAll(routes, queue[..i])[queue[i].name := queue[i]]
  {
    assert queue[..i + 1][..i] == queue[..i];
  }

  // ---- Trie registrations ----

  /** The methods a route is registered for: its own, or every method the
      trie knows when it has none (null or empty). */
  function EffectiveMethods(route: Route, any: seq<string>): (r: seq<string>)
    ensures route.methods.Some? && route.methods.value != [] ==> r == route.methods.value
    ensures route.methods == None || route.methods == Some([]) ==> r == any
  {
    if route.methods == None || route.methods == Some([]) then any else route.methods.value
  }

  function RegistrationOf(route: Route, any: seq<string>): Registration {
    Registration(EffectiveMethods(route, any), route.path, route.name)
  }

  /** The `add` calls for a queue of routes, one per route in queue order. */
  function Registrations(queue: seq<Route>, any: seq<string>): (regs: seq<Registration>)
    ensures |regs| == |queue|
    ensures forall i :: 0 <= i < |queue| ==> regs[i] == RegistrationOf(queue[i], any)
  {
    seq(|queue|, i requires 0 <= i < |queue| => RegistrationOf(queue[i], any))
  }

  lemma RegistrationsSnoc(queue: seq<Route>, any: seq<string>, i: nat)
    requires i < |queue|
    ensures Registrations(queue[..i + 1], any) == Registrations(queue[..i], any) + [RegistrationOf(queue[i], any)]
  {
  }

  /** The `add` calls for the first `n` queued routes, or none when the
      cache was loaded. */
  function Added(queue: seq<Route>, n: nat, any: seq<string>, cached: bool): seq<Registration>
    requires n <= |queue|
  {
    if cached then [] else Registrations(queue[..n], any)
  }

  lemma AddedSnoc(queue: seq<Route>, i: nat, any: seq<string>, cached: bool)
    requires i < |queue|
    ensures Added(queue, i + 1, any, cached) == Added(queue, i, any, cached) + if cached then [] else [RegistrationOf(queue[i], any)]
  {
    if !cached {
      RegistrationsSnoc(queue, any, i);
    }
  }

  /** Storing routes only adds names: every earlier name stays, and every
      queued name is present. */
  lemma {:induction false} IndexAllGrows(routes: map<string, Route>, queue: seq<Route>)
    ensures routes.Keys <= IndexAll(routes, queue).Keys
    ensures forall k :: 0 <= k < |queue| ==> queue[k].name in IndexAll(routes, queue)
  {
    if queue != [] {
      var front := queue[..|queue| - 1];
      IndexAllGrows(routes, front);
      forall k | 0 <= k < |front| ensures queue[k] == front[k] {
      }
    }
  }

  /** Every handler in the log from `start` on is a name in the index. */
  predicate RegisteredIn(log: seq<Registration>, start: nat, routes: map<string, Route>) {
    start <= |log| && forall k :: start <= k < |log| ==> log[k].handler in routes
  }

  /** After the first `n` of `m` indexed routes are registered, every
      handler registered since `start` is still indexed. */
  lemma RegisteredAfter(log: seq<Registration>, routes: map<string, Route>, start: nat,
                        queue: seq<Route>, n: nat, m: nat, any: seq<string>, cached: bool)
    requires RegisteredIn(log, start, routes)
    requires n <= m <= |queue|
    ensures RegisteredIn(log + Added(queue, n, any, cached), start, IndexAll(routes, queue[..m]))
  {
    IndexAllGrows(routes, queue[..m]);
    var log' := log + Added(queue, n, any, cached);
    forall k | start <= k < |log'| ensures log'[k].handler in IndexAll(routes, queue[..m]) {
      if k >= |log| {
        assert !cached && log'[k].handler == queue[..m][k - |log|].name;
      }
    }
  }

  /** No path among the first `i` queued routes is refused. */
  predicate AcceptedBefore(queue: seq<Route>, rejected: map<string, string>, i: nat) {
    forall k :: 0 <= k < i && k < |queue| ==> queue[k].path !in rejected
  }

  /** An accepted route extends the accepted prefix by one. */
  lemma AcceptedSnoc(queue: seq<Route>, rejected: map<string, string>, i: nat)
    requires i < |queue| && queue[i].path !in rejected
    requires AcceptedBefore(queue, rejected, i)
    ensures AcceptedBefore(queue, rejected, i + 1)
  {
  }

  /** Injection stopping at a refused path `i`: it is the first refused one,
      and the index stays keyed by name. */
  lemma StopsAt(queue: seq<Route>, rejected: map<string, string>, i: nat, routes: map<string, Route>)
    requires i < |queue| && queue[i].path in rejected
    requires AcceptedBefore(queue, rejected, i)
    requires IndexedByName(routes)
    ensures FirstRejected(queue, rejected) == Some(i)
    ensures IndexedByName(IndexAll(routes, queue[..i + 1]))
  {
    FirstRejectedAt(queue, rejected, i);
    IndexAllByName(routes, queue[..i + 1]);
  }

  /** Injection running through the whole queue: no path was refused (or
      none was added), and the index stays keyed by name. */
  lemma RunsThrough(queue: seq<Route>, rejected: map<string, string>, routes: map<string, Route>, cached: bool)
    requires !cached ==> AcceptedBefore(queue, rejected, |queue|)
    requires IndexedByName(routes)
    ensures queue[..|queue|] == queue
    ensures FirstRejected(queue, rejected).None? || cached
    ensures IndexedByName(IndexAll(routes, queue))
  {
    assert queue[..|queue|] == queue;
    IndexAllByName(routes, queue);
  }

  /** Whether injection stopped at the first refused path or ran through,
      every handler registered since `start` is still indexed. */
  lemma InjectionKeepsRegistered(log: seq<Registration>, routes: map<string, Route>, start: nat, queue: seq<Route>,
                                 rejected: map<string, string>, any: seq<string>, cached: bool, failed: bool)
    requires RegisteredIn(log, start, routes)
    requires failed ==> FirstRejected(queue, rejected).Some?
    ensures failed ==>
      var n := FirstRejected(queue, rejected).value;
      RegisteredIn(log + Added(queue, n, any, cached), start, IndexAll(routes, queue[..n + 1]))
    ensures !failed ==> RegisteredIn(log + Added(queue, |queue|, any, cached), start, IndexAll(routes, queue))
  {
    if failed {
      var n := FirstRejected(queue, rejected).value;
      RegisteredAfter(log, routes, start, queue, n, n + 1, any, cached);
    } else {
      RegisteredAfter(log, routes, start, queue, |queue|, |queue|, any, cached);
      assert queue[..|queue|] == queue;
    }
  }

  /** The index of the first queued route whose path the trie refuses. */
  function FirstRejected(queue: seq<Route>, rejected: map<string, string>): (r: Option<nat>)
    ensures r.Some? ==> r.value < |queue| && queue[r.value].path in rejected
    ensures r.Some? ==> forall k :: 0 <= k < r.value ==> queue[k].path !in rejected
    ensures r.None? ==> forall k :: 0 <= k < |queue| ==> queue[k].path !in rejected
  {
    if queue == [] then None
    else if queue[0].path in rejected then Some(0)
    else
      match FirstRejected(queue[1..], rejected)
      case None => None
      case Some(i) => Some(i + 1)
  }

  /** The first refused route is the one after a run of accepted ones. */
  lemma FirstRejectedAt(queue: seq<Route>, rejected: map<string, string>, i: nat)
    requires i < |queue| && queue[i].path in rejected
    requires forall k :: 0 <= k < i ==> queue[k].path !in rejected
    ensures FirstRejected(queue, rejected) == Some(i)
  {
  }

  // ---- Cache ----

  /** `! $this->cacheFile` is false: a cache file is configured and is
      neither empty nor "0" (PHP's falsy strings). */
  predicate CacheFileSet(file: Option<string>) {
    file.Some? && file.value != "" && file.value != "0"
  }

  /** `(string) $this->cacheFile`. */
  function FileString(file: Option<string>): string {
    if file.Some? then file.value else ""
  }

  /** The directory check of ensureCacheDirectoryExists fails. */
  function CacheDirectoryError(dir: string, dirs: set<string>, creatable: set<string>, writable: set<string>): Option<Error> {
    if dir !in dirs && dir !in creatable then Some(CacheDirectoryNotCreatable(dir))
    else if dir !in writable then Some(CacheDirectoryNotWritable(dir))
    else None
  }

  // ---- Result marshalling ----

  /** `marshalMatchedRoute`: the route indexed under the handler, with the
      lookup's parameters (none when absent). PHP fails with a TypeError when
      the index holds no such route. */
  function MarshalMatchedRoute(result: LookupResult, routes: map<string, Route>): Result<RouteResult, Error> {
    if result.handler in routes then Success(Matched(routes[result.handler], result.params.GetOr(map[])))
    else Failure(UnknownHandler(result.handler))
  }

  /** `marshalMethodNotAllowedResult`: a failure with the allowed methods
      (none when absent). */
  function MarshalMethodNotAllowed(result: LookupResult): RouteResult {
    RouteFailure(Some(result.allowedMethods.GetOr([])))
  }

  /** The dispatch on the lookup's code in `match`. */
  function MarshalLookup(result: LookupResult, routes: map<string, Route>): Result<RouteResult, Error> {
    if result.code == 200 then MarshalMatchedRoute(result, routes)
    else if result.code == 405 then Success(MarshalMethodNotAllowed(result))
    else Success(RouteFailure(None))
  }

  /** Code 200 and only it gives a match, carrying the route named by the
      handler; code 405 and only it gives a method failure with the allowed
      methods; every other code gives a plain failure. */
  lemma MatchOutcomes(result: LookupResult, routes: map<string, Route>)
    requires IndexedByName(routes)
    ensures var r := MarshalLookup(result, routes);
      && (r.Success? && r.value.Matched? <==> result.code == 200 && result.handler in routes)
      && (r.Failure? <==> result.code == 200 && result.handler !in routes)
      && (r.Failure? ==> r.error == UnknownHandler(result.handler))
      && (r.Success? && r.value.Matched? ==>
            && r.value.route.name == result.handler
            && r.value.params == result.params.GetOr(map[]))
      && (r.Success? && r.value.IsMethodFailure() <==> result.code == 405)
      && (result.code == 405 ==> r == Success(RouteFailure(Some(result.allowedMethods.GetOr([])))))
      && (result.code != 200 && result.code != 405 <==> r == Success(RouteFailure(None)))
  {
  }

  // ---- URI generation ----

  /** `generateUri` once the routes are injected: the named route's URI, or
      an error when no route has that name. */
  function GenerateUriFrom(routes: map<string, Route>, name: string, subs: map<string, string>): (r: Result<string, Error>)
    ensures r.Success? ==> IsNormal(r.value)
  {
    if name !in routes then Failure(RouteNotFound(name))
    else GenerateFromPath(routes[name].name, routes[name].path, subs)
  }

  /** An unknown name gives "route not found" and nothing else does; for a
      known name the result is the generation from the route's path. */
  lemma GenerateUriOutcomes(routes: map<string, Route>, name: string, subs: map<string, string>)
    requires IndexedByName(routes)
    ensures GenerateUriFrom(routes, name, subs) == Failure(RouteNotFound(name)) <==> name !in routes
    ensures name in routes ==> GenerateUriFrom(routes, name, subs) == GenerateFromPath(name, routes[name].path, subs)
  {
    if name in routes {
      GenerateFailsIffMissing(name, routes[name].path, subs);
    }
  }

  class RadixRouter {
    const trie: Trie
    const fs: FileSystem
    var dispatchData: DispatchData
    var routesToInject: seq<Route>
    var routes: map<string, Route>
    /** Valid dispatch data was loaded from the cache. */
    var hasCache: bool
    var cacheEnabled: bool
    var cacheFile: Option<string>
    /** How many `add` calls the trie had seen when the router was built. */
    ghost const logStart: nat

    /** Every handler this router has passed to the trie's `add` is a route
        name in the index, so a handler the trie reports resolves. */
    ghost predicate Registered()
      reads this`routes, trie`log
    {
      RegisteredIn(trie.log, logStart, routes)
    }

    /** The index holds each route under its name, every handler registered
        by the router is indexed, and dispatch data is only ever present once
        loaded from the cache. */
    ghost predicate Valid()
      reads this, trie
    {
      IndexedByName(routes) && Registered() && (dispatchData != map[] ==> hasCache)
    }

    /** The cache file is configured, exists, and yields an array. */
    predicate CacheLoadable()
      reads this, fs
    {
      CacheFileSet(cacheFile) && cacheFile.value in fs.files && fs.files[cacheFile.value].Yields?
    }

    /** The cache file is configured, exists, and `require` of it throws. */
    predicate CacheThrows()
      reads this, fs
    {
      CacheFileSet(cacheFile) && cacheFile.value in fs.files && fs.files[cacheFile.value].Throws?
    }

    /** The exception injectRoutes raises from this state, if any: `require`
        of the cache file throwing, the trie refusing the first refused queued
        path (when no cache is loaded), or the cache directory check failing
        when the tables are to be saved. */
    function InjectionFailure(): Option<Error>
      reads this, trie, fs
    {
      if routesToInject == [] then None
      else if cacheEnabled && !hasCache && CacheThrows() then
        Some(CacheFileUnloadable(cacheFile.value, fs.files[cacheFile.value].message))
      else
        var loads := cacheEnabled && !hasCache && CacheLoadable();
        var first := FirstRejected(routesToInject, trie.rejected);
        if !(hasCache || loads) && first.Some? then
          Some(InvalidPattern(routesToInject[first.value].path, trie.rejected[routesToInject[first.value].path]))
        else if (if loads then fs.files[cacheFile.value].data else dispatchData) != map[] then None
        else if cacheEnabled && CacheFileSet(cacheFile) then
          CacheDirectoryError(Dirname(cacheFile.value), fs.dirs, fs.creatable, fs.writable)
        else None
    }

    /** What injectRoutes returns from this state. */
    function InjectionOutcome(): Outcome<Error>
      reads this, trie, fs
    {
      if InjectionFailure().Some? then Fail(InjectionFailure().value) else Pass
    }

    /** The state injectRoutes leaves behind when it returns `r`:
        - with nothing queued, nothing changes;
        - when `require` of the cache file throws, nothing changes;
        - otherwise the cache is loaded when enabled and not yet loaded;
        - a refused path stops it with the queue intact and the routes before
          it indexed and registered;
        - once every route is injected the queue is empty, the index holds
          each route under its name, and either the loaded tables are
          installed in the trie, or the trie holds the new registrations and,
          with caching on, its tables are saved (the cache directory created
          on the way when missing). */
    twostate predicate Injected(new r: Outcome<Error>)
      reads this, trie, fs
    {
      var q := old(routesToInject);
      var throws := q != [] && old(cacheEnabled) && !old(hasCache) && old(CacheThrows());
      var loads := old(cacheEnabled) && !old(hasCache) && old(CacheLoadable());
      var first := FirstRejected(q, trie.rejected);
      var added := if hasCache then [] else Registrations(q, trie.allowedMethods);
      && cacheEnabled == old(cacheEnabled) && cacheFile == old(cacheFile)
      && r == old(InjectionOutcome())
      && (r.Pass? ==> routesToInject == [])
      && (q == [] || throws ==>
            && routesToInject == q && routes == old(routes)
            && hasCache == old(hasCache) && dispatchData == old(dispatchData)
            && unchanged(trie) && fs.files == old(fs.files) && fs.dirs == old(fs.dirs))
      && (q != [] && !throws ==>
            && hasCache == (old(hasCache) || loads)
            && dispatchData == if loads then old(fs.files[cacheFile.value].data) else old(dispatchData))
      && (q != [] && !throws && !hasCache && first.Some? ==>
            && routesToInject == q
            && routes == IndexAll(old(routes), q[..first.value + 1])
            && trie.log == old(trie.log) + Registrations(q[..first.value], trie.allowedMethods)
            && trie.tree == old(trie.tree) + DynamicPart(Registrations(q[..first.value], trie.allowedMethods))
            && trie.staticTable == old(trie.staticTable) + StaticPart(Registrations(q[..first.value], trie.allowedMethods))
            && fs.files == old(fs.files) && fs.dirs == old(fs.dirs))
      && (q != [] && !throws && (hasCache || first.None?) ==>
            && routesToInject == []
            && routes == IndexAll(old(routes), q)
            && trie.log == old(trie.log) + added
            && (dispatchData != map[] ==>
                  && trie.tree == TableOf(dispatchData, "tree")
                  && trie.staticTable == TableOf(dispatchData, "static")
                  && fs.files == old(fs.files) && fs.dirs == old(fs.dirs))
            && (dispatchData == map[] ==>
                  && trie.tree == old(trie.tree) + DynamicPart(added)
                  && trie.staticTable == old(trie.staticTable) + StaticPart(added)
                  && (!(cacheEnabled && CacheFileSet(cacheFile)) ==> fs.files == old(fs.files) && fs.dirs == old(fs.dirs))
                  && (cacheEnabled && CacheFileSet(cacheFile) ==>
                        var dir := Dirname(cacheFile.value);
                        && fs.dirs == CreatedDirs(dir, old(fs.dirs), fs.creatable)
                        && fs.files == if r.Pass? then old(fs.files)[cacheFile.value := Yields(CacheBlob(trie.tree, trie.staticTable))]
                                       else old(fs.files))))
    }

    constructor(trie: Trie, fs: FileSystem, config: Option<Config>)
      ensures Valid()
      ensures this.trie == trie && this.fs == fs
      ensures dispatchData == map[] && routesToInject == [] && routes == map[] && !hasCache
      ensures logStart == |trie.log|
      ensures cacheEnabled == (config.Some? && config.value.cacheEnabled == Some(true))
      ensures cacheFile == if config.Some? then config.value.cacheFile else None
    {
      this.trie, this.fs := trie, fs;
      logStart := |trie.log|;
      dispatchData, routesToInject, routes := map[], [], map[];
      hasCache, cacheEnabled, cacheFile := false, false, None;
      new;
      LoadConfig(config);
    }

    /** Takes each configuration key that is present; the others keep their
        value. */
    method LoadConfig(config: Option<Config>)
      modifies this
      ensures cacheEnabled == if config.Some? then config.value.cacheEnabled.GetOr(old(cacheEnabled)) else old(cacheEnabled)
      ensures cacheFile == if config.Some? && config.value.cacheFile.Some? then config.value.cacheFile else old(cacheFile)
      ensures dispatchData == old(dispatchData) && routesToInject == old(routesToInject)
      ensures routes == old(routes) && hasCache == old(hasCache)
    {
      if config.None? {
        return;
      }
      if config.value.cacheEnabled.Some? {
        cacheEnabled := config.value.cacheEnabled.value;
      }
      if config.value.cacheFile.Some? {
        cacheFile := config.value.cacheFile;
      }
    }

    /** Queues a route; nothing else changes. */
    method AddRoute(route: Route)
      modifies this
      ensures routesToInject == old(routesToInject) + [route]
      ensures dispatchData == old(dispatchData) && routes == old(routes) && hasCache == old(hasCache)
      ensures cacheEnabled == old(cacheEnabled) && cacheFile == old(cacheFile)
    {
      routesToInject := routesToInject + [route];
    }

    /** Loads the cache once: `hasCache` is set, and the dispatch data taken,
        exactly when it was not yet set and the cache file is configured,
        exists and yields an array. When `require` throws, the exception
        propagates and nothing changes. */
    method LoadDispatchData() returns (r: Outcome<Error>)
      modifies this
      ensures r.Fail? <==> !old(hasCache) && old(CacheThrows())
      ensures r.Fail? ==> r.error == CacheFileUnloadable(old(cacheFile.value), old(fs.files[cacheFile.value].message))
      ensures hasCache == (old(hasCache) || old(CacheLoadable()))
      ensures dispatchData == if !old(hasCache) && old(CacheLoadable()) then old(fs.files[cacheFile.value].data) else old(dispatchData)
      ensures routesToInject == old(routesToInject) && routes == old(routes)
      ensures cacheEnabled == old(cacheEnabled) && cacheFile == old(cacheFile)
    {
      if !CacheFileSet(cacheFile) || cacheFile.value !in fs.files {
        return Pass;
      }
      if hasCache {
        return Pass;
      }
      var required := fs.files[cacheFile.value];
      if required.Throws? {
        return Fail(CacheFileUnloadable(cacheFile.value, required.message));
      }
      if !required.Yields? {
        return Pass;
      }
      hasCache := true;
      dispatchData := required.data;
      r := Pass;
    }

    /** Creates the cache directory when missing; fails when it cannot be
        created or is not writable. */
    method EnsureCacheDirectoryExists() returns (r: Outcome<Error>)
      modifies fs
      ensures var dir := Dirname(FileString(cacheFile));
        && (r.Fail? <==> CacheDirectoryError(dir, old(fs.dirs), fs.creatable, fs.writable).Some?)
        && (r.Fail? ==> r.error == CacheDirectoryError(dir, old(fs.dirs), fs.creatable, fs.writable).value)
        && fs.dirs == CreatedDirs(dir, old(fs.dirs), fs.creatable)
      ensures fs.files == old(fs.files)
    {
      var dir := Dirname(FileString(cacheFile));
      if dir !in fs.dirs {
        var made := fs.MakeDirectory(dir);
        if !made {
          return Fail(CacheDirectoryNotCreatable(dir));
        }
      }
      if dir !in fs.writable {
        return Fail(CacheDirectoryNotWritable(dir));
      }
      r := Pass;
    }

    /** Saves the trie's tables to the cache file, if one is configured. */
    method CacheDispatchData() returns (r: Outcome<Error>)
      modifies fs
      ensures !CacheFileSet(cacheFile) ==> r.Pass? && fs.files == old(fs.files) && fs.dirs == old(fs.dirs)
      ensures CacheFileSet(cacheFile) ==>
        var err := CacheDirectoryError(Dirname(cacheFile.value), old(fs.dirs), fs.creatable, fs.writable);
        && (r.Fail? <==> err.Some?)
        && (r.Fail? ==> r.error == err.value && fs.files == old(fs.files))
        && (r.Pass? ==> fs.files == old(fs.files)[cacheFile.value := Yields(CacheBlob(trie.tree, trie.staticTable))])
        && fs.dirs == CreatedDirs(Dirname(cacheFile.value), old(fs.dirs), fs.creatable)
    {
      if !CacheFileSet(cacheFile) {
        return Pass;
      }
      var data := CacheBlob(trie.tree, trie.staticTable);
      r := EnsureCacheDirectoryExists();
      if r.Fail? {
        return;
      }
      fs.Save(cacheFile.value, data);
    }

    /** Indexes the route under its name, then registers it with the trie
        (for its methods, or every method when it has none) unless the cache
        was loaded. */
    method InjectRoute(route: Route) returns (r: Outcome<Error>)
      modifies this, trie
      ensures routes == old(routes)[route.name := route]
      ensures hasCache ==> r.Pass?
      ensures !hasCache ==> (r.Fail? <==> route.path in trie.rejected)
      ensures r.Fail? ==> r.error == InvalidPattern(route.path, trie.rejected[route.path])
      ensures trie.State() == Extend(old(trie.State()), if hasCache || r.Fail? then [] else [RegistrationOf(route, trie.allowedMethods)])
      ensures dispatchData == old(dispatchData) && routesToInject == old(routesToInject) && hasCache == old(hasCache)
      ensures cacheEnabled == old(cacheEnabled) && cacheFile == old(cacheFile)
    {
      var methods := EffectiveMethods(route, trie.allowedMethods);
      routes := routes[route.name := route];
      if hasCache {
        return Pass;
      }
      r := trie.Add(methods, route.path, route.name);
    }

    /** Drains the queue once: loads the cache (when enabled), indexes and
        registers every queued route in order, then either installs the
        loaded tables in the trie or saves the trie's tables to the cache
        (when enabled). A refused path stops it with the queue intact. */
    method InjectRoutes() returns (r: Outcome<Error>)
      requires Valid()
      modifies this, trie, fs
      ensures Valid()
      ensures Injected(r)
    {
      var queue := routesToInject;
      if queue == [] {
        return Pass;
      }
      if cacheEnabled {
        r := LoadDispatchData();
        if r.Fail? {
          return;
        }
      }
      ghost var log0, routes0 := trie.log, routes;
      r := InjectEach(queue);
      InjectionKeepsRegistered(log0, routes0, logStart, queue, trie.rejected, trie.allowedMethods, hasCache, r.Fail?);
      if r.Fail? {
        return;
      }
      assert queue[..|queue|] == queue;
      routesToInject := [];
      r := InstallOrSave();
    }

    /** The end of injectRoutes: loaded dispatch data replaces the trie's
        tables; otherwise, with caching on, the trie's tables are saved. */
    method InstallOrSave() returns (r: Outcome<Error>)
      modifies trie`tree, trie`staticTable, fs
      ensures dispatchData != map[] ==>
        && r.Pass?
        && trie.tree == TableOf(dispatchData, "tree") && trie.staticTable == TableOf(dispatchData, "static")
        && fs.files == old(fs.files) && fs.dirs == old(fs.dirs)
      ensures dispatchData == map[] ==>
        && trie.tree == old(trie.tree) && trie.staticTable == old(trie.staticTable)
        && (!(cacheEnabled && CacheFileSet(cacheFile)) ==> r.Pass? && fs.files == old(fs.files) && fs.dirs == old(fs.dirs))
      ensures dispatchData == map[] && cacheEnabled && CacheFileSet(cacheFile) ==>
        var err := CacheDirectoryError(Dirname(cacheFile.value), old(fs.dirs), fs.creatable, fs.writable);
        && (r.Fail? <==> err.Some?)
        && (r.Fail? ==> r.error == err.value && fs.files == old(fs.files))
        && (r.Pass? ==> fs.files == old(fs.files)[cacheFile.value := Yields(CacheBlob(trie.tree, trie.staticTable))])
        && fs.dirs == CreatedDirs(Dirname(cacheFile.value), old(fs.dirs), fs.creatable)
    {
      if dispatchData != map[] {
        trie.tree := TableOf(dispatchData, "tree");
        trie.staticTable := TableOf(dispatchData, "static");
        return Pass;
      }
      r := Pass;
      if cacheEnabled {
        r := CacheDispatchData();
      }
    }

    /** The `foreach` of injectRoutes: injects the routes in order and stops
        at the first path the trie refuses. */
    method InjectEach(queue: seq<Route>) returns (r: Outcome<Error>)
      requires IndexedByName(routes)
      modifies this, trie
      ensures IndexedByName(routes)
      ensures routesToInject == old(routesToInject) && dispatchData == old(dispatchData) && hasCache == old(hasCache)
      ensures cacheEnabled == old(cacheEnabled) && cacheFile == old(cacheFile)
      ensures r.Fail? <==> !hasCache && FirstRejected(queue, trie.rejected).Some?
      ensures r.Fail? ==>
        var n := FirstRejected(queue, trie.rejected).value;
        && r.error == InvalidPattern(queue[n].path, trie.rejected[queue[n].path])
        && routes == IndexAll(old(routes), queue[..n + 1])
        && trie.State() == Extend(old(trie.State()), Added(queue, n, trie.allowedMethods, hasCache))
      ensures r.Pass? ==>
        && routes == IndexAll(old(routes), queue)
        && trie.State() == Extend(old(trie.State()), Added(queue, |queue|, trie.allowedMethods, hasCache))
    {
      ghost var routes0, tables0 := routes, trie.State();
      ghost var rejected := trie.rejected;
      var any, cached := trie.allowedMethods, hasCache;
      var i := 0;
      while i < |queue|
        invariant 0 <= i <= |queue|
        invariant routesToInject == old(routesToInject) && dispatchData == old(dispatchData) && hasCache == cached
        invariant cacheEnabled == old(cacheEnabled) && cacheFile == old(cacheFile)
        invariant routes == IndexAll(routes0, queue[..i])
        invariant !cached ==> AcceptedBefore(queue, rejected, i)
        invariant trie.State() == Extend(tables0, Added(queue, i, any, cached))
      {
        r := InjectNext(queue, i, routes0, tables0);
        if r.Fail? {
          StopsAt(queue, rejected, i, routes0);
          return;
        }
        i := i + 1;
      }
      RunsThrough(queue, rejected, routes0, cached);
      r := Pass;
    }

    /** One turn of that `foreach`: the `i`-th route joins the index and,
        unless refused or cached, the tables. */
    method InjectNext(queue: seq<Route>, i: nat, ghost routes0: map<string, Route>, ghost tables0: Tables)
      returns (r: Outcome<Error>)
      requires i < |queue|
      requires routes == IndexAll(routes0, queue[..i])
      requires trie.State() == Extend(tables0, Added(queue, i, trie.allowedMethods, hasCache))
      requires !hasCache ==> AcceptedBefore(queue, trie.rejected, i)
      modifies this, trie
      ensures routesToInject == old(routesToInject) && dispatchData == old(dispatchData) && hasCache == old(hasCache)
      ensures cacheEnabled == old(cacheEnabled) && cacheFile == old(cacheFile)
      ensures routes == IndexAll(routes0, queue[..i + 1])
      ensures r.Fail? <==> !hasCache && queue[i].path in trie.rejected
      ensures r.Fail? ==>
        && r.error == InvalidPattern(queue[i].path, trie.rejected[queue[i].path])
        && trie.State() == Extend(tables0, Added(queue, i, trie.allowedMethods, hasCache))
      ensures r.Pass? ==> trie.State() == Extend(tables0, Added(queue, i + 1, trie.allowedMethods, hasCache))
      ensures r.Pass? && !hasCache ==> AcceptedBefore(queue, trie.rejected, i + 1)
    {
      IndexAllSnoc(routes0, queue, i);
      ghost var before := trie.State();
      r := InjectRoute(queue[i]);
      if r.Fail? {
        ExtendNothing(before);
        return;
      }
      if !hasCache {
        AcceptedSnoc(queue, trie.rejected, i);
      }
      AddedSnoc(queue, i, trie.allowedMethods, hasCache);
      ExtendTwice(tables0, Added(queue, i, trie.allowedMethods, hasCache),
                  if hasCache then [] else [RegistrationOf(queue[i], trie.allowedMethods)]);
    }

    /** `match`: injects the queued routes, decodes the request path, looks
        it up and marshals the trie's answer. */
    method Match(httpMethod: string, uriPath: string) returns (r: Result<RouteResult, Error>)
      requires Valid()
      modifies this, trie, fs
      ensures Valid()
      ensures Injected(old(InjectionOutcome()))
      ensures old(InjectionFailure()).Some? ==> r == Failure(old(InjectionFailure()).value)
      ensures old(InjectionFailure()).None? ==>
        r == MarshalLookup(trie.Lookup(httpMethod, RawUrlDecode(uriPath)), routes)
      ensures old(routesToInject) == [] ==>
        r == old(MarshalLookup(trie.Lookup(httpMethod, RawUrlDecode(uriPath)), routes))
    {
      var injected := InjectRoutes();
      if injected.Fail? {
        return Failure(injected.error);
      }
      var path := RawUrlDecode(uriPath);
      var result := trie.Lookup(httpMethod, path);
      r := MarshalLookup(result, routes);
    }

    /** `generateUri`: injects the queued routes, finds the route by name,
        checks the required parameters, substitutes and normalises. */
    method GenerateUri(name: string, subs: map<string, string>) returns (r: Result<string, Error>)
      requires Valid()
      modifies this, trie, fs
      ensures Valid()
      ensures Injected(old(InjectionOutcome()))
      ensures old(InjectionFailure()).Some? ==> r == Failure(old(InjectionFailure()).value)
      ensures old(InjectionFailure()).None? ==> r == GenerateUriFrom(routes, name, subs)
      ensures old(routesToInject) == [] ==> r == GenerateUriFrom(old(routes), name, subs)
    {
      var injected := InjectRoutes();
      if injected.Fail? {
        return Failure(injected.error);
      }
      if name !in routes {
        return Failure(RouteNotFound(name));
      }
      var route := routes[name];
      var params := ExtractRouteParameters(route.path);
      var valid := ValidateRequiredParameters(params, subs, route.name);
      if valid.Fail? {
        MissingNamesEmpty(params, subs);
        return Failure(valid.error);
      }
      MissingNamesEmpty(params, subs);
      var path := ReplacePathParameters(route.path, params, subs);
      r := Success(NormalizePath(path));
    }
  }

  /** A queued route whose path the trie refuses ("Empty segments are not
      allowed" for `/user//posts`) makes the next `match` or `generateUri`
      fail with the trie's message, when no cache is loaded. */
  lemma RefusedPathFailsInjection(router: RadixRouter, route: Route)
    requires router.routesToInject == [route] && !router.hasCache && !router.cacheEnabled
    requires route.path in router.trie.rejected
    ensures router.InjectionFailure() == Some(InvalidPattern(route.path, router.trie.rejected[route.path]))
    ensures Message(router.InjectionFailure().value) == router.trie.rejected[route.path]
  {
    assert FirstRejected([route], router.trie.rejected) == Some(0);
  }

  /** With caching on and no cache loaded yet, a cache file whose `require`
      throws makes the next `match` or `generateUri` fail with PHP's
      message, before any route is registered. */
  lemma UnloadableCacheFailsInjection(router: RadixRouter)
    requires router.routesToInject != [] && router.cacheEnabled && !router.hasCache
    requires router.CacheThrows()
    ensures router.InjectionFailure().Some?
    ensures router.InjectionFailure().value.CacheFileUnloadable?
    ensures Message(router.InjectionFailure().value) == router.fs.files[router.cacheFile.value].message
  {
  }

  /** With caching on and a cache file in a directory that neither exists nor
      can be created, injection (and so `match`) fails naming the directory. */
  lemma CacheDirectoryCreationFails(router: RadixRouter)
    requires router.Valid()
    requires router.cacheEnabled && !router.hasCache && router.routesToInject != []
    requires FirstRejected(router.routesToInject, router.trie.rejected).None?
    requires router.cacheFile == Some("/root/readonly" + "/" + "cache.php")
    requires router.cacheFile.value !in router.fs.files
    requires "/root/readonly" !in router.fs.dirs && "/root/readonly" !in router.fs.creatable
    ensures router.InjectionFailure() == Some(CacheDirectoryNotCreatable("/root/readonly"))
  {
    DirnameOfChild("/root/readonly", "cache.php");
  }

  /** A handler the router registered, reported by the trie with code 200,
      resolves to the route of that name. */
  lemma RegisteredHandlerMatches(router: RadixRouter, result: LookupResult, k: nat)
    requires router.Valid()
    requires router.logStart <= k < |router.trie.log|
    requires result.code == 200 && result.handler == router.trie.log[k].handler
    ensures result.handler in router.routes && router.routes[result.handler].name == result.handler
    ensures MarshalLookup(result, router.routes) == Success(Matched(router.routes[result.handler], result.params.GetOr(map[])))
  {
  }

  /** The saving half of the cache round trip: with caching on, no cache
      file yet and a writable cache directory, injection registers every
      queued route and writes the trie's tables to the cache file. */
  method SaveToCache(router: RadixRouter) returns (saved: Outcome<Error>)
    requires router.Valid()
    requires router.cacheEnabled && !router.hasCache && router.dispatchData == map[]
    requires CacheFileSet(router.cacheFile) && router.cacheFile.value !in router.fs.files
    requires Dirname(router.cacheFile.value) in router.fs.dirs && Dirname(router.cacheFile.value) in router.fs.writable
    requires router.routesToInject != []
    requires FirstRejected(router.routesToInject, router.trie.rejected).None?
    modifies router, router.trie, router.fs
    ensures saved.Pass? && router.Valid() && router.routesToInject == [] && !router.hasCache
    ensures router.routes == IndexAll(old(router.routes), old(router.routesToInject))
    ensures router.trie.log == old(router.trie.log) + Registrations(old(router.routesToInject), router.trie.allowedMethods)
    ensures router.cacheFile == old(router.cacheFile)
    ensures router.fs.files == old(router.fs.files)[router.cacheFile.value := Yields(CacheBlob(router.trie.tree, router.trie.staticTable))]
    ensures router.fs.dirs == old(router.fs.dirs)
  {
    saved := router.InjectRoutes();
  }

  /** The cache round trip: a router that finds no cache file registers its
      routes and saves the trie's tables; a second router with the same
      routes, the same trie lookup and the same filesystem then loads them,
      installs exactly those tables in its own trie and registers nothing.
      Both end in the state MatchAgrees asks for, so both answer every request
      alike. */
  method CacheRoundTrip(first: RadixRouter, second: RadixRouter)
    returns (saved: Outcome<Error>, loaded: Outcome<Error>)
    requires first != second && first.trie != second.trie && first.fs == second.fs
    requires first.Valid() && second.Valid()
    requires first.cacheEnabled && second.cacheEnabled && !first.hasCache && !second.hasCache
    requires CacheFileSet(first.cacheFile) && second.cacheFile == first.cacheFile
    requires first.cacheFile.value !in first.fs.files
    requires Dirname(first.cacheFile.value) in first.fs.dirs && Dirname(first.cacheFile.value) in first.fs.writable
    requires first.routesToInject != [] && second.routesToInject == first.routesToInject
    requires second.routes == first.routes
    requires second.trie.lookup == first.trie.lookup
    requires FirstRejected(first.routesToInject, first.trie.rejected).None?
    modifies first, first.trie, first.fs, second, second.trie
    ensures saved.Pass? && loaded.Pass?
    ensures first.trie.log == old(first.trie.log) + Registrations(old(first.routesToInject), first.trie.allowedMethods)
    ensures second.hasCache && second.trie.log == old(second.trie.log)
    ensures second.trie.tree == first.trie.tree && second.trie.staticTable == first.trie.staticTable
    ensures first.Valid() && second.Valid()
    ensures first.routesToInject == [] && second.routesToInject == []
    ensures second.routes == first.routes
    ensures forall m, p :: MarshalLookup(second.trie.Lookup(m, p), second.routes) == MarshalLookup(first.trie.Lookup(m, p), first.routes)
  {
    saved := SaveToCache(first);
    loaded := second.InjectRoutes();
  }

  /** Two routers with nothing queued, the same index, the same trie lookup
      and the same tables give the same `match` result. */
  method MatchAgrees(first: RadixRouter, second: RadixRouter, httpMethod: string, uriPath: string)
    returns (r1: Result<RouteResult, Error>, r2: Result<RouteResult, Error>)
    requires first != second && first.trie != second.trie
    requires first.Valid() && second.Valid()
    requires first.routesToInject == [] && second.routesToInject == []
    requires first.routes == second.routes && first.trie.lookup == second.trie.lookup
    requires first.trie.tree == second.trie.tree && first.trie.staticTable == second.trie.staticTable
    modifies first, first.trie, first.fs, second, second.trie, second.fs
    ensures r1 == r2
    ensures r1 == old(MarshalLookup(first.trie.Lookup(httpMethod, RawUrlDecode(uriPath)), first.routes))
  {
    r1 := first.Match(httpMethod, uriPath);
    r2 := second.Match(httpMethod, uriPath);
  }
}
