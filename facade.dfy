/** The `Interface` object: it owns the registry, installs one forwarding accessor per
    `config` name, and answers introspection and summary requests. */
module Facade {
  import opened Seqs
  import opened Launcher
  import opened Registry
  import opened Forwarding
  import opened Summary

  /** The names of the facade's own objects and operations (`self.__all__`). */
  const EasyAccessNames: seq<string> := ["api", "API", "AutoMasterAddressPort",
    "decorate_methods", "IdrTorchWarning", "modifiers", "register_API", "get_launcher_API",
    "current_API", "all_APIs", "crawl_module_for_APIs", "summary"]

  const VersionName: string := "__version__"

  /** The attribute list `make_dir` builds: the attributes of a plain object, the config
      names, the facade's own names and the version marker, in that order, duplicates kept. */
  function DirNames(baseline: seq<string>, configNames: seq<string>): seq<string> {
    baseline + configNames + EasyAccessNames + [VersionName]
  }

  class Interface {
    /** What `DefaultAPI()` builds in this environment. */
    const fallback: API
    /** The listing of the shipped `api` module, in `dir` order, for `crawl_shipped_APIs`. */
    const shipped: seq<Candidate>
    /** `config.__all__`, each name resolved to the function it publishes. */
    const config: seq<ConfigEntry>
    /** The query methods the API base class defines. */
    const baseQueries: set<string>
    /** `dir(EmptyClass())`: the attributes every plain object has. */
    const baseline: seq<string>

    /** `self._available_APIs`. */
    var available: seq<API>
    /** Every API handed to `register_API` so far, in call order. */
    ghost var registrations: seq<API>
    /** The accessors `add_API_functions` has set on the class, by attribute name. */
    var accessors: map<string, Accessor>
    /** `self.__dir`. */
    var dir: seq<string>

    /** The registry is sorted and holds exactly the APIs registered so far. */
    ghost predicate RegistryValid()
      reads this`available, this`registrations
    {
      && Sorted(available)
      && multiset(available) == multiset(registrations)
    }

    /** The accessors and the attribute list are the ones construction installed. */
    ghost predicate SurfaceValid()
      reads this`accessors, this`dir
    {
      && accessors == WithAccessors(map[], config)
      && dir == DirNames(baseline, Names(config))
    }

    ghost predicate Valid()
      reads this
    {
      RegistryValid() && SurfaceValid()
    }

    /** `Interface()`: crawl the shipped APIs, install the accessors, freeze the attribute
        list. Adding the accessors raises when a config function is not a query of the API
        base class; `Build` below models that exception. */
    constructor (fallback: API, shipped: seq<Candidate>, config: seq<ConfigEntry>,
                 baseQueries: set<string>, baseline: seq<string>)
      requires Unwrappable(config, baseQueries).None?
      ensures Valid()
      ensures this.fallback == fallback && this.shipped == shipped && this.config == config
      ensures this.baseQueries == baseQueries && this.baseline == baseline
      ensures available == Registered([], shipped)
      ensures registrations == AcceptedAPIs(shipped)
    {
      this.fallback := fallback;
      this.shipped := shipped;
      this.config := config;
      this.baseQueries := baseQueries;
      this.baseline := baseline;
      available := [];
      registrations := [];
      accessors := map[];
      dir := [];
      new;
      CrawlShippedAPIs();
      var ok := AddAPIFunctions();
      MakeDir();
    }

    /** `register_API`: walk past the entries of strictly greater priority and insert the
        new API before the first other one, or append it when there is none. */
    method RegisterAPI(newAPI: API)
      modifies this`available, this`registrations
      ensures available == Insert(old(available), newAPI)
      ensures registrations == old(registrations) + [newAPI]
      ensures Sorted(old(available)) ==> Sorted(available)
      ensures multiset(available) == multiset(old(available)) + multiset{newAPI}
      ensures old(RegistryValid()) ==> RegistryValid()
    {
      ghost var before := available;
      if Sorted(available) {
        InsertKeepsSorted(available, newAPI);
      }
      InsertAddsOnlyX(available, newAPI);
      var i := 0;
      while i < |available|
        invariant 0 <= i <= |available|
        invariant available == before && registrations == old(registrations)
        invariant forall j :: 0 <= j < i ==> available[j].priority > newAPI.priority
      {
        if available[i].priority > newAPI.priority {
          i := i + 1;
          continue;
        }
        InsertionIndexUnique(before, newAPI.priority, i);
        available := available[..i] + [newAPI] + available[i..];
        registrations := registrations + [newAPI];
        return;
      }
      InsertionIndexUnique(before, newAPI.priority, i);
      available := available + [newAPI];
      registrations := registrations + [newAPI];
    }

    /** `crawl_module_for_APIs`: register every accepted object of the listing, in order. */
    method CrawlModuleForAPIs(namespace: seq<Candidate>)
      modifies this`available, this`registrations
      ensures available == Registered(old(available), namespace)
      ensures registrations == old(registrations) + AcceptedAPIs(namespace)
      ensures Sorted(old(available)) ==> Sorted(available)
      ensures multiset(available) == multiset(old(available)) + multiset(AcceptedAPIs(namespace))
      ensures old(RegistryValid()) ==> RegistryValid()
    {
      for i := 0 to |namespace|
        invariant available == Registered(old(available), namespace[..i])
        invariant registrations == old(registrations) + AcceptedAPIs(namespace[..i])
      {
        RegisteredSnoc(old(available), namespace, i);
        // A proper subclass is instantiated, an instance of a proper subclass is taken as
        // it is; `Accepted` makes both tests and yields the API to register.
        var accepted := Accepted(namespace[i]);
        if accepted.Some? {
          RegisterAPI(accepted.value);
        }
      }
      assert namespace[..|namespace|] == namespace;
      if Sorted(old(available)) {
        RegisteredSorted(old(available), namespace);
      }
      RegisteredContents(old(available), namespace);
    }

    /** `crawl_shipped_APIs`. */
    method CrawlShippedAPIs()
      modifies this`available, this`registrations
      ensures available == Registered(old(available), shipped)
      ensures registrations == old(registrations) + AcceptedAPIs(shipped)
      ensures Sorted(old(available)) ==> Sorted(available)
      ensures multiset(available) == multiset(old(available)) + multiset(AcceptedAPIs(shipped))
      ensures old(RegistryValid()) ==> RegistryValid()
    {
      CrawlModuleForAPIs(shipped);
    }

    /** `add_API_functions`: one accessor per config name, in order. It stops with an
        exception (`ok` false) at the first function the API base class does not define,
        keeping the accessors already set. */
    method AddAPIFunctions() returns (ok: bool)
      modifies this`accessors
      ensures ok <==> Unwrappable(config, baseQueries).None?
      ensures ok ==> accessors == WithAccessors(old(accessors), config)
      ensures !ok ==> accessors == WithAccessors(old(accessors), config[..Unwrappable(config, baseQueries).value])
    {
      for i := 0 to |config|
        invariant accessors == WithAccessors(old(accessors), config[..i])
        invariant forall j :: 0 <= j < i ==> config[j].funcName in baseQueries
      {
        if config[i].funcName !in baseQueries {
          return false;
        }
        assert config[..i + 1][..i] == config[..i];
        accessors := accessors[config[i].name := AccessorFor(config[i])];
      }
      assert config[..|config|] == config;
      return true;
    }

    /** `make_dir`. */
    method MakeDir()
      modifies this`dir
      ensures dir == DirNames(baseline, Names(config))
    {
      dir := [];
      dir := dir + baseline;
      dir := dir + Names(config);
      dir := dir + EasyAccessNames;
      dir := dir + [VersionName];
    }

    /** `__dir__`: the list frozen at construction, whatever was registered since. */
    function Dir(): (names: seq<string>)
      reads this
      ensures Valid() ==> names == DirNames(baseline, Names(config))
    {
      dir
    }

    /** `get_launcher_API`: the first registered launcher, or the default when there is none. */
    function GetLauncherAPI(): (api: API)
      reads this
      ensures (forall j :: 0 <= j < |available| ==> !available[j].isLauncher) ==> api == fallback
      ensures forall i ::
        (0 <= i < |available| && available[i].isLauncher && forall j :: 0 <= j < i ==> !available[j].isLauncher)
        ==> api == available[i]
    {
      ActiveAPI(available, fallback)
    }

    /** `current_API`: the name of the first registered launcher, or the default's name. */
    function CurrentAPI(): (name: string)
      reads this
      ensures (forall j :: 0 <= j < |available| ==> !available[j].isLauncher) ==> name == fallback.name
      ensures forall i ::
        (0 <= i < |available| && available[i].isLauncher && forall j :: 0 <= j < i ==> !available[j].isLauncher)
        ==> name == available[i].name
    {
      GetLauncherAPI().name
    }

    /** `all_APIs`: the registry itself, sorted, holding every registered API. */
    function AllAPIs(): (apis: seq<API>)
      reads this
      ensures apis == available
      ensures Valid() ==> Sorted(apis) && multiset(apis) == multiset(registrations)
    {
      available
    }

    /** Calling `redirect` for query `dest`: the launcher is chosen anew on each call, and the
        query goes to the first registered launcher, or to the default when there is none. */
    function Redirect(dest: string): (c: Call)
      reads this
      ensures (forall j :: 0 <= j < |available| ==> !available[j].isLauncher) ==> c == Forward(fallback, dest)
      ensures forall i ::
        (0 <= i < |available| && available[i].isLauncher && forall j :: 0 <= j < i ==> !available[j].isLauncher)
        ==> c == Forward(available[i], dest)
    {
      Forward(GetLauncherAPI(), dest)
    }

    /** Reading attribute `name` of the facade. For a config name, the last entry publishing it
        decides: a property runs `redirect` at once, a function kept callable is only bound.
        A name no config entry publishes is not an accessor. */
    function Get(name: string): (a: Access)
      reads this
      ensures SurfaceValid() ==> forall i ::
        (0 <= i < |config| && config[i].name == name && forall j :: i < j < |config| ==> config[j].name != name)
        ==> a == if config[i].keepAsFunc then Bound(config[i].funcName) else Value(Redirect(config[i].funcName))
      ensures SurfaceValid() && name !in Names(config) ==> a == NoAttribute
    {
      ReadConfigName(map[], config, GetLauncherAPI(), name);
      if name !in Names(config) then
        WithAccessorsUntouched(map[], config, name);
        Read(accessors, GetLauncherAPI(), name)
      else Read(accessors, GetLauncherAPI(), name)
    }

    /** `summary_str`: read the nine values (each read forwards and may re-emit warnings or
        raise), then append one line per key and the closing parenthesis. */
    method SummaryStr(tabLength: int) returns (r: Outcome, warned: seq<seq<Warning>>)
      ensures Report(r, warned) == SummaryOf(CurrentAPI(), tabLength, ReadFields(accessors, GetLauncherAPI()))
    {
      var header := CurrentAPI() + "(\n";
      ghost var accesses := ReadFields(accessors, GetLauncherAPI());
      var values: seq<string> := [];
      warned := [];
      for i := 0 to |Sources|
        invariant Gather(accesses[..i]) == Gathered(values, warned, None)
      {
        var a := Get(Sources[i]);
        assert a == accesses[i];
        assert accesses[..i + 1][..i] == accesses[..i];
        warned := warned + FilterCall(a);
        if !Succeeds(a) {
          r := Raised(ErrorOf(a));
          GatherStops(accesses, i + 1);
          return;
        }
        values := values + [TextOf(a)];
      }
      assert accesses[..|Sources|] == accesses;
      GatherFinished(accesses);
      var text := AppendLines(header, tabLength, values);
      text := text + ")";
      r := Returned(text);
    }

    /** The nine reads `summary_str` makes, by accessor name. */
    lemma SummaryReads()
      ensures ReadFields(accessors, GetLauncherAPI()) == [Get("rank"),
        Get("local_rank"),
        Get("world_size"),
        Get("local_world_size"),
        Get("cpus"),
        Get("nodelist"),
        Get("hostname"),
        Get("master_addr"),
        Get("master_port")]
    {
      var accesses := ReadFields(accessors, GetLauncherAPI());
      assert |accesses| == 9;
      forall k | 0 <= k < 9 ensures accesses[k] == Read(accessors, GetLauncherAPI(), Sources[k]) { }
    }

    /** A returned summary spelled out on the facade's own accessors: `cpus_per_task` shows
        what `cpus` reads and `master_address` what `master_addr` reads. */
    lemma SummaryText(tab: int, r: Outcome, warned: seq<seq<Warning>>)
      requires Report(r, warned) == SummaryOf(CurrentAPI(), tab, ReadFields(accessors, GetLauncherAPI()))
      requires r.Returned?
      ensures Succeeds(Get("rank"))
      ensures Succeeds(Get("local_rank"))
      ensures Succeeds(Get("world_size"))
      ensures Succeeds(Get("local_world_size"))
      ensures Succeeds(Get("cpus"))
      ensures Succeeds(Get("nodelist"))
      ensures Succeeds(Get("hostname"))
      ensures Succeeds(Get("master_addr"))
      ensures Succeeds(Get("master_port"))
      ensures r.value == CurrentAPI() + "(\n"
        + Line(tab, "rank", TextOf(Get("rank")))
        + Line(tab, "local_rank", TextOf(Get("local_rank")))
        + Line(tab, "world_size", TextOf(Get("world_size")))
        + Line(tab, "local_world_size", TextOf(Get("local_world_size")))
        + Line(tab, "cpus_per_task", TextOf(Get("cpus")))
        + Line(tab, "nodelist", TextOf(Get("nodelist")))
        + Line(tab, "hostname", TextOf(Get("hostname")))
        + Line(tab, "master_address", TextOf(Get("master_addr")))
        + Line(tab, "master_port", TextOf(Get("master_port")))
        + ")"
    {
      SummaryReads();
      var accesses := ReadFields(accessors, GetLauncherAPI());
      SummaryLayout(CurrentAPI(), tab, accesses);
    }
  }

  /** `Interface()` as a whole: it raises (no facade) exactly when some config function is
      not a query of the API base class. */
  method Build(fallback: API, shipped: seq<Candidate>, config: seq<ConfigEntry>,
               baseQueries: set<string>, baseline: seq<string>) returns (facade: Option<Interface>)
    ensures facade.None? <==> Unwrappable(config, baseQueries).Some?
    ensures facade.Some? ==> fresh(facade.value) && facade.value.Valid()
    ensures facade.Some? ==> facade.value.fallback == fallback && facade.value.config == config
    ensures facade.Some? ==> facade.value.baseline == baseline && facade.value.shipped == shipped
    ensures facade.Some? ==> facade.value.baseQueries == baseQueries
    ensures facade.Some? ==> facade.value.available == Registered([], shipped)
  {
    if Unwrappable(config, baseQueries).Some? {
      return None;
    }
    var f := new Interface(fallback, shipped, config, baseQueries, baseline);
    return Some(f);
  }
}
