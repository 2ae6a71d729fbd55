# idr_torch `Interface`: launcher registry and facade

`idr_torch` exposes one object, an `Interface`, that stands in for the package module. It
keeps a list of launcher APIs (SLURM, torchrun, MPI and the like) ordered by priority. On
every query it chooses the active launcher: the first registered API whose `is_launcher()`
holds, or a `DefaultAPI` when none does. It forwards the query to that launcher, and it
publishes one accessor per name of the `config` module. Those accessors are properties,
except for functions marked `__keep_as_func__`, which stay callable.

This project models that facade in Dafny and proves what it promises:

- **Registration.** `register_API` keeps the list in non-increasing priority. It inserts the
  newcomer before every entry of equal priority, so on a tie the newest comes first.
- **Crawl.** `crawl_module_for_APIs` registers exactly the proper API subclasses and the
  instances whose class is not the bare base class, in listing order.
- **Active launcher.** `get_launcher_API` is a first-match search with the default as
  fallback. `current_API` and `all_APIs` are reads of that search and of the registry.
- **Forwarding.** A forwarded call returns the launcher's outcome unchanged. It hands the
  captured warnings to the warning filter only when the query returned and some warnings
  were captured.
- **Accessor table.** `add_API_functions` builds the table. The last entry publishing a name
  wins, and it fails at the first function the API base class does not define.
- **Attribute list.** `make_dir` builds the list once, and `__dir__` returns it unchanged.
- **Summary.** `summary_str` reads nine values in a fixed order and stops at the first read
  that raises. It then lays out `name(\n`, nine `key=value,\n` lines and `)`.

Modules:

- `Seqs`: option type and first-match search.
- `Launcher`: the API record, query outcomes and warnings.
- `Registry`: ordered insertion, the crawl and the choice of the active launcher, as
  functions with their lemmas.
- `Forwarding`: `redirect` and the accessor table.
- `Summary`: the summary text and the `AppendLines` loop.
- `Facade`: the class `Interface`, whose methods change its fields the way the Python
  methods do, plus `Build`, which models construction including its exception.

On a tie the newest registration comes first: `register_API` skips only entries of strictly
greater priority (`src/idr_torch/interface.py:117`). `Registry.TieBreakScenario` shows this on
a concrete registry.

## Model

| member | source | states |
|---|---|---|
| Seqs.FirstIndex | src/idr_torch/interface.py:126-128 | a found index holds the predicate and no earlier index does; no index means no element holds it |
| Registry.InsertionIndex | src/idr_torch/interface.py:116-121 | the insertion point is the first index whose priority is `<=` the new one: every earlier entry is strictly higher, and the entry there, if any, is not |
| Registry.Insert | src/idr_torch/interface.py:115-123 | registration makes the registry one entry longer, with the new API at the insertion index |
| Registry.InsertKeepsSorted | src/idr_torch/interface.py:115-123 | registering into a registry in non-increasing priority order keeps that order |
| Registry.InsertAddsOnlyX | src/idr_torch/interface.py:115-123 | registration adds exactly one entry, the new API at the insertion index; removing it gives back the old list in its old order; the multiset gains exactly the new API |
| Registry.InsertPlacement | src/idr_torch/interface.py:116-123 | the newcomer goes before every old entry of lower or equal priority, which moves up by one, and, in a sorted registry, after every strictly higher one (in any registry, the entries before it are strictly higher); it is appended exactly when every old entry is strictly higher, or the registry is empty |
| Registry.InsertionIndexCountsHigher | src/idr_torch/interface.py:116-118 | in a sorted registry the insertion index equals the number of entries of strictly greater priority |
| Registry.TieBreakScenario | src/idr_torch/interface.py:117-120 | registering A(5, launcher), B(1), C(5, launcher) gives [C, A, B], so C is the active launcher: on a tie the newest wins |
| Registry.Accepted | src/idr_torch/interface.py:142-147 | a candidate is accepted exactly when it is a proper API subclass (its instance is registered) or an instance whose class is not the base class (itself registered) |
| Registry.RegisteredSorted | src/idr_torch/interface.py:139-147 | a crawl keeps a sorted registry sorted |
| Registry.RegisteredContents | src/idr_torch/interface.py:139-147 | a crawl adds exactly the accepted candidates: the length grows by their number and the multiset by exactly them |
| Registry.ActiveAPI | src/idr_torch/interface.py:125-129 | the active API is the lowest-index entry whose launcher flag holds, or the default when no entry's flag holds (the empty registry included) |
| Registry.ActiveHasTopPriority | src/idr_torch/interface.py:125-129 | in a sorted registry with some launcher, the active API is a registered launcher whose priority is at least that of every other launcher |
| Registry.ActiveAfterRegister | src/idr_torch/interface.py:115-129 | registering a non-launcher leaves the active API unchanged; registering a launcher makes it active unless a launcher of strictly greater priority sits before its insertion point |
| Forwarding.Forward | src/idr_torch/interface.py:102-108 | a missing query raises AttributeError; otherwise the outcome is the launcher's, unchanged; the filter is called exactly when the query returned with a non-empty warning list, and receives that list |
| Forwarding.AccessorFor | src/idr_torch/interface.py:110-113 | the accessor is a property exactly when the function is not marked `__keep_as_func__`, and it forwards to the function's `__name__` |
| Forwarding.Unwrappable | src/idr_torch/interface.py:101 | the first config entry whose function the API base class lacks, where `@wraps(getattr(API, dest_name))` raises; none exactly when every function is a base-class query |
| Forwarding.WithAccessors | src/idr_torch/interface.py:38-44 | setting the accessors only adds attributes: the old ones stay present and every published name is present |
| Forwarding.WithAccessorsLastWins | src/idr_torch/interface.py:38-44 | a published name holds the accessor of the last entry that publishes it |
| Forwarding.WithAccessorsUntouched | src/idr_torch/interface.py:38-44 | a name no entry publishes keeps its previous attribute, or stays absent |
| Forwarding.ReadPublished | src/idr_torch/interface.py:98-113 | reading a published property runs the forwarded query on the active API; reading a name kept callable yields the bound method, with no call made |
| Forwarding.Read | src/idr_torch/interface.py:110-113 | reading a name that is no accessor fails; a property runs the forwarded query (`property(redirect)`); a function kept callable yields the bound `redirect`, forwarding to its query |
| Summary.SpacesAreBlank | src/idr_torch/interface.py:163 | the indentation is `max(tab_length, 0)` characters, all spaces, as Python's string repetition gives |
| Summary.GatherValues | src/idr_torch/interface.py:151-161 | every value gathered is the text of the read at its position, and that read succeeded |
| Summary.GatherFinished | src/idr_torch/interface.py:151-161 | when no read raised, there is one value per read and every read's filter call was made |
| Summary.GatherFailed | src/idr_torch/interface.py:151-161 | when a read raised, it is the first read without a value; its exception is the one reported; only the reads up to it made filter calls |
| Summary.GatherStops | src/idr_torch/interface.py:151-161 | once a read has raised, later reads change nothing |
| Summary.SummaryOf | src/idr_torch/interface.py:149-165 | the summary returns exactly when all nine reads succeed, with every read's filter calls; otherwise it raises the first failing read's exception, and only the reads up to it made filter calls |
| Summary.SummaryLayout | src/idr_torch/interface.py:149-165 | a returned summary is the current API's name and `(\n`, then the nine lines `rank`, `local_rank`, `world_size`, `local_world_size`, `cpus_per_task`, `nodelist`, `hostname`, `master_address`, `master_port`, each as indentation, `key=value,\n`, then `)` |
| Summary.RenderNine | src/idr_torch/interface.py:150-164 | the rendered text is the name and `(\n`, the nine `key=value,\n` lines in the fixed key order, each indented, then `)` |
| Summary.AppendLines | src/idr_torch/interface.py:162-163 | the loop appends to the header exactly the concatenation of the nine lines |
| Facade.Interface.constructor | src/idr_torch/interface.py:24-29 | the registry is the crawl of the shipped module from empty (so it is sorted and holds exactly the accepted APIs); the accessors and the attribute list are the ones installed |
| Facade.Interface.RegisterAPI | src/idr_torch/interface.py:115-123 | the registry becomes the ordered insertion of the new API; sortedness and "holds every API registered" are preserved; the multiset grows by exactly the new API |
| Facade.Interface.CrawlModuleForAPIs | src/idr_torch/interface.py:139-147 | the registry becomes the old one with each accepted candidate registered in listing order; registrations grow by exactly the accepted APIs; sortedness is preserved |
| Facade.Interface.CrawlShippedAPIs | src/idr_torch/interface.py:57-60 | the crawl of the shipped module, with the same guarantees |
| Facade.Interface.AddAPIFunctions | src/idr_torch/interface.py:35-44 | it succeeds exactly when every config function is a query of the base class, and then installs every accessor; otherwise it keeps the accessors set before the first failing entry |
| Facade.Interface.MakeDir | src/idr_torch/interface.py:46-55 | the attribute list is the plain-object attributes, the config names, the facade's own names and `__version__`, in that order |
| Facade.Interface.Dir | src/idr_torch/interface.py:95-96 | `__dir__` returns the list built at construction, whatever has been registered since |
| Facade.Interface.GetLauncherAPI | src/idr_torch/interface.py:125-129 | the first registered launcher, or the default when there is none |
| Facade.Interface.Redirect | src/idr_torch/interface.py:102-108 | the launcher is chosen on each call: the query is forwarded to the first registered launcher, or to the default when there is none |
| Facade.Interface.Get | src/idr_torch/interface.py:110-113 | on the built facade, a config name reads as `redirect` run at once (a property) or as the bound function (kept callable), decided by the last entry publishing it; any other name is no accessor |
| Facade.Interface.CurrentAPI | src/idr_torch/interface.py:131-133 | the name of the first registered launcher, or the default's name when there is none |
| Facade.Interface.AllAPIs | src/idr_torch/interface.py:135-137 | the registry's contents, sorted, holding exactly the APIs registered |
| Facade.Interface.SummaryStr | src/idr_torch/interface.py:149-165 | the outcome and filter calls are those of the reference summary of the current API over the nine reads |
| Facade.Interface.SummaryReads | src/idr_torch/interface.py:151-161 | the nine reads are, in order, the facade's accessors `rank`, `local_rank`, `world_size`, `local_world_size`, `cpus`, `nodelist`, `hostname`, `master_addr`, `master_port` |
| Facade.Interface.SummaryText | src/idr_torch/interface.py:149-165 | a returned summary is the current API's name and `(\n`, nine `key=value,\n` lines whose values are the facade's reads (`cpus_per_task` from `cpus`, `master_address` from `master_addr`), then `)`; every one of those reads succeeded |
| Facade.Build | src/idr_torch/interface.py:24-29 | construction raises exactly when some config function is not a query of the API base class; otherwise the new facade is valid, keeps the given default, shipped listing, config, base-class queries and plain-object attributes, and its registry is the crawl of the shipped module (so `__dir__` is determined by the arguments) |

## Left out

- Python's warning machinery (`catch_warnings`, and the `warning_filter`/`IdrTorchWarning` internals in `utils`, which is not part of this model). Only the captured list and whether the filter is called are modelled.
- Reflection: `setattr` on the class, `property`/`@wraps`, `isclass`/`issubclass`/`getattr` and the order of `dir(module)`. These become an accessor table, a tagged candidate sequence in listing order, and a set of base-class query names.
- Module bookkeeping: version lookup, `Path`, `__file__`/`__spec__`/`__path__`/`__name__`, `__repr__`, and the objects `add_other_object_for_easy_access` attaches. Only their names in `__all__` are modelled.
- `summary`: it prints, and it suppresses warnings. That is I/O.
- Concrete launchers and the `config` module: they are not part of this model, and they read the environment. Each API is an opaque record of name, priority, launcher flag and fixed query replies. A query's arguments are not modelled.
- Instantiation during the crawl and `is_launcher()`: both are assumed to neither raise nor warn.
- Whether `DefaultAPI` is itself found by the crawl: this depends on the `api` module, which is not part of this model. The shipped listing is a parameter.
- `dir(EmptyClass())`: a parameter of the facade.
- The default `tab_length` of 4: the model takes it as an argument.
- Calling an accessor that was kept callable: the model does not follow the call.
- Facade.Interface.constructor: requires that every config function is a query of the base class. The exception path is modelled by `Facade.Build` and `Facade.Interface.AddAPIFunctions`.
- Registry.ActiveAPI: the fallback is one fixed `DefaultAPI` value. The model does not capture that each call builds a new object.
- Facade.Interface.AllAPIs: returns the registry's value. The aliasing of the returned list with the registry (mutating it mutates the registry) is not captured.
- Summary.BoundText: an accessor kept callable renders as `<bound method API.dest>`. This simplifies Python's bound-method text, which is `<bound method API.dest of ` followed by the facade's `__repr__` (`<module 'idr_torch' from '…/__init__.py'`, naming the module and its file; it has no closing bracket of its own) and a final `>`.
- Summary.SummaryOf: Python would raise inside the `values` dictionary literal. The model reports the exception's class name only, not the traceback.
- Forwarding.Forward: a query missing from a launcher record raises AttributeError. In Python every registered launcher inherits the base class's queries, so `getattr(api, dest_name)` finds the inherited definition; the model does not tie a record's queries to the base class's, so a record lacking one (say `rank`) makes the read raise where Python would run the inherited query.
- Priorities: modelled as unbounded integers. Python compares whatever `priority` is; the model assumes it is an integer.
