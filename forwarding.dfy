/** Forwarding a query to the active launcher (`make_new_function` and its `redirect`) and
    the table of accessors that `add_API_functions` installs on the facade class. */
module Forwarding {
  import opened Seqs
  import opened Launcher

  /** What one forwarded call does: how it ends for the caller, and the list handed to
      `warning_filter.warn`, if that is called at all. */
  datatype Call = Call(outcome: Outcome, filtered: Option<seq<Warning>>)

  /** `redirect` once the active API is known: ask it query `dest` inside a warning capture.
      A missing query raises AttributeError. When the query raises, the exception leaves the
      capture block and the captured warnings are dropped; when it returns, the captured
      warnings go to the filter only if there are any. */
  function Forward(api: API, dest: string): (c: Call)
    ensures dest !in api.answers ==> c == Call(Raised(AttributeError), None)
    ensures dest in api.answers ==> c.outcome == api.answers[dest].outcome
    ensures c.filtered.Some? <==>
      dest in api.answers && api.answers[dest].outcome.Returned? && |api.answers[dest].warnings| > 0
    ensures c.filtered.Some? ==> c.filtered.value == api.answers[dest].warnings
  {
    if dest !in api.answers then Call(Raised(AttributeError), None)
    else
      var reply := api.answers[dest];
      match reply.outcome
      case Raised(_) => Call(reply.outcome, None)
      case Returned(_) => Call(reply.outcome, if reply.warnings == [] then None else Some(reply.warnings))
  }

  // ---------------------------------------------------------------------------
  // The accessor table

  /** How an accessor appears on the facade: as a property, read without a call, or as a
      method kept callable; either way it forwards to the launcher query `dest`. */
  datatype Accessor = Property(dest: string) | Method(dest: string)

  /** One exported name of the `config` module: the name it is published under, the
      `__name__` of the function behind it, and whether that function is marked
      `__keep_as_func__`. */
  datatype ConfigEntry = ConfigEntry(name: string, funcName: string, keepAsFunc: bool)

  /** The accessor `make_new_function` builds for one config entry. */
  function AccessorFor(e: ConfigEntry): (a: Accessor)
    ensures a.Property? <==> !e.keepAsFunc
    ensures a.dest == e.funcName
  {
    if e.keepAsFunc then Method(e.funcName) else Property(e.funcName)
  }

  function Names(config: seq<ConfigEntry>): (names: seq<string>)
    ensures |names| == |config|
    ensures forall i :: 0 <= i < |config| ==> names[i] == config[i].name
  {
    seq(|config|, i requires 0 <= i < |config| => config[i].name)
  }

  /** The first config entry whose function the API base class does not define: there
      `@wraps(getattr(API, dest_name))` raises AttributeError. */
  function Unwrappable(config: seq<ConfigEntry>, baseQueries: set<string>): (r: Option<nat>)
    ensures r.Some? ==> r.value < |config| && config[r.value].funcName !in baseQueries
    ensures r.Some? ==> forall j :: 0 <= j < r.value ==> config[j].funcName in baseQueries
    ensures r.None? <==> forall j :: 0 <= j < |config| ==> config[j].funcName in baseQueries
  {
    FirstIndex(config, (e: ConfigEntry) => e.funcName !in baseQueries)
  }

  /** The class attributes after `add_attribute` was called for each entry of `config` in
      order, starting from `m`. */
  function WithAccessors(m: map<string, Accessor>, config: seq<ConfigEntry>): (r: map<string, Accessor>)
    ensures forall n :: n in m ==> n in r
    ensures forall i :: 0 <= i < |config| ==> config[i].name in r
    decreases |config|
  {
    if config == [] then m
    else
      var last := config[|config| - 1];
      WithAccessors(m, config[..|config| - 1])[last.name := AccessorFor(last)]
  }

  /** `setattr` on a name already set replaces it: a name ends up with the accessor of the
      last entry that publishes it. */
  lemma {:induction false} WithAccessorsLastWins(m: map<string, Accessor>, config: seq<ConfigEntry>, i: nat)
    requires i < |config|
    requires forall j :: i < j < |config| ==> config[j].name != config[i].name
    ensures config[i].name in WithAccessors(m, config)
    ensures WithAccessors(m, config)[config[i].name] == AccessorFor(config[i])
    decreases |config|
  {
    if i < |config| - 1 {
      var init := config[..|config| - 1];
      assert init[i] == config[i];
      assert forall j :: i < j < |init| ==> init[j] == config[j];
      WithAccessorsLastWins(m, init, i);
    }
  }

  /** A name no entry publishes keeps the attribute it had before: present with the same
      value, or absent. */
  lemma {:induction false} WithAccessorsUntouched(m: map<string, Accessor>, config: seq<ConfigEntry>, n: string)
    requires n !in Names(config)
    ensures n in WithAccessors(m, config) <==> n in m
    ensures n in m ==> WithAccessors(m, config)[n] == m[n]
    decreases |config|
  {
    if config != [] {
      var init := config[..|config| - 1];
      assert n != Names(config)[|config| - 1];
      assert forall i :: 0 <= i < |init| ==> Names(init)[i] == Names(config)[i];
      WithAccessorsUntouched(m, init, n);
    }
  }

  /** `ReadPublished` for every entry that publishes `name` last. */
  lemma ReadConfigName(m: map<string, Accessor>, config: seq<ConfigEntry>, api: API, name: string)
    ensures forall i ::
      (0 <= i < |config| && config[i].name == name && forall j :: i < j < |config| ==> config[j].name != name)
      ==> (Read(WithAccessors(m, config), api, name)
           == if config[i].keepAsFunc then Bound(config[i].funcName) else Value(Forward(api, config[i].funcName)))
  {
    forall i | 0 <= i < |config| && config[i].name == name && (forall j :: i < j < |config| ==> config[j].name != name)
      ensures Read(WithAccessors(m, config), api, name)
        == if config[i].keepAsFunc then Bound(config[i].funcName) else Value(Forward(api, config[i].funcName))
    {
      ReadPublished(m, config, i, api);
    }
  }

  /** What reading attribute `name` on the facade yields. */
  datatype Access =
    | Value(call: Call)      // a property: the forwarded call has already run
    | Bound(dest: string)    // a method kept callable: the bound method itself, not yet called
    | NoAttribute            // the name is not an accessor

  /** Reading accessor `name` when `api` is the active launcher. */
  function Read(accessors: map<string, Accessor>, api: API, name: string): (a: Access)
    ensures a.NoAttribute? <==> name !in accessors
    ensures a.Bound? <==> name in accessors && accessors[name].Method?
    ensures a.Bound? ==> a.dest == accessors[name].dest
    ensures a.Value? ==> a.call == Forward(api, accessors[name].dest)
  {
    if name !in accessors then NoAttribute
    else match accessors[name]
      case Property(dest) => Value(Forward(api, dest))
      case Method(dest) => Bound(dest)
  }

  /** Reading a config name on the facade: the last entry publishing it decides; a property
      runs the forwarded query on the active API at once, a method kept callable only binds. */
  lemma ReadPublished(m: map<string, Accessor>, config: seq<ConfigEntry>, i: nat, api: API)
    requires i < |config|
    requires forall j :: i < j < |config| ==> config[j].name != config[i].name
    ensures !config[i].keepAsFunc ==>
      Read(WithAccessors(m, config), api, config[i].name) == Value(Forward(api, config[i].funcName))
    ensures config[i].keepAsFunc ==>
      Read(WithAccessors(m, config), api, config[i].name) == Bound(config[i].funcName)
  {
    WithAccessorsLastWins(m, config, i);
  }
}
