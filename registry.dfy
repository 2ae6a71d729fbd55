/** The registry of launcher APIs: insertion by priority (`Interface.register_API`), the
    namespace crawl that feeds it (`crawl_module_for_APIs`) and the choice of the active
    launcher (`get_launcher_API`). Everything here is a function of the registry's contents;
    the class in module Facade holds those contents and changes them. */
module Registry {
  import opened Seqs
  import opened Launcher

  /** The order `register_API` keeps: priorities never increase along the list. */
  predicate Sorted(s: seq<API>) {
    forall i, j :: 0 <= i < j < |s| ==> s[i].priority >= s[j].priority
  }

  /** Where `register_API` puts an API of priority `p`: the first entry whose priority is
      not strictly greater than `p`, or the end of the list when there is none. */
  function InsertionIndex(s: seq<API>, p: int): (k: nat)
    ensures k <= |s|
    ensures forall j :: 0 <= j < k ==> s[j].priority > p
    ensures k < |s| ==> s[k].priority <= p
  {
    match FirstIndex(s, (a: API) => a.priority <= p)
    case Some(i) => i
    case None => |s|
  }

  /** The registry after `register_API(x)`. */
  function Insert(s: seq<API>, x: API): (r: seq<API>)
    ensures |r| == |s| + 1
    ensures r[InsertionIndex(s, x.priority)] == x
  {
    var k := InsertionIndex(s, x.priority);
    s[..k] + [x] + s[k..]
  }

  /** Registration keeps the registry sorted. */
  lemma InsertKeepsSorted(s: seq<API>, x: API)
    requires Sorted(s)
    ensures Sorted(Insert(s, x))
  {
    var k := InsertionIndex(s, x.priority);
    var r := Insert(s, x);
    assert forall t :: 0 <= t < |r| ==> r[t] == if t < k then s[t] else if t == k then x else s[t - 1];
  }

  /** Registration adds exactly the new entry: the result is one longer, holds `x` at the
      insertion index, and taking `x` out again gives back the old list, so the old entries
      keep their relative order and nothing is dropped or duplicated. */
  lemma InsertAddsOnlyX(s: seq<API>, x: API)
    ensures var k := InsertionIndex(s, x.priority);
      && |Insert(s, x)| == |s| + 1
      && Insert(s, x)[k] == x
      && Insert(s, x)[..k] + Insert(s, x)[k + 1..] == s
      && multiset(Insert(s, x)) == multiset(s) + multiset{x}
  {
    var k := InsertionIndex(s, x.priority);
    var r := Insert(s, x);
    assert r[..k] == s[..k];
    assert r[k + 1..] == s[k..];
    assert s == s[..k] + s[k..];
  }

  /** On a tie the newcomer goes first: `x` lands before every old entry whose priority is
      less than or equal to its own, equal ones included, and after every entry whose priority
      is strictly greater. It is appended at the end exactly when every old entry has a
      strictly greater priority (an empty registry included). */
  lemma InsertPlacement(s: seq<API>, x: API)
    ensures var k := InsertionIndex(s, x.priority);
      && (forall j :: 0 <= j < |s| && s[j].priority <= x.priority ==> k <= j && Insert(s, x)[j + 1] == s[j])
      && (forall j :: 0 <= j < k ==> Insert(s, x)[j] == s[j] && s[j].priority > x.priority)
      && (k == |s| <==> forall j :: 0 <= j < |s| ==> s[j].priority > x.priority)
      && (Sorted(s) ==> forall j :: 0 <= j < |s| && s[j].priority > x.priority ==> j < k)
  {
  }

  /** The number of entries whose priority is strictly greater than `p`. */
  function Above(s: seq<API>, p: int): (n: nat)
    ensures n <= |s|
  {
    if s == [] then 0 else (if s[0].priority > p then 1 else 0) + Above(s[1..], p)
  }

  /** In a sorted registry the insertion index is the number of entries that outrank the
      newcomer: the position does not depend on anything else. */
  lemma {:induction false} InsertionIndexCountsHigher(s: seq<API>, p: int)
    requires Sorted(s)
    ensures InsertionIndex(s, p) == Above(s, p)
  {
    if s != [] {
      assert Sorted(s[1..]) by {
        forall i, j | 0 <= i < j < |s[1..]| ensures s[1..][i].priority >= s[1..][j].priority {
          assert s[1..][i] == s[i + 1] && s[1..][j] == s[j + 1];
        }
      }
      InsertionIndexCountsHigher(s[1..], p);
      if s[0].priority > p {
        var k := InsertionIndex(s[1..], p);
        assert forall j :: 0 <= j < k + 1 ==> s[j].priority > p by {
          forall j | 0 <= j < k + 1 ensures s[j].priority > p {
            if j > 0 { assert s[j] == s[1..][j - 1]; }
          }
        }
        if k + 1 < |s| {
          assert s[k + 1] == s[1..][k];
        }
        InsertionIndexUnique(s, p, k + 1);
      } else {
        assert Above(s[1..], p) == 0 by {
          AboveNoneBelow(s[1..], p, s[0].priority);
        }
      }
    }
  }

  /** The insertion index is determined by its two defining facts. */
  lemma InsertionIndexUnique(s: seq<API>, p: int, k: nat)
    requires k <= |s|
    requires forall j :: 0 <= j < k ==> s[j].priority > p
    requires k < |s| ==> s[k].priority <= p
    ensures InsertionIndex(s, p) == k
  {
  }

  /** In a list whose priorities are all at most `q <= p`, nothing outranks `p`. */
  lemma {:induction false} AboveNoneBelow(s: seq<API>, p: int, q: int)
    requires q <= p
    requires forall j :: 0 <= j < |s| ==> s[j].priority <= q
    ensures Above(s, p) == 0
  {
    if s != [] {
      assert forall j :: 0 <= j < |s[1..]| ==> s[1..][j].priority <= q by {
        forall j | 0 <= j < |s[1..]| ensures s[1..][j].priority <= q {
          assert s[1..][j] == s[j + 1];
        }
      }
      AboveNoneBelow(s[1..], p, q);
    }
  }

  // ---------------------------------------------------------------------------
  // The namespace crawl

  /** One object found while listing a module, as `crawl_module_for_APIs` classifies it.
      `ClassOf`: a class deriving from the API base class (`isBase`: it is that base class
      itself); `instance` is the object its no-argument constructor builds.
      `InstanceOf`: an instance of the API base class (`classIsBase`: its class is exactly
      the base class). `Other`: anything else (functions, modules, unrelated classes). */
  datatype Candidate =
    | ClassOf(instance: API, isBase: bool)
    | InstanceOf(api: API, classIsBase: bool)
    | Other

  /** The API a candidate contributes to the registry, if the crawl accepts it. */
  function Accepted(c: Candidate): (r: Option<API>)
    ensures r.Some? <==> (c.ClassOf? && !c.isBase) || (c.InstanceOf? && !c.classIsBase)
    ensures r.Some? && c.ClassOf? ==> r.value == c.instance
    ensures r.Some? && c.InstanceOf? ==> r.value == c.api
  {
    match c
    case ClassOf(instance, isBase) => if isBase then None else Some(instance)
    case InstanceOf(api, classIsBase) => if classIsBase then None else Some(api)
    case Other => None
  }

  /** What one candidate adds to the list of registered APIs. */
  function AcceptedOne(c: Candidate): seq<API> {
    match Accepted(c)
    case Some(a) => [a]
    case None => []
  }

  /** The APIs the crawl registers, in the namespace's listing order. */
  function AcceptedAPIs(cs: seq<Candidate>): seq<API>
    decreases |cs|
  {
    if cs == [] then [] else AcceptedAPIs(cs[..|cs| - 1]) + AcceptedOne(cs[|cs| - 1])
  }

  /** The registry after the crawl has looked at candidate `c`. */
  function Step(s: seq<API>, c: Candidate): seq<API> {
    match Accepted(c)
    case Some(a) => Insert(s, a)
    case None => s
  }

  /** The registry after registering every accepted candidate of `cs`, one by one in order. */
  function Registered(s: seq<API>, cs: seq<Candidate>): seq<API>
    decreases |cs|
  {
    if cs == [] then s else Step(Registered(s, cs[..|cs| - 1]), cs[|cs| - 1])
  }

  /** Looking at one more candidate is one more step of the crawl. */
  lemma RegisteredSnoc(s: seq<API>, cs: seq<Candidate>, i: nat)
    requires i < |cs|
    ensures Registered(s, cs[..i + 1]) == Step(Registered(s, cs[..i]), cs[i])
    ensures AcceptedAPIs(cs[..i + 1]) == AcceptedAPIs(cs[..i]) + AcceptedOne(cs[i])
  {
    assert cs[..i + 1][..i] == cs[..i];
  }

  /** A crawl keeps a sorted registry sorted; a registry built from empty by a crawl is sorted. */
  lemma {:induction false} RegisteredSorted(s: seq<API>, cs: seq<Candidate>)
    requires Sorted(s)
    ensures Sorted(Registered(s, cs))
    decreases |cs|
  {
    if cs != [] {
      RegisteredSorted(s, cs[..|cs| - 1]);
      match Accepted(cs[|cs| - 1])
      case Some(a) => InsertKeepsSorted(Registered(s, cs[..|cs| - 1]), a);
      case None =>
    }
  }

  /** A crawl adds exactly the accepted candidates: the registry grows by their number and
      its contents grow by exactly them (no deduplication, nothing removed). */
  lemma {:induction false} RegisteredContents(s: seq<API>, cs: seq<Candidate>)
    ensures |Registered(s, cs)| == |s| + |AcceptedAPIs(cs)|
    ensures multiset(Registered(s, cs)) == multiset(s) + multiset(AcceptedAPIs(cs))
    decreases |cs|
  {
    if cs != [] {
      RegisteredContents(s, cs[..|cs| - 1]);
      match Accepted(cs[|cs| - 1])
      case Some(a) => InsertAddsOnlyX(Registered(s, cs[..|cs| - 1]), a);
      case None =>
    }
  }

  // ---------------------------------------------------------------------------
  // Choosing the active launcher

  /** What `get_launcher_API` returns for registry `s`: the first entry whose `is_launcher()`
      holds, or `fallback` (a freshly built `DefaultAPI`) when no entry does. */
  function ActiveAPI(s: seq<API>, fallback: API): (r: API)
    ensures (forall j :: 0 <= j < |s| ==> !s[j].isLauncher) ==> r == fallback
    ensures forall i :: 0 <= i < |s| && s[i].isLauncher && (forall j :: 0 <= j < i ==> !s[j].isLauncher) ==> r == s[i]
  {
    match FirstIndex(s, (a: API) => a.isLauncher)
    case Some(i) => s[i]
    case None => fallback
  }

  /** In a sorted registry the active launcher outranks (or ties) every other entry that
      claims to be the launcher. */
  lemma ActiveHasTopPriority(s: seq<API>, fallback: API, i: nat)
    requires Sorted(s)
    requires i < |s| && s[i].isLauncher
    ensures ActiveAPI(s, fallback).isLauncher
    ensures ActiveAPI(s, fallback) in s
    ensures ActiveAPI(s, fallback).priority >= s[i].priority
  {
    var f := FirstIndex(s, (a: API) => a.isLauncher);
    assert f.Some?;
  }

  /** What a registration does to the launcher choice: registering a non-launcher changes
      nothing; registering a launcher `x` makes it the active one unless a launcher already
      sits in front of its insertion point, i.e. outranks it strictly. */
  lemma ActiveAfterRegister(s: seq<API>, x: API, fallback: API)
    ensures ActiveAPI(Insert(s, x), fallback) ==
      if x.isLauncher then ActiveAPI(s[..InsertionIndex(s, x.priority)], x)
      else ActiveAPI(s, fallback)
  {
    var k := InsertionIndex(s, x.priority);
    var r := Insert(s, x);
    InsertAt(s, x);
    if i :| 0 <= i < k && s[i].isLauncher {
      var f := FirstLauncherBefore(s, i);
      ActiveIs(r, fallback, f);
      if x.isLauncher {
        ActiveIs(s[..k], x, f);
      } else {
        ActiveIs(s, fallback, f);
      }
    } else if x.isLauncher {
      ActiveIs(r, fallback, k);
      ActiveNone(s[..k], x);
    } else if i :| 0 <= i < |s| && s[i].isLauncher {
      var f := FirstLauncherBefore(s, i);
      ActiveIs(r, fallback, f + 1);
      ActiveIs(s, fallback, f);
    } else {
      ActiveNone(r, fallback);
      ActiveNone(s, fallback);
    }
  }

  /** Where each entry of `Insert(s, x)` comes from. */
  lemma InsertAt(s: seq<API>, x: API)
    ensures var k := InsertionIndex(s, x.priority);
      && |Insert(s, x)| == |s| + 1
      && (forall t :: 0 <= t < k ==> Insert(s, x)[t] == s[t])
      && Insert(s, x)[k] == x
      && (forall t :: k < t <= |s| ==> Insert(s, x)[t] == s[t - 1])
  {
  }

  /** Some launcher at or before index `i` is the first launcher of `s`. */
  lemma FirstLauncherBefore(s: seq<API>, i: nat) returns (f: nat)
    requires i < |s| && s[i].isLauncher
    ensures f <= i && s[f].isLauncher && forall j :: 0 <= j < f ==> !s[j].isLauncher
  {
    var r := FirstIndex(s, (a: API) => a.isLauncher);
    f := r.value;
  }

  lemma ActiveIs(s: seq<API>, fallback: API, i: nat)
    requires i < |s| && s[i].isLauncher
    requires forall j :: 0 <= j < i ==> !s[j].isLauncher
    ensures ActiveAPI(s, fallback) == s[i]
  {
  }

  lemma ActiveNone(s: seq<API>, fallback: API)
    requires forall j :: 0 <= j < |s| ==> !s[j].isLauncher
    ensures ActiveAPI(s, fallback) == fallback
  {
  }

  /** Three registrations from empty, A and C tied at priority 5 and B at 1: the code puts the
      later-registered C before A, and when A and C both claim to be the launcher, C wins. */
  lemma TieBreakScenario(noAnswers: map<string, Reply>, fallback: API)
    ensures var a := API("A", 5, true, noAnswers);
      var b := API("B", 1, false, noAnswers);
      var c := API("C", 5, true, noAnswers);
      var reg := Registered([], [InstanceOf(a, false), InstanceOf(b, false), InstanceOf(c, false)]);
      reg == [c, a, b] && ActiveAPI(reg, fallback) == c
  {
    var a := API("A", 5, true, noAnswers);
    var b := API("B", 1, false, noAnswers);
    var c := API("C", 5, true, noAnswers);
    var cs := [InstanceOf(a, false), InstanceOf(b, false), InstanceOf(c, false)];
    assert cs[..2][..1] == [InstanceOf(a, false)];
    assert cs[..2][..1][..0] == [];
    assert Registered([], cs[..2][..1]) == [a];
    assert InsertionIndex([a], 1) == 1;
    assert Registered([], cs[..2]) == [a, b];
    assert InsertionIndex([a, b], 5) == 0;
    assert Registered([], cs) == [c, a, b];
  }
}
