/** `Interface.summary_str`: the launcher's name followed by nine indented `key=value,` lines,
    each value read through the facade's accessors. */
module Summary {
  import opened Seqs
  import opened Launcher
  import opened Forwarding

  /** The keys printed, in order. */
  const Keys: seq<string> := ["rank", "local_rank", "world_size", "local_world_size",
    "cpus_per_task", "nodelist", "hostname", "master_address", "master_port"]

  /** The facade accessor read for each key: `cpus_per_task` comes from `cpus` and
      `master_address` from `master_addr`. */
  const Sources: seq<string> := ["rank", "local_rank", "world_size", "local_world_size",
    "cpus", "nodelist", "hostname", "master_addr", "master_port"]

  /** Python's `" " * n`: `n` spaces, and the empty string when `n` is zero or negative. */
  function Spaces(n: int): string
    decreases n
  {
    if n <= 0 then "" else Spaces(n - 1) + " "
  }

  /** `Spaces(n)` is `n` blanks, none at all for a negative width. */
  lemma {:induction false} SpacesAreBlank(n: int)
    ensures |Spaces(n)| == if n <= 0 then 0 else n
    ensures forall i :: 0 <= i < |Spaces(n)| ==> Spaces(n)[i] == ' '
    decreases n
  {
    if n > 0 {
      SpacesAreBlank(n - 1);
    }
  }

  function Line(tab: int, key: string, value: string): string {
    Spaces(tab) + key + "=" + value + ",\n"
  }

  /** One `key=value,` line per key, indented by `tab`. */
  function Lines(tab: int, keys: seq<string>, values: seq<string>): (ls: seq<string>)
    requires |keys| == |values|
    ensures |ls| == |keys|
    ensures forall i :: 0 <= i < |keys| ==> ls[i] == Line(tab, keys[i], values[i])
  {
    seq(|keys|, i requires 0 <= i < |keys| => Line(tab, keys[i], values[i]))
  }

  /** The strings of `ls` appended one after the other, as `string += ...` does. */
  function Concat(ls: seq<string>): string
    decreases |ls|
  {
    if ls == [] then "" else Concat(ls[..|ls| - 1]) + ls[|ls| - 1]
  }

  function Render(name: string, tab: int, values: seq<string>): string
    requires |values| == |Keys|
  {
    name + "(\n" + Concat(Lines(tab, Keys, values)) + ")"
  }

  /** The text standing for an accessor kept callable: the f-string prints the bound method. */
  function BoundText(dest: string): string {
    "<bound method API." + dest + ">"
  }

  /** A read that yields a value: a property whose query returned, or a bound method. */
  predicate Succeeds(a: Access) {
    a.Bound? || (a.Value? && a.call.outcome.Returned?)
  }

  function TextOf(a: Access): string
    requires Succeeds(a)
  {
    if a.Bound? then BoundText(a.dest) else a.call.outcome.value
  }

  function ErrorOf(a: Access): string
    requires !Succeeds(a)
  {
    if a.NoAttribute? then AttributeError else a.call.outcome.error
  }

  /** The call to `warning_filter.warn` a read makes, if any. */
  function FilterCall(a: Access): seq<seq<Warning>> {
    if a.Value? && a.call.filtered.Some? then [a.call.filtered.value] else []
  }

  /** The filter calls of a run of accesses, in order. */
  function Warned(accesses: seq<Access>): seq<seq<Warning>>
    decreases |accesses|
  {
    if accesses == [] then [] else Warned(accesses[..|accesses| - 1]) + FilterCall(accesses[|accesses| - 1])
  }

  /** The state of building the `values` dictionary: the texts read so far, the filter calls
      made so far, and the exception that stopped it, if one did. */
  datatype Gathered = Gathered(values: seq<string>, warned: seq<seq<Warning>>, failure: Option<string>)

  /** Evaluating the accesses in order, stopping at the first one that raises. */
  function Gather(accesses: seq<Access>): Gathered
    decreases |accesses|
  {
    if accesses == [] then Gathered([], [], None)
    else
      var g := Gather(accesses[..|accesses| - 1]);
      if g.failure.Some? then g
      else
        var a := accesses[|accesses| - 1];
        var w := g.warned + FilterCall(a);
        if Succeeds(a) then Gathered(g.values + [TextOf(a)], w, None)
        else Gathered(g.values, w, Some(ErrorOf(a)))
  }

  /** Every text gathered is the text of the read at the same position, and that read
      succeeded. */
  lemma {:induction false} GatherValues(accesses: seq<Access>)
    ensures |Gather(accesses).values| <= |accesses|
    ensures forall j :: 0 <= j < |Gather(accesses).values| ==>
      Succeeds(accesses[j]) && Gather(accesses).values[j] == TextOf(accesses[j])
    decreases |accesses|
  {
    if accesses != [] {
      var init := accesses[..|accesses| - 1];
      GatherValues(init);
      GatherFinished(init);
      assert forall j :: 0 <= j < |init| ==> init[j] == accesses[j];
    }
  }

  /** When no read raised, there is one text per read and every filter call was made. */
  lemma {:induction false} GatherFinished(accesses: seq<Access>)
    ensures Gather(accesses).failure.None? ==>
      |Gather(accesses).values| == |accesses| && Gather(accesses).warned == Warned(accesses)
    decreases |accesses|
  {
    if accesses != [] {
      GatherFinished(accesses[..|accesses| - 1]);
    }
  }

  /** When a read raised, it is the one right after the gathered texts, its exception is the
      one reported, and the filter calls are those of the reads up to and including it. */
  lemma {:induction false} GatherFailed(accesses: seq<Access>)
    ensures var g := Gather(accesses);
      g.failure.Some? ==>
      && |g.values| < |accesses|
      && !Succeeds(accesses[|g.values|])
      && g.failure.value == ErrorOf(accesses[|g.values|])
      && g.warned == Warned(accesses[..|g.values| + 1])
    decreases |accesses|
  {
    if accesses != [] {
      var init := accesses[..|accesses| - 1];
      var g := Gather(init);
      GatherFailed(init);
      if g.failure.Some? {
        assert init[..|g.values| + 1] == accesses[..|g.values| + 1];
      } else {
        GatherFinished(init);
        assert accesses[..|accesses|] == accesses;
      }
    }
  }

  /** Once a read has raised, later reads change nothing: the dictionary is never finished. */
  lemma {:induction false} GatherStops(accesses: seq<Access>, i: nat)
    requires i <= |accesses|
    requires Gather(accesses[..i]).failure.Some?
    ensures Gather(accesses) == Gather(accesses[..i])
    decreases |accesses| - i
  {
    if i < |accesses| {
      var init := accesses[..|accesses| - 1];
      assert init[..i] == accesses[..i];
      GatherStops(init, i);
    } else {
      assert accesses[..i] == accesses;
    }
  }

  /** What `summary_str` yields (its string or its exception) and the filter calls it makes. */
  datatype Report = Report(outcome: Outcome, warned: seq<seq<Warning>>)

  function SummaryOf(name: string, tab: int, accesses: seq<Access>): (r: Report)
    requires |accesses| == |Keys|
    ensures r.outcome.Returned? <==> forall k :: 0 <= k < |accesses| ==> Succeeds(accesses[k])
    ensures r.outcome.Returned? ==> r.warned == Warned(accesses)
    ensures r.outcome.Raised? ==> exists k ::
      && 0 <= k < |accesses|
      && !Succeeds(accesses[k])
      && (forall j :: 0 <= j < k ==> Succeeds(accesses[j]))
      && r.outcome.error == ErrorOf(accesses[k])
      && r.warned == Warned(accesses[..k + 1])
  {
    GatherValues(accesses);
    GatherFinished(accesses);
    GatherFailed(accesses);
    var g := Gather(accesses);
    if g.failure.Some? then
      assert !Succeeds(accesses[|g.values|]);
      Report(Raised(g.failure.value), g.warned)
    else Report(Returned(Render(name, tab, g.values)), g.warned)
  }

  /** The loop of `summary_str` that appends one `key=value,` line per key to `header`. */
  method AppendLines(header: string, tab: int, values: seq<string>) returns (text: string)
    requires |values| == |Keys|
    ensures text == header + Concat(Lines(tab, Keys, values))
  {
    text := header;
    for k := 0 to |Keys|
      invariant text == header + Concat(Lines(tab, Keys[..k], values[..k]))
    {
      AppendStep(header, tab, Keys, values, k, text);
      text := text + (Spaces(tab) + Keys[k] + "=" + values[k] + ",\n");
    }
    assert Keys[..|Keys|] == Keys && values[..|Keys|] == values;
  }

  /** One turn of the `AppendLines` loop appends the next line. */
  lemma AppendStep(header: string, tab: int, keys: seq<string>, values: seq<string>, k: nat, text: string)
    requires |keys| == |values| && k < |keys|
    requires text == header + Concat(Lines(tab, keys[..k], values[..k]))
    ensures text + (Spaces(tab) + keys[k] + "=" + values[k] + ",\n")
      == header + Concat(Lines(tab, keys[..k + 1], values[..k + 1]))
  {
    LinesSnoc(tab, keys, values, k);
    var ls := Lines(tab, keys[..k + 1], values[..k + 1]);
    ConcatStep(ls, k);
    assert ls[..k + 1] == ls;
    assert ls[..k] == Lines(tab, keys[..k], values[..k]);
  }

  /** The nine accesses `summary_str` makes, in order, with `api` active. */
  function ReadFields(accessors: map<string, Accessor>, api: API): (accesses: seq<Access>)
    ensures |accesses| == |Keys|
    ensures forall k :: 0 <= k < |Keys| ==> accesses[k] == Read(accessors, api, Sources[k])
  {
    seq(|Sources|, k requires 0 <= k < |Sources| => Read(accessors, api, Sources[k]))
  }

  /** The layout of a summary: the name and "(\n", exactly nine lines of `tab` spaces and
      `key=value,\n` with the keys in their fixed order, then ")". */
  lemma SummaryLayout(name: string, tab: int, accesses: seq<Access>)
    requires |accesses| == |Keys|
    requires SummaryOf(name, tab, accesses).outcome.Returned?
    ensures SummaryOf(name, tab, accesses).outcome.value == name + "(\n"
      + Line(tab, "rank", TextOf(accesses[0]))
      + Line(tab, "local_rank", TextOf(accesses[1]))
      + Line(tab, "world_size", TextOf(accesses[2]))
      + Line(tab, "local_world_size", TextOf(accesses[3]))
      + Line(tab, "cpus_per_task", TextOf(accesses[4]))
      + Line(tab, "nodelist", TextOf(accesses[5]))
      + Line(tab, "hostname", TextOf(accesses[6]))
      + Line(tab, "master_address", TextOf(accesses[7]))
      + Line(tab, "master_port", TextOf(accesses[8]))
      + ")"
  {
    GatherValues(accesses);
    GatherFinished(accesses);
    var v := Gather(accesses).values;
    assert v[0] == TextOf(accesses[0]) && v[1] == TextOf(accesses[1]) && v[2] == TextOf(accesses[2]);
    assert v[3] == TextOf(accesses[3]) && v[4] == TextOf(accesses[4]) && v[5] == TextOf(accesses[5]);
    assert v[6] == TextOf(accesses[6]) && v[7] == TextOf(accesses[7]) && v[8] == TextOf(accesses[8]);
    RenderNine(name, tab, v);
  }

  /** `Render` written out: the name, the nine lines in key order, the closing parenthesis. */
  lemma RenderNine(name: string, tab: int, v: seq<string>)
    requires |v| == |Keys|
    ensures Render(name, tab, v) == name + "(\n"
      + Line(tab, "rank", v[0]) + Line(tab, "local_rank", v[1]) + Line(tab, "world_size", v[2])
      + Line(tab, "local_world_size", v[3]) + Line(tab, "cpus_per_task", v[4])
      + Line(tab, "nodelist", v[5]) + Line(tab, "hostname", v[6])
      + Line(tab, "master_address", v[7]) + Line(tab, "master_port", v[8])
      + ")"
  {
    ConcatNine(Lines(tab, Keys, v));
  }

  /** One more key and value give one more line at the end. */
  lemma LinesSnoc(tab: int, keys: seq<string>, values: seq<string>, k: nat)
    requires |keys| == |values| && k < |keys|
    ensures Lines(tab, keys[..k + 1], values[..k + 1]) == Lines(tab, keys[..k], values[..k]) + [Line(tab, keys[k], values[k])]
  {
    var l := Lines(tab, keys[..k + 1], values[..k + 1]);
    var r := Lines(tab, keys[..k], values[..k]) + [Line(tab, keys[k], values[k])];
    assert |l| == |r|;
    forall i | 0 <= i < |l| ensures l[i] == r[i] {
      if i < k {
        assert keys[..k + 1][i] == keys[..k][i] && values[..k + 1][i] == values[..k][i];
      }
    }
  }

  /** One more string of the list is one more piece of the text. */
  lemma ConcatStep(ls: seq<string>, i: nat)
    requires i < |ls|
    ensures Concat(ls[..i + 1]) == Concat(ls[..i]) + ls[i]
  {
    assert ls[..i + 1][..i] == ls[..i];
  }

  lemma ConcatNine(ls: seq<string>)
    requires |ls| == 9
    ensures Concat(ls) == ls[0] + ls[1] + ls[2] + ls[3] + ls[4] + ls[5] + ls[6] + ls[7] + ls[8]
  {
    var c0 := Concat(ls[..0]);
    assert c0 == "";
    ConcatStep(ls, 0);
    var c1 := Concat(ls[..1]);
    assert c1 == ls[0];
    ConcatStep(ls, 1);
    var c2 := Concat(ls[..2]);
    assert c2 == c1 + ls[1];
    ConcatStep(ls, 2);
    var c3 := Concat(ls[..3]);
    assert c3 == c2 + ls[2];
    ConcatStep(ls, 3);
    var c4 := Concat(ls[..4]);
    assert c4 == c3 + ls[3];
    ConcatStep(ls, 4);
    var c5 := Concat(ls[..5]);
    assert c5 == c4 + ls[4];
    ConcatStep(ls, 5);
    var c6 := Concat(ls[..6]);
    assert c6 == c5 + ls[5];
    ConcatStep(ls, 6);
    var c7 := Concat(ls[..7]);
    assert c7 == c6 + ls[6];
    ConcatStep(ls, 7);
    var c8 := Concat(ls[..8]);
    assert c8 == c7 + ls[7];
    ConcatStep(ls, 8);
    assert ls[..9] == ls;
    assert Concat(ls) == c8 + ls[8];
  }
}
