/**
  Render-list reconciliation: the options synthesised for selected values
  that no available option carries, the resolution of DOM ids that are
  unique within one render pass, and the checked flag of every control.
*/
module Reconcile {
  import opened Wrappers
  import opened Text
  import opened Options
  import Json

  /** The values carried by a list of options. */
  function ValueSet(opts: seq<MultiselectOption>): set<string> {
    set i | 0 <= i < |opts| :: opts[i].value
  }

  // ---------------------------------------------------------------------
  // Synthesised options (`buildSelectedOnlyOptions`)

  /** The state of the `forEach` of `buildSelectedOnlyOptions`: the values
      seen so far (`existingValueSet`) and the options synthesised so far. */
  datatype Progress = Progress(seen: set<string>, synthesized: seq<MultiselectOption>)

  /** The state once the values of `visited` have been visited in order: a
      value not yet seen is normalised at the position it would take after
      the existing and already synthesised options, and kept when that
      succeeds. */
  function SynthesizeUpTo(existing: seq<MultiselectOption>, visited: seq<string>): Progress
    decreases |visited|
  {
    if visited == [] then Progress(ValueSet(existing), [])
    else
      var p := SynthesizeUpTo(existing, visited[..|visited| - 1]);
      var v := visited[|visited| - 1];
      if v in p.seen then p
      else
        var n := NormalizeOption(Json.Str(v), |existing| + |p.synthesized|);
        if n.Some? then Progress(p.seen + {n.value.value}, p.synthesized + [n.value]) else p
  }

  /** What `buildSelectedOnlyOptions(existing, selected)` returns. */
  function SelectedOnlyOptions(existing: seq<MultiselectOption>, selected: seq<string>): seq<MultiselectOption> {
    if selected == [] then [] else SynthesizeUpTo(existing, selected).synthesized
  }

  /** `buildSelectedOnlyOptions`. */
  method BuildSelectedOnlyOptions(existing: seq<MultiselectOption>, selectedValues: seq<string>)
    returns (synthesized: seq<MultiselectOption>)
    ensures synthesized == SelectedOnlyOptions(existing, selectedValues)
    ensures selectedValues == [] ==> synthesized == []
  {
    if |selectedValues| == 0 {
      return [];
    }
    var existingValueSet := set i | 0 <= i < |existing| :: existing[i].value;
    synthesized := [];
    var i := 0;
    while i < |selectedValues|
      invariant 0 <= i <= |selectedValues|
      invariant Progress(existingValueSet, synthesized) == SynthesizeUpTo(existing, selectedValues[..i])
    {
      var value := selectedValues[i];
      assert selectedValues[..i + 1][..i] == selectedValues[..i];
      if value !in existingValueSet {
        var normalized := NormalizeOption(Json.Str(value), |existing| + |synthesized|);
        if normalized.Some? {
          existingValueSet := existingValueSet + {normalized.value.value};
          synthesized := synthesized + [normalized.value];
        }
      }
      i := i + 1;
    }
    assert selectedValues[..i] == selectedValues;
  }

  /** The reference definition of what gets synthesised: the values of
      `vs` that are not in `seen`, each kept at its first occurrence. */
  function FirstOccurrences(seen: set<string>, vs: seq<string>): seq<string>
    decreases |vs|
  {
    if vs == [] then []
    else
      var earlier := vs[..|vs| - 1];
      var v := vs[|vs| - 1];
      var kept := FirstOccurrences(seen, earlier);
      if v in seen || v in earlier then kept else kept + [v]
  }

  /** The option synthesised for a selected value: label, name and value
      are the value, the id is its slug. */
  function SyntheticOption(v: string): MultiselectOption {
    MultiselectOption(Slugify(v), v, v, v)
  }

  /** The synthetic option of every value of `vs`, in order. */
  function Synthetics(vs: seq<string>): seq<MultiselectOption>
    decreases |vs|
  {
    if vs == [] then [] else Synthetics(vs[..|vs| - 1]) + [SyntheticOption(vs[|vs| - 1])]
  }

  lemma {:induction false} SyntheticsAt(vs: seq<string>, i: nat)
    requires i < |vs|
    ensures |Synthetics(vs)| == |vs| && Synthetics(vs)[i] == SyntheticOption(vs[i])
    decreases |vs|
  {
    var init := vs[..|vs| - 1];
    if i < |init| {
      SyntheticsAt(init, i);
    } else {
      SyntheticsLength(init);
    }
  }

  lemma {:induction false} SyntheticsLength(vs: seq<string>)
    ensures |Synthetics(vs)| == |vs|
    decreases |vs|
  {
    if vs != [] {
      SyntheticsLength(vs[..|vs| - 1]);
    }
  }

  /** Every value of `vs` is a non-empty trimmed string, as every element
      of a `SelectedValues` list is. */
  predicate AllUsable(vs: seq<string>) {
    forall i :: 0 <= i < |vs| ==> IsNonEmptyTrimmed(vs[i])
  }

  /** A non-empty trimmed value normalises to its synthetic option. */
  lemma NormalizeSelectedValue(v: string, index: nat)
    requires IsNonEmptyTrimmed(v)
    ensures NormalizeOption(Json.Str(v), index) == Some(SyntheticOption(v))
  {
    TrimTrimmed(v);
    NormalizeString(v, index);
  }

  /** On selected values, the loop of `buildSelectedOnlyOptions` has seen
      the existing values and the visited ones, and has synthesised, in
      order, the synthetic option of every first occurrence of a value no
      existing option carries. */
  lemma {:induction false} SynthesizeIsFirstOccurrences(existing: seq<MultiselectOption>, vs: seq<string>)
    requires AllUsable(vs)
    ensures SynthesizeUpTo(existing, vs).synthesized == Synthetics(FirstOccurrences(ValueSet(existing), vs))
    ensures forall u :: u in SynthesizeUpTo(existing, vs).seen <==> u in ValueSet(existing) || u in vs
    decreases |vs|
  {
    if vs != [] {
      var init := vs[..|vs| - 1];
      var v := vs[|vs| - 1];
      assert AllUsable(init) by {
        forall i | 0 <= i < |init| ensures IsNonEmptyTrimmed(init[i]) {
          assert init[i] == vs[i];
        }
      }
      assert forall u :: u in vs <==> u in init || u == v by {
        assert vs == init + [v];
      }
      SynthesizeIsFirstOccurrences(existing, init);
      var p := SynthesizeUpTo(existing, init);
      if v !in p.seen {
        NormalizeSelectedValue(v, |existing| + |p.synthesized|);
        var kept := FirstOccurrences(ValueSet(existing), init);
        assert FirstOccurrences(ValueSet(existing), vs) == kept + [v];
        assert (kept + [v])[..|kept + [v]| - 1] == kept;
      }
    }
  }

  /** `buildSelectedOnlyOptions` over selected values synthesises exactly
      the synthetic options of the first occurrences of the values that no
      existing option carries. */
  lemma SelectedOnlyIsFirstOccurrences(existing: seq<MultiselectOption>, selected: seq<string>)
    requires AllUsable(selected)
    ensures SelectedOnlyOptions(existing, selected) == Synthetics(FirstOccurrences(ValueSet(existing), selected))
  {
    SynthesizeIsFirstOccurrences(existing, selected);
  }

  /** Every kept value comes from `vs` and was not already seen. */
  lemma {:induction false} FirstOccurrencesFresh(seen: set<string>, vs: seq<string>, i: nat)
    requires i < |FirstOccurrences(seen, vs)|
    ensures FirstOccurrences(seen, vs)[i] !in seen
    ensures FirstOccurrences(seen, vs)[i] in vs
    decreases |vs|
  {
    var init := vs[..|vs| - 1];
    var kept := FirstOccurrences(seen, init);
    assert vs == init + [vs[|vs| - 1]];
    if i < |kept| {
      FirstOccurrencesFresh(seen, init, i);
    }
  }

  /** No value is kept twice. */
  lemma {:induction false} FirstOccurrencesDistinct(seen: set<string>, vs: seq<string>, i: nat, j: nat)
    requires i < j < |FirstOccurrences(seen, vs)|
    ensures FirstOccurrences(seen, vs)[i] != FirstOccurrences(seen, vs)[j]
    decreases |vs|
  {
    var init := vs[..|vs| - 1];
    var kept := FirstOccurrences(seen, init);
    if j < |kept| {
      FirstOccurrencesDistinct(seen, init, i, j);
    } else {
      FirstOccurrencesFresh(seen, init, i);
    }
  }

  /** Every value of `vs` is either already seen or kept. */
  lemma {:induction false} FirstOccurrencesCover(seen: set<string>, vs: seq<string>, v: string)
    requires v in vs
    ensures v in seen || v in FirstOccurrences(seen, vs)
    decreases |vs|
  {
    var init := vs[..|vs| - 1];
    var kept := FirstOccurrences(seen, init);
    assert vs == init + [vs[|vs| - 1]];
    if v in init {
      FirstOccurrencesCover(seen, init, v);
    }
  }

  // ---------------------------------------------------------------------
  // The render list

  /** The values a render checks: `new Set(getSelectedValues())`. */
  function SelectionSet(selectedItems: seq<Json.Value>): set<string> {
    set v | v in SelectedValues(selectedItems)
  }

  /** The render list of `renderMultiselectOptions`: the available options
      followed by those synthesised for the selected values. */
  function RenderList(availableItems: seq<Json.Value>, selectedItems: seq<Json.Value>): seq<MultiselectOption> {
    var available := AvailableOptions(availableItems);
    available + SelectedOnlyOptions(available, SelectedValues(selectedItems))
  }

  /** The values carried by the synthesised options are those of the first
      occurrences list. */
  lemma SyntheticValues(vs: seq<string>, v: string)
    ensures v in ValueSet(Synthetics(vs)) <==> v in vs
  {
    var synth := Synthetics(vs);
    if v in vs {
      var i :| 0 <= i < |vs| && vs[i] == v;
      SyntheticsAt(vs, i);
      assert synth[i].value == v;
    } else if v in ValueSet(synth) {
      var i :| 0 <= i < |synth| && synth[i].value == v;
      SyntheticsLength(vs);
      SyntheticsAt(vs, i);
    }
  }

  /** The synthesised part of the render list holds exactly the selected
      values that no available option carries. */
  lemma SynthesizedExactlyMissing(availableItems: seq<Json.Value>, selectedItems: seq<Json.Value>, v: string)
    ensures var available := AvailableOptions(availableItems);
      (v in ValueSet(SelectedOnlyOptions(available, SelectedValues(selectedItems)))
       <==> v in SelectedValues(selectedItems) && v !in ValueSet(available))
  {
    var available := AvailableOptions(availableItems);
    var selected := SelectedValues(selectedItems);
    var firsts := FirstOccurrences(ValueSet(available), selected);
    SelectedOnlyIsFirstOccurrences(available, selected);
    SyntheticValues(firsts, v);
    if v in selected {
      FirstOccurrencesCover(ValueSet(available), selected, v);
    }
    if v in firsts {
      var i :| 0 <= i < |firsts| && firsts[i] == v;
      FirstOccurrencesFresh(ValueSet(available), selected, i);
    }
  }

  /** No two synthesised options carry the same value. */
  lemma SynthesizedDistinct(availableItems: seq<Json.Value>, selectedItems: seq<Json.Value>, i: nat, j: nat)
    requires var synth := SelectedOnlyOptions(AvailableOptions(availableItems), SelectedValues(selectedItems));
      i < j < |synth|
    ensures var synth := SelectedOnlyOptions(AvailableOptions(availableItems), SelectedValues(selectedItems));
      synth[i].value != synth[j].value
  {
    var available := AvailableOptions(availableItems);
    var selected := SelectedValues(selectedItems);
    var firsts := FirstOccurrences(ValueSet(available), selected);
    SelectedOnlyIsFirstOccurrences(available, selected);
    SyntheticsLength(firsts);
    SyntheticsAt(firsts, i);
    SyntheticsAt(firsts, j);
    FirstOccurrencesDistinct(ValueSet(available), selected, i, j);
  }

  /** Every selected value is the value of some option of the render list. */
  lemma RenderListCoversSelected(availableItems: seq<Json.Value>, selectedItems: seq<Json.Value>, v: string)
    requires v in SelectedValues(selectedItems)
    ensures exists i :: 0 <= i < |RenderList(availableItems, selectedItems)| &&
                        RenderList(availableItems, selectedItems)[i].value == v
  {
    var available := AvailableOptions(availableItems);
    var synth := SelectedOnlyOptions(available, SelectedValues(selectedItems));
    var all := RenderList(availableItems, selectedItems);
    SynthesizedExactlyMissing(availableItems, selectedItems, v);
    if v in ValueSet(available) {
      var i :| 0 <= i < |available| && available[i].value == v;
      assert all[i].value == v;
    } else {
      var i :| 0 <= i < |synth| && synth[i].value == v;
      assert all[|available| + i].value == v;
    }
  }

  predicate DistinctValues(opts: seq<MultiselectOption>) {
    forall i, j :: 0 <= i < j < |opts| ==> opts[i].value != opts[j].value
  }

  /** Two lists with distinct values, none shared, concatenate to a list
      with distinct values. */
  lemma AppendDistinct(a: seq<MultiselectOption>, b: seq<MultiselectOption>)
    requires DistinctValues(a) && DistinctValues(b)
    requires forall k :: 0 <= k < |b| ==> b[k].value !in ValueSet(a)
    ensures DistinctValues(a + b)
  {
    forall i, j | 0 <= i < j < |a + b| ensures (a + b)[i].value != (a + b)[j].value {
      if i < |a| <= j {
        assert (a + b)[i].value in ValueSet(a);
      }
    }
  }

  /** When the available options carry distinct values, so does the whole
      render list: every selected value is rendered exactly once. */
  lemma RenderListDistinct(availableItems: seq<Json.Value>, selectedItems: seq<Json.Value>)
    requires DistinctValues(AvailableOptions(availableItems))
    ensures DistinctValues(RenderList(availableItems, selectedItems))
  {
    var available := AvailableOptions(availableItems);
    var synth := SelectedOnlyOptions(available, SelectedValues(selectedItems));
    assert DistinctValues(synth) by {
      forall i, j | 0 <= i < j < |synth| ensures synth[i].value != synth[j].value {
        SynthesizedDistinct(availableItems, selectedItems, i, j);
      }
    }
    forall k | 0 <= k < |synth| ensures synth[k].value !in ValueSet(available) {
      assert synth[k].value in ValueSet(synth);
      SynthesizedExactlyMissing(availableItems, selectedItems, synth[k].value);
    }
    AppendDistinct(available, synth);
  }

  // ---------------------------------------------------------------------
  // Unique DOM ids (`resolveOptionId`)

  /** `baseId || \`option-${index}\``. */
  function Candidate(baseId: string, index: nat): string {
    if baseId != [] then baseId else PositionalId(index)
  }

  /** `\`${candidate}-${suffix}\``. */
  function Suffixed(candidate: string, suffix: nat): string {
    candidate + "-" + NatToString(suffix)
  }

  /** Different suffixes give different ids. */
  lemma SuffixedDistinct(candidate: string, j: nat, k: nat)
    requires j != k
    ensures Suffixed(candidate, j) != Suffixed(candidate, k)
  {
    NatToStringInjective(j, k);
    assert Suffixed(candidate, j)[|candidate| + 1..] == NatToString(j);
    assert Suffixed(candidate, k)[|candidate| + 1..] == NatToString(k);
  }

  /** The id `resolveOptionId(baseId, usedIds, index)` promises: the
      candidate when it is free, else the candidate with the smallest
      suffix `k >= 1` that is free. */
  ghost predicate ResolvesTo(id: string, baseId: string, usedIds: set<string>, index: nat) {
    var candidate := Candidate(baseId, index);
    && id !in usedIds
    && (if candidate !in usedIds then id == candidate
        else exists k :: 1 <= k && id == Suffixed(candidate, k) &&
               forall j :: 1 <= j < k ==> Suffixed(candidate, j) in usedIds)
  }

  /** `resolveOptionId`, with the `usedIds` set passed in and handed back. */
  method ResolveOptionId(baseId: string, usedIds: set<string>, index: nat)
    returns (resolved: string, usedAfter: set<string>)
    ensures resolved !in usedIds
    ensures usedAfter == usedIds + {resolved}
    ensures ResolvesTo(resolved, baseId, usedIds, index)
  {
    var candidate := if baseId != [] then baseId else PositionalId(index);
    if candidate !in usedIds {
      return candidate, usedIds + {candidate};
    }
    var suffix := 1;
    while Suffixed(candidate, suffix) in usedIds
      invariant 1 <= suffix
      invariant forall j :: 1 <= j < suffix ==> Suffixed(candidate, j) in usedIds
      decreases |usedIds| - suffix + 1
    {
      SuffixesBound(candidate, usedIds, suffix + 1);
      suffix := suffix + 1;
    }
    resolved := Suffixed(candidate, suffix);
    usedAfter := usedIds + {resolved};
  }

  /** A suffix not tried yet gives an id not tried yet. */
  lemma SuffixFresh(candidate: string, tried: set<string>, suffix: nat)
    requires forall x :: x in tried ==> exists j :: 1 <= j < suffix && x == Suffixed(candidate, j)
    ensures Suffixed(candidate, suffix) !in tried
  {
    forall x | x in tried ensures x != Suffixed(candidate, suffix) {
      var j :| 1 <= j < suffix && x == Suffixed(candidate, j);
      SuffixedDistinct(candidate, j, suffix);
    }
  }

  /** The ids with suffixes `1 .. n - 1`. */
  ghost function SuffixSet(candidate: string, n: nat): set<string>
    decreases n
  {
    if n <= 1 then {} else SuffixSet(candidate, n - 1) + {Suffixed(candidate, n - 1)}
  }

  /** There are `n - 1` of them, one per suffix. */
  lemma {:induction false} SuffixSetSize(candidate: string, n: nat)
    ensures n >= 1 ==> |SuffixSet(candidate, n)| == n - 1
    ensures forall x :: x in SuffixSet(candidate, n) ==> exists j :: 1 <= j < n && x == Suffixed(candidate, j)
    decreases n
  {
    if n > 1 {
      SuffixSetSize(candidate, n - 1);
      SuffixFresh(candidate, SuffixSet(candidate, n - 1), n - 1);
    }
  }

  /** The suffix search ends: while suffixes `1 .. n - 1` are all taken,
      `n - 1` cannot exceed the number of used ids. */
  lemma SuffixesBound(candidate: string, usedIds: set<string>, n: nat)
    requires 1 <= n
    requires forall j :: 1 <= j < n ==> Suffixed(candidate, j) in usedIds
    ensures n - 1 <= |usedIds|
  {
    SuffixSetSize(candidate, n);
    assert SuffixSet(candidate, n) <= usedIds by {
      forall x | x in SuffixSet(candidate, n) ensures x in usedIds {
        var j :| 1 <= j < n && x == Suffixed(candidate, j);
      }
    }
    SubsetCardinality(SuffixSet(candidate, n), usedIds);
  }

  lemma SubsetCardinality<T>(a: set<T>, b: set<T>)
    requires a <= b
    ensures |a| <= |b|
  {
    assert b == a + (b - a);
  }

  // ---------------------------------------------------------------------
  // The render pass

  /** One rendered checkbox: the option it stands for (with its resolved
      id), whether it is checked and whether it is disabled. */
  datatype Control = Control(option: MultiselectOption, checked: bool, disabled: bool)

  /** The ids of the rendered controls. */
  function IdsOf(controls: seq<Control>): set<string> {
    set i | 0 <= i < |controls| :: controls[i].option.id
  }

  predicate DistinctIds(controls: seq<Control>) {
    forall i, j :: 0 <= i < j < |controls| ==> controls[i].option.id != controls[j].option.id
  }

  /** `controls` renders `options` in order: the same option except for the
      resolved id, checked exactly when its value is selected. */
  ghost predicate RendersAs(controls: seq<Control>, options: seq<MultiselectOption>, selected: set<string>, disabled: bool) {
    && |controls| == |options|
    && forall i :: 0 <= i < |options| ==>
         && controls[i] == Control(options[i].(id := controls[i].option.id), options[i].value in selected, disabled)
         && ResolvesTo(controls[i].option.id, options[i].id, IdsOf(controls[..i]), i)
  }

  /** The `options.map(...)` of `renderMultiselectOptions`: resolve each id
      against the ids used so far in this pass and set the checked flag
      from the selected set. */
  method RenderControls(options: seq<MultiselectOption>, selected: set<string>, disabled: bool)
    returns (controls: seq<Control>)
    ensures RendersAs(controls, options, selected, disabled)
    ensures DistinctIds(controls)
  {
    var usedIds: set<string> := {};
    controls := [];
    var index := 0;
    while index < |options|
      invariant 0 <= index <= |options| && |controls| == index
      invariant usedIds == IdsOf(controls)
      invariant DistinctIds(controls)
      invariant forall i :: 0 <= i < index ==>
         && controls[i] == Control(options[i].(id := controls[i].option.id), options[i].value in selected, disabled)
         && ResolvesTo(controls[i].option.id, options[i].id, IdsOf(controls[..i]), i)
    {
      var option := options[index];
      var resolvedId;
      ghost var before := controls;
      resolvedId, usedIds := ResolveOptionId(option.id, usedIds, index);
      controls := controls + [Control(option.(id := resolvedId), option.value in selected, disabled)];
      assert controls[..index] == before;
      forall i | 0 <= i < index ensures controls[..i] == before[..i] {
      }
      assert IdsOf(controls) == IdsOf(before) + {resolvedId} by {
        forall x ensures x in IdsOf(controls) <==> x in IdsOf(before) + {resolvedId} {
          if x in IdsOf(before) {
            var i :| 0 <= i < |before| && before[i].option.id == x;
            assert controls[i].option.id == x;
          }
          if x == resolvedId {
            assert controls[index].option.id == x;
          }
        }
      }
      index := index + 1;
    }
  }

  /** The pure part of `renderMultiselectOptions`: the render list of the
      two attribute arrays, with unique ids and checked flags. `disabled`
      is the flag every new checkbox gets. */
  method RenderMultiselectOptions(availableItems: seq<Json.Value>, selectedItems: seq<Json.Value>, disabled: bool)
    returns (controls: seq<Control>)
    ensures RendersAs(controls, RenderList(availableItems, selectedItems),
                      SelectionSet(selectedItems), disabled)
    ensures DistinctIds(controls)
    ensures forall i :: 0 <= i < |controls| ==> controls[i].disabled == disabled
  {
    var selectedValuesList := SelectedValues(selectedItems);
    var selectedValues := SelectionSet(selectedItems);
    var availableOptions := AvailableOptions(availableItems);
    var synthesizedOptions := BuildSelectedOnlyOptions(availableOptions, selectedValuesList);
    var options := availableOptions + synthesizedOptions;
    controls := RenderControls(options, selectedValues, disabled);
  }

  /** A render of the two attribute arrays has a checked control for every
      selected value, whether or not it was among the available items. */
  lemma RenderedSelectionChecked(controls: seq<Control>, availableItems: seq<Json.Value>,
                                 selectedItems: seq<Json.Value>, disabled: bool, v: string)
    requires RendersAs(controls, RenderList(availableItems, selectedItems), SelectionSet(selectedItems), disabled)
    requires v in SelectedValues(selectedItems)
    ensures exists i :: 0 <= i < |controls| && controls[i].option.value == v && controls[i].checked
  {
    var options := RenderList(availableItems, selectedItems);
    RenderListCoversSelected(availableItems, selectedItems, v);
    var i :| 0 <= i < |options| && options[i].value == v;
    assert controls[i].option.value == v && controls[i].checked;
  }
}
