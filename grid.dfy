/**
  The `ck-multiselect-grid` element as a state machine: its attributes,
  the reset baseline and the live selection, the disabled flag, the
  rendered checkbox controls and the value published to the form.
*/
module Grid {
  import opened Wrappers
  import opened Text
  import opened Options
  import opened Reconcile
  import opened Selection
  import Json

  /** The attributes whose change triggers `attributeChangedCallback`. */
  const ObservedAttributes: set<string> :=
    {"title", "description", "fieldset-id", "fieldset-class", "availableitems", "selecteditems", "name"}

  const SelectedEventName := "ck-multiselect-option-selected"
  const UnselectedEventName := "ck-multiselect-option-unselected"

  /** What the element hands to the enclosing form: nothing, or the live
      selection (serialised by `JSON.stringify`). */
  datatype FormValue = NoValue | Published(values: seq<Json.Value>)

  /** The notification dispatched after a user toggle. */
  datatype SelectionEvent = SelectionEvent(name: string, option: MultiselectOption, checked: bool)

  /** `before` with every checked flag set from membership in `values`, and
      nothing else changed. */
  ghost predicate SyncedTo(controls: seq<Control>, before: seq<Control>, values: seq<Json.Value>) {
    && |controls| == |before|
    && forall i :: 0 <= i < |before| ==>
         controls[i] == before[i].(checked := Json.Str(before[i].option.value) in values)
  }

  /** `before` with every disabled flag set to `disabled`, and nothing else
      changed. */
  ghost predicate DisabledTo(controls: seq<Control>, before: seq<Control>, disabled: bool) {
    && |controls| == |before|
    && forall i :: 0 <= i < |before| ==> controls[i] == before[i].(disabled := disabled)
  }

  /** `getAttribute(name)` on an attribute map. */
  function Attribute(attributes: map<string, string>, name: string): (r: Option<string>)
    ensures r.Some? <==> name in attributes
    ensures r.Some? ==> r.value == attributes[name]
  {
    if name in attributes then Some(attributes[name]) else None
  }

  /** The entries of the `availableitems` attribute. */
  function AvailableItems(attributes: map<string, string>, parse: Json.Parser): seq<Json.Value> {
    ParseAttributeArray(Attribute(attributes, "availableitems"), parse)
  }

  /** The entries of the `selecteditems` attribute. */
  function SelectedItems(attributes: map<string, string>, parse: Json.Parser): seq<Json.Value> {
    ParseAttributeArray(Attribute(attributes, "selecteditems"), parse)
  }

  /** `controls` is what a render of these attributes produces: the render
      list of the two arrays, checked from the declared selection, every
      control disabled as `disabled` says. */
  ghost predicate RendersAttributes(controls: seq<Control>, attributes: map<string, string>,
                                    parse: Json.Parser, disabled: bool) {
    RendersAs(controls, RenderList(AvailableItems(attributes, parse), SelectedItems(attributes, parse)),
              SelectionSet(SelectedItems(attributes, parse)), disabled)
  }

  /** The form value `updateFormValue` publishes: the live selection when
      the `name` attribute is non-empty, nothing otherwise. */
  function PublishedValue(attributes: map<string, string>, values: seq<Json.Value>): (r: FormValue)
    ensures r.Published? <==> "name" in attributes && attributes["name"] != []
    ensures r.Published? ==> r.values == values
  {
    var name := Attribute(attributes, "name");
    if name.Some? && name.value != [] then Published(values) else NoValue
  }

  class CkMultiselectGrid {
    /** `JSON.parse`, given by the texts it accepts. */
    const parseJson: Json.Parser
    /** The element's attributes. */
    var attributes: map<string, string>
    var isConnected: bool
    /** Whether the shadow tree (and with it the option group) exists. */
    var initialized: bool
    /** Whether the delegated `change` listener is attached. */
    var listening: bool
    /** The reset baseline captured on connect. */
    var initialSelectedValues: seq<string>
    /** The live selection. */
    var currentSelectedValues: seq<Json.Value>
    var isDisabled: bool
    /** The rendered checkboxes, in document order. */
    var checkboxCache: seq<Control>
    var formValue: FormValue

    /** What holds between events: ids are unique, every control's disabled
        flag follows the form's, and the baseline holds selected values. */
    ghost predicate Valid()
      reads this`checkboxCache, this`isDisabled, this`initialSelectedValues, this`initialized
    {
      && DistinctIds(checkboxCache)
      && (forall i :: 0 <= i < |checkboxCache| ==> checkboxCache[i].disabled == isDisabled)
      && (forall i :: 0 <= i < |initialSelectedValues| ==> IsNonEmptyTrimmed(initialSelectedValues[i]))
      && (!initialized ==> checkboxCache == [])
    }

    /** The `value` getter: a copy of the live selection. */
    function Value(): seq<Json.Value>
      reads this`currentSelectedValues
    {
      currentSelectedValues
    }

    /** A freshly created element with its parsed attributes, not yet
        connected. */
    constructor(parseJson: Json.Parser, attributes: map<string, string>)
      ensures Valid()
      ensures this.parseJson == parseJson && this.attributes == attributes
      ensures !isConnected && !initialized && !listening && !isDisabled
      ensures initialSelectedValues == [] && currentSelectedValues == [] && checkboxCache == []
      ensures formValue == NoValue
    {
      this.parseJson := parseJson;
      this.attributes := attributes;
      isConnected := false;
      initialized := false;
      listening := false;
      initialSelectedValues := [];
      currentSelectedValues := [];
      isDisabled := false;
      checkboxCache := [];
      formValue := NoValue;
    }

    /** `connectedCallback`: capture the declared selection as both the
        reset baseline and the live selection, render, publish, listen. */
    method ConnectedCallback()
      modifies this`isConnected, this`initialized, this`listening, this`initialSelectedValues,
               this`currentSelectedValues, this`checkboxCache, this`formValue
      ensures Valid()
      ensures isConnected && initialized && listening
      ensures initialSelectedValues == SelectedValues(SelectedItems(attributes, parseJson))
      ensures currentSelectedValues == Json.Strings(initialSelectedValues)
      ensures RendersAttributes(checkboxCache, attributes, parseJson, isDisabled)
      ensures formValue == PublishedValue(attributes, currentSelectedValues)
    {
      var baseline := SelectedValues(SelectedItems(attributes, parseJson));
      var current := Json.Strings(baseline);
      isConnected, initialized, listening := true, true, true;
      initialSelectedValues, currentSelectedValues, formValue := baseline, current, PublishedValue(attributes, current);
      RenderMultiselectOptions();
    }

    /** `disconnectedCallback`: detach the listener and drop the cache. */
    method DisconnectedCallback()
      requires Valid()
      modifies this`isConnected, this`listening, this`checkboxCache
      ensures Valid()
      ensures !isConnected && !listening && checkboxCache == []
    {
      isConnected := false;
      listening := false;
      checkboxCache := [];
    }

    /** `setAttribute(name, value)` followed by `attributeChangedCallback`:
        an observed attribute whose value changed re-renders a connected
        element; neither selection list is touched. */
    method SetAttribute(name: string, value: string)
      requires Valid()
      modifies this`attributes, this`initialized, this`checkboxCache
      ensures Valid()
      ensures attributes == old(attributes)[name := value]
      ensures name in ObservedAttributes && Attribute(old(attributes), name) != Some(value) && isConnected ==>
        initialized &&
        RendersAttributes(checkboxCache, attributes, parseJson, isDisabled)
      ensures !(name in ObservedAttributes && Attribute(old(attributes), name) != Some(value) && isConnected) ==>
        initialized == old(initialized) && checkboxCache == old(checkboxCache)
    {
      var oldValue := Attribute(attributes, name);
      attributes := attributes[name := value];
      if name in ObservedAttributes && oldValue != Some(value) && isConnected {
        initialized := true;
        RenderMultiselectOptions();
      }
    }

    /** `removeAttribute(name)` followed by `attributeChangedCallback`. */
    method RemoveAttribute(name: string)
      requires Valid()
      modifies this`attributes, this`initialized, this`checkboxCache
      ensures Valid()
      ensures attributes == old(attributes) - {name}
      ensures name in ObservedAttributes && name in old(attributes) && isConnected ==>
        initialized &&
        RendersAttributes(checkboxCache, attributes, parseJson, isDisabled)
      ensures !(name in ObservedAttributes && name in old(attributes) && isConnected) ==>
        initialized == old(initialized) && checkboxCache == old(checkboxCache)
    {
      var oldValue := Attribute(attributes, name);
      attributes := attributes - {name};
      if name in ObservedAttributes && oldValue.Some? && isConnected {
        initialized := true;
        RenderMultiselectOptions();
      }
    }

    /** The option list of `render`: the render list of the two attributes,
        checked from the declared selection, disabled from the form. */
    method RenderMultiselectOptions()
      requires initialized
      modifies this`checkboxCache
      ensures RendersAttributes(checkboxCache, attributes, parseJson, isDisabled)
      ensures DistinctIds(checkboxCache)
      ensures forall i :: 0 <= i < |checkboxCache| ==> checkboxCache[i].disabled == isDisabled
    {
      checkboxCache := Reconcile.RenderMultiselectOptions(AvailableItems(attributes, parseJson), SelectedItems(attributes, parseJson), isDisabled);
    }

    /** The option list as the component builds it: `buildOptionNode`
        never sets `disabled`, so every new checkbox is enabled whatever
        the form's disabled state. */
    method RenderMultiselectOptionsAsWritten()
      requires initialized
      modifies this`checkboxCache
      ensures RendersAttributes(checkboxCache, attributes, parseJson, false)
      ensures forall i :: 0 <= i < |checkboxCache| ==> !checkboxCache[i].disabled
    {
      checkboxCache := Reconcile.RenderMultiselectOptions(AvailableItems(attributes, parseJson), SelectedItems(attributes, parseJson), false);
    }

    /** The delegated `change` handler, for the `k`-th checkbox now in
        state `checked`; a target that is not one of the rendered
        checkboxes is ignored. Checking appends the option's value when
        absent, unchecking removes every occurrence; the form value is
        republished and the notification returned. */
    method HandleInputChange(k: int, checked: bool) returns (event: Option<SelectionEvent>)
      requires Valid()
      modifies this`checkboxCache, this`currentSelectedValues, this`formValue
      ensures Valid()
      ensures !(0 <= k < |old(checkboxCache)|) ==>
        event == None && checkboxCache == old(checkboxCache) &&
        currentSelectedValues == old(currentSelectedValues) && formValue == old(formValue)
      ensures 0 <= k < |old(checkboxCache)| ==>
        var option := old(checkboxCache[k]).option;
        && checkboxCache == old(checkboxCache)[k := old(checkboxCache[k]).(checked := checked)]
        && currentSelectedValues == (if checked then Checked(old(currentSelectedValues), option.value)
                                     else Unchecked(old(currentSelectedValues), option.value))
        && formValue == PublishedValue(attributes, currentSelectedValues)
        && event == Some(SelectionEvent(if checked then SelectedEventName else UnselectedEventName, option, checked))
    {
      if !(0 <= k < |checkboxCache|) {
        return None;
      }
      var option := checkboxCache[k].option;
      checkboxCache := checkboxCache[k := checkboxCache[k].(checked := checked)];
      if checked {
        if Json.Str(option.value) !in currentSelectedValues {
          currentSelectedValues := currentSelectedValues + [Json.Str(option.value)];
        }
      } else {
        currentSelectedValues := Unchecked(currentSelectedValues, option.value);
      }
      UpdateFormValue();
      var eventName := if checked then SelectedEventName else UnselectedEventName;
      event := Some(SelectionEvent(eventName, option, checked));
    }

    /** The `value` setter: replace the live selection, publish, resync. */
    method SetValue(newValues: seq<string>)
      requires Valid()
      modifies this`currentSelectedValues, this`formValue, this`checkboxCache
      ensures Valid()
      ensures Value() == Json.Strings(newValues)
      ensures formValue == PublishedValue(attributes, currentSelectedValues)
      ensures SyncedTo(checkboxCache, old(checkboxCache), currentSelectedValues)
    {
      currentSelectedValues := Json.Strings(newValues);
      UpdateFormValue();
      SyncCheckboxesToCurrentValues();
    }

    /** `formResetCallback`: the live selection returns to the baseline. */
    method FormResetCallback()
      requires Valid()
      modifies this`currentSelectedValues, this`formValue, this`checkboxCache
      ensures Valid()
      ensures initialSelectedValues == old(initialSelectedValues)
      ensures currentSelectedValues == Json.Strings(initialSelectedValues)
      ensures formValue == PublishedValue(attributes, currentSelectedValues)
      ensures SyncedTo(checkboxCache, old(checkboxCache), currentSelectedValues)
    {
      currentSelectedValues := Json.Strings(initialSelectedValues);
      UpdateFormValue();
      SyncCheckboxesToCurrentValues();
    }

    /** `formDisabledCallback`: every control follows the new flag; the
        selection is untouched. */
    method FormDisabledCallback(disabled: bool)
      requires Valid()
      modifies this`isDisabled, this`checkboxCache
      ensures Valid()
      ensures isDisabled == disabled
      ensures DisabledTo(checkboxCache, old(checkboxCache), disabled)
    {
      isDisabled := disabled;
      SyncDisabledState();
    }

    /** `formStateRestoreCallback`: a non-empty state that parses as an
        array replaces the live selection as it is; anything else is
        ignored. */
    method FormStateRestoreCallback(state: string)
      requires Valid()
      modifies this`currentSelectedValues, this`formValue, this`checkboxCache
      ensures Valid()
      ensures var parsed := Json.Parse(parseJson, state);
        if state != [] && parsed.Parsed? && parsed.value.Arr? then
          && currentSelectedValues == parsed.value.items
          && formValue == PublishedValue(attributes, currentSelectedValues)
          && SyncedTo(checkboxCache, old(checkboxCache), currentSelectedValues)
        else
          && currentSelectedValues == old(currentSelectedValues)
          && formValue == old(formValue) && checkboxCache == old(checkboxCache)
    {
      if state != [] {
        var parsed := Json.Parse(parseJson, state);
        if parsed.Parsed? && parsed.value.Arr? {
          currentSelectedValues := parsed.value.items;
          UpdateFormValue();
          SyncCheckboxesToCurrentValues();
        }
      }
    }

    /** `syncCheckboxesToCurrentValues`: every cached checkbox is checked
        exactly when its value is in the live selection. */
    method SyncCheckboxesToCurrentValues()
      requires Valid()
      modifies this`checkboxCache
      ensures Valid()
      ensures SyncedTo(checkboxCache, old(checkboxCache), currentSelectedValues)
    {
      if !initialized {
        return;
      }
      var selectedSet := set v | v in currentSelectedValues;
      var k := 0;
      while k < |checkboxCache|
        invariant 0 <= k <= |checkboxCache| == |old(checkboxCache)|
        invariant forall i :: 0 <= i < k ==>
          checkboxCache[i] == old(checkboxCache)[i].(checked := Json.Str(old(checkboxCache)[i].option.value) in currentSelectedValues)
        invariant forall i :: k <= i < |checkboxCache| ==> checkboxCache[i] == old(checkboxCache)[i]
      {
        var checkbox := checkboxCache[k];
        var shouldBeChecked := Json.Str(checkbox.option.value) in selectedSet;
        checkboxCache := checkboxCache[k := checkbox.(checked := shouldBeChecked)];
        k := k + 1;
      }
    }

    /** `syncDisabledState`: every cached checkbox takes the form's flag. */
    method SyncDisabledState()
      requires DistinctIds(checkboxCache)
      modifies this`checkboxCache
      ensures DistinctIds(checkboxCache)
      ensures DisabledTo(checkboxCache, old(checkboxCache), isDisabled)
    {
      var k := 0;
      while k < |checkboxCache|
        invariant 0 <= k <= |checkboxCache| == |old(checkboxCache)|
        invariant forall i :: 0 <= i < k ==> checkboxCache[i] == old(checkboxCache)[i].(disabled := isDisabled)
        invariant forall i :: k <= i < |checkboxCache| ==> checkboxCache[i] == old(checkboxCache)[i]
      {
        checkboxCache := checkboxCache[k := checkboxCache[k].(disabled := isDisabled)];
        k := k + 1;
      }
    }

    /** `updateFormValue`. */
    method UpdateFormValue()
      modifies this`formValue
      ensures formValue == PublishedValue(attributes, currentSelectedValues)
    {
      var name := Attribute(attributes, "name");
      if name.Some? && name.value != [] {
        formValue := Published(currentSelectedValues);
      } else {
        formValue := NoValue;
      }
    }
  }

  /** The render as written breaks the rule that every control follows
      the form's disabled flag: with one available item, a render while
      the form is disabled yields an enabled checkbox. */
  lemma AsWrittenRenderIgnoresDisabled(controls: seq<Control>)
    requires RendersAs(controls, RenderList([Json.Str("a")], []), {}, false)
    ensures exists i :: 0 <= i < |controls| && controls[i].disabled != true
  {
    var items := [Json.Str("a")];
    NormalizeSelectedValue("a", 0);
    assert AvailableFrom(items, 1) == [];
    assert AvailableOptions(items) == [SyntheticOption("a")];
    assert |RenderList(items, [])| >= 1;
    assert controls[0].disabled == false;
  }

  /** The corrected render keeps it: whatever the lists, every control
      takes the form's flag. */
  lemma CorrectedRenderFollowsDisabled(controls: seq<Control>, availableItems: seq<Json.Value>,
                                       selectedItems: seq<Json.Value>, selected: set<string>, disabled: bool)
    requires RendersAs(controls, RenderList(availableItems, selectedItems), selected, disabled)
    ensures forall i :: 0 <= i < |controls| ==> controls[i].disabled == disabled
  {
    forall i | 0 <= i < |controls| ensures controls[i].disabled == disabled {
      var options := RenderList(availableItems, selectedItems);
      assert controls[i] == Control(options[i].(id := controls[i].option.id), options[i].value in selected, disabled);
    }
  }

  /** A re-render forgets the user's checks: with `availableitems` = `["a"]`
      and no `selecteditems`, checking "a" puts it in the live selection,
      and any later render (an observed attribute changing) leaves its
      checkbox unchecked while the selection still holds it. */
  lemma RerenderForgetsLiveCheck(controls: seq<Control>, disabled: bool)
    requires RendersAs(controls, RenderList([Json.Str("a")], []), SelectionSet([]), disabled)
    ensures |controls| == 1 && controls[0].option.value == "a" && !controls[0].checked
    ensures Json.Str(controls[0].option.value) in Checked([], "a")
  {
    var items := [Json.Str("a")];
    NormalizeSelectedValue("a", 0);
    assert AvailableFrom(items, 1) == [];
    assert AvailableOptions(items) == [SyntheticOption("a")];
    assert SelectedValues([]) == [];
    assert RenderList(items, []) == [SyntheticOption("a")];
  }
}
