/**
  Option normalisation: how the entries of the `availableitems` and
  `selecteditems` attributes become canonical options and selected values.
*/
module Options {
  import opened Wrappers
  import opened Text
  import Json

  /** The canonical option: `{ id, label, name, value }`. */
  datatype MultiselectOption = MultiselectOption(id: string, labelText: string, name: string, value: string)

  /** A non-empty string without whitespace at either end. */
  predicate IsNonEmptyTrimmed(s: string) {
    s != [] && IsTrimmed(s)
  }

  /** What every accepted option satisfies: its label, name and value are
      non-empty trimmed strings and its id is a non-empty token without
      whitespace. */
  predicate WellFormed(o: MultiselectOption) {
    && IsNonEmptyTrimmed(o.labelText)
    && IsNonEmptyTrimmed(o.name)
    && IsNonEmptyTrimmed(o.value)
    && o.id != [] && !HasWhitespace(o.id)
  }

  /** `entry && typeof entry === 'object'`: arrays and records, not null. */
  predicate IsObject(entry: Json.Value) {
    entry.Obj? || entry.Arr?
  }

  /** `record[key]`: a missing property reads as `undefined`, modelled by
      `Null` (both are rejected by `AsNonEmptyString`). Arrays have none of
      the properties the component reads. */
  function Field(entry: Json.Value, key: string): Json.Value {
    if entry.Obj? && key in entry.fields then entry.fields[key] else Json.Null
  }

  /** `asNonEmptyString`: a string that is non-empty once trimmed, trimmed. */
  function AsNonEmptyString(v: Json.Value): (r: Option<string>)
    ensures r.Some? <==> v.Str? && Trim(v.s) != []
    ensures r.Some? ==> IsNonEmptyTrimmed(r.value) && r.value == Trim(v.s)
  {
    if !v.Str? then None
    else
      var trimmed := Trim(v.s);
      if trimmed == [] then None else Some(trimmed)
  }

  /** `a ?? b` on optional strings. */
  function OrElse(a: Option<string>, b: Option<string>): Option<string> {
    if a.Some? then a else b
  }

  /** The positional placeholder id `option-<index>`. */
  function PositionalId(index: nat): (r: string)
    ensures r != [] && !HasWhitespace(r)
  {
    var digits := NatToString(index);
    NoWhitespaceAfterPrefix(digits);
    "option-" + digits
  }

  lemma NoWhitespaceAfterPrefix(digits: string)
    requires !HasWhitespace(digits)
    ensures !HasWhitespace("option-" + digits)
  {
  }

  /** `createOptionId`: the slug of `source`, or `option-<index>` when the
      slug is empty. */
  function CreateOptionId(source: string, index: nat): (r: string)
    ensures r != [] && !HasWhitespace(r)
    ensures Trim(source) != [] ==> r == Slugify(source)
    ensures Trim(source) == [] ==> r == PositionalId(index)
  {
    var slug := Slugify(source);
    if slug != [] then slug else PositionalId(index)
  }

  /** The record keys that can supply an option's value, in priority order. */
  const ValueKeys: seq<string> := ["value", "label", "name"]

  /** The value an object entry resolves to: the first of its `value`,
      `label` and `name` properties that is a non-empty string once trimmed. */
  function RecordValue(entry: Json.Value): Option<string> {
    OrElse(OrElse(AsNonEmptyString(Field(entry, "value")),
                  AsNonEmptyString(Field(entry, "label"))),
           AsNonEmptyString(Field(entry, "name")))
  }

  /** `normalizeOption`: a string entry or an object entry becomes an
      option, anything else is rejected. */
  function NormalizeOption(entry: Json.Value, index: nat): (r: Option<MultiselectOption>)
    ensures r.Some? ==> WellFormed(r.value)
  {
    if entry.Str? then
      var trimmed := Trim(entry.s);
      if trimmed == [] then None
      else Some(MultiselectOption(CreateOptionId(trimmed, index), trimmed, trimmed, trimmed))
    else if IsObject(entry) then
      var value := RecordValue(entry);
      if value.None? then None
      else
        var labelText := OrElse(AsNonEmptyString(Field(entry, "label")), value).value;
        var name := OrElse(AsNonEmptyString(Field(entry, "name")), value).value;
        var idSource := OrElse(AsNonEmptyString(Field(entry, "id")), Some(name)).value;
        Some(MultiselectOption(CreateOptionId(idSource, index), labelText, name, value.value))
    else
      None
  }

  /** A string entry is rejected exactly when it is blank; otherwise label,
      name and value are the trimmed string and the id is its slug. */
  lemma NormalizeString(s: string, index: nat)
    ensures NormalizeOption(Json.Str(s), index).None? <==> AllWhitespace(s)
    ensures NormalizeOption(Json.Str(s), index).Some? ==>
      var t := Trim(s);
      NormalizeOption(Json.Str(s), index).value == MultiselectOption(Slugify(s), t, t, t)
  {
    var t := Trim(s);
    if t != [] {
      TrimTrimmed(t);
    }
  }

  /** The value of an object entry is the first usable of `value`,
      `label`, `name`; there is none exactly when none of them is usable. */
  lemma RecordValuePriority(entry: Json.Value)
    ensures RecordValue(entry).None? <==>
      forall k :: k in ValueKeys ==> AsNonEmptyString(Field(entry, k)).None?
    ensures AsNonEmptyString(Field(entry, "value")).Some? ==>
      RecordValue(entry) == AsNonEmptyString(Field(entry, "value"))
    ensures AsNonEmptyString(Field(entry, "value")).None? && AsNonEmptyString(Field(entry, "label")).Some? ==>
      RecordValue(entry) == AsNonEmptyString(Field(entry, "label"))
    ensures AsNonEmptyString(Field(entry, "value")).None? && AsNonEmptyString(Field(entry, "label")).None? ==>
      RecordValue(entry) == AsNonEmptyString(Field(entry, "name"))
  {
    assert ValueKeys == ["value", "label", "name"];
  }

  /** An object entry is rejected exactly when it has no usable value;
      otherwise label and name default to that value and the id is the slug
      of the `id` property, else of the name. */
  lemma NormalizeRecord(entry: Json.Value, index: nat)
    requires IsObject(entry)
    ensures NormalizeOption(entry, index).None? <==> RecordValue(entry).None?
    ensures NormalizeOption(entry, index).Some? ==>
      var o := NormalizeOption(entry, index).value;
      var fieldLabel := AsNonEmptyString(Field(entry, "label"));
      var fieldName := AsNonEmptyString(Field(entry, "name"));
      var fieldId := AsNonEmptyString(Field(entry, "id"));
      && o.value == RecordValue(entry).value
      && o.labelText == (if fieldLabel.Some? then fieldLabel.value else o.value)
      && o.name == (if fieldName.Some? then fieldName.value else o.value)
      && o.id == Slugify(if fieldId.Some? then fieldId.value else o.name)
  {
    var r := NormalizeOption(entry, index);
    if r.Some? {
      var o := r.value;
      var fieldId := AsNonEmptyString(Field(entry, "id"));
      var idSource := if fieldId.Some? then fieldId.value else o.name;
      assert IsNonEmptyTrimmed(idSource);
      TrimTrimmed(idSource);
    }
  }

  /** Entries that are neither strings nor non-null objects are rejected. */
  lemma NormalizeOther(entry: Json.Value, index: nat)
    requires !entry.Str? && !IsObject(entry)
    ensures NormalizeOption(entry, index).None?
  {
  }

  /** The positional fallback `option-<index>` is never reached from
      `normalizeOption`: every id source it passes on is non-empty once
      trimmed, so the result does not depend on the index. */
  lemma NormalizeOptionIgnoresIndex(entry: Json.Value, i: nat, j: nat)
    ensures NormalizeOption(entry, i) == NormalizeOption(entry, j)
  {
    if entry.Str? {
      NormalizeString(entry.s, i);
      NormalizeString(entry.s, j);
    } else if IsObject(entry) {
      NormalizeRecord(entry, i);
      NormalizeRecord(entry, j);
    }
  }

  /** The record form of an accepted option, as the attribute would spell it. */
  function AsRecord(o: MultiselectOption): Json.Value {
    Json.Obj(map["id" := Json.Str(o.id), "label" := Json.Str(o.labelText),
                 "name" := Json.Str(o.name), "value" := Json.Str(o.value)])
  }

  /** The id of an accepted option is already a slug. */
  lemma NormalizedIdIsSlug(entry: Json.Value, index: nat)
    requires NormalizeOption(entry, index).Some?
    ensures var o := NormalizeOption(entry, index).value; Slugify(o.id) == o.id
  {
    var o := NormalizeOption(entry, index).value;
    if entry.Str? {
      NormalizeString(entry.s, index);
      SlugifyIdempotent(entry.s);
    } else {
      NormalizeRecord(entry, index);
      var fieldId := AsNonEmptyString(Field(entry, "id"));
      SlugifyIdempotent(if fieldId.Some? then fieldId.value else o.name);
    }
  }

  /** A non-empty trimmed string is its own usable string. */
  lemma UsableString(s: string)
    requires IsNonEmptyTrimmed(s)
    ensures AsNonEmptyString(Json.Str(s)) == Some(s)
  {
    TrimTrimmed(s);
  }

  /** Every field of the record form reads back as the option's own field. */
  lemma AsRecordFields(o: MultiselectOption)
    requires WellFormed(o)
    ensures AsNonEmptyString(Field(AsRecord(o), "value")) == Some(o.value)
    ensures AsNonEmptyString(Field(AsRecord(o), "label")) == Some(o.labelText)
    ensures AsNonEmptyString(Field(AsRecord(o), "name")) == Some(o.name)
    ensures AsNonEmptyString(Field(AsRecord(o), "id")) == Some(o.id)
  {
    AsRecordLookups(o);
    UsableString(o.value);
    UsableString(o.labelText);
    UsableString(o.name);
    NoWhitespaceIsTrimmed(o.id);
    UsableString(o.id);
  }

  lemma AsRecordLookups(o: MultiselectOption)
    ensures Field(AsRecord(o), "value") == Json.Str(o.value)
    ensures Field(AsRecord(o), "label") == Json.Str(o.labelText)
    ensures Field(AsRecord(o), "name") == Json.Str(o.name)
    ensures Field(AsRecord(o), "id") == Json.Str(o.id)
  {
  }

  /** Normalisation is idempotent: normalising the record form of an
      accepted option gives that option back, at any position. */
  lemma RenormalizeRecord(entry: Json.Value, index: nat, index': nat)
    requires NormalizeOption(entry, index).Some?
    ensures var o := NormalizeOption(entry, index).value;
      NormalizeOption(AsRecord(o), index') == Some(o)
  {
    var o := NormalizeOption(entry, index).value;
    AsRecordFields(o);
    NormalizedIdIsSlug(entry, index);
    RecordValuePriority(AsRecord(o));
    NormalizeRecord(AsRecord(o), index');
  }

  // ---------------------------------------------------------------------
  // Attribute lists

  /** `parseAttributeArray`: a missing or empty attribute, text that does
      not parse, and a parsed value that is not an array all read as `[]`. */
  function ParseAttributeArray(raw: Option<string>, parse: Json.Parser): (r: seq<Json.Value>)
    ensures r != [] ==> raw.Some? && raw.value != [] && Json.Parse(parse, raw.value) == Json.Parsed(Json.Arr(r))
    ensures raw.Some? && raw.value != [] && Json.Parse(parse, raw.value).Parsed? && Json.Parse(parse, raw.value).value.Arr? ==>
      r == Json.Parse(parse, raw.value).value.items
  {
    if raw.None? || raw.value == [] then []
    else
      match Json.Parse(parse, raw.value)
      case Parsed(Arr(items)) => items
      case _ => []
  }

  /** `getAvailableOptions` over entries `k..`: each entry normalised with
      its position in the attribute array, rejected entries dropped. */
  function AvailableFrom(items: seq<Json.Value>, k: nat): (r: seq<MultiselectOption>)
    requires k <= |items|
    ensures |r| <= |items| - k
    ensures forall i :: 0 <= i < |r| ==> WellFormed(r[i])
    decreases |items| - k
  {
    if k == |items| then []
    else
      var n := NormalizeOption(items[k], k);
      if n.Some? then [n.value] + AvailableFrom(items, k + 1) else AvailableFrom(items, k + 1)
  }

  function AvailableOptions(items: seq<Json.Value>): seq<MultiselectOption> {
    AvailableFrom(items, 0)
  }

  /** `NormalizeOption` accepts the entry at position `i` as `o`. */
  predicate NormalizesTo(items: seq<Json.Value>, i: nat, o: MultiselectOption)
    requires i < |items|
  {
    NormalizeOption(items[i], i) == Some(o)
  }

  /** An option is available exactly when some entry normalises to it. */
  lemma {:induction false} AvailableFromMembers(items: seq<Json.Value>, k: nat, o: MultiselectOption)
    requires k <= |items|
    ensures o in AvailableFrom(items, k) <==> exists i :: k <= i < |items| && NormalizesTo(items, i, o)
    decreases |items| - k
  {
    if k < |items| {
      AvailableFromMembers(items, k + 1, o);
      var n := NormalizeOption(items[k], k);
      var rest := AvailableFrom(items, k + 1);
      assert AvailableFrom(items, k) == if n.Some? then [n.value] + rest else rest;
      if o in AvailableFrom(items, k) {
        if n == Some(o) {
          assert NormalizesTo(items, k, o);
        }
      }
      if exists i :: k <= i < |items| && NormalizesTo(items, i, o) {
        var i :| k <= i < |items| && NormalizesTo(items, i, o);
        if i == k {
          assert o in AvailableFrom(items, k);
        }
      }
    }
  }

  /** Only the entries from `k` on matter, and their positions do not:
      the options from `k` are those of the suffix read from its start. */
  lemma {:induction false} AvailableFromSuffix(items: seq<Json.Value>, k: nat)
    requires k <= |items|
    ensures AvailableFrom(items, k) == AvailableOptions(items[k..])
    decreases |items| - k
  {
    if k < |items| {
      var tail := items[k..];
      assert tail[0] == items[k] && tail[1..] == items[k + 1..];
      NormalizeOptionIgnoresIndex(items[k], k, 0);
      AvailableFromSuffix(items, k + 1);
      AvailableFromSuffix(tail, 1);
    }
  }

  /** Map-then-filter preserves order and keeps duplicates: the options of
      a concatenation are the options of each part, concatenated. */
  lemma {:induction false} AvailableFromAppend(a: seq<Json.Value>, b: seq<Json.Value>, k: nat)
    requires k <= |a|
    ensures AvailableFrom(a + b, k) == AvailableFrom(a, k) + AvailableOptions(b)
    decreases |a| - k
  {
    if k == |a| {
      AvailableFromSuffix(a + b, k);
      assert (a + b)[k..] == b;
    } else {
      assert (a + b)[k] == a[k];
      AvailableFromAppend(a, b, k + 1);
    }
  }

  /** The available options of two attribute arrays joined end to end. */
  lemma AvailableOptionsAppend(a: seq<Json.Value>, b: seq<Json.Value>)
    ensures AvailableOptions(a + b) == AvailableOptions(a) + AvailableOptions(b)
  {
    AvailableFromAppend(a, b, 0);
  }

  /** What one entry contributes to the selected values: its trimmed
      string, unless it is not a string or is blank. */
  function SelectedEntry(v: Json.Value): (r: seq<string>)
    ensures |r| <= 1
    ensures forall i :: 0 <= i < |r| ==> IsNonEmptyTrimmed(r[i])
  {
    if v.Str? && Trim(v.s) != [] then [Trim(v.s)] else []
  }

  /** `getSelectedValues`: the string entries, trimmed, empties dropped, in order. */
  function SelectedValues(items: seq<Json.Value>): (r: seq<string>)
    ensures forall i :: 0 <= i < |r| ==> IsNonEmptyTrimmed(r[i])
    ensures |r| <= |items|
  {
    if items == [] then [] else SelectedEntry(items[0]) + SelectedValues(items[1..])
  }

  /** A value is selected exactly when some string entry trims to it. */
  lemma {:induction false} SelectedValuesMembers(items: seq<Json.Value>, v: string)
    ensures v in SelectedValues(items) <==>
      v != [] && exists i :: 0 <= i < |items| && items[i].Str? && Trim(items[i].s) == v
  {
    if items != [] {
      SelectedValuesMembers(items[1..], v);
      assert forall i :: 1 <= i < |items| ==> items[i] == items[1..][i - 1];
    }
  }

  /** Filtering preserves order: the selected values of a concatenation are
      the selected values of each part, concatenated. */
  lemma {:induction false} SelectedValuesAppend(a: seq<Json.Value>, b: seq<Json.Value>)
    ensures SelectedValues(a + b) == SelectedValues(a) + SelectedValues(b)
  {
    if a != [] {
      assert (a + b)[0] == a[0];
      assert (a + b)[1..] == a[1..] + b;
      SelectedValuesAppend(a[1..], b);
      var head := SelectedEntry(a[0]);
      assert SelectedValues(a + b) == head + SelectedValues(a[1..] + b);
      assert SelectedValues(a) == head + SelectedValues(a[1..]);
      assert head + (SelectedValues(a[1..]) + SelectedValues(b)) == (head + SelectedValues(a[1..])) + SelectedValues(b);
    } else {
      assert a + b == b;
    }
  }
}
