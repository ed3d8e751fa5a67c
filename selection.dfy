/**
  The live selection list and the two edits a user toggle makes to it:
  appending a value that is absent, and removing every occurrence of a
  value. The list holds parsed JSON values, since a restored form state
  is assigned to it unfiltered.
*/
module Selection {
  import Json

  /** No value occurs twice. */
  predicate NoDuplicates(values: seq<Json.Value>) {
    forall i, j :: 0 <= i < j < |values| ==> values[i] != values[j]
  }

  /** Checking an option: `push(value)` unless `includes(value)`. */
  function Checked(values: seq<Json.Value>, v: string): (r: seq<Json.Value>)
    ensures Json.Str(v) in r
    ensures forall x :: x in r <==> x in values || x == Json.Str(v)
    ensures |values| <= |r| <= |values| + 1 && r[..|values|] == values
    ensures Json.Str(v) in values ==> r == values
  {
    if Json.Str(v) in values then values else values + [Json.Str(v)]
  }

  /** Unchecking an option: `filter(x => x !== value)`. A non-string
      element is never strictly equal to a string. */
  function Unchecked(values: seq<Json.Value>, v: string): (r: seq<Json.Value>)
    ensures Json.Str(v) !in r
    ensures forall x :: x in r <==> x in values && x != Json.Str(v)
    ensures |r| <= |values|
  {
    if values == [] then []
    else (if values[0] == Json.Str(v) then [] else [values[0]]) + Unchecked(values[1..], v)
  }

  /** The filter works element by element: it distributes over
      concatenation, so the survivors keep their relative order. */
  lemma {:induction false} UncheckedAppend(a: seq<Json.Value>, b: seq<Json.Value>, v: string)
    ensures Unchecked(a + b, v) == Unchecked(a, v) + Unchecked(b, v)
    decreases |a|
  {
    if a == [] {
      assert a + b == b;
    } else {
      assert (a + b)[0] == a[0] && (a + b)[1..] == a[1..] + b;
      UncheckedAppend(a[1..], b, v);
      var head := if a[0] == Json.Str(v) then [] else [a[0]];
      assert Unchecked(a + b, v) == head + (Unchecked(a[1..], v) + Unchecked(b, v));
      assert Unchecked(a, v) == head + Unchecked(a[1..], v);
    }
  }

  /** Removing a value that is absent changes nothing. */
  lemma {:induction false} UncheckedAbsent(values: seq<Json.Value>, v: string)
    requires Json.Str(v) !in values
    ensures Unchecked(values, v) == values
    decreases |values|
  {
    if values != [] {
      assert values[1..] + [] == values[1..];
      assert Json.Str(v) !in values[1..] by {
        assert forall x :: x in values[1..] ==> x in values;
      }
      UncheckedAbsent(values[1..], v);
      assert values == [values[0]] + values[1..];
    }
  }

  /** Checking never introduces a duplicate. */
  lemma CheckedKeepsNoDuplicates(values: seq<Json.Value>, v: string)
    requires NoDuplicates(values)
    ensures NoDuplicates(Checked(values, v))
  {
    var r := Checked(values, v);
    if Json.Str(v) !in values {
      forall i, j | 0 <= i < j < |r| ensures r[i] != r[j] {
        if j == |values| {
          assert r[i] == values[i];
        } else {
          assert r[i] == values[i] && r[j] == values[j];
        }
      }
    }
  }

  /** Unchecking never introduces a duplicate. */
  lemma {:induction false} UncheckedKeepsNoDuplicates(values: seq<Json.Value>, v: string)
    requires NoDuplicates(values)
    ensures NoDuplicates(Unchecked(values, v))
    decreases |values|
  {
    if values != [] {
      var tail := values[1..];
      assert NoDuplicates(tail) by {
        forall i, j | 0 <= i < j < |tail| ensures tail[i] != tail[j] {
          assert tail[i] == values[i + 1] && tail[j] == values[j + 1];
        }
      }
      UncheckedKeepsNoDuplicates(tail, v);
      var rest := Unchecked(tail, v);
      if values[0] != Json.Str(v) {
        assert values[0] !in tail by {
          forall k | 0 <= k < |tail| ensures tail[k] != values[0] {
            assert tail[k] == values[k + 1];
          }
        }
        var r := [values[0]] + rest;
        forall i, j | 0 <= i < j < |r| ensures r[i] != r[j] {
          if i == 0 {
            assert r[j] == rest[j - 1] && r[j] in rest;
          } else {
            assert r[i] == rest[i - 1] && r[j] == rest[j - 1];
          }
        }
      } else {
        assert [] + rest == rest;
      }
    }
  }

  /** Unchecking a value right after checking it, when it was absent,
      gives back the list as it was. */
  lemma UncheckUndoesCheck(values: seq<Json.Value>, v: string)
    requires Json.Str(v) !in values
    ensures Unchecked(Checked(values, v), v) == values
  {
    UncheckedAppend(values, [Json.Str(v)], v);
    UncheckedAbsent(values, v);
    assert Unchecked([Json.Str(v)], v) == [];
    assert values + [] == values;
  }

  /** Checking a value right after unchecking it moves it to the end. */
  lemma CheckAfterUncheck(values: seq<Json.Value>, v: string)
    ensures Checked(Unchecked(values, v), v) == Unchecked(values, v) + [Json.Str(v)]
  {
  }
}
