/** Option and JSON value types shared by the model. */
module Wrappers {
  /** `null` / `undefined` versus a present value. */
  datatype Option<+T> = None | Some(value: T)
}

/** The parsed form of the JSON text held in attributes and restored form state. */
module Json {
  /** A JSON value. Numbers are abstracted to integers. */
  datatype Value =
    | Null
    | Bool(b: bool)
    | Num(n: int)
    | Str(s: string)
    | Arr(items: seq<Value>)
    | Obj(fields: map<string, Value>)

  /** What `JSON.parse` yields: a syntax error (it throws) or a value. */
  datatype ParseResult = Malformed | Parsed(value: Value)

  /** `JSON.parse` over the texts an element meets: each text in the map
      parses to the value it is mapped to, every other text is a syntax
      error. */
  type Parser = map<string, Value>

  function Parse(parser: Parser, text: string): ParseResult {
    if text in parser then Parsed(parser[text]) else Malformed
  }

  /** Every string of `vs` as a JSON string, in order. */
  function Strings(vs: seq<string>): (r: seq<Value>)
    ensures |r| == |vs|
    ensures forall i :: 0 <= i < |vs| ==> r[i] == Str(vs[i])
  {
    seq(|vs|, i requires 0 <= i < |vs| => Str(vs[i]))
  }
}

/**
  String handling used by option normalisation: ECMAScript's `trim`, the
  `\s` class, `toLowerCase` (ASCII part only), the slug built from them, and
  the decimal rendering of a non-negative integer used in `${index}`.
*/
module Text {

  /** ECMAScript WhiteSpace and LineTerminator code points: the set that
      both `String.prototype.trim` and the regular-expression class `\s` use. */
  predicate IsWhitespace(c: char) {
    || c == '\t' || c == '\n' || c == '\U{B}' || c == '\U{C}' || c == '\r'
    || c == ' ' || c == '\U{A0}' || c == '\U{1680}'
    || ('\U{2000}' <= c <= '\U{200A}')
    || c == '\U{2028}' || c == '\U{2029}' || c == '\U{202F}' || c == '\U{205F}'
    || c == '\U{3000}' || c == '\U{FEFF}'
  }

  predicate HasWhitespace(s: string) {
    exists i :: 0 <= i < |s| && IsWhitespace(s[i])
  }

  /** Neither starts nor ends with whitespace. */
  predicate IsTrimmed(s: string) {
    s == [] || (!IsWhitespace(s[0]) && !IsWhitespace(s[|s| - 1]))
  }

  /** Lower-casing of one character (ASCII letters only). */
  function Lower(c: char): (r: char)
    ensures IsWhitespace(r) <==> IsWhitespace(c)
    ensures !('A' <= r <= 'Z')
  {
    if 'A' <= c <= 'Z' then (c as int + 32) as char else c
  }

  function LowerAll(s: string): (r: string)
    ensures |r| == |s|
  {
    seq(|s|, i requires 0 <= i < |s| => Lower(s[i]))
  }

  /** `s` with its leading whitespace removed. */
  function TrimStart(s: string): (r: string)
    ensures |r| <= |s|
    ensures r == [] || !IsWhitespace(r[0])
    ensures forall i :: 0 <= i < |s| - |r| ==> IsWhitespace(s[i])
  {
    if s != [] && IsWhitespace(s[0]) then TrimStart(s[1..]) else s
  }

  /** What `TrimStart` keeps is a suffix of its input. */
  lemma {:induction false} TrimStartIsSuffix(s: string)
    ensures TrimStart(s) == s[|s| - |TrimStart(s)|..]
    decreases |s|
  {
    if s != [] && IsWhitespace(s[0]) {
      TrimStartIsSuffix(s[1..]);
    }
  }

  /** `s` with its trailing whitespace removed. */
  function TrimEnd(s: string): (r: string)
    ensures |r| <= |s|
    ensures r == [] || !IsWhitespace(r[|r| - 1])
    ensures forall i :: |r| <= i < |s| ==> IsWhitespace(s[i])
  {
    if s != [] && IsWhitespace(s[|s| - 1]) then TrimEnd(s[..|s| - 1]) else s
  }

  /** What `TrimEnd` keeps is a prefix of its input. */
  lemma {:induction false} TrimEndIsPrefix(s: string)
    ensures TrimEnd(s) == s[..|TrimEnd(s)|]
    decreases |s|
  {
    if s != [] && IsWhitespace(s[|s| - 1]) {
      TrimEndIsPrefix(s[..|s| - 1]);
    }
  }

  /** Every character of `s` is whitespace. */
  predicate AllWhitespace(s: string) {
    forall j :: 0 <= j < |s| ==> IsWhitespace(s[j])
  }

  /** `String.prototype.trim`: `s` without the whitespace at both ends. */
  function Trim(s: string): (r: string)
    ensures IsTrimmed(r)
    ensures r == [] <==> AllWhitespace(s)
  {
    TrimEndOfTrimStart(s);
    TrimEnd(TrimStart(s))
  }

  /** The trim of `s` is the infix of `s` between a whitespace prefix and a
      whitespace suffix. */
  lemma TrimIsInfix(s: string)
    ensures var r := Trim(s); var k := |s| - |TrimStart(s)|;
      && k + |r| <= |s| && r == s[k..k + |r|]
      && (forall j :: 0 <= j < k ==> IsWhitespace(s[j]))
      && (forall j :: k + |r| <= j < |s| ==> IsWhitespace(s[j]))
  {
    TrimStartIsSuffix(s);
    TrimEndIsPrefix(TrimStart(s));
  }

  lemma TrimEndOfTrimStart(s: string)
    ensures var t := TrimStart(s); var r := TrimEnd(t);
      && (r == [] <==> AllWhitespace(s))
      && (r != [] ==> r[0] == t[0])
  {
    var t := TrimStart(s);
    var r := TrimEnd(t);
    TrimStartIsSuffix(s);
    TrimEndIsPrefix(t);
    if r != [] {
      assert !IsWhitespace(s[|s| - |t|]);
    }
  }

  /** A string without whitespace at its ends is its own trim. */
  lemma TrimTrimmed(s: string)
    requires IsTrimmed(s)
    ensures Trim(s) == s
  {
    if s != [] {
      assert !IsWhitespace(s[0]) && !IsWhitespace(s[|s| - 1]);
    }
    assert TrimStart(s) == s;
  }

  /** `replace(/\s+/g, '-')`: every maximal run of whitespace becomes one `-`. */
  function CollapseWhitespace(s: string): (r: string)
    ensures !HasWhitespace(r)
    ensures r == [] <==> s == []
    decreases |s|
  {
    if s == [] then []
    else if IsWhitespace(s[0]) then
      var rest := TrimStart(s);
      assert |rest| < |s| by {
        TrimStartIsSuffix(s);
        assert rest != [] ==> rest[0] == s[|s| - |rest|];
      }
      "-" + CollapseWhitespace(rest)
    else
      [s[0]] + CollapseWhitespace(s[1..])
  }

  /** Upper-case-free characters do not gain an upper-case letter when runs
      of whitespace are replaced. */
  predicate NoUpperCase(s: string) {
    forall i :: 0 <= i < |s| ==> !('A' <= s[i] <= 'Z')
  }

  lemma {:induction false} CollapseKeepsNoUpperCase(s: string)
    requires NoUpperCase(s)
    ensures NoUpperCase(CollapseWhitespace(s))
    decreases |s|
  {
    if s != [] {
      if IsWhitespace(s[0]) {
        var rest := TrimStart(s);
        TrimStartIsSuffix(s);
        assert NoUpperCase(rest) by {
          forall i | 0 <= i < |rest| ensures !('A' <= rest[i] <= 'Z') {
            assert rest[i] == s[|s| - |rest| + i];
          }
        }
        CollapseKeepsNoUpperCase(rest);
      } else {
        assert NoUpperCase(s[1..]) by {
          forall i | 0 <= i < |s| - 1 ensures !('A' <= s[1..][i] <= 'Z') {
            assert s[1..][i] == s[i + 1];
          }
        }
        CollapseKeepsNoUpperCase(s[1..]);
      }
    }
  }

  /** On a string without whitespace the replacement changes nothing. */
  lemma {:induction false} CollapseWithoutWhitespace(s: string)
    requires !HasWhitespace(s)
    ensures CollapseWhitespace(s) == s
    decreases |s|
  {
    if s != [] {
      assert !IsWhitespace(s[0]);
      assert !HasWhitespace(s[1..]) by {
        forall i | 0 <= i < |s| - 1 ensures !IsWhitespace(s[1..][i]) {
          assert s[1..][i] == s[i + 1];
        }
      }
      CollapseWithoutWhitespace(s[1..]);
    }
  }

  /** Leading whitespace of a concatenation: that of the first part when it
      has a non-whitespace character, else the second part's. */
  lemma {:induction false} TrimStartAppend(a: string, b: string)
    ensures TrimStart(a + b) == if TrimStart(a) != [] then TrimStart(a) + b else TrimStart(b)
    decreases |a|
  {
    if a == [] {
      assert a + b == b;
    } else if IsWhitespace(a[0]) {
      assert (a + b)[0] == a[0] && (a + b)[1..] == a[1..] + b;
      TrimStartAppend(a[1..], b);
    }
  }

  /** A non-empty run of whitespace becomes exactly one `-`. */
  lemma CollapseRun(w: string)
    requires w != [] && AllWhitespace(w)
    ensures CollapseWhitespace(w) == "-"
  {
    TrimStartIsSuffix(w);
  }

  /** The replacement works run by run: where no whitespace run straddles
      the join, collapsing a concatenation collapses each part. */
  lemma {:induction false} CollapseAppend(a: string, b: string)
    requires a == [] || b == [] || !IsWhitespace(a[|a| - 1]) || !IsWhitespace(b[0])
    ensures CollapseWhitespace(a + b) == CollapseWhitespace(a) + CollapseWhitespace(b)
    decreases |a|
  {
    if a == [] {
      assert a + b == b;
    } else if !IsWhitespace(a[0]) {
      if a[1..] != [] {
        assert a[1..][|a[1..]| - 1] == a[|a| - 1];
        CollapseAppend(a[1..], b);
      }
      CollapseAppendCharacter(a, b);
    } else {
      var t := TrimStart(a);
      TrimStartIsSuffix(a);
      if t != [] {
        assert t[0] == a[|a| - |t|] && t[|t| - 1] == a[|a| - 1];
        CollapseAppend(t, b);
      }
      CollapseAppendRun(a, b);
    }
  }

  /** The step of `CollapseAppend` for a first part that starts with a
      non-whitespace character, given the claim for the rest of it. */
  lemma CollapseAppendCharacter(a: string, b: string)
    requires a != [] && !IsWhitespace(a[0])
    requires a[1..] != [] ==>
      CollapseWhitespace(a[1..] + b) == CollapseWhitespace(a[1..]) + CollapseWhitespace(b)
    ensures CollapseWhitespace(a + b) == CollapseWhitespace(a) + CollapseWhitespace(b)
  {
    assert (a + b)[0] == a[0] && (a + b)[1..] == a[1..] + b;
    if a[1..] == [] {
      assert a[1..] + b == b;
    }
  }

  /** The step of `CollapseAppend` for a first part that starts with
      whitespace, given the claim for what follows its leading run. */
  lemma CollapseAppendRun(a: string, b: string)
    requires a != [] && IsWhitespace(a[0])
    requires b == [] || !IsWhitespace(a[|a| - 1]) || !IsWhitespace(b[0])
    requires TrimStart(a) != [] ==>
      CollapseWhitespace(TrimStart(a) + b) == CollapseWhitespace(TrimStart(a)) + CollapseWhitespace(b)
    ensures CollapseWhitespace(a + b) == CollapseWhitespace(a) + CollapseWhitespace(b)
  {
    var ta := TrimStart(a);
    TrimStartAppend(a, b);
    CollapseOfRun(a);
    assert (a + b)[0] == a[0];
    CollapseOfRun(a + b);
    if ta != [] {
      DashBefore(CollapseWhitespace(ta), CollapseWhitespace(b));
    } else {
      TrimmedAwayEndsInWhitespace(a);
      TrimStartUntouched(b);
      DashBefore([], CollapseWhitespace(b));
    }
  }

  /** Concatenation regrouped after a leading `-`. */
  lemma DashBefore(x: string, y: string)
    ensures "-" + (x + y) == ("-" + x) + y
  {
  }

  /** Unfolding `CollapseWhitespace` once on text that starts with whitespace. */
  lemma CollapseOfRun(s: string)
    requires s != [] && IsWhitespace(s[0])
    ensures CollapseWhitespace(s) == "-" + CollapseWhitespace(TrimStart(s))
  {
  }

  /** Text whose leading run is all of it ends in whitespace. */
  lemma TrimmedAwayEndsInWhitespace(s: string)
    requires s != [] && TrimStart(s) == []
    ensures IsWhitespace(s[|s| - 1])
  {
  }

  /** Text that does not start with whitespace loses nothing to `TrimStart`. */
  lemma TrimStartUntouched(s: string)
    requires s == [] || !IsWhitespace(s[0])
    ensures TrimStart(s) == s
  {
  }

  /** `value.trim().toLowerCase().replace(/\s+/g, '-')`. */
  function Slugify(v: string): (r: string)
    ensures !HasWhitespace(r)
    ensures r == [] <==> Trim(v) == []
  {
    CollapseWhitespace(LowerAll(Trim(v)))
  }

  /** A slug has no upper-case letter. */
  lemma SlugifyNoUpperCase(v: string)
    ensures NoUpperCase(Slugify(v))
  {
    var lowered := LowerAll(Trim(v));
    assert NoUpperCase(lowered) by {
      forall i | 0 <= i < |lowered| ensures !('A' <= lowered[i] <= 'Z') {
        assert lowered[i] == Lower(Trim(v)[i]);
      }
    }
    CollapseKeepsNoUpperCase(lowered);
  }

  /** A string that has no whitespace and no upper-case letter is its own slug. */
  lemma SlugOfSlugLike(s: string)
    requires !HasWhitespace(s)
    requires NoUpperCase(s)
    ensures Slugify(s) == s
  {
    NoWhitespaceIsTrimmed(s);
    SlugStepsOfSlugLike(s);
  }

  lemma NoWhitespaceIsTrimmed(s: string)
    requires !HasWhitespace(s)
    ensures IsTrimmed(s)
  {
    if s != [] {
      assert !IsWhitespace(s[0]) && !IsWhitespace(s[|s| - 1]);
    }
  }

  lemma SlugStepsOfSlugLike(s: string)
    requires IsTrimmed(s) && !HasWhitespace(s)
    requires NoUpperCase(s)
    ensures CollapseWhitespace(LowerAll(Trim(s))) == s
  {
    TrimTrimmed(s);
    LowerAllLowered(s);
    CollapseWithoutWhitespace(s);
  }

  /** A slug is its own slug: re-normalising an id leaves it unchanged. */
  lemma SlugifyIdempotent(v: string)
    ensures Slugify(Slugify(v)) == Slugify(v)
  {
    SlugifyNoUpperCase(v);
    SlugOfSlugLike(Slugify(v));
  }

  lemma LowerAllLowered(s: string)
    requires NoUpperCase(s)
    ensures LowerAll(s) == s
  {
    forall i | 0 <= i < |s| ensures LowerAll(s)[i] == s[i] {
      assert Lower(s[i]) == s[i];
    }
  }

  // ---------------------------------------------------------------------
  // Decimal rendering of `${index}` and `${suffix}`

  function DigitChar(d: nat): (c: char)
    requires d < 10
  {
    "0123456789"[d]
  }

  function DigitValue(c: char): nat {
    if '0' <= c <= '9' then (c as int - '0' as int) as nat else 0
  }

  predicate IsDigits(s: string) {
    forall i :: 0 <= i < |s| ==> '0' <= s[i] <= '9'
  }

  /** The decimal numeral of `n`, as template-literal interpolation writes it. */
  function NatToString(n: nat): (r: string)
    ensures r != [] && IsDigits(r)
    ensures !HasWhitespace(r)
  {
    if n < 10 then [DigitChar(n)] else NatToString(n / 10) + [DigitChar(n % 10)]
  }

  /** The value of a decimal numeral (the partner of `NatToString`). */
  function ParseNat(s: string): nat {
    if s == [] then 0 else ParseNat(s[..|s| - 1]) * 10 + DigitValue(s[|s| - 1])
  }

  /** Reading back a rendered numeral gives the number. */
  lemma {:induction false} ParseNatToString(n: nat)
    ensures ParseNat(NatToString(n)) == n
  {
    if n >= 10 {
      var s := NatToString(n);
      assert s[..|s| - 1] == NatToString(n / 10);
      ParseNatToString(n / 10);
    }
  }

  /** Distinct numbers are rendered as distinct numerals. */
  lemma NatToStringInjective(j: nat, k: nat)
    requires j != k
    ensures NatToString(j) != NatToString(k)
  {
    ParseNatToString(j);
    ParseNatToString(k);
  }
}
