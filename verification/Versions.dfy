/** Version numbers: the form's check, its suggestion, and the order of committed versions. */
module Versions {
  import opened Decimals

  // ---- splitting at dots ----

  function Split(s: string): (parts: seq<string>)
    ensures parts != []
  {
    if s == "" then [""]
    else
      var rest := Split(s[1..]);
      if s[0] == '.' then [""] + rest else [[s[0]] + rest[0]] + rest[1..]
  }

  function Join(parts: seq<string>): string
    requires parts != []
  {
    if |parts| == 1 then parts[0] else parts[0] + "." + Join(parts[1..])
  }

  lemma {:induction false} JoinSplit(s: string)
    ensures Join(Split(s)) == s
  {
    if s != "" {
      JoinSplit(s[1..]);
      var rest := Split(s[1..]);
      if s[0] == '.' {
        assert ([""] + rest)[1..] == rest;
      } else {
        assert ([[s[0]] + rest[0]] + rest[1..])[1..] == rest[1..];
      }
      assert s == [s[0]] + s[1..];
    }
  }

  lemma {:induction false} SplitDigits(a: string)
    requires AllDigits(a)
    ensures Split(a) == [a]
  {
    if a != "" {
      SplitDigits(a[1..]);
      assert a == [a[0]] + a[1..];
    }
  }

  lemma {:induction false} SplitAtDot(a: string, s: string)
    requires AllDigits(a)
    ensures Split(a + "." + s) == [a] + Split(s)
  {
    if a == "" {
      assert (a + "." + s)[1..] == s;
    } else {
      assert (a + "." + s)[1..] == a[1..] + "." + s;
      SplitAtDot(a[1..], s);
      assert a == [a[0]] + a[1..];
    }
  }

  lemma SplitThree(a: string, b: string, c: string)
    requires AllDigits(a) && AllDigits(b) && AllDigits(c)
    ensures Split(a + "." + b + "." + c) == [a, b, c]
  {
    assert a + "." + b + "." + c == a + "." + (b + "." + c);
    SplitAtDot(a, b + "." + c);
    SplitAtDot(b, c);
    SplitDigits(c);
  }

  // ---- the form ----

  /** Three non-empty runs of digits separated by dots. */
  predicate IsVersion(s: string) {
    var parts := Split(s);
    |parts| == 3 && forall i | 0 <= i < 3 :: parts[i] != "" && AllDigits(parts[i])
  }

  datatype Numeric = NaN | Num(n: nat)

  function ToNumber(s: string): Numeric {
    if AllDigits(s) then Num(Value(s)) else NaN
  }

  /** A missing component is undefined, which compares like NaN. */
  function Component(parts: seq<string>, i: nat): Numeric {
    if i < |parts| then ToNumber(parts[i]) else NaN
  }

  predicate Less(a: Numeric, b: Numeric) {
    a.Num? && b.Num? && a.n < b.n
  }

  predicate Same(a: Numeric, b: Numeric) {
    a.Num? && b.Num? && a.n == b.n
  }

  /** validateVersion calls back without an error. */
  predicate Accepts(current: string, value: string) {
    if value == "" then true
    else if !IsVersion(value) then false
    else if current == "" then true
    else
      var v, c := Split(value), Split(current);
      !(|| Less(Component(v, 0), Component(c, 0))
        || (Same(Component(v, 0), Component(c, 0)) && Less(Component(v, 1), Component(c, 1)))
        || (Same(Component(v, 0), Component(c, 0)) && Same(Component(v, 1), Component(c, 1))
            && Less(Component(v, 2), Component(c, 2))))
  }

  /** The field is required: nothing passes with an empty value. */
  predicate FormPasses(current: string, value: string) {
    value != "" && Accepts(current, value)
  }

  /** The version suggested after `current`: the last component plus one. */
  function Suggest(current: string): string {
    if current == "" then ""
    else
      var parts := Split(current);
      if |parts| == 3 then
        parts[0] + "." + parts[1] + "." + (match ToNumber(parts[2]) case Num(n) => Numeral(n + 1) case NaN => "NaN")
      else ""
  }

  // ---- the order ----

  function Triple(s: string): (nat, nat, nat)
    requires IsVersion(s)
  {
    var parts := Split(s);
    (Value(parts[0]), Value(parts[1]), Value(parts[2]))
  }

  predicate Before(a: (nat, nat, nat), b: (nat, nat, nat)) {
    a.0 < b.0 || (a.0 == b.0 && a.1 < b.1) || (a.0 == b.0 && a.1 == b.1 && a.2 < b.2)
  }

  /** No component has a leading zero. */
  predicate Canonical(s: string) {
    IsVersion(s) && NoPadding(s)
  }

  predicate NoPadding(s: string) {
    forall i | 0 <= i < |Split(s)| :: NoLeadingZero(Split(s)[i])
  }

  /** Between versions, the form accepts exactly what is not before the current one. */
  lemma AcceptsIffNotBefore(current: string, value: string)
    requires IsVersion(current) && IsVersion(value)
    ensures Accepts(current, value) <==> !Before(Triple(value), Triple(current))
  {
    assert Split("") == [""];
  }

  /** `value` is three non-empty runs of digits with dots between them. */
  predicate Spells(value: string, a: string, b: string, c: string) {
    && a != "" && b != "" && c != "" && AllDigits(a) && AllDigits(b) && AllDigits(c)
    && value == a + "." + b + "." + c
  }

  lemma SpellsVersion(value: string, a: string, b: string, c: string)
    requires Spells(value, a, b, c)
    ensures IsVersion(value) && Triple(value) == (Value(a), Value(b), Value(c))
  {
    SplitThree(a, b, c);
  }

  lemma VersionSpells(value: string)
    requires IsVersion(value)
    ensures Spells(value, Split(value)[0], Split(value)[1], Split(value)[2])
  {
    var parts := Split(value);
    JoinSplit(value);
    assert parts[1..][1..] == [parts[2]];
    assert Join(parts[1..]) == parts[1] + "." + parts[2];
    assert parts[0] + "." + (parts[1] + "." + parts[2]) == parts[0] + "." + parts[1] + "." + parts[2];
  }

  /** After a version, the form lets pass exactly the values that are three non-empty runs of digits and whose numbers
      are not before those of the current version; nothing else, however it is written. */
  lemma FormPassesIff(current: string, value: string)
    requires IsVersion(current)
    ensures FormPasses(current, value) <==>
              exists a, b, c :: Spells(value, a, b, c) && !Before((Value(a), Value(b), Value(c)), Triple(current))
  {
    if FormPasses(current, value) {
      VersionSpells(value);
      AcceptsIffNotBefore(current, value);
      var parts := Split(value);
      assert Spells(value, parts[0], parts[1], parts[2]);
    }
    forall a, b, c | Spells(value, a, b, c) && !Before((Value(a), Value(b), Value(c)), Triple(current))
      ensures FormPasses(current, value)
    {
      SpellsVersion(value, a, b, c);
      AcceptsIffNotBefore(current, value);
    }
  }

  /** Without a current version, exactly the values that are three non-empty runs of digits pass. */
  lemma FirstFormPassesIff(value: string)
    ensures FormPasses("", value) <==> exists a, b, c :: Spells(value, a, b, c)
  {
    if FormPasses("", value) {
      VersionSpells(value);
      var parts := Split(value);
      assert Spells(value, parts[0], parts[1], parts[2]);
    }
    forall a, b, c | Spells(value, a, b, c) ensures FormPasses("", value) {
      SpellsVersion(value, a, b, c);
    }
  }

  /** After a current version whose first component is not a number, every well-formed value passes. */
  lemma UnreadableFormPassesIff(current: string, value: string)
    requires current != "" && !AllDigits(Split(current)[0])
    ensures FormPasses(current, value) <==> exists a, b, c :: Spells(value, a, b, c)
  {
    FirstFormPassesIff(value);
    assert Component(Split(current), 0) == NaN;
  }

  /** Whatever the current version, a malformed value does not pass. */
  lemma PassedIsVersion(current: string, value: string)
    requires FormPasses(current, value)
    ensures IsVersion(value)
  {
  }

  /** An accepted version is strictly greater than the current one exactly when its three numbers are not the same. */
  lemma AcceptedIsGreaterIff(current: string, value: string)
    requires IsVersion(current) && IsVersion(value) && Accepts(current, value)
    ensures Before(Triple(current), Triple(value)) <==> Triple(value) != Triple(current)
  {
    AcceptsIffNotBefore(current, value);
  }

  lemma TripleInjective(s: string, t: string)
    requires Canonical(s) && Canonical(t) && Triple(s) == Triple(t)
    ensures s == t
  {
    var a, b := Split(s), Split(t);
    ValueInjective(a[0], b[0]);
    ValueInjective(a[1], b[1]);
    ValueInjective(a[2], b[2]);
    assert a == b;
    JoinSplit(s);
    JoinSplit(t);
  }

  /** Without leading zeros, an accepted version that is not the current one is strictly greater. */
  lemma AcceptedIsGreater(current: string, value: string)
    requires Canonical(current) && FormPasses(current, value) && NoPadding(value) && value != current
    ensures IsVersion(value) && Before(Triple(current), Triple(value))
  {
    AcceptedIsGreaterIff(current, value);
    if Triple(value) == Triple(current) {
      TripleInjective(value, current);
    }
  }

  function Plain(t: (nat, nat, nat)): string {
    Numeral(t.0) + "." + Numeral(t.1) + "." + Numeral(t.2)
  }

  lemma PlainIsCanonical(t: (nat, nat, nat))
    ensures Canonical(Plain(t)) && Triple(Plain(t)) == t
  {
    NumeralValue(t.0);
    NumeralValue(t.1);
    NumeralValue(t.2);
    SplitThree(Numeral(t.0), Numeral(t.1), Numeral(t.2));
  }

  /** Greater than every other current version without leading zeros that lets it pass. */
  ghost predicate GreaterThanCanonical(value: string)
    requires IsVersion(value)
  {
    forall current | Canonical(current) && Accepts(current, value) && value != current ::
      Before(Triple(current), Triple(value))
  }

  /** A new version is strictly greater than every other current version without leading zeros that lets it pass
      exactly when it has none itself. The restriction on the current version matters: 0.0.1 passes after 0.0.01. */
  lemma GreaterIffCanonical(value: string)
    requires IsVersion(value)
    ensures GreaterThanCanonical(value) <==> Canonical(value)
  {
    if Canonical(value) {
      forall current | Canonical(current) && Accepts(current, value) && value != current
        ensures Before(Triple(current), Triple(value))
      {
        AcceptedIsGreater(current, value);
      }
    } else {
      var current := Plain(Triple(value));
      PlainIsCanonical(Triple(value));
      AcceptsIffNotBefore(current, value);
      assert current != value && !Before(Triple(current), Triple(value));
    }
  }

  lemma ThreeParts(a: string, b: string, c: string)
    requires AllDigits(a) && AllDigits(b) && AllDigits(c) && a != "" && b != "" && c != ""
    ensures IsVersion(a + "." + b + "." + c) && Triple(a + "." + b + "." + c) == (Value(a), Value(b), Value(c))
  {
    SplitThree(a, b, c);
  }

  /** With a leading zero two different strings pass in turn, so the same version can be published twice. */
  lemma LeadingZeroRepeats(a: string, b: string, c: string)
    requires AllDigits(a) && AllDigits(b) && AllDigits(c) && a != "" && b != "" && c != ""
    ensures var plain, padded := a + "." + b + "." + c, a + "." + b + ".0" + c;
      plain != padded && Accepts(plain, padded) && Accepts(padded, plain)
  {
    var plain, padded := a + "." + b + "." + c, a + "." + b + "." + ("0" + c);
    assert a + "." + b + ".0" + c == padded;
    LeadingZeroIgnored(c);
    ThreeParts(a, b, c);
    ThreeParts(a, b, "0" + c);
    assert |padded| == |plain| + 1;
    AcceptsIffNotBefore(plain, padded);
    AcceptsIffNotBefore(padded, plain);
  }

  lemma {:induction false} LeadingZeroIgnored(c: string)
    requires AllDigits(c)
    ensures AllDigits("0" + c) && Value("0" + c) == Value(c)
  {
    if c == "" {
      assert "0" + c == "0" && "0"[..0] == "";
    } else {
      LeadingZeroIgnored(c[..|c| - 1]);
      assert ("0" + c)[..|c|] == "0" + c[..|c| - 1];
    }
  }

  lemma InitialVersionIsCanonical()
    ensures Canonical("0.0.1")
  {
    SplitThree("0", "0", "1");
    assert "0" + "." + "0" + "." + "1" == "0.0.1";
    assert Split("0.0.1") == ["0", "0", "1"];
  }

  lemma SuggestSpells(current: string) returns (next: string)
    requires IsVersion(current)
    ensures Spells(Suggest(current), Split(current)[0], Split(current)[1], next)
    ensures next == Numeral(Value(Split(current)[2]) + 1)
  {
    next := Numeral(Value(Split(current)[2]) + 1);
    assert Split("") == [""];
  }

  lemma SpelledParts(value: string, a: string, b: string, c: string)
    requires Spells(value, a, b, c)
    ensures Split(value) == [a, b, c]
  {
    SplitThree(a, b, c);
  }

  lemma NextPasses(current: string, value: string, next: string)
    requires IsVersion(current) && Spells(value, Split(current)[0], Split(current)[1], next)
    requires next == Numeral(Value(Split(current)[2]) + 1)
    ensures IsVersion(value) && FormPasses(current, value) && value != current
    ensures Triple(value) == (Triple(current).0, Triple(current).1, Triple(current).2 + 1)
    ensures Canonical(current) ==> Canonical(value)
  {
    NumeralValue(Value(Split(current)[2]) + 1);
    SpellsVersion(value, Split(current)[0], Split(current)[1], next);
    SpelledParts(value, Split(current)[0], Split(current)[1], next);
    assert value != "" by {
      assert Split("") == [""];
    }
    AcceptsIffNotBefore(current, value);
  }

  /** The suggestion passes, names another version, is the current one with the last number plus one, and introduces no
      leading zero. */
  lemma SuggestionPasses(current: string)
    requires IsVersion(current)
    ensures IsVersion(Suggest(current)) && FormPasses(current, Suggest(current)) && Suggest(current) != current
    ensures var now, next := Triple(current), Triple(Suggest(current)); next == (now.0, now.1, now.2 + 1)
    ensures Canonical(current) ==> Canonical(Suggest(current))
  {
    var next := SuggestSpells(current);
    NextPasses(current, Suggest(current), next);
  }
}
