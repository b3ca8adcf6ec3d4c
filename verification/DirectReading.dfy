/**
 * The parameters read one by one, at every depth, against the generated schema. The schema forgets all but the last of
 * several siblings of one name; the two readings agree exactly when the last sibling admits nothing that an earlier one
 * rejects, which is decided by looking at the parameters.
 */
module DirectReading {
  import opened Model
  import opened Forests
  import opened Schemas

  // ---- every parameter by itself ----

  /** Every member is declared, and every parameter of the list is satisfied. */
  predicate RecordDirect(f: Forest<Payload>, fields: map<string, Json>)
    decreases f, 1
  {
    (forall name | name in fields :: !NoneNamed(f, name)) && EachDirect(f, fields)
  }

  predicate EachDirect(f: Forest<Payload>, fields: map<string, Json>)
    decreases f, 0
  {
    match f
    case Empty => true
    case Tree(p, kids, rest) =>
      && (if p.name in fields then Direct(p, kids, fields[p.name]) else !p.required)
      && EachDirect(rest, fields)
  }

  predicate Direct(p: Payload, kids: Forest<Payload>, j: Json)
    decreases kids, 2
  {
    match p.kind
    case ObjectType => j.Object? && (kids.Tree? ==> RecordDirect(kids, j.fields))
    case ArrayType =>
      j.Array? && forall i | 0 <= i < |j.elements| ::
        if p.itemKind == Some(ObjectType) then
          j.elements[i].Object? && (kids.Tree? ==> RecordDirect(kids, j.elements[i].fields))
        else PlainFits(ItemKind(p), j.elements[i])
    case t => PlainFits(t, j)
  }

  function ItemKind(p: Payload): ParamType {
    if p.itemKind.Some? then p.itemKind.value else StringType
  }

  // ---- satisfying every parameter is enough ----

  lemma {:induction false} LastIsDirect(f: Forest<Payload>, fields: map<string, Json>, name: string)
    requires EachDirect(f, fields) && name in fields && LastNamed(f, name).Some?
    ensures Direct(LastNamed(f, name).value.0, LastNamed(f, name).value.1, fields[name])
  {
    if LastNamed(f.rest, name).Some? {
      LastIsDirect(f.rest, fields, name);
    }
  }

  lemma {:induction false} EachDirectHasRequired(f: Forest<Payload>, fields: map<string, Json>)
    requires EachDirect(f, fields)
    ensures RequiredPresent(f, fields)
  {
    match f
    case Empty =>
    case Tree(_, _, rest) => EachDirectHasRequired(rest, fields);
  }

  lemma {:induction false} RecordDirectFits(f: Forest<Payload>, fields: map<string, Json>)
    requires RecordDirect(f, fields)
    ensures RecordFits(f, fields)
    decreases f, 1
  {
    EachDirectHasRequired(f, fields);
    forall name | name in fields
      ensures LastNamed(f, name).Some? && Conforms(LastNamed(f, name).value.0, LastNamed(f, name).value.1, fields[name])
    {
      NoneNamedLast(f, name);
      LastIsDirect(f, fields, name);
      DirectConforms(LastNamed(f, name).value.0, LastNamed(f, name).value.1, fields[name]);
    }
  }

  lemma {:induction false} DirectConforms(p: Payload, kids: Forest<Payload>, j: Json)
    requires Direct(p, kids, j)
    ensures Conforms(p, kids, j)
    decreases kids, 2
  {
    if kids.Tree? && p.kind == ObjectType {
      RecordDirectFits(kids, j.fields);
    } else if kids.Tree? && p.kind == ArrayType && p.itemKind == Some(ObjectType) {
      forall i | 0 <= i < |j.elements| ensures RecordFits(kids, j.elements[i].fields) {
        RecordDirectFits(kids, j.elements[i].fields);
      }
    }
  }

  // ---- when one parameter admits all values that another one lets pass ----

  predicate PlainCovers(t: ParamType, u: ParamType) {
    || t == u
    || (t in {StringType, BinaryType} && u in {StringType, BinaryType})
    || (t == DoubleType && u == IntType)
  }

  /** Whether `p` admits every value that the schema of `q` lets pass, read off the two parameters. */
  predicate Covers(p: Payload, pk: Forest<Payload>, q: Payload, qk: Forest<Payload>)
    decreases pk, 2
  {
    if p.kind == ObjectType && q.kind == ObjectType then ObjectCovers(pk, qk)
    else if p.kind == ArrayType && q.kind == ArrayType then
      if ItemKind(p) == ObjectType && ItemKind(q) == ObjectType then ObjectCovers(pk, qk)
      else PlainCovers(ItemKind(p), ItemKind(q))
    else PlainCovers(p.kind, q.kind)
  }

  predicate ObjectCovers(pk: Forest<Payload>, qk: Forest<Payload>)
    decreases pk, 1
  {
    pk.Tree? ==> qk.Tree? && NamesWithin(qk, pk) && EachCovers(pk, qk)
  }

  predicate NamesWithin(f: Forest<Payload>, g: Forest<Payload>) {
    match f
    case Empty => true
    case Tree(p, _, rest) => !NoneNamed(g, p.name) && NamesWithin(rest, g)
  }

  /** Each parameter of `pk` covers the last one of its name in `qk`, and is optional where that may be left out. */
  predicate EachCovers(pk: Forest<Payload>, qk: Forest<Payload>)
    decreases pk, 0
  {
    match pk
    case Empty => true
    case Tree(p, kids, rest) =>
      && (match LastNamed(qk, p.name)
          case None => !p.required
          case Some((q, ks)) => (p.required ==> p.name in RequiredOf(qk)) && Covers(p, kids, q, ks))
      && EachCovers(rest, qk)
  }

  /** Every parameter covers the last sibling of its name, at every depth. */
  predicate Consistent(params: Forest<Payload>) {
    EachCovers(params, params)
  }

  // ---- covering is enough ----

  lemma {:induction false} NamesWithinAll(f: Forest<Payload>, g: Forest<Payload>, name: string)
    requires NamesWithin(f, g) && !NoneNamed(f, name)
    ensures !NoneNamed(g, name)
  {
    if f.root.name != name {
      NamesWithinAll(f.rest, g, name);
    }
  }

  lemma {:induction false} ObjectCovered(pk: Forest<Payload>, qk: Forest<Payload>, fields: map<string, Json>)
    requires pk.Tree? && ObjectCovers(pk, qk) && RecordFits(qk, fields)
    ensures RecordDirect(pk, fields)
    decreases pk, 1
  {
    forall name | name in fields ensures !NoneNamed(pk, name) {
      NoneNamedLast(qk, name);
      NamesWithinAll(qk, pk, name);
    }
    EachCovered(pk, qk, fields);
  }

  lemma {:induction false} EachCovered(pk: Forest<Payload>, qk: Forest<Payload>, fields: map<string, Json>)
    requires EachCovers(pk, qk) && RecordFits(qk, fields)
    ensures EachDirect(pk, fields)
    decreases pk, 0
  {
    match pk
    case Empty =>
    case Tree(p, kids, rest) =>
      EachCovered(rest, qk, fields);
      RequiredMeaning(qk, fields);
      if p.name in fields {
        var last := LastNamed(qk, p.name).value;
        Covered(p, kids, last.0, last.1, fields[p.name]);
      }
  }

  lemma {:induction false} Covered(p: Payload, pk: Forest<Payload>, q: Payload, qk: Forest<Payload>, j: Json)
    requires Covers(p, pk, q, qk) && Conforms(q, qk, j)
    ensures Direct(p, pk, j)
    decreases pk, 2
  {
    if pk.Tree? && p.kind == ObjectType && q.kind == ObjectType {
      ObjectCovered(pk, qk, j.fields);
    } else if pk.Tree? && p.kind == ArrayType && q.kind == ArrayType && ItemKind(p) == ObjectType
      && ItemKind(q) == ObjectType {
      forall i | 0 <= i < |j.elements| ensures RecordDirect(pk, j.elements[i].fields) {
        ObjectCovered(pk, qk, j.elements[i].fields);
      }
    }
  }

  // ---- a value for every parameter ----

  function PlainSample(t: ParamType): (j: Json)
    ensures PlainFits(t, j)
    ensures forall u | PlainFits(u, j) :: PlainCovers(u, t)
  {
    match t
    case StringType => String("")
    case BinaryType => String("")
    case IntType =>
      assert 0.0.Floor == 0;
      Number(0.0)
    case DoubleType =>
      assert 0.5.Floor == 0;
      Number(0.5)
    case BooleanType => Boolean(true)
    case ObjectType => Object(map[])
    case ArrayType => Array([])
  }

  function Sample(p: Payload, kids: Forest<Payload>): Json
    decreases kids, 1
  {
    if p.kind == ObjectType then Object(SampleFields(kids))
    else if p.kind == ArrayType then
      Array([if ItemKind(p) == ObjectType then Object(SampleFields(kids)) else PlainSample(ItemKind(p))])
    else PlainSample(p.kind)
  }

  /** A value for every name; of several siblings of one name the last counts. */
  function SampleFields(f: Forest<Payload>): map<string, Json>
    decreases f, 0
  {
    match f
    case Empty => map[]
    case Tree(p, kids, rest) => map[p.name := Sample(p, kids)] + SampleFields(rest)
  }

  lemma {:induction false} SampleNames(f: Forest<Payload>, name: string)
    ensures name in SampleFields(f) <==> LastNamed(f, name).Some?
    ensures name in SampleFields(f) ==>
              SampleFields(f)[name] == Sample(LastNamed(f, name).value.0, LastNamed(f, name).value.1)
  {
    match f
    case Empty =>
    case Tree(_, _, rest) => SampleNames(rest, name);
  }

  lemma {:induction false} RequiredAreNamed(f: Forest<Payload>, name: string)
    requires name in RequiredOf(f)
    ensures LastNamed(f, name).Some?
  {
    if !(f.root.required && f.root.name == name) {
      RequiredAreNamed(f.rest, name);
    }
  }

  lemma {:induction false} SampleRecordFits(f: Forest<Payload>)
    ensures RecordFits(f, SampleFields(f))
    decreases f, 0
  {
    var fields := SampleFields(f);
    forall name | name in fields
      ensures LastNamed(f, name).Some? && Conforms(LastNamed(f, name).value.0, LastNamed(f, name).value.1, fields[name])
    {
      SampleNames(f, name);
      SampleFits(LastNamed(f, name).value.0, LastNamed(f, name).value.1);
    }
    forall name | name in RequiredOf(f) ensures name in fields {
      RequiredAreNamed(f, name);
      SampleNames(f, name);
    }
    RequiredMeaning(f, fields);
  }

  lemma {:induction false} SampleFits(p: Payload, kids: Forest<Payload>)
    ensures Conforms(p, kids, Sample(p, kids))
    decreases kids, 1
  {
    SampleRecordFits(kids);
  }

  // ---- where covering fails, a value that passes and violates ----

  function LongName(f: Forest<Payload>): (s: string)
    ensures s != ""
  {
    match f
    case Empty => "x"
    case Tree(p, _, rest) => p.name + LongName(rest)
  }

  lemma {:induction false} LongNameIsNew(f: Forest<Payload>, name: string)
    requires |LongName(f)| <= |name|
    ensures NoneNamed(f, name)
  {
    match f
    case Empty =>
    case Tree(_, _, rest) => LongNameIsNew(rest, name);
  }

  lemma ReplacedFits(f: Forest<Payload>, fields: map<string, Json>, name: string, j: Json)
    requires RecordFits(f, fields) && LastNamed(f, name).Some?
    requires Conforms(LastNamed(f, name).value.0, LastNamed(f, name).value.1, j)
    ensures RecordFits(f, fields[name := j])
  {
    RequiredMeaning(f, fields);
    RequiredMeaning(f, fields[name := j]);
  }

  lemma ReducedFits(f: Forest<Payload>, fields: map<string, Json>, name: string)
    requires RecordFits(f, fields) && name !in RequiredOf(f)
    ensures RecordFits(f, fields - {name})
  {
    RequiredMeaning(f, fields);
    RequiredMeaning(f, fields - {name});
  }

  lemma {:induction false} NameOutside(f: Forest<Payload>, g: Forest<Payload>) returns (name: string)
    requires !NamesWithin(f, g)
    ensures !NoneNamed(f, name) && NoneNamed(g, name)
  {
    if NoneNamed(g, f.root.name) {
      name := f.root.name;
    } else {
      name := NameOutside(f.rest, g);
    }
  }

  lemma {:induction false} ObjectViolated(pk: Forest<Payload>, qk: Forest<Payload>) returns (fields: map<string, Json>)
    requires !ObjectCovers(pk, qk)
    ensures pk.Tree? && !RecordDirect(pk, fields)
    ensures qk.Tree? ==> RecordFits(qk, fields)
    decreases pk, 1
  {
    if qk == Empty {
      LongNameIsNew(pk, LongName(pk));
      fields := map[LongName(pk) := Null];
    } else if !NamesWithin(qk, pk) {
      var name := NameOutside(qk, pk);
      fields := SampleFields(qk);
      SampleRecordFits(qk);
      SampleNames(qk, name);
      NoneNamedLast(qk, name);
    } else {
      fields := EachViolated(pk, qk);
    }
  }

  lemma {:induction false} EachViolated(pk: Forest<Payload>, qk: Forest<Payload>) returns (fields: map<string, Json>)
    requires !EachCovers(pk, qk)
    ensures RecordFits(qk, fields) && !EachDirect(pk, fields)
    decreases pk, 0
  {
    var p := pk.root;
    var last := LastNamed(qk, p.name);
    SampleRecordFits(qk);
    SampleNames(qk, p.name);
    if !EachCovers(pk.rest, qk) {
      fields := EachViolated(pk.rest, qk);
    } else if last == None {
      fields := SampleFields(qk);
    } else if p.required && p.name !in RequiredOf(qk) {
      fields := SampleFields(qk) - {p.name};
      ReducedFits(qk, SampleFields(qk), p.name);
    } else {
      var j := Violated(p, pk.kids, last.value.0, last.value.1);
      fields := SampleFields(qk)[p.name := j];
      ReplacedFits(qk, SampleFields(qk), p.name, j);
    }
  }

  lemma {:induction false} Violated(p: Payload, pk: Forest<Payload>, q: Payload, qk: Forest<Payload>) returns (j: Json)
    requires !Covers(p, pk, q, qk)
    ensures Conforms(q, qk, j) && !Direct(p, pk, j)
    decreases pk, 2
  {
    if p.kind == ObjectType && q.kind == ObjectType {
      var fields := ObjectViolated(pk, qk);
      j := Object(fields);
    } else if p.kind == ArrayType && q.kind == ArrayType && ItemKind(p) == ObjectType && ItemKind(q) == ObjectType {
      var fields := ObjectViolated(pk, qk);
      j := Array([Object(fields)]);
      assert j.elements[0] == Object(fields);
    } else {
      j := Sample(q, qk);
      SampleFits(q, qk);
      SampleViolates(p, pk, q, qk);
    }
  }

  lemma SampleViolates(p: Payload, pk: Forest<Payload>, q: Payload, qk: Forest<Payload>)
    requires !(p.kind == q.kind == ObjectType)
    requires if p.kind == ArrayType && q.kind == ArrayType then
        !(ItemKind(p) == ItemKind(q) == ObjectType) && !PlainCovers(ItemKind(p), ItemKind(q))
      else !PlainCovers(p.kind, q.kind)
    ensures !Direct(p, pk, Sample(q, qk))
  {
    if p.kind == ArrayType && q.kind == ArrayType {
      var item := Sample(q, qk).elements[0];
      assert item.Object? <==> ItemKind(q) == ObjectType;
    }
  }

  // ---- the schema and the parameters one by one ----

  /** One parameter admits every value that the schema of another lets pass exactly when it covers the other. */
  lemma CoversIff(p: Payload, pk: Forest<Payload>, q: Payload, qk: Forest<Payload>)
    ensures (forall j :: Validates(ParamSchema(q, qk), j) ==> Direct(p, pk, j)) <==> Covers(p, pk, q, qk)
  {
    if Covers(p, pk, q, qk) {
      forall j | Validates(ParamSchema(q, qk), j) ensures Direct(p, pk, j) {
        ParamMeaning(q, qk, j);
        Covered(p, pk, q, qk, j);
      }
    } else {
      var j := Violated(p, pk, q, qk);
      ParamMeaning(q, qk, j);
      assert Validates(ParamSchema(q, qk), j);
    }
  }

  /** Whatever satisfies every parameter at every depth validates. */
  lemma DirectIsEnough(params: Forest<Payload>, j: Json)
    requires j.Object? && RecordDirect(params, j.fields)
    ensures Validates(RootSchema(params), j)
  {
    RecordDirectFits(params, j.fields);
    RootMeaning(params, j);
  }

  /** Where a parameter does not cover the last sibling of its name, a value validates that violates the parameter. */
  lemma RepeatedNameForgotten(params: Forest<Payload>) returns (fields: map<string, Json>)
    requires !Consistent(params)
    ensures Validates(RootSchema(params), Object(fields)) && !RecordDirect(params, fields)
  {
    fields := EachViolated(params, params);
    RootMeaning(params, Object(fields));
  }

  lemma {:induction false} NamesWithinItself(f: Forest<Payload>, whole: Forest<Payload>)
    requires forall name | !NoneNamed(f, name) :: !NoneNamed(whole, name)
    ensures NamesWithin(f, whole)
  {
    match f
    case Empty =>
    case Tree(p, _, rest) =>
      assert !NoneNamed(f, p.name);
      forall name | !NoneNamed(rest, name) ensures !NoneNamed(whole, name) {
        assert !NoneNamed(f, name);
      }
      NamesWithinItself(rest, whole);
  }

  /** The schema accepts exactly the values that satisfy every parameter, at every depth, if and only if every parameter
      covers the last sibling of its name. */
  lemma EveryParameterCountsIff(params: Forest<Payload>)
    ensures (forall j :: Validates(RootSchema(params), j) <==> j.Object? && RecordDirect(params, j.fields)) <==>
      Consistent(params)
  {
    if Consistent(params) {
      forall j ensures Validates(RootSchema(params), j) <==> j.Object? && RecordDirect(params, j.fields) {
        RootMeaning(params, j);
        if Validates(RootSchema(params), j) {
          ConsistentRecord(params, j.fields);
        } else if j.Object? && RecordDirect(params, j.fields) {
          DirectIsEnough(params, j);
        }
      }
    } else {
      var fields := RepeatedNameForgotten(params);
      var j := Object(fields);
      assert Validates(RootSchema(params), j) && !RecordDirect(params, j.fields);
    }
  }

  lemma ConsistentRecord(params: Forest<Payload>, fields: map<string, Json>)
    requires Consistent(params) && RecordFits(params, fields)
    ensures RecordDirect(params, fields)
  {
    EachCovered(params, params, fields);
    forall name | name in fields ensures !NoneNamed(params, name) {
      NoneNamedLast(params, name);
    }
  }

  // ---- sufficient conditions ----

  lemma {:induction false} DistinctCovers(f: Forest<Payload>, whole: Forest<Payload>)
    requires DistinctNames(f)
    requires forall name | !NoneNamed(f, name) :: LastNamed(whole, name) == LastNamed(f, name)
    requires forall name | name in RequiredOf(f) :: name in RequiredOf(whole)
    ensures EachCovers(f, whole)
    decreases f
  {
    match f
    case Empty =>
    case Tree(p, kids, rest) =>
      NoneNamedLast(rest, p.name);
      assert !NoneNamed(f, p.name) && LastNamed(whole, p.name) == Some((p, kids));
      assert p.required ==> RequiredOf(f)[0] == p.name;
      forall name | !NoneNamed(rest, name) ensures LastNamed(whole, name) == LastNamed(rest, name) {
        NoneNamedLast(rest, name);
        assert !NoneNamed(f, name);
      }
      forall name | name in RequiredOf(rest) ensures name in RequiredOf(whole) {
        assert name in RequiredOf(f);
      }
      DistinctCovers(rest, whole);
      DistinctCovers(kids, kids);
      NamesWithinItself(kids, kids);
  }

  /** With distinct sibling names, validation is exactly the reading of every parameter by itself, at every depth. */
  lemma RootMeaningDistinct(params: Forest<Payload>, j: Json)
    requires DistinctNames(params)
    ensures Validates(RootSchema(params), j) <==> j.Object? && RecordDirect(params, j.fields)
  {
    DistinctCovers(params, params);
    EveryParameterCountsIff(params);
  }

  /** Two siblings of one name: nothing is forgotten exactly when the first covers the second. */
  lemma TwoSiblingsIff(p: Payload, pk: Forest<Payload>, q: Payload, qk: Forest<Payload>)
    requires p.name == q.name && DistinctNames(pk) && DistinctNames(qk)
    ensures var params := Tree(p, pk, Tree(q, qk, Empty));
      (forall j :: Validates(RootSchema(params), j) <==> j.Object? && RecordDirect(params, j.fields)) <==>
        Covers(p, pk, q, qk)
  {
    var params := Tree(p, pk, Tree(q, qk, Empty));
    EveryParameterCountsIff(params);
    var last := Tree(q, qk, Empty);
    assert LastNamed(last, q.name) == Some((q, qk));
    assert LastNamed(params, p.name) == Some((q, qk));
    CoversItself(q, qk);
    assert q.required ==> RequiredOf(last) == [q.name];
    assert p.required ==> RequiredOf(params) == [p.name] + RequiredOf(last);
    assert EachCovers(last, params) by {
      assert EachCovers(Empty, params);
      assert q.required ==> q.name in RequiredOf(params);
    }
  }

  lemma CoversItself(q: Payload, qk: Forest<Payload>)
    requires DistinctNames(qk)
    ensures Covers(q, qk, q, qk)
  {
    DistinctCovers(qk, qk);
    NamesWithinItself(qk, qk);
  }
}
