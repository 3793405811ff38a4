/** Field inference: turning a `Field` (a raw string, a property, or a member-access
    expression) into the dotted path string sent on the wire, with per-settings
    renaming precedence and a per-resolver cache.

    An expression such as `p => p.CuratedTags[0].Name.Suffix("raw")` is a chain of
    steps: member accesses, transparent collection indexers and `.First()` calls,
    dictionary indexers with their (constant or captured) key, and suffixes. */
module FieldInference {
  import opened Wrappers
  import opened Clr

  const PathSeparator: char := '.'
  const BoostSeparator: char := '^'

  /** A declared member: the type that declares it and its CLR name. */
  datatype MemberRef = MemberRef(declaringType: TypeId, name: string)

  datatype Step =
    | Member(member: MemberRef)    // `x.Member`
    | Transparent                  // a collection indexer `[0]` or `.First()`
    | Key(key: string)             // a dictionary indexer, its argument evaluated
    | Suffix(suffix: string)       // `.Suffix(s)` or `AppendSuffix(s)`

  /** A boost is carried as its invariant-culture text; it is never computed with. */
  type Boost = string

  datatype Field =
    | NameField(name: string, boost: Option<Boost>)
    | PropertyField(property: MemberRef, boost: Option<Boost>)
    | ExpressionField(root: TypeId, chain: seq<Step>, boost: Option<Boost>)

  /** What one connection-settings instance brings to name inference:
      hard renames (`InferMappingFor<T>(m => m.Rename(...))`), the client's property
      attributes as the metadata lookup reports them, the names the configured
      serializer insists on, and `DefaultFieldNameInferrer`. */
  datatype Settings = Settings(
    renames: map<MemberRef, string>,
    propertyAttributes: map<MemberRef, string>,
    serializerNames: map<MemberRef, string>,
    defaultFieldNameInferrer: string -> string)

  // ------------------------------------------------------------ field values

  /** Splitting a field name at its first `^` into the name and the boost text. */
  function ParseFieldName(raw: string): (r: (string, Option<Boost>))
    ensures BoostSeparator !in r.0
    ensures r.1.None? <==> BoostSeparator !in raw
    ensures r.1.Some? ==> r.0 + [BoostSeparator] + r.1.value == raw
    ensures r.1.None? ==> r.0 == raw
  {
    var i := IndexOf(raw, BoostSeparator);
    if i < 0 then (raw, None)
    else
      Around(raw, i);
      (raw[..i], Some(raw[i + 1..]))
  }

  /** `new Field(name, boost)` and the implicit conversion from a string: a boost
      written in the name wins over the one passed in. */
  function FieldFromString(raw: string, boost: Option<Boost>): Field {
    var (name, nameBoost) := ParseFieldName(raw);
    NameField(name, if nameBoost.Some? then nameBoost else boost)
  }

  lemma NameCanSpecifyBoost(name: string, b: Boost, ctorBoost: Option<Boost>)
    requires BoostSeparator !in name
    ensures FieldFromString(name + [BoostSeparator] + b, ctorBoost) == NameField(name, Some(b))
  {
    var raw := name + [BoostSeparator] + b;
    var r := ParseFieldName(raw);
    assert raw[..|name|] == name;
    IndexOfFirst(raw, BoostSeparator, |name|);
    assert raw[|name| + 1..] == b;
  }

  lemma NameWithoutBoost(name: string, ctorBoost: Option<Boost>)
    requires BoostSeparator !in name
    ensures FieldFromString(name, ctorBoost) == NameField(name, ctorBoost)
  {
  }

  /** What `Field` equality compares: the name, the property or the expression,
      never the boost. */
  datatype FieldIdentity = ByName(string) | ByProperty(MemberRef) | ByExpression(TypeId, seq<Step>)

  function Identity(f: Field): FieldIdentity {
    match f
    case NameField(n, _) => ByName(n)
    case PropertyField(m, _) => ByProperty(m)
    case ExpressionField(root, chain, _) => ByExpression(root, chain)
  }

  function FieldEquals(a: Field, b: Field): bool {
    Identity(a) == Identity(b)
  }

  /** Fields that differ only in their boost are equal, e.g. `"name^2"` and `"name^3"`. */
  lemma EqualityIgnoresBoost(f: Field, b: Option<Boost>)
    ensures FieldEquals(f, f.(boost := b))
  {
  }

  /** `"name^2"` and `"name^3"` are the same field, named `name`. */
  lemma BoostedNamesAreEqual()
    ensures FieldFromString("name^2", None) == NameField("name", Some("2"))
    ensures FieldFromString("name^3", Some("3")) == NameField("name", Some("3"))
    ensures FieldEquals(FieldFromString("name^2", None), FieldFromString("name^3", None))
  {
    assert "name^2" == "name" + [BoostSeparator] + "2";
    NameCanSpecifyBoost("name", "2", None);
    assert "name^3" == "name" + [BoostSeparator] + "3";
    NameCanSpecifyBoost("name", "3", None);
    NameCanSpecifyBoost("name", "3", Some("3"));
  }

  /** `AppendSuffix(suffix)` on an expression: one more suffix step. */
  function AppendSuffix(root: TypeId, chain: seq<Step>, suffix: string): (f: Field)
    ensures f.ExpressionField? && f.root == root && f.boost.None?
    ensures |f.chain| == |chain| + 1 && f.chain[..|chain|] == chain && f.chain[|chain|..] == [Suffix(suffix)]
  {
    ExpressionField(root, chain + [Suffix(suffix)], None)
  }

  // -------------------------------------------------------- name inference

  /** The default `DefaultFieldNameInferrer`: camel case, i.e. an upper-case
      ASCII first letter is lowered and the rest is kept. */
  function CamelCase(s: string): (r: string)
    ensures |r| == |s| && (|s| > 0 ==> r[1..] == s[1..])
    ensures |s| > 0 && 'A' <= s[0] <= 'Z' ==> r[0] == s[0] - 'A' + 'a'
    ensures |s| > 0 && !('A' <= s[0] <= 'Z') ==> r == s
  {
    if |s| > 0 && 'A' <= s[0] <= 'Z' then [s[0] - 'A' + 'a'] + s[1..] else s
  }

  function DefaultSettings(propertyAttributes: map<MemberRef, string>, serializerNames: map<MemberRef, string>): Settings {
    Settings(map[], propertyAttributes, serializerNames, CamelCase)
  }

  /** The name of a member, first applicable rule winning: a hard rename on the
      settings, a client property attribute, the serializer's verbatim name, and
      the default inferrer applied to the CLR member name. */
  function InferMemberName(s: Settings, m: MemberRef): string {
    if m in s.renames then s.renames[m]
    else if m in s.propertyAttributes then s.propertyAttributes[m]
    else if m in s.serializerNames then s.serializerNames[m]
    else s.defaultFieldNameInferrer(m.name)
  }

  /** A hard rename wins whatever the lower rules say. */
  lemma HardRenameWins(s: Settings, m: MemberRef, attributes: map<MemberRef, string>,
                       serializer: map<MemberRef, string>, inferrer: string -> string)
    requires m in s.renames
    ensures InferMemberName(s.(propertyAttributes := attributes, serializerNames := serializer,
                               defaultFieldNameInferrer := inferrer), m) == s.renames[m]
  {
  }

  /** Removing rules one by one from the top exposes the next one down: without the
      hard rename the attribute wins, without that the serializer, and without all
      three the default inferrer applied to the member's CLR name. */
  lemma PrecedenceLadder(s: Settings, m: MemberRef)
    requires m in s.renames && m in s.propertyAttributes && m in s.serializerNames
    ensures InferMemberName(s, m) == s.renames[m]
    ensures InferMemberName(s.(renames := s.renames - {m}), m) == s.propertyAttributes[m]
    ensures InferMemberName(s.(renames := s.renames - {m}, propertyAttributes := s.propertyAttributes - {m}), m)
            == s.serializerNames[m]
    ensures InferMemberName(s.(renames := s.renames - {m}, propertyAttributes := s.propertyAttributes - {m},
                               serializerNames := s.serializerNames - {m}), m)
            == s.defaultFieldNameInferrer(m.name)
  {
  }

  // ------------------------------------------------------- path compilation

  /** The path segments one step contributes. */
  function StepSegments(s: Settings, step: Step): (segs: seq<string>)
    ensures step.Transparent? <==> segs == []
    ensures |segs| <= 1
  {
    match step
    case Member(m) => [InferMemberName(s, m)]
    case Transparent => []
    case Key(k) => [k]
    case Suffix(x) => [x]
  }

  /** The segments of a chain, in traversal order. */
  function Segments(s: Settings, chain: seq<Step>): (segs: seq<string>)
    ensures |segs| <= |chain|
  {
    if chain == [] then [] else StepSegments(s, chain[0]) + Segments(s, chain[1..])
  }

  /** The path of a chain: its segments joined by `.`. */
  function Path(s: Settings, chain: seq<Step>): string {
    Join(Segments(s, chain), PathSeparator)
  }

  lemma {:induction false} SegmentsAppend(s: Settings, a: seq<Step>, b: seq<Step>)
    ensures Segments(s, a + b) == Segments(s, a) + Segments(s, b)
  {
    if a != [] {
      assert (a + b)[0] == a[0];
      assert (a + b)[1..] == a[1..] + b;
      SegmentsAppend(s, a[1..], b);
    } else {
      assert a + b == b;
    }
  }

  /** Extending a chain extends its path: by one `.`-separated segment if the
      step has one, by nothing if it is transparent, and the first segment of an
      empty path is the segment itself. */
  lemma {:induction false} PathExtend(s: Settings, chain: seq<Step>, step: Step)
    ensures step.Transparent? ==> Path(s, chain + [step]) == Path(s, chain)
    ensures !step.Transparent? && Segments(s, chain) == [] ==>
      Path(s, chain + [step]) == StepSegments(s, step)[0]
    ensures !step.Transparent? && Segments(s, chain) != [] ==>
      Path(s, chain + [step]) == Path(s, chain) + [PathSeparator] + StepSegments(s, step)[0]
  {
    SegmentsAppend(s, chain, [step]);
    assert Segments(s, [step]) == StepSegments(s, step) by {
      assert [step][1..] == [];
    }
    var segs := Segments(s, chain);
    if !step.Transparent? && segs != [] {
      JoinAppend(segs, StepSegments(s, step), PathSeparator);
    } else if step.Transparent? {
      assert segs + [] == segs;
    }
  }

  /** A collection indexer or `.First()` anywhere in a chain changes nothing. */
  lemma TransparentIsInvisible(s: Settings, a: seq<Step>, b: seq<Step>)
    ensures Path(s, a + [Transparent] + b) == Path(s, a + b)
  {
    SegmentsAppend(s, a + [Transparent], b);
    SegmentsAppend(s, a, [Transparent]);
    SegmentsAppend(s, a, b);
    assert Segments(s, [Transparent]) == [] by {
      assert [Transparent][1..] == [];
    }
    assert Segments(s, a + [Transparent]) == Segments(s, a);
    assert Segments(s, a + [Transparent] + b) == Segments(s, a + b);
  }

  /** A dictionary key and a suffix are appended verbatim, never renamed or cased. */
  lemma KeysAndSuffixesAreVerbatim(s: Settings, chain: seq<Step>, x: string)
    requires Segments(s, chain) != []
    ensures Path(s, chain + [Key(x)]) == Path(s, chain) + [PathSeparator] + x
    ensures Path(s, chain + [Suffix(x)]) == Path(s, chain) + [PathSeparator] + x
  {
    PathExtend(s, chain, Key(x));
    PathExtend(s, chain, Suffix(x));
  }

  /** A path is exactly its segments joined by `.`: when no segment contains a
      `.`, splitting the path at `.` gives the segments back. */
  lemma PathSplitsIntoSegments(s: Settings, chain: seq<Step>)
    requires Segments(s, chain) != []
    requires forall k :: 0 <= k < |Segments(s, chain)| ==> PathSeparator !in Segments(s, chain)[k]
    ensures Split(Path(s, chain), PathSeparator) == Segments(s, chain)
  {
    SplitJoin(Segments(s, chain), PathSeparator);
  }

  // ----------------------------------------------------------- resolution

  /** The resolved name of a field without its boost: raw strings verbatim,
      properties through the precedence rules, expressions as their path. */
  function FieldName(s: Settings, f: Field): string {
    match f
    case NameField(n, _) => n
    case PropertyField(m, _) => InferMemberName(s, m)
    case ExpressionField(_, chain, _) => Path(s, chain)
  }

  /** What `Resolve` returns: the name, followed by `^boost` when there is a boost. */
  function Rendered(s: Settings, f: Field): string {
    FieldName(s, f) + BoostSuffix(f.boost)
  }

  /** `^boost`, or nothing. */
  function BoostSuffix(b: Option<Boost>): string {
    if b.Some? then [BoostSeparator] + b.value else ""
  }

  /** Raw strings bypass every naming rule, including the inferrer. */
  lemma RawStringsAreVerbatim(s: Settings, name: string, b: Option<Boost>)
    ensures FieldName(s, NameField(name, b)) == name
  {
  }

  /** A boost never changes the resolved name, and equal fields resolve alike. */
  lemma BoostDoesNotChangeName(s: Settings, f: Field, g: Field)
    requires FieldEquals(f, g)
    ensures FieldName(s, f) == FieldName(s, g)
  {
  }

  /** The boost comes back as written: a name with a boost renders as written.
      This holds for any boost text only because boosts are kept verbatim as text;
      it says nothing about how a `double` boost would be formatted. */
  lemma {:induction false} BoostRoundTrip(s: Settings, name: string, b: Boost)
    requires BoostSeparator !in name
    ensures Rendered(s, FieldFromString(name + [BoostSeparator] + b, None)) == name + [BoostSeparator] + b
  {
    NameCanSpecifyBoost(name, b, None);
  }

  /** The key the resolver caches an expression under: its root type and its
      chain, so structurally equal expressions share an entry whatever objects
      encode them, and the boost plays no part. */
  type CacheKey = (TypeId, seq<Step>)

  /** `FieldResolver`: resolution bound to one settings instance, memoising each
      expression in `fields` and each property in `properties` (`CachedFields` and
      `CachedProperties` count them). */
  class FieldResolver {
    const settings: Settings
    var fields: map<CacheKey, string>
    var properties: map<MemberRef, string>

    /** The cache never holds anything but what its own settings would compute. */
    ghost predicate Valid()
      reads this
    {
      && (forall k | k in fields :: fields[k] == Path(settings, k.1))
      && (forall m | m in properties :: properties[m] == InferMemberName(settings, m))
    }

    constructor(settings: Settings)
      ensures Valid() && this.settings == settings
      ensures fields == map[] && properties == map[]
    {
      this.settings := settings;
      fields := map[];
      properties := map[];
    }

    /** `CachedFields`: the number of cached expressions. */
    function CachedFields(): nat
      reads this
    {
      |fields|
    }

    /** `CachedProperties`: the number of cached properties. */
    function CachedProperties(): nat
      reads this
    {
      |properties|
    }

    /** The cached path of an expression, computed and stored on first use. */
    method ResolveExpression(root: TypeId, chain: seq<Step>) returns (name: string)
      requires Valid()
      modifies this`fields
      ensures Valid()
      ensures name == Path(settings, chain)
      ensures fields == old(fields)[(root, chain) := name]
      ensures |fields| == |old(fields)| + (if (root, chain) in old(fields) then 0 else 1)
    {
      var key := (root, chain);
      if key in fields {
        name := fields[key];
        assert fields[key := name] == fields;
      } else {
        name := Path(settings, chain);
        fields := fields[key := name];
      }
    }

    /** The cached name of a property, computed and stored on first use. */
    method ResolveProperty(m: MemberRef) returns (name: string)
      requires Valid()
      modifies this`properties
      ensures Valid()
      ensures name == InferMemberName(settings, m)
      ensures properties == old(properties)[m := name]
    {
      if m in properties {
        name := properties[m];
        assert properties[m := name] == properties;
      } else {
        name := InferMemberName(settings, m);
        properties := properties[m := name];
      }
    }

    /** `Resolve(field)`: the rendered field; only expressions and properties are
        cached, under a key that leaves out the boost. */
    method Resolve(f: Field) returns (resolved: string)
      requires Valid()
      modifies this
      ensures Valid()
      ensures resolved == Rendered(settings, f)
      ensures fields == if f.ExpressionField? then old(fields)[(f.root, f.chain) := FieldName(settings, f)]
                        else old(fields)
      ensures properties == if f.PropertyField? then old(properties)[f.property := FieldName(settings, f)]
                            else old(properties)
      ensures f.ExpressionField? ==>
        |fields| == |old(fields)| + (if (f.root, f.chain) in old(fields) then 0 else 1)
    {
      var name: string;
      match f {
        case NameField(n, _) =>
          name := n;
        case PropertyField(m, _) =>
          name := ResolveProperty(m);
        case ExpressionField(root, chain, _) =>
          name := ResolveExpression(root, chain);
      }
      resolved := name + BoostSuffix(f.boost);
    }
  }
}
