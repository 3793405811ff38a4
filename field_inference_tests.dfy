/** The field-inference behaviour the client's documentation tests assert, stated
    over the model: the test classes become type ids and each expression a chain. */
module FieldInferenceTests {
  import opened Wrappers
  import opened Clr
  import opened FieldInference

  const Project := TypeId(1, "Project")
  const Developer := TypeId(2, "Developer")
  const Tag := TypeId(3, "Tag")
  const CommitActivity := TypeId(5, "CommitActivity")
  const Person := TypeId(6, "Person")
  const BuiltIn := TypeId(7, "BuiltIn")
  const SerializerSpecific := TypeId(8, "SerializerSpecific")
  const Both := TypeId(9, "Both")
  const A := TypeId(10, "A")
  const B := TypeId(11, "B")
  const C := TypeId(12, "C")
  const Precedence := TypeId(13, "Precedence")

  function Upper(c: char): char {
    if 'a' <= c <= 'z' then c - 'a' + 'A' else c
  }

  /** `ToUpperInvariant` on ASCII text. */
  function ToUpperAscii(s: string): (r: string)
    ensures |r| == |s| && forall i :: 0 <= i < |s| ==> r[i] == Upper(s[i])
  {
    seq(|s|, i requires 0 <= i < |s| => Upper(s[i]))
  }

  function IdentityInferrer(s: string): string {
    s
  }

  function M(t: TypeId, name: string): Step {
    Member(MemberRef(t, name))
  }

  /** Default settings and no attributes anywhere. */
  function Plain(): Settings {
    DefaultSettings(map[], map[])
  }

  lemma PlainMember(t: TypeId, n: string)
    ensures StepSegments(Plain(), M(t, n)) == [CamelCase(n)]
  {
  }

  lemma SegmentsOfTwo(s: Settings, x: Step, y: Step)
    ensures Segments(s, [x, y]) == StepSegments(s, x) + StepSegments(s, y)
  {
    assert [x, y][1..] == [y] && [y][1..] == [];
  }

  lemma SegmentsOfThree(s: Settings, x: Step, y: Step, z: Step)
    ensures Segments(s, [x, y, z]) == StepSegments(s, x) + StepSegments(s, y) + StepSegments(s, z)
  {
    assert [x, y, z][1..] == [y, z];
    SegmentsOfTwo(s, y, z);
  }

  /** Two members under the default inferrer. */
  lemma PlainMemberPath(t1: TypeId, n1: string, t2: TypeId, n2: string)
    ensures Path(Plain(), [M(t1, n1), M(t2, n2)]) == CamelCase(n1) + [PathSeparator] + CamelCase(n2)
  {
    SegmentsOfTwo(Plain(), M(t1, n1), M(t2, n2));
    PlainMember(t1, n1);
    PlainMember(t2, n2);
    JoinCons(CamelCase(n1), [CamelCase(n2)], PathSeparator);
  }

  /** Two members with a collection indexer between them. */
  lemma PlainIndexedPath(t1: TypeId, n1: string, t2: TypeId, n2: string)
    ensures Path(Plain(), [M(t1, n1), Transparent, M(t2, n2)]) == CamelCase(n1) + [PathSeparator] + CamelCase(n2)
  {
    SegmentsOfThree(Plain(), M(t1, n1), Transparent, M(t2, n2));
    PlainMember(t1, n1);
    PlainMember(t2, n2);
    JoinCons(CamelCase(n1), [CamelCase(n2)], PathSeparator);
  }

  /** A member followed by a dictionary key. */
  lemma PlainKeyPath(t: TypeId, n: string, k: string)
    ensures Path(Plain(), [M(t, n), Key(k)]) == CamelCase(n) + [PathSeparator] + k
  {
    SegmentsOfTwo(Plain(), M(t, n), Key(k));
    PlainMember(t, n);
    JoinCons(CamelCase(n), [k], PathSeparator);
  }

  lemma CamelCaseOfTestNames()
    ensures CamelCase("Name") == "name" && CamelCase("Added") == "added"
    ensures CamelCase("Metadata") == "metadata" && CamelCase("C") == "c"
  {
  }

  lemma CamelCaseOfLeadDeveloper()
    ensures CamelCase("LeadDeveloper") == "leadDeveloper" && CamelCase("FirstName") == "firstName"
  {
  }

  lemma CamelCaseOfCuratedTags()
    ensures CamelCase("CuratedTags") == "curatedTags"
  {
  }

  /** A string, a property and an expression naming `Project.Name` all become `name`. */
  lemma UsingConstructors()
    ensures FieldName(Plain(), FieldFromString("name", None)) == "name"
    ensures FieldName(Plain(), PropertyField(MemberRef(Project, "Name"), None)) == "name"
    ensures FieldName(Plain(), ExpressionField(Project, [M(Project, "Name")], None)) == "name"
  {
    assert [M(Project, "Name")][1..] == [];
    CamelCaseOfTestNames();
  }

  /** A boost in a string and a boost passed with an expression both render as `name^2.1`. */
  lemma UsingStaticPropertyField()
    ensures Rendered(Plain(), NameField("name", Some("2.1"))) == "name^2.1"
    ensures Rendered(Plain(), ExpressionField(Project, [M(Project, "Name")], Some("2.1"))) == "name^2.1"
  {
    UsingConstructors();
  }

  /** A custom inferrer applies to expressions but never to strings. */
  lemma DefaultFieldNameInferrer()
    ensures Path(Settings(map[], map[], map[], ToUpperAscii), [M(Project, "Name")]) == "NAME"
    ensures FieldName(Settings(map[], map[], map[], ToUpperAscii), FieldFromString("NaMe", None)) == "NaMe"
    ensures Path(Settings(map[], map[], map[], IdentityInferrer), [M(Project, "Name")]) == "Name"
  {
    assert [M(Project, "Name")][1..] == [];
  }

  /** Member chains are joined by `.` to any depth. */
  lemma MemberChains()
    ensures Path(Plain(), [M(Project, "LeadDeveloper"), M(Developer, "FirstName")]) == "leadDeveloper.firstName"
  {
    PlainMemberPath(Project, "LeadDeveloper", Developer, "FirstName");
    CamelCaseOfLeadDeveloper();
  }

  /** A collection indexer adds no segment: `curatedTags[0].added` is `curatedTags.added`. */
  lemma CollectionIndexers()
    ensures Path(Plain(), [M(Project, "CuratedTags"), Transparent, M(Tag, "Added")]) == "curatedTags.added"
  {
    PlainIndexedPath(Project, "CuratedTags", Tag, "Added");
    CamelCaseOfCuratedTags();
    CamelCaseOfTestNames();
  }

  /** A dictionary indexer's key becomes a segment as written. */
  lemma DictionaryIndexers()
    ensures Path(Plain(), [M(Project, "Metadata"), Key("hardcoded")]) == "metadata.hardcoded"
  {
    PlainKeyPath(Project, "Metadata", "hardcoded");
    CamelCaseOfTestNames();
  }

  /** A suffix appends a verbatim segment: `leadDeveloper.firstName.raw`. */
  lemma SuffixExpressions()
    ensures Path(Plain(), [M(Project, "LeadDeveloper"), M(Developer, "FirstName"), Suffix("raw")])
            == "leadDeveloper.firstName.raw"
  {
    var chain := [M(Project, "LeadDeveloper"), M(Developer, "FirstName")];
    MemberChains();
    SegmentsOfTwo(Plain(), M(Project, "LeadDeveloper"), M(Developer, "FirstName"));
    KeysAndSuffixesAreVerbatim(Plain(), chain, "raw");
    assert chain + [Suffix("raw")] == [M(Project, "LeadDeveloper"), M(Developer, "FirstName"), Suffix("raw")];
  }

  /** A client attribute renames; the serializer's name applies on its own; the
      client attribute wins when both are present. */
  lemma AttributeBasedNaming()
    ensures InferMemberName(DefaultSettings(map[MemberRef(BuiltIn, "Name") := "naam"], map[]),
                            MemberRef(BuiltIn, "Name")) == "naam"
    ensures InferMemberName(DefaultSettings(map[], map[MemberRef(SerializerSpecific, "Name") := "nameInJson"]),
                            MemberRef(SerializerSpecific, "Name")) == "nameInJson"
    ensures InferMemberName(DefaultSettings(map[MemberRef(Both, "Name") := "naam"], map[MemberRef(Both, "Name") := "nameInJson"]),
                            MemberRef(Both, "Name")) == "naam"
  {
  }

  function PrecedenceSettings(): Settings {
    Settings(
      map[MemberRef(Precedence, "RenamedOnConnectionSettings") := "renamed"],
      map[MemberRef(Precedence, "RenamedOnConnectionSettings") := "renamedIgnoresNest",
          MemberRef(Precedence, "NestAttribute") := "nestAtt"],
      map[MemberRef(Precedence, "RenamedOnConnectionSettings") := "renamedIgnoresJsonProperty",
          MemberRef(Precedence, "NestAttribute") := "jsonProp",
          MemberRef(Precedence, "JsonProperty") := "jsonProp",
          MemberRef(Precedence, "AskSerializer") := "ask"],
      ToUpperAscii)
  }

  /** The four-level precedence, one property per level. */
  lemma PrecedenceIsAsExpected()
    ensures InferMemberName(PrecedenceSettings(), MemberRef(Precedence, "RenamedOnConnectionSettings")) == "renamed"
    ensures InferMemberName(PrecedenceSettings(), MemberRef(Precedence, "NestAttribute")) == "nestAtt"
    ensures InferMemberName(PrecedenceSettings(), MemberRef(Precedence, "JsonProperty")) == "jsonProp"
    ensures InferMemberName(PrecedenceSettings(), MemberRef(Precedence, "AskSerializer")) == "ask"
  {
  }

  /** A member no rule names falls through to the settings' inferrer. */
  lemma PrecedenceFallsThroughToInferrer()
    ensures InferMemberName(PrecedenceSettings(), MemberRef(Precedence, "DefaultFieldNameInferrer"))
            == "DEFAULTFIELDNAMEINFERRER"
  {
  }

  /** The same expression resolved twice, then with a boost, then from another
      type (`CommitActivity.Id`, then `Person.Id` in the documentation): the cache
      holds one, one and two entries. */
  method CachingFieldsShouldNotLeak(s: Settings, root: TypeId, other: TypeId, chain: seq<Step>, otherChain: seq<Step>, boost: Boost)
    returns (afterTwice: nat, afterBoosted: nat, afterOtherType: nat)
    requires root != other
    ensures afterTwice == 1 && afterBoosted == 1 && afterOtherType == 2
  {
    var resolver := new FieldResolver(s);
    var _ := resolver.Resolve(ExpressionField(root, chain, None));
    var _ := resolver.Resolve(ExpressionField(root, chain, None));
    afterTwice := resolver.CachedFields();
    var _ := resolver.Resolve(ExpressionField(root, chain, Some(boost)));
    afterBoosted := resolver.CachedFields();
    var _ := resolver.Resolve(ExpressionField(other, otherChain, None));
    afterOtherType := resolver.CachedFields();
  }

  /** Default settings, optionally with `A.C` renamed to `d`. */
  function RenameSettings(renamed: bool): Settings {
    if renamed then Plain().(renames := map[MemberRef(A, "C") := "d"]) else Plain()
  }

  /** The path of `C.Name` from `t`, whatever `C` itself is called. */
  lemma PathOfC(s: Settings, t: TypeId, first: string)
    requires StepSegments(s, M(t, "C")) == [first] && StepSegments(s, M(C, "Name")) == ["name"]
    ensures Rendered(s, ExpressionField(t, [M(t, "C"), M(C, "Name")], None)) == first + ".name"
  {
    SegmentsOfTwo(s, M(t, "C"), M(C, "Name"));
    JoinCons(first, ["name"], PathSeparator);
  }

  /** `c.name` from either type unless `A.C` is renamed; `d.name` from `A` when it is. */
  lemma PathsOfC(renamed: bool, t: TypeId)
    ensures Rendered(RenameSettings(renamed), ExpressionField(t, [M(t, "C"), M(C, "Name")], None))
            == if renamed && t == A then "d.name" else "c.name"
  {
    var s := RenameSettings(renamed);
    assert StepSegments(s, M(C, "Name")) == ["name"] by {
      CamelCaseOfTestNames();
    }
    if renamed && t == A {
      assert StepSegments(s, M(t, "C")) == ["d"];
      PathOfC(s, t, "d");
    } else {
      assert MemberRef(t, "C") !in s.renames;
      assert StepSegments(s, M(t, "C")) == ["c"] by {
        CamelCaseOfTestNames();
      }
      PathOfC(s, t, "c");
    }
  }

  /** `Field<A>(p => p.C.Name)` and `Field<B>(p => p.C.Name)`. */
  function FieldOnA(): Field {
    ExpressionField(A, [M(A, "C"), M(C, "Name")], None)
  }

  function FieldOnB(): Field {
    ExpressionField(B, [M(B, "C"), M(C, "Name")], None)
  }

  /** Both fields through one client's resolver. */
  method ResolveOnBoth(resolver: FieldResolver, renamed: bool) returns (onA: string, onB: string)
    requires resolver.Valid() && resolver.settings == RenameSettings(renamed)
    modifies resolver
    ensures resolver.Valid()
    ensures onA == (if renamed then "d.name" else "c.name") && onB == "c.name"
  {
    PathsOfC(renamed, A);
    PathsOfC(renamed, B);
    onA := resolver.Resolve(FieldOnA());
    onB := resolver.Resolve(FieldOnB());
  }

  /** A rename of `A.C` on a second settings instance changes what that instance
      resolves and leaves the first instance's results as they were. */
  method ExpressionsAreCachedButSeeDifferentTypes()
    returns (onA: string, onB: string, newOnA: string, newOnB: string, againOnA: string, againOnB: string)
    ensures onA == "c.name" && onB == "c.name"
    ensures newOnA == "d.name" && newOnB == "c.name"
    ensures againOnA == "c.name" && againOnB == "c.name"
  {
    var client := new FieldResolver(RenameSettings(false));
    onA, onB := ResolveOnBoth(client, false);
    var newClient := new FieldResolver(RenameSettings(true));
    newOnA, newOnB := ResolveOnBoth(newClient, true);
    againOnA, againOnB := ResolveOnBoth(client, false);
  }
}
