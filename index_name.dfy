/** `IndexName`: an index identifier that is either a name, optionally qualified
    by a remote cluster (`cluster:name`), or a placeholder derived from a CLR type
    whose concrete name the inferrer supplies later.  The object is immutable, so
    it is a datatype here; each of its three get-only properties may be null. */
module IndexNames {
  import opened Wrappers
  import opened Clr

  const ClusterSeparator: char := ':'

  datatype IndexName = IndexName(name: Option<string>, typ: Option<TypeId>, cluster: Option<string>)

  /** The argument of `Equals(object)`: a string, an index name, null, or anything else. */
  datatype Obj = StringObj(s: string) | IndexNameObj(n: IndexName) | NullObj | OtherObj

  /** The client settings `GetString` needs; a connection configured only for the
      low-level client carries no inferrer. */
  datatype ConnectionSettings =
    | LowLevelSettings
    | ClientSettings(inferIndexName: IndexName -> string)

  datatype SettingsError = NoClientSettings

  // ---------------------------------------------------------------- construction

  /** The implicit conversion from a string. */
  function Parse(indexName: Option<string>): (r: Option<IndexName>)
    ensures r.None? <==> IsNullOrWhiteSpace(indexName)
    ensures r.Some? ==> r.value.typ.None? && r.value.name.Some?
  {
    if IsNullOrWhiteSpace(indexName) then None
    else
      var s := indexName.value;
      var separatorIndex := IndexOf(s, ClusterSeparator);
      if separatorIndex > -1 then
        Some(IndexName(Some(s[separatorIndex + 1..]), None, Some(s[..separatorIndex])))
      else
        Some(IndexName(Some(s), None, None))
  }

  /** The implicit conversion from a `Type`, and `From<T>()`. */
  function FromType(t: Option<TypeId>): (r: Option<IndexName>)
    ensures r.Some? <==> t.Some?
    ensures r.Some? ==> r.value.typ == t && r.value.name.None? && r.value.cluster.None?
  {
    if t.None? then None else Some(IndexName(None, t, None))
  }

  /** `From<T>(clusterName)`. */
  function FromTypeInCluster(t: TypeId, clusterName: Option<string>): (r: IndexName)
    ensures r.typ == Some(t) && r.name.None? && r.cluster == clusterName
  {
    IndexName(None, Some(t), clusterName)
  }

  /** `Rebuild(index, type, clusterName)`: all three properties set at once. */
  function Rebuild(index: Option<string>, t: Option<TypeId>, clusterName: Option<string>): (r: IndexName)
    ensures r.name == index && r.typ == t && r.cluster == clusterName
  {
    IndexName(index, t, clusterName)
  }

  // ----------------------------------------------------------------- rendering

  /** `PrefixClusterName(index, name)`: `name` itself (possibly null) when the
      cluster is null or empty, else `cluster:name`, where a null name
      interpolates as the empty string. */
  function PrefixClusterName(index: IndexName, name: Option<string>): (r: Option<string>)
    ensures r.None? <==> IsNullOrEmpty(index.cluster) && name.None?
    ensures r.Some? && !IsNullOrEmpty(index.cluster) ==> r.value == ClusterPrefix(index) + name.GetOr("")
  {
    if IsNullOrEmpty(index.cluster) then name
    else Some(index.cluster.value + [ClusterSeparator] + name.GetOr(""))
  }

  /** `ToString()`. */
  function ToString(n: IndexName): string {
    if !IsNullOrEmpty(n.name) then PrefixClusterName(n, n.name).value
    else if n.typ.Some? then PrefixClusterName(n, Some(n.typ.value.name)).value
    else ""
  }

  /** The cluster prefix `ToString` puts in front of the name: `cluster:` or nothing. */
  function ClusterPrefix(n: IndexName): string {
    if IsNullOrEmpty(n.cluster) then "" else n.cluster.value + [ClusterSeparator]
  }

  /** Rendering: the non-empty name, else the type's name, else the empty string,
      prefixed by `cluster:` exactly when the cluster is non-empty and there is
      something to prefix. */
  lemma ToStringCases(n: IndexName)
    ensures !IsNullOrEmpty(n.name) ==> ToString(n) == ClusterPrefix(n) + n.name.value
    ensures IsNullOrEmpty(n.name) && n.typ.Some? ==> ToString(n) == ClusterPrefix(n) + n.typ.value.name
    ensures IsNullOrEmpty(n.name) && n.typ.None? ==> ToString(n) == ""
  {
  }

  // ------------------------------------------------------------------- parsing

  /** A parsed string with a `:` is split at its FIRST `:`: the cluster is the
      colon-free text before it and the name is all the rest, later colons included. */
  lemma ParseSplitsAtFirstSeparator(s: string)
    requires !IsNullOrWhiteSpace(Some(s))
    requires ClusterSeparator in s
    ensures var n := Parse(Some(s)).value;
      && n.cluster.Some? && n.name.Some?
      && ClusterSeparator !in n.cluster.value
      && n.cluster.value + [ClusterSeparator] + n.name.value == s
  {
    Around(s, IndexOf(s, ClusterSeparator));
  }

  /** A parsed string without `:` is a bare name with no cluster and no type. */
  lemma ParseWithoutSeparator(s: string)
    requires !IsNullOrWhiteSpace(Some(s))
    requires ClusterSeparator !in s
    ensures Parse(Some(s)) == Some(IndexName(Some(s), None, None))
  {
  }

  /** Null, empty and all-white-space strings parse to no index name at all. */
  lemma ParseBlank(s: Option<string>)
    requires IsNullOrWhiteSpace(s)
    ensures Parse(s).None?
  {
  }

  /** Rendering a parsed string gives it back when it has no `:`, or when its first
      `:` is neither its first nor its last character. */
  lemma {:induction false} ToStringParseRoundTrip(s: string)
    requires !IsNullOrWhiteSpace(Some(s))
    requires ClusterSeparator in s ==> 0 < IndexOf(s, ClusterSeparator) < |s| - 1
    ensures ToString(Parse(Some(s)).value) == s
  {
    var i := IndexOf(s, ClusterSeparator);
    if i >= 0 {
      ParseSplitsAtFirstSeparator(s);
    }
  }

  /** ... and not otherwise: a leading `:` leaves an empty cluster, which is not
      rendered, and a trailing one an empty name, which renders as nothing. */
  lemma RoundTripFailsAtTheEdges()
    ensures Parse(Some(":logs")) == Some(IndexName(Some("logs"), None, Some("")))
    ensures ToString(IndexName(Some("logs"), None, Some(""))) == "logs"
    ensures Parse(Some("prod:")) == Some(IndexName(Some(""), None, Some("prod")))
    ensures ToString(IndexName(Some(""), None, Some("prod"))) == ""
  {
    assert !IsWhiteSpace(":logs"[0]);
    IndexOfFirst(":logs", ':', 0);
    assert !IsWhiteSpace("prod:"[0]);
    assert "prod:"[..4] == "prod";
    IndexOfFirst("prod:", ':', 4);
    assert "prod:"[5..] == "";
  }

  /** A cluster-qualified name renders as `cluster:name` and parses back to the
      same qualified name, e.g. ("prod", "logs") and `prod:logs`. */
  lemma {:induction false} QualifiedRoundTrip(cluster: string, name: string)
    requires cluster != "" && ClusterSeparator !in cluster && name != ""
    ensures ToString(Rebuild(Some(name), None, Some(cluster))) == cluster + [ClusterSeparator] + name
    ensures Parse(Some(cluster + [ClusterSeparator] + name)) == Some(Rebuild(Some(name), None, Some(cluster)))
  {
    var s := cluster + [ClusterSeparator] + name;
    assert s[..|cluster|] == cluster;
    assert s[|cluster| + 1..] == name;
    IndexOfFirst(s, ClusterSeparator, |cluster|);
    assert !IsWhiteSpace(s[|cluster|]);
  }

  // ------------------------------------------------------------------ equality

  /** `EqualsString(other)`. */
  function EqualsString(n: IndexName, other: Option<string>): (r: bool)
    ensures r ==> other.Some? && other.value != ""
    ensures r && !IsNullOrEmpty(n.name) ==> other.value == ToString(n)
  {
    !IsNullOrEmpty(other) && other == PrefixClusterName(n, n.name)
  }

  /** `EqualsMarker(other)`, which `IEquatable<IndexName>.Equals` calls. */
  function EqualsMarker(n: IndexName, other: Option<IndexName>): (r: bool)
    ensures r ==> other.Some?
    ensures r && (IsNullOrEmpty(n.name) || IsNullOrEmpty(other.value.name)) ==> n.typ.Some? && n.typ == other.value.typ
  {
    if other.None? then false
    else
      var o := other.value;
      if !IsNullOrEmpty(n.name) && !IsNullOrEmpty(o.name) then
        EqualsString(n, PrefixClusterName(o, o.name))
      else if (!IsNullOrEmpty(n.cluster) || !IsNullOrEmpty(o.cluster)) && n.cluster != o.cluster then
        false
      else
        n.typ.Some? && o.typ.Some? && n.typ == o.typ
  }

  /** `Equals(object)`: strings compare with `EqualsString`, index names with
      `EqualsMarker`, anything else (null included) is unequal. */
  function Equals(n: IndexName, obj: Obj): (r: bool)
    ensures r ==> obj.StringObj? || obj.IndexNameObj?
  {
    match obj
    case StringObj(s) => EqualsString(n, Some(s))
    case IndexNameObj(i) => EqualsMarker(n, Some(i))
    case _ => false
  }

  /** `operator ==`, i.e. `object.Equals(left, right)`: two nulls are equal, a null
      and a non-null are not, and otherwise `left.Equals(right)` decides. */
  function OperatorEquals(left: Option<IndexName>, right: Option<IndexName>): (r: bool)
    ensures left.None? && right.None? ==> r
    ensures left.None? != right.None? ==> !r
  {
    if left.None? || right.None? then left.None? && right.None?
    else Equals(left.value, IndexNameObj(right.value))
  }

  /** Two named index names are equal exactly when their renderings are. */
  lemma NamedEquality(a: IndexName, b: IndexName)
    requires !IsNullOrEmpty(a.name) && !IsNullOrEmpty(b.name)
    ensures EqualsMarker(a, Some(b)) <==> ToString(a) == ToString(b)
  {
  }

  /** When one side has no name: differing clusters, one of them non-empty, make
      them unequal; otherwise they are equal exactly when both carry the same type. */
  lemma UnnamedEquality(a: IndexName, b: IndexName)
    requires IsNullOrEmpty(a.name) || IsNullOrEmpty(b.name)
    ensures EqualsMarker(a, Some(b)) <==>
      && ((IsNullOrEmpty(a.cluster) && IsNullOrEmpty(b.cluster)) || a.cluster == b.cluster)
      && a.typ.Some? && a.typ == b.typ
  {
  }

  /** Nothing equals null, through either entry point. */
  lemma NeverEqualToNull(a: IndexName)
    ensures !EqualsMarker(a, None) && !Equals(a, NullObj) && !EqualsString(a, None)
    ensures !OperatorEquals(Some(a), None) && !OperatorEquals(None, Some(a))
  {
  }

  /** Equality between index names is symmetric. */
  lemma EqualsSymmetric(a: IndexName, b: IndexName)
    ensures EqualsMarker(a, Some(b)) == EqualsMarker(b, Some(a))
    ensures OperatorEquals(Some(a), Some(b)) == OperatorEquals(Some(b), Some(a))
  {
  }

  /** An index name equals itself exactly when it has a name or a type; one with
      neither, such as `Parse("prod:")` or a bare `Rebuild`, is unequal to itself. */
  lemma EqualsReflexiveIff(a: IndexName)
    ensures EqualsMarker(a, Some(a)) <==> !IsNullOrEmpty(a.name) || a.typ.Some?
  {
  }

  /** The string `prod:` converts to an index name with an empty name and no type,
      which is unequal to itself, through `EqualsMarker` and through `==`. */
  lemma ParsedUnnamedIsUnequalToItself()
    ensures Parse(Some("prod:")).Some?
    ensures var n := Parse(Some("prod:")).value;
      !EqualsMarker(n, Some(n)) && !OperatorEquals(Some(n), Some(n))
  {
    RoundTripFailsAtTheEdges();
  }

  /** Equality is not transitive: a name that also carries a type equals the bare
      type-derived name, which equals a differently named token of the same type. */
  lemma EqualsNotTransitive(t: TypeId)
    ensures var a := Rebuild(Some("x"), Some(t), None);
            var b := FromTypeInCluster(t, None);
            var c := Rebuild(Some("y"), Some(t), None);
            EqualsMarker(a, Some(b)) && EqualsMarker(b, Some(c)) && !EqualsMarker(a, Some(c))
  {
  }

  /** A string equals an index name only when it is non-empty; for a named index
      name, exactly when it is the rendering. */
  lemma EqualsStringMeaning(a: IndexName, s: string)
    ensures EqualsString(a, Some(s)) ==> s != ""
    ensures !IsNullOrEmpty(a.name) ==> (EqualsString(a, Some(s)) <==> s != "" && s == ToString(a))
    ensures Equals(a, StringObj(s)) == EqualsString(a, Some(s))
  {
  }

  /** For a nameless index name the string compared is `cluster:` and not the
      rendering: `From<T>("prod")` renders as `prod:T` but equals the string `prod:`. */
  lemma EqualsStringIgnoresTypeName(t: TypeId)
    ensures var n := FromTypeInCluster(t, Some("prod"));
            ToString(n) == "prod:" + t.name && EqualsString(n, Some("prod:"))
            && (t.name != "" ==> !EqualsString(n, Some(ToString(n))))
  {
    assert "prod" + [ClusterSeparator] + "" == "prod:";
  }

  // ---------------------------------------------------------------- GetString

  /** `GetString(settings)`: the inferrer of client settings resolves the name;
      without client settings it throws. */
  function GetString(n: IndexName, settings: ConnectionSettings): (r: Result<string, SettingsError>)
    ensures r.Failure? <==> settings.LowLevelSettings?
    ensures settings.ClientSettings? ==> r == Success(settings.inferIndexName(n))
  {
    match settings
    case LowLevelSettings => Failure(NoClientSettings)
    case ClientSettings(infer) => Success(infer(n))
  }
}
