/** The read-only dictionary whose typed keys (index names and other URL parameters)
    are looked up by the string they resolve to under the connection settings, and the
    response formatter that fills one from the scanned payload. */
module ResolvableDictionary {
  import opened Wrappers
  import opened ResponseScan

  /** The constructor's string map: every original key resolved, the later of two
      keys that resolve alike overwriting the earlier. */
  function Rekey<K, V>(sanitize: K -> string, pairs: seq<(K, V)>): map<string, V>
    decreases |pairs|
  {
    if |pairs| == 0 then map[]
    else Rekey(sanitize, pairs[..|pairs| - 1])[sanitize(pairs[|pairs| - 1].0) := pairs[|pairs| - 1].1]
  }

  /** Reference definition: the value of the last pair whose key resolves to `s`. */
  function LastValue<K, V>(sanitize: K -> string, pairs: seq<(K, V)>, s: string): Option<V>
    decreases |pairs|
  {
    if |pairs| == 0 then None
    else if sanitize(pairs[|pairs| - 1].0) == s then Some(pairs[|pairs| - 1].1)
    else LastValue(sanitize, pairs[..|pairs| - 1], s)
  }

  /** The strings the original keys resolve to. */
  function ResolvedSet<K, V>(sanitize: K -> string, pairs: seq<(K, V)>): set<string> {
    set i | 0 <= i < |pairs| :: sanitize(pairs[i].0)
  }

  /** Some two original keys resolve to the same string. */
  predicate Collides<K, V>(sanitize: K -> string, pairs: seq<(K, V)>) {
    exists i, j :: 0 <= i < j < |pairs| && sanitize(pairs[i].0) == sanitize(pairs[j].0)
  }

  lemma ResolvedSetSnoc<K, V>(sanitize: K -> string, init: seq<(K, V)>, p: (K, V))
    ensures ResolvedSet(sanitize, init + [p]) == ResolvedSet(sanitize, init) + {sanitize(p.0)}
  {
    var pairs := init + [p];
    assert pairs[|init|] == p;
    forall s | s in ResolvedSet(sanitize, pairs)
      ensures s in ResolvedSet(sanitize, init) + {sanitize(p.0)}
    {
      var i :| 0 <= i < |pairs| && sanitize(pairs[i].0) == s;
      if i < |init| {
        assert pairs[i] == init[i];
      }
    }
    forall s | s in ResolvedSet(sanitize, init)
      ensures s in ResolvedSet(sanitize, pairs)
    {
      var i :| 0 <= i < |init| && sanitize(init[i].0) == s;
      assert pairs[i] == init[i];
    }
  }

  /** The map's keys are exactly the resolved keys, and each holds the value of the
      last pair resolving to it. */
  lemma {:induction false} RekeyIsLastValue<K, V>(sanitize: K -> string, pairs: seq<(K, V)>, s: string)
    ensures s in Rekey(sanitize, pairs) <==> LastValue(sanitize, pairs, s).Some?
    ensures s in Rekey(sanitize, pairs) ==> Rekey(sanitize, pairs)[s] == LastValue(sanitize, pairs, s).value
    decreases |pairs|
  {
    if |pairs| > 0 {
      RekeyIsLastValue(sanitize, pairs[..|pairs| - 1], s);
    }
  }

  lemma {:induction false} RekeyKeys<K, V>(sanitize: K -> string, pairs: seq<(K, V)>)
    ensures Rekey(sanitize, pairs).Keys == ResolvedSet(sanitize, pairs)
    decreases |pairs|
  {
    if |pairs| > 0 {
      var init, p := pairs[..|pairs| - 1], pairs[|pairs| - 1];
      RekeyKeys(sanitize, init);
      assert pairs == init + [p];
      ResolvedSetSnoc(sanitize, init, p);
    }
  }

  /** Nothing matches in a prefix with no key resolving to `s`, and the last matching
      pair is the one found. */
  lemma {:induction false} LastValueIsLastMatch<K, V>(sanitize: K -> string, pairs: seq<(K, V)>, s: string)
    ensures LastValue(sanitize, pairs, s).None? <==> forall i | 0 <= i < |pairs| :: sanitize(pairs[i].0) != s
    ensures forall i | 0 <= i < |pairs| && sanitize(pairs[i].0) == s && (forall j | i < j < |pairs| :: sanitize(pairs[j].0) != s) ::
      LastValue(sanitize, pairs, s) == Some(pairs[i].1)
    decreases |pairs|
  {
    if |pairs| > 0 {
      var init := pairs[..|pairs| - 1];
      LastValueIsLastMatch(sanitize, init, s);
      forall i | 0 <= i < |init|
        ensures init[i] == pairs[i]
      {
      }
    }
  }

  /** Resolving never makes more keys, and two keys resolving alike make fewer. */
  lemma {:induction false} RekeyCount<K, V>(sanitize: K -> string, pairs: seq<(K, V)>)
    ensures |Rekey(sanitize, pairs)| <= |pairs|
    ensures Collides(sanitize, pairs) ==> |Rekey(sanitize, pairs)| < |pairs|
    decreases |pairs|
  {
    if |pairs| > 0 {
      var init, p := pairs[..|pairs| - 1], pairs[|pairs| - 1];
      RekeyCount(sanitize, init);
      if Collides(sanitize, pairs) && !Collides(sanitize, init) {
        var i, j :| 0 <= i < j < |pairs| && sanitize(pairs[i].0) == sanitize(pairs[j].0);
        assert sanitize(init[i].0) == sanitize(p.0);
        RekeyKeys(sanitize, init);
        assert sanitize(p.0) in Rekey(sanitize, init);
      }
      if Collides(sanitize, init) {
        var i, j :| 0 <= i < j < |init| && sanitize(init[i].0) == sanitize(init[j].0);
        assert pairs[i] == init[i] && pairs[j] == init[j];
      }
    }
  }

  class ResolvableDictionaryProxy<K(==), V> {
    /** `Sanitize`: the key's string under the connection settings. */
    const sanitize: K -> string
    /** `default(TValue)`. */
    const defaultValue: V
    /** `Original`, in its enumeration order. */
    const original: seq<(K, V)>
    /** `BackingDictionary`. */
    const backingDictionary: map<string, V>

    ghost predicate Valid() {
      DistinctKeys(original) && backingDictionary == Rekey(sanitize, original)
    }

    /** A missing dictionary leaves both dictionaries empty; otherwise every key is
        resolved into the string map in the dictionary's order. */
    constructor(sanitize: K -> string, defaultValue: V, dictionary: Option<seq<(K, V)>>)
      requires dictionary.Some? ==> DistinctKeys(dictionary.value)
      ensures Valid()
      ensures this.sanitize == sanitize && this.defaultValue == defaultValue
      ensures original == if dictionary.Some? then dictionary.value else []
    {
      this.sanitize := sanitize;
      this.defaultValue := defaultValue;
      var pairs := if dictionary.Some? then dictionary.value else [];
      var resolved: map<string, V> := map[];
      var i := 0;
      while i < |pairs|
        invariant 0 <= i <= |pairs|
        invariant resolved == Rekey(sanitize, pairs[..i])
      {
        assert pairs[..i + 1][..i] == pairs[..i];
        resolved := resolved[sanitize(pairs[i].0) := pairs[i].1];
        i := i + 1;
      }
      assert pairs[..i] == pairs;
      original := pairs;
      backingDictionary := resolved;
    }

    /** `Count`: the resolved keys, never more than the original keys and fewer when
        two of them resolve alike. */
    function Count(): (n: nat)
      requires Valid()
      ensures n == |ResolvedSet(sanitize, original)| && n <= |original|
      ensures Collides(sanitize, original) ==> n < |original|
    {
      RekeyKeys(sanitize, original);
      RekeyCount(sanitize, original);
      |backingDictionary|
    }

    /** `this[TKey]`: the value of the last original key resolving like `key`, else default. */
    function Get(key: K): (v: V)
      requires Valid()
      ensures v == LastValue(sanitize, original, sanitize(key)).GetOr(defaultValue)
    {
      RekeyIsLastValue(sanitize, original, sanitize(key));
      if sanitize(key) in backingDictionary then backingDictionary[sanitize(key)] else defaultValue
    }

    /** `this[string]`: the same probe with an already resolved string. */
    function GetByString(key: string): (v: V)
      requires Valid()
      ensures v == LastValue(sanitize, original, key).GetOr(defaultValue)
    {
      RekeyIsLastValue(sanitize, original, key);
      if key in backingDictionary then backingDictionary[key] else defaultValue
    }

    /** `ContainsKey`: some original key resolves like `key`. */
    function ContainsKey(key: K): (b: bool)
      requires Valid()
      ensures b <==> exists i :: 0 <= i < |original| && sanitize(original[i].0) == sanitize(key)
    {
      RekeyKeys(sanitize, original);
      sanitize(key) in backingDictionary
    }

    /** `TryGetValue`: found exactly when `ContainsKey`, with the indexer's value;
        the out value is default when nothing is found. */
    function TryGetValue(key: K): (r: (bool, V))
      requires Valid()
      ensures r.0 == ContainsKey(key) && r.1 == Get(key)
      ensures !r.0 ==> r.1 == defaultValue
    {
      RekeyIsLastValue(sanitize, original, sanitize(key));
      if sanitize(key) in backingDictionary then (true, backingDictionary[sanitize(key)]) else (false, defaultValue)
    }

    /** `Keys`: the original typed keys, in order. */
    function Keys(): (ks: seq<K>)
      ensures |ks| == |original| && forall i | 0 <= i < |original| :: ks[i] == original[i].0
    {
      seq(|original|, i requires 0 <= i < |original| => original[i].0)
    }

    /** `ResolvedKeys`: the strings the original keys resolve to. */
    function ResolvedKeys(): (ks: set<string>)
      requires Valid()
      ensures ks == ResolvedSet(sanitize, original)
    {
      RekeyKeys(sanitize, original);
      backingDictionary.Keys
    }
  }

  /** Both indexers agree: a typed key is looked up by its resolved string. */
  lemma TypedIndexerIsStringIndexer<K, V>(proxy: ResolvableDictionaryProxy<K, V>, key: K)
    requires proxy.Valid()
    ensures proxy.Get(key) == proxy.GetByString(proxy.sanitize(key))
    ensures proxy.ContainsKey(key) <==> proxy.sanitize(key) in proxy.ResolvedKeys()
  {
  }

  /** A key that does not resolve like any original key reads as default. */
  lemma AbsentKeyIsDefault<K, V>(proxy: ResolvableDictionaryProxy<K, V>, key: K)
    requires proxy.Valid() && !proxy.ContainsKey(key)
    ensures proxy.Get(key) == proxy.defaultValue && proxy.TryGetValue(key) == (false, proxy.defaultValue)
  {
    LastValueIsLastMatch(proxy.sanitize, proxy.original, proxy.sanitize(key));
  }

  /** An original key is found, with the value of the last key resolving like it. */
  lemma OriginalKeyIsFound<K, V>(proxy: ResolvableDictionaryProxy<K, V>, i: nat)
    requires proxy.Valid() && i < |proxy.original|
    requires forall j | i < j < |proxy.original| :: proxy.sanitize(proxy.original[j].0) != proxy.sanitize(proxy.original[i].0)
    ensures proxy.ContainsKey(proxy.original[i].0)
    ensures proxy.Get(proxy.original[i].0) == proxy.original[i].1
  {
    LastValueIsLastMatch(proxy.sanitize, proxy.original, proxy.sanitize(proxy.original[i].0));
  }

  /** The response object the formatter fills: `Error`, `StatusCode` and the dictionary. */
  class DictionaryResponse<K(==), V> {
    var error: Option<Error>
    var statusCode: Option<int>
    var backingDictionary: ResolvableDictionaryProxy?<K, V>

    constructor()
      ensures error == None && statusCode == None && backingDictionary == null
    {
      error := None;
      statusCode := None;
      backingDictionary := null;
    }
  }

  /** `ResolvableDictionaryResponseFormatter.Deserialize`: scans the object, then
      wraps the payload in a proxy. A failing decoder or a repeated key ends it. */
  method Deserialize<K(==), V>(d: Decoders<K, V>, ps: seq<Property>, sanitize: K -> string, defaultValue: V)
    returns (r: Result<DictionaryResponse<K, V>, ScanFailure>)
    ensures r.Failure? <==> Scan(d, ps).Failure?
    ensures r.Failure? ==> r.error == Scan(d, ps).error
    ensures r.Success? ==>
      var st, response := Scan(d, ps).value, r.value;
      && fresh(response) && response.error == st.error && response.statusCode == st.statusCode
      && response.backingDictionary != null && fresh(response.backingDictionary)
      && response.backingDictionary.Valid()
      && response.backingDictionary.original == st.payload
      && response.backingDictionary.sanitize == sanitize && response.backingDictionary.defaultValue == defaultValue
  {
    var response := new DictionaryResponse<K, V>();
    var dictionary: seq<(K, V)> := [];
    var i := 0;
    while i < |ps|
      invariant 0 <= i <= |ps|
      invariant Scan(d, ps[..i]) == Success(ScanState(response.error, response.statusCode, dictionary))
    {
      var p := ps[i];
      assert ps[..i + 1] == ps[..i] + [p];
      ScanSnoc(d, ps[..i], p);
      if p.name == ErrorField {
        if p.value.StringToken? {
          response.error := Some(Error(Some(p.value.s), None));
        } else {
          var e := d.error(p.value);
          if e.Failure? {
            FailureIsSticky(d, ps, i + 1);
            return Failure(DecodeFailed(e.error));
          }
          response.error := e.value;
        }
      } else if p.name == StatusField {
        if p.value.NumberToken? {
          response.statusCode := Some(p.value.n);
        }
      } else {
        var key := d.key(p.name);
        if key.Failure? {
          FailureIsSticky(d, ps, i + 1);
          return Failure(DecodeFailed(key.error));
        }
        var value := d.value(p.value);
        if value.Failure? {
          FailureIsSticky(d, ps, i + 1);
          return Failure(DecodeFailed(value.error));
        }
        if HasKey(dictionary, key.value) {
          FailureIsSticky(d, ps, i + 1);
          return Failure(DuplicateKey);
        }
        dictionary := dictionary + [(key.value, value.value)];
      }
      i := i + 1;
    }
    assert ps[..i] == ps;
    var proxy := new ResolvableDictionaryProxy(sanitize, defaultValue, Some(dictionary));
    response.backingDictionary := proxy;
    r := Success(response);
  }

  /** `Serialize` is not supported for these responses and always fails. */
  datatype NotSupported = NotSupported

  function Serialize<T>(value: T): (r: Result<string, NotSupported>)
    ensures r.Failure?
  {
    Failure(NotSupported)
  }
}
