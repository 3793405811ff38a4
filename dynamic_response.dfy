/** Responses whose payload is kept as loosely typed data: the formatter scans the
    top-level object into a string-keyed dictionary, and `Get<T>(path)` walks it by
    dot-separated keys. */
module DynamicResponses {
  import opened Wrappers
  import opened Clr
  import opened ResponseScan

  /** A loosely typed value: what the object formatter hands back for a payload value. */
  datatype Dyn =
    | DNull
    | DBool(b: bool)
    | DNumber(n: int)
    | DString(s: string)
    | DList(items: seq<Dyn>)
    | DObject(entries: seq<(string, Dyn)>)

  /** The value stored under `key`, if any. */
  function Lookup(entries: seq<(string, Dyn)>, key: string): (r: Option<Dyn>)
    ensures r.None? <==> forall i | 0 <= i < |entries| :: entries[i].0 != key
    ensures r.Some? ==> exists i :: 0 <= i < |entries| && entries[i] == (key, r.value) && forall j | 0 <= j < i :: entries[j].0 != key
    decreases |entries|
  {
    if |entries| == 0 then None
    else if entries[0].0 == key then Some(entries[0].1)
    else
      var r := Lookup(entries[1..], key);
      assert forall i | 1 <= i < |entries| :: entries[i] == entries[1..][i - 1];
      r
  }

  /** Follows `keys` through nested objects; a missing key or a value that is not an
      object on the way gives nothing. */
  function Descend(v: Dyn, keys: seq<string>): Option<Dyn>
    decreases |keys|
  {
    if |keys| == 0 then Some(v)
    else if !v.DObject? then None
    else match Lookup(v.entries, keys[0])
      case None => None
      case Some(child) => Descend(child, keys[1..])
  }

  /** The value at a dot-separated path into the dictionary. */
  function GetPath(root: seq<(string, Dyn)>, path: string): Option<Dyn> {
    Descend(DObject(root), Split(path, PathSeparator))
  }

  const PathSeparator := '.'

  /** `Get<T>`: the value at the path converted to `T`, or `T`'s default when the
      path leads nowhere or the value does not convert; never an error. */
  function GetAs<T>(root: seq<(string, Dyn)>, path: string, convert: Dyn -> Option<T>, defaultValue: T): (t: T)
    ensures GetPath(root, path).None? ==> t == defaultValue
    ensures GetPath(root, path).Some? ==> t == convert(GetPath(root, path).value).GetOr(defaultValue)
  {
    match GetPath(root, path)
      case None => defaultValue
      case Some(v) => convert(v).GetOr(defaultValue)
  }

  /** Walking `a` then `b` is walking `a + b`. */
  lemma {:induction false} DescendAppend(v: Dyn, a: seq<string>, b: seq<string>)
    ensures Descend(v, a).None? ==> Descend(v, a + b).None?
    ensures Descend(v, a).Some? ==> Descend(v, a + b) == Descend(Descend(v, a).value, b)
    decreases |a|
  {
    if |a| > 0 {
      assert (a + b)[0] == a[0] && (a + b)[1..] == a[1..] + b;
      if v.DObject? && Lookup(v.entries, a[0]).Some? {
        DescendAppend(Lookup(v.entries, a[0]).value, a[1..], b);
      }
    } else {
      assert a + b == b;
    }
  }

  /** A path without a dot is one key of the top-level dictionary. */
  lemma SingleKey(root: seq<(string, Dyn)>, key: string)
    requires PathSeparator !in key
    ensures GetPath(root, key) == Lookup(root, key)
  {
    assert Split(key, PathSeparator) == [key];
    assert [key][1..] == [];
    if Lookup(root, key).Some? {
      assert Descend(Lookup(root, key).value, []) == Lookup(root, key);
    }
  }

  /** `Get("a.b...")` looks up `a` at the top, then walks the rest of the path from there. */
  lemma DottedPath(root: seq<(string, Dyn)>, first: string, rest: string)
    requires PathSeparator !in first
    ensures GetPath(root, first + [PathSeparator] + rest) ==
      match Lookup(root, first)
        case None => None
        case Some(child) => Descend(child, Split(rest, PathSeparator))
  {
    var path := first + [PathSeparator] + rest;
    assert path[|first|] == PathSeparator && path[..|first|] == first && path[|first| + 1..] == rest;
    IndexOfFirst(path, PathSeparator, |first|);
    SplitAt(path, PathSeparator);
    var keys := Split(path, PathSeparator);
    assert keys == [first] + Split(rest, PathSeparator);
    assert keys[0] == first && keys[1..] == Split(rest, PathSeparator);
  }

  /** A missing intermediate key makes the whole path absent rather than an error. */
  lemma MissingIntermediate<T>(root: seq<(string, Dyn)>, first: string, rest: string, convert: Dyn -> Option<T>, defaultValue: T)
    requires PathSeparator !in first && Lookup(root, first).None?
    ensures GetPath(root, first + [PathSeparator] + rest).None?
    ensures GetAs(root, first + [PathSeparator] + rest, convert, defaultValue) == defaultValue
  {
    DottedPath(root, first, rest);
  }

  /** The response object: `Error`, `StatusCode` and the backing dictionary, empty
      until the formatter fills it. */
  class DynamicResponse {
    var error: Option<Error>
    var statusCode: Option<int>
    var backingDictionary: seq<(string, Dyn)>

    constructor()
      ensures error == None && statusCode == None && backingDictionary == []
    {
      error := None;
      statusCode := None;
      backingDictionary := [];
    }

    /** `Get<T>(path)`: delegates to the backing dictionary. */
    function Get<T>(path: string, convert: Dyn -> Option<T>, defaultValue: T): (t: T)
      reads this
      ensures GetPath(backingDictionary, path).None? ==> t == defaultValue
      ensures forall v | GetPath(backingDictionary, path) == Some(v) :: t == convert(v).GetOr(defaultValue)
    {
      GetAs(backingDictionary, path, convert, defaultValue)
    }
  }

  /** On a response nobody filled, every path is absent and `Get` gives the default. */
  lemma FreshResponseIsEmpty<T>(path: string, convert: Dyn -> Option<T>, defaultValue: T)
    ensures GetPath([], path).None?
    ensures GetAs([], path, convert, defaultValue) == defaultValue
  {
    var keys := Split(path, PathSeparator);
    assert |keys| >= 1 && Lookup([], keys[0]).None?;
  }

  /** `DynamicResponseFormatter.Deserialize`: scans the object with string keys and
      loosely typed values, then keeps the payload as the backing dictionary. */
  method Deserialize(d: Decoders<string, Dyn>, ps: seq<Property>) returns (r: Result<DynamicResponse, ScanFailure>)
    ensures r.Failure? <==> Scan(d, ps).Failure?
    ensures r.Failure? ==> r.error == Scan(d, ps).error
    ensures r.Success? ==>
      var st, response := Scan(d, ps).value, r.value;
      && fresh(response) && response.error == st.error && response.statusCode == st.statusCode
      && response.backingDictionary == st.payload
  {
    var response := new DynamicResponse();
    var dictionary: seq<(string, Dyn)> := [];
    var i := 0;
    while i < |ps|
      invariant 0 <= i <= |ps|
      invariant Scan(d, ps[..i]) == Success(ScanState(response.error, response.statusCode, dictionary))
    {
      var p := ps[i];
      assert ps[..i + 1] == ps[..i] + [p];
      ScanSnoc(d, ps[..i], p);
      if p.name == ErrorField {
        if p.value.StringToken? {
          response.error := Some(Error(Some(p.value.s), None));
        } else {
          var e := d.error(p.value);
          if e.Failure? {
            FailureIsSticky(d, ps, i + 1);
            return Failure(DecodeFailed(e.error));
          }
          response.error := e.value;
        }
      } else if p.name == StatusField {
        if p.value.NumberToken? {
          response.statusCode := Some(p.value.n);
        }
      } else {
        var key := d.key(p.name);
        if key.Failure? {
          FailureIsSticky(d, ps, i + 1);
          return Failure(DecodeFailed(key.error));
        }
        var value := d.value(p.value);
        if value.Failure? {
          FailureIsSticky(d, ps, i + 1);
          return Failure(DecodeFailed(value.error));
        }
        if HasKey(dictionary, key.value) {
          FailureIsSticky(d, ps, i + 1);
          return Failure(DuplicateKey);
        }
        dictionary := dictionary + [(key.value, value.value)];
      }
      i := i + 1;
    }
    assert ps[..i] == ps;
    response.backingDictionary := dictionary;
    r := Success(response);
  }
}
