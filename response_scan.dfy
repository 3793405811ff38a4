/** The envelope/payload scan that both response formatters run over the top-level
    object of a response body. The byte-level reader is abstracted to the sequence of
    the object's properties, each a raw property name and the token its value starts
    with; nested values are handed whole to the decoders. */
module ResponseScan {
  import opened Wrappers

  /** The two reserved property names of the server's error envelope. */
  const ErrorField := "error"
  const StatusField := "status"

  /** The token the reader is at when a property's value is about to be read:
      a string, a number, or anything else (object, array, literal), kept raw. */
  datatype Token = StringToken(s: string) | NumberToken(n: int) | OtherToken(raw: string)

  datatype Property = Property(name: string, value: Token)

  /** The server error: a bare reason, or what the structured error decoder built. */
  datatype Error = Error(reason: Option<string>, body: Option<Token>)

  /** The formatters the scan is given: for keys, for payload values and for a
      structured error. Each may fail with a message; the error formatter may also
      give null (`None`), which then becomes the response's `Error`. */
  datatype Decoders<K, V> = Decoders(
    key: string -> Result<K, string>,
    value: Token -> Result<V, string>,
    error: Token -> Result<Option<Error>, string>)

  /** Why a scan stops: a decoder failed, or `Dictionary.Add` met a key twice. */
  datatype ScanFailure = DecodeFailed(message: string) | DuplicateKey

  /** The response's `Error` and `StatusCode` and the payload dictionary, in insertion order. */
  datatype ScanState<K, V> = ScanState(error: Option<Error>, statusCode: Option<int>, payload: seq<(K, V)>)

  predicate IsReserved(name: string) {
    name == ErrorField || name == StatusField
  }

  predicate HasKey<K(==), V>(payload: seq<(K, V)>, k: K) {
    exists i :: 0 <= i < |payload| && payload[i].0 == k
  }

  predicate DistinctKeys<K(==), V>(payload: seq<(K, V)>) {
    forall i, j :: 0 <= i < j < |payload| ==> payload[i].0 != payload[j].0
  }

  /** One iteration of the formatter's loop. */
  function Step<K(==), V>(d: Decoders<K, V>, st: ScanState<K, V>, p: Property): (r: Result<ScanState<K, V>, ScanFailure>)
    ensures r.Success? && IsReserved(p.name) ==> r.value.payload == st.payload
    ensures r.Success? && !IsReserved(p.name) ==>
      |r.value.payload| == |st.payload| + 1 && r.value.payload[..|st.payload|] == st.payload
      && r.value.error == st.error && r.value.statusCode == st.statusCode
  {
    if p.name == ErrorField then
      if p.value.StringToken? then Success(st.(error := Some(Error(Some(p.value.s), None))))
      else match d.error(p.value)
        case Failure(m) => Failure(DecodeFailed(m))
        case Success(e) => Success(st.(error := e))
    else if p.name == StatusField then
      if p.value.NumberToken? then Success(st.(statusCode := Some(p.value.n))) else Success(st)
    else
      match d.key(p.name)
        case Failure(m) => Failure(DecodeFailed(m))
        case Success(k) =>
          match d.value(p.value)
            case Failure(m) => Failure(DecodeFailed(m))
            case Success(v) =>
              if HasKey(st.payload, k) then Failure(DuplicateKey)
              else Success(st.(payload := st.payload + [(k, v)]))
  }

  /** The whole loop, starting from a fresh response and an empty dictionary; the
      first failure ends it. The payload never holds a key twice. */
  function Scan<K(==), V>(d: Decoders<K, V>, ps: seq<Property>): (r: Result<ScanState<K, V>, ScanFailure>)
    ensures r.Success? ==> DistinctKeys(r.value.payload) && |r.value.payload| <= |ps|
    decreases |ps|
  {
    if |ps| == 0 then Success(ScanState(None, None, []))
    else match Scan(d, ps[..|ps| - 1])
      case Failure(f) => Failure(f)
      case Success(st) => Step(d, st, ps[|ps| - 1])
  }

  /** The properties that are payload, in document order. */
  function NonReserved(ps: seq<Property>): (qs: seq<Property>)
    ensures |qs| <= |ps|
    ensures forall q | q in qs :: q in ps && !IsReserved(q.name)
    decreases |ps|
  {
    if |ps| == 0 then []
    else NonReserved(ps[..|ps| - 1]) + (if IsReserved(ps[|ps| - 1].name) then [] else [ps[|ps| - 1]])
  }

  /** The last numeric `status` in the document, if any. */
  function StatusOf(ps: seq<Property>): Option<int>
    decreases |ps|
  {
    if |ps| == 0 then None
    else if ps[|ps| - 1].name == StatusField && ps[|ps| - 1].value.NumberToken? then Some(ps[|ps| - 1].value.n)
    else StatusOf(ps[..|ps| - 1])
  }

  /** The value token of the last `error` property, if any. */
  function LastErrorToken(ps: seq<Property>): Option<Token>
    decreases |ps|
  {
    if |ps| == 0 then None
    else if ps[|ps| - 1].name == ErrorField then Some(ps[|ps| - 1].value)
    else LastErrorToken(ps[..|ps| - 1])
  }

  /** Every structured error in the document decodes. */
  predicate ErrorsDecode<K, V>(d: Decoders<K, V>, ps: seq<Property>) {
    forall i | 0 <= i < |ps| && ps[i].name == ErrorField && !ps[i].value.StringToken? :: d.error(ps[i].value).Success?
  }

  /** Every payload property's key and value decode. */
  predicate EntriesDecode<K, V>(d: Decoders<K, V>, qs: seq<Property>) {
    forall i | 0 <= i < |qs| :: d.key(qs[i].name).Success? && d.value(qs[i].value).Success?
  }

  /** No two payload properties decode to the same key. */
  predicate DistinctDecodedKeys<K(==), V>(d: Decoders<K, V>, qs: seq<Property>)
    requires EntriesDecode(d, qs)
  {
    forall i, j | 0 <= i < j < |qs| :: d.key(qs[i].name).value != d.key(qs[j].name).value
  }

  lemma Last<T>(s: seq<T>, x: T)
    ensures (s + [x])[..|s|] == s && (s + [x])[|s|] == x
  {
    assert (s + [x])[..|s|] == s;
  }

  /** `Scan` of a document with one more property is one more `Step`. */
  lemma ScanSnoc<K, V>(d: Decoders<K, V>, init: seq<Property>, p: Property)
    ensures Scan(d, init).Failure? ==> Scan(d, init + [p]) == Failure(Scan(d, init).error)
    ensures Scan(d, init).Success? ==> Scan(d, init + [p]) == Step(d, Scan(d, init).value, p)
  {
    Last(init, p);
  }

  lemma NonReservedSnoc(init: seq<Property>, p: Property)
    ensures NonReserved(init + [p]) == NonReserved(init) + (if IsReserved(p.name) then [] else [p])
  {
    Last(init, p);
  }

  /** A successful step leaves the payload alone for a reserved key and appends the
      decoded entry otherwise. */
  lemma StepPayload<K, V>(d: Decoders<K, V>, st: ScanState<K, V>, p: Property)
    requires Step(d, st, p).Success?
    ensures !IsReserved(p.name) ==> d.key(p.name).Success? && d.value(p.value).Success?
    ensures Step(d, st, p).value.payload ==
      if IsReserved(p.name) then st.payload else st.payload + [(d.key(p.name).value, d.value(p.value).value)]
  {
  }

  /** A scan that failed on a prefix fails the same way on the whole document. */
  lemma {:induction false} FailureIsSticky<K, V>(d: Decoders<K, V>, ps: seq<Property>, n: nat)
    requires n <= |ps| && Scan(d, ps[..n]).Failure?
    ensures Scan(d, ps) == Scan(d, ps[..n])
    decreases |ps| - n
  {
    if n < |ps| {
      assert ps[..n + 1] == ps[..n] + [ps[n]];
      ScanSnoc(d, ps[..n], ps[n]);
      FailureIsSticky(d, ps, n + 1);
    } else {
      assert ps[..n] == ps;
    }
  }

  /** `payload` is `qs` decoded entry by entry. */
  ghost predicate DecodedAs<K, V>(d: Decoders<K, V>, payload: seq<(K, V)>, qs: seq<Property>) {
    && |payload| == |qs|
    && forall i | 0 <= i < |qs| :: d.key(qs[i].name) == Success(payload[i].0) && d.value(qs[i].value) == Success(payload[i].1)
  }

  lemma DecodedAsSnoc<K, V>(d: Decoders<K, V>, payload: seq<(K, V)>, qs: seq<Property>, k: K, v: V, q: Property)
    requires DecodedAs(d, payload, qs) && d.key(q.name) == Success(k) && d.value(q.value) == Success(v)
    ensures DecodedAs(d, payload + [(k, v)], qs + [q])
  {
    Last(payload, (k, v));
    Last(qs, q);
    var payload', qs' := payload + [(k, v)], qs + [q];
    forall i | 0 <= i < |qs'|
      ensures d.key(qs'[i].name) == Success(payload'[i].0) && d.value(qs'[i].value) == Success(payload'[i].1)
    {
      if i < |qs| {
        assert qs'[i] == qs[i] && payload'[i] == payload[i];
      }
    }
  }

  /** The payload is the payload properties decoded, one entry each, in document
      order: reserved keys never reach it and no property is skipped or repeated. */
  lemma {:induction false} PayloadIsDecodedNonReserved<K, V>(d: Decoders<K, V>, ps: seq<Property>)
    requires Scan(d, ps).Success?
    ensures DecodedAs(d, Scan(d, ps).value.payload, NonReserved(ps))
    decreases |ps|
  {
    if |ps| > 0 {
      var init, p := ps[..|ps| - 1], ps[|ps| - 1];
      assert ps == init + [p];
      ScanSnoc(d, init, p);
      NonReservedSnoc(init, p);
      PayloadIsDecodedNonReserved(d, init);
      var st0 := Scan(d, init).value;
      StepPayload(d, st0, p);
      if !IsReserved(p.name) {
        DecodedAsSnoc(d, st0.payload, NonReserved(init), d.key(p.name).value, d.value(p.value).value, p);
      }
    }
  }

  /** `StatusCode` is the last numeric `status`; a non-numeric one is skipped. */
  lemma {:induction false} StatusIsLastNumber<K, V>(d: Decoders<K, V>, ps: seq<Property>)
    requires Scan(d, ps).Success?
    ensures Scan(d, ps).value.statusCode == StatusOf(ps)
    decreases |ps|
  {
    if |ps| > 0 {
      StatusIsLastNumber(d, ps[..|ps| - 1]);
    }
  }

  /** `Error` comes from the last `error` property: its string as the reason, or
      whatever the error decoder made of anything else, null included. */
  lemma {:induction false} ErrorIsLastErrorField<K, V>(d: Decoders<K, V>, ps: seq<Property>)
    requires Scan(d, ps).Success?
    ensures var e := Scan(d, ps).value.error;
      match LastErrorToken(ps)
        case None => e == None
        case Some(t) =>
          if t.StringToken? then e == Some(Error(Some(t.s), None))
          else d.error(t).Success? && e == d.error(t).value
    decreases |ps|
  {
    if |ps| > 0 {
      ErrorIsLastErrorField(d, ps[..|ps| - 1]);
    }
  }

  /** A later structured error that decodes to null leaves `Error` null, even after
      an earlier string error had set a reason. */
  lemma NullErrorClearsEarlierError<K, V>(d: Decoders<K, V>, reason: string, t: Token)
    requires !t.StringToken? && d.error(t) == Success(None)
    ensures var ps := [Property(ErrorField, StringToken(reason)), Property(ErrorField, t)];
      Scan(d, ps).Success? && Scan(d, ps).value.error == None
  {
    var ps := [Property(ErrorField, StringToken(reason)), Property(ErrorField, t)];
    ScanSnoc(d, [], ps[0]);
    assert [ps[0]] + [ps[1]] == ps;
    ScanSnoc(d, [ps[0]], ps[1]);
  }

  /** A decoded payload holds exactly the keys its properties decode to. */
  lemma DecodedKeys<K, V>(d: Decoders<K, V>, payload: seq<(K, V)>, qs: seq<Property>, k: K)
    requires DecodedAs(d, payload, qs) && EntriesDecode(d, qs)
    ensures HasKey(payload, k) <==> exists i :: 0 <= i < |qs| && d.key(qs[i].name).value == k
  {
    if HasKey(payload, k) {
      var i :| 0 <= i < |payload| && payload[i].0 == k;
      assert d.key(qs[i].name).value == k;
    }
    if exists i :: 0 <= i < |qs| && d.key(qs[i].name).value == k {
      var i :| 0 <= i < |qs| && d.key(qs[i].name).value == k;
      assert payload[i].0 == k;
    }
  }

  lemma ErrorsDecodeSnoc<K, V>(d: Decoders<K, V>, init: seq<Property>, p: Property)
    ensures ErrorsDecode(d, init + [p]) <==>
      ErrorsDecode(d, init) && (p.name == ErrorField && !p.value.StringToken? ==> d.error(p.value).Success?)
  {
    var ps := init + [p];
    Last(init, p);
    if ErrorsDecode(d, ps) {
      forall i | 0 <= i < |init| && init[i].name == ErrorField && !init[i].value.StringToken?
        ensures d.error(init[i].value).Success?
      {
        assert ps[i] == init[i];
      }
    }
  }

  lemma EntriesDecodeSnoc<K, V>(d: Decoders<K, V>, qs0: seq<Property>, p: Property)
    ensures EntriesDecode(d, qs0 + [p]) <==> EntriesDecode(d, qs0) && d.key(p.name).Success? && d.value(p.value).Success?
  {
    var qs := qs0 + [p];
    Last(qs0, p);
    if EntriesDecode(d, qs) {
      forall i | 0 <= i < |qs0|
        ensures d.key(qs0[i].name).Success? && d.value(qs0[i].value).Success?
      {
        assert qs[i] == qs0[i];
      }
    }
  }

  lemma DistinctSnoc<K, V>(d: Decoders<K, V>, qs0: seq<Property>, p: Property)
    requires EntriesDecode(d, qs0) && d.key(p.name).Success? && d.value(p.value).Success?
    ensures EntriesDecode(d, qs0 + [p])
    ensures DistinctDecodedKeys(d, qs0 + [p]) <==>
      DistinctDecodedKeys(d, qs0) && forall i | 0 <= i < |qs0| :: d.key(qs0[i].name).value != d.key(p.name).value
  {
    var qs := qs0 + [p];
    EntriesDecodeSnoc(d, qs0, p);
    Last(qs0, p);
    if DistinctDecodedKeys(d, qs) {
      forall i, j | 0 <= i < j < |qs0|
        ensures d.key(qs0[i].name).value != d.key(qs0[j].name).value
      {
        assert qs[i] == qs0[i] && qs[j] == qs0[j];
      }
      forall i | 0 <= i < |qs0|
        ensures d.key(qs0[i].name).value != d.key(p.name).value
      {
        assert qs[i] == qs0[i];
      }
    } else {
      var i, j :| 0 <= i < j < |qs| && d.key(qs[i].name).value == d.key(qs[j].name).value;
      assert qs[i] == qs0[i];
      if j < |qs0| {
        assert qs[j] == qs0[j];
      }
    }
  }

  /** A reserved property fails the step only as a structured error that does not decode. */
  lemma StepReserved<K, V>(d: Decoders<K, V>, st: ScanState<K, V>, p: Property)
    requires IsReserved(p.name)
    ensures Step(d, st, p).Success? <==> (p.name == ErrorField && !p.value.StringToken? ==> d.error(p.value).Success?)
  {
  }

  /** A payload property passes the step exactly when it decodes to a new key. */
  lemma StepEntry<K, V>(d: Decoders<K, V>, st: ScanState<K, V>, p: Property)
    requires !IsReserved(p.name)
    ensures Step(d, st, p).Success? <==>
      d.key(p.name).Success? && d.value(p.value).Success? && !HasKey(st.payload, d.key(p.name).value)
  {
  }

  /** The scan succeeds exactly when every structured error and every payload key
      and value decode and no two payload keys decode alike. */
  lemma {:induction false} ScanSucceedsIff<K, V>(d: Decoders<K, V>, ps: seq<Property>)
    ensures Scan(d, ps).Success? <==>
      ErrorsDecode(d, ps) && EntriesDecode(d, NonReserved(ps)) && DistinctDecodedKeys(d, NonReserved(ps))
    decreases |ps|
  {
    if |ps| > 0 {
      var init, p := ps[..|ps| - 1], ps[|ps| - 1];
      assert ps == init + [p];
      ScanSucceedsIff(d, init);
      ScanSnoc(d, init, p);
      NonReservedSnoc(init, p);
      ErrorsDecodeSnoc(d, init, p);
      if IsReserved(p.name) {
        assert NonReserved(ps) == NonReserved(init);
        if Scan(d, init).Success? {
          StepReserved(d, Scan(d, init).value, p);
          assert Scan(d, ps).Success? <==> (p.name == ErrorField && !p.value.StringToken? ==> d.error(p.value).Success?);
        } else {
          assert Scan(d, ps).Failure?;
        }
      } else {
        SucceedsOnPayloadStep(d, init, p);
      }
    }
  }

  /** The induction step of `ScanSucceedsIff` for a payload property. */
  lemma SucceedsOnPayloadStep<K, V>(d: Decoders<K, V>, init: seq<Property>, p: Property)
    requires !IsReserved(p.name)
    requires Scan(d, init).Success? <==>
      ErrorsDecode(d, init) && EntriesDecode(d, NonReserved(init)) && DistinctDecodedKeys(d, NonReserved(init))
    ensures var qs := NonReserved(init) + [p];
      Scan(d, init + [p]).Success? <==>
        ErrorsDecode(d, init) && EntriesDecode(d, qs) && DistinctDecodedKeys(d, qs)
  {
    var qs0 := NonReserved(init);
    ScanSnoc(d, init, p);
    EntriesDecodeSnoc(d, qs0, p);
    if Scan(d, init).Success? {
      StepEntry(d, Scan(d, init).value, p);
      if d.key(p.name).Success? && d.value(p.value).Success? {
        DistinctSnoc(d, qs0, p);
        PayloadIsDecodedNonReserved(d, init);
        DecodedKeys(d, Scan(d, init).value.payload, qs0, d.key(p.name).value);
      }
    } else if EntriesDecode(d, qs0 + [p]) {
      DistinctSnoc(d, qs0, p);
    }
  }

  /** A payload key that appears twice makes the scan fail instead of overwriting. */
  lemma DuplicateKeyFails<K, V>(d: Decoders<K, V>, ps: seq<Property>, i: nat, j: nat)
    requires i < j < |NonReserved(ps)|
    requires d.key(NonReserved(ps)[i].name).Success? && d.key(NonReserved(ps)[j].name) == d.key(NonReserved(ps)[i].name)
    ensures Scan(d, ps).Failure?
  {
    if Scan(d, ps).Success? {
      PayloadIsDecodedNonReserved(d, ps);
    }
  }
}
