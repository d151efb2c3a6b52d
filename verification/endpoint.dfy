/** Gateway-id extraction from the deployed stack's outputs (src/index.js
    lines 12 and 23-29): the outputs are scanned in order, and every output
    whose key is exactly `ServiceEndpoint` overwrites the api name with the
    token after the first "//" in the part of its value before the first ".". */
module Endpoint {
  import opened Wrappers
  import opened JsString

  /** One CloudFormation stack output. */
  datatype Output = Output(outputKey: string, outputValue: string)

  const ServiceEndpointKey: string := "ServiceEndpoint"

  /** The api name before any output has been seen: the empty string. */
  const InitialApiName: Option<string> := Some("")

  /** `const [httpApiName] = endpoint.split('.'); [, apiName] = httpApiName.split('//')`,
      with `undefined` written as None. `ApiIdOfSpec` states what it is. */
  function ApiIdOf(endpoint: string): Option<string>
  {
    var httpApiName := Before(endpoint, ".");
    After(httpApiName, "//")
  }

  /** The id is `undefined` exactly when the host part (the text before the
      first ".") has no "//". Otherwise it starts right after the first "//"
      of the host part and ends at the next "//" of the host part, or at its
      end; it holds neither "." nor "//". */
  lemma ApiIdOfSpec(endpoint: string)
    ensures var r := ApiIdOf(endpoint);
      && (r.None? <==> !Contains(Before(endpoint, "."), "//"))
      && (r.Some? ==> !Contains(r.value, ".") && !Contains(r.value, "//"))
      && (r.Some? ==>
        var host := Before(endpoint, ".");
        var a := |Before(host, "//")| + 2;
        && a + |r.value| <= |endpoint|
        && r.value == endpoint[a..a + |r.value|]
        && (forall j: nat :: a <= j < a + |r.value| ==> !OccursAt(host, "//", j))
        && (a + |r.value| == |host| || OccursAt(host, "//", a + |r.value|)))
  {
    var host := Before(endpoint, ".");
    var r := After(host, "//");
    assert ApiIdOf(endpoint) == r;
    BeforeSpec(endpoint, ".");
    AfterSpec(host, "//");
    if r.Some? {
      var a := |Before(host, "//")| + 2;
      SliceFree(host, ".", a, a + |r.value|);
      assert host[a..a + |r.value|] == endpoint[a..a + |r.value|];
    }
  }

  /** Building an endpoint as `scheme//id.rest` and extracting the id gives
      `id` back, as long as the scheme has no "/" or "." and the id has no
      "." or "//". This is the shape `https://{id}.execute-api...` of an API
      Gateway endpoint. */
  lemma {:induction false} ApiIdOfRoundTrip(scheme: string, id: string, rest: string)
    requires '/' !in scheme && '.' !in scheme
    requires '.' !in id && !Contains(id, "//")
    ensures ApiIdOf(scheme + "//" + id + "." + rest) == Some(id)
  {
    var endpoint := scheme + "//" + id + "." + rest;
    var host := scheme + "//" + id;
    assert endpoint == host + "." + rest;
    assert endpoint[..|host|] == host;
    assert OccursAt(endpoint, ".", |host|);
    assert '.' !in host;
    NoOccurrenceBefore(endpoint, ".", |host|);
    FirstOccurrence(endpoint, ".", |host|);
    assert Before(endpoint, ".") == host;

    assert host[..|scheme|] == scheme;
    assert OccursAt(host, "//", |scheme|);
    NoOccurrenceBefore(host, "//", |scheme|);
    FirstOccurrence(host, "//", |scheme|);
    assert host[|scheme| + 2..] == id;
    BeforeSpec(id, "//");
  }

  /** The example endpoint of an API Gateway REST API yields its id. */
  lemma ApiIdOfExample()
    ensures ApiIdOf("https://abc123.execute-api.us-east-1.amazonaws.com/prod") == Some("abc123")
  {
    ExampleEndpointParts();
    AbsentFirstChar("abc123", "//");
    ApiIdOfRoundTrip("https:", "abc123", "execute-api.us-east-1.amazonaws.com/prod");
  }

  lemma ExampleEndpointParts()
    ensures "https:" + "//" + "abc123" + "." + "execute-api.us-east-1.amazonaws.com/prod"
      == "https://abc123.execute-api.us-east-1.amazonaws.com/prod"
  {
    assert "https:" + "//" + "abc123" + "." == "https://abc123.";
  }

  /** An endpoint whose host part has no "//" (no scheme) yields `undefined`. */
  lemma ApiIdOfWithoutScheme(endpoint: string)
    requires '/' !in endpoint
    ensures ApiIdOf(endpoint) == None
  {
    var host := Before(endpoint, ".");
    assert '/' !in host by {
      assert host == endpoint[..|host|];
    }
    AbsentFirstChar(host, "//");
    ApiIdOfSpec(endpoint);
  }

  /** The body of the `forEach` callback, lines 25-28: a `ServiceEndpoint`
      output overwrites `apiName`; any other output leaves it alone. */
  function ScanStep(o: Output, apiName: Option<string>): Option<string> {
    if o.outputKey == ServiceEndpointKey then ApiIdOf(o.outputValue) else apiName
  }

  /** The `forEach` of lines 24-29, applying `ScanStep` to each output in
      order. */
  function ScanOutputs(outputs: seq<Output>, apiName: Option<string>): Option<string>
    decreases |outputs|
  {
    if |outputs| == 0 then apiName
    else
      var next := ScanStep(outputs[0], apiName);
      ScanOutputs(outputs[1..], next)
  }

  /** The scan ends with the starting value or with the id extracted from one
      of the `ServiceEndpoint` outputs: nothing else can be assigned. */
  lemma {:induction false} ScanYieldsEndpoint(outputs: seq<Output>, apiName: Option<string>)
    ensures var r := ScanOutputs(outputs, apiName);
      r == apiName || exists i :: EndpointYields(outputs, i, r)
    decreases |outputs|
  {
    if |outputs| > 0 {
      var next := ScanStep(outputs[0], apiName);
      var r := ScanOutputs(outputs[1..], next);
      ScanYieldsEndpoint(outputs[1..], next);
      if r != next {
        var i :| EndpointYields(outputs[1..], i, r);
        assert EndpointYields(outputs, i + 1, r);
      } else if outputs[0].outputKey == ServiceEndpointKey {
        assert EndpointYields(outputs, 0, r);
      }
    }
  }

  /** Output `i` is a `ServiceEndpoint` output whose value yields `apiName`. */
  predicate EndpointYields(outputs: seq<Output>, i: int, apiName: Option<string>) {
    0 <= i < |outputs| && outputs[i].outputKey == ServiceEndpointKey
    && apiName == ApiIdOf(outputs[i].outputValue)
  }

  predicate NoEndpoint(outputs: seq<Output>) {
    forall i :: 0 <= i < |outputs| ==> outputs[i].outputKey != ServiceEndpointKey
  }

  /** Output `i` is the last output with key `ServiceEndpoint`. */
  predicate IsLastEndpoint(outputs: seq<Output>, i: int) {
    && 0 <= i < |outputs|
    && outputs[i].outputKey == ServiceEndpointKey
    && forall j :: i < j < |outputs| ==> outputs[j].outputKey != ServiceEndpointKey
  }

  /** Scanning is a left fold: scanning a concatenation scans the second
      part starting from the result of the first. */
  lemma {:induction false} ScanOutputsAppend(xs: seq<Output>, ys: seq<Output>, apiName: Option<string>)
    ensures ScanOutputs(xs + ys, apiName) == ScanOutputs(ys, ScanOutputs(xs, apiName))
    decreases |xs|
  {
    if |xs| > 0 {
      assert (xs + ys)[0] == xs[0];
      assert (xs + ys)[1..] == xs[1..] + ys;
      var next := ScanStep(xs[0], apiName);
      ScanOutputsAppend(xs[1..], ys, next);
    } else {
      assert xs + ys == ys;
    }
  }

  /** Outputs other than `ServiceEndpoint` are ignored: dropping one from
      anywhere in the list does not change the result. */
  lemma IgnoresOtherOutputs(xs: seq<Output>, other: Output, ys: seq<Output>, apiName: Option<string>)
    requires other.outputKey != ServiceEndpointKey
    ensures ScanOutputs(xs + [other] + ys, apiName) == ScanOutputs(xs + ys, apiName)
  {
    ScanOutputsAppend(xs + [other], ys, apiName);
    ScanOutputsAppend(xs, [other], apiName);
    ScanOutputsAppend(xs, ys, apiName);
  }

  /** The scan's result depends only on the last `ServiceEndpoint` output;
      with none, the starting value survives. */
  lemma {:induction false} ScanFindsLast(outputs: seq<Output>, apiName: Option<string>)
    ensures NoEndpoint(outputs) ==> ScanOutputs(outputs, apiName) == apiName
    ensures forall i :: IsLastEndpoint(outputs, i) ==>
      ScanOutputs(outputs, apiName) == ApiIdOf(outputs[i].outputValue)
    decreases |outputs|
  {
    if |outputs| > 0 {
      var next := ScanStep(outputs[0], apiName);
      ScanFindsLast(outputs[1..], next);
      forall i | IsLastEndpoint(outputs, i)
        ensures ScanOutputs(outputs, apiName) == ApiIdOf(outputs[i].outputValue)
      {
        if i == 0 {
          assert NoEndpoint(outputs[1..]);
        } else {
          assert IsLastEndpoint(outputs[1..], i - 1);
        }
      }
      if NoEndpoint(outputs) {
        assert NoEndpoint(outputs[1..]);
      }
    }
  }

  /** The api name sent with the export request: `''` when no output has
      key `ServiceEndpoint`, otherwise the id extracted from the last one. */
  function ResolveApiName(outputs: seq<Output>): (r: Option<string>)
    ensures NoEndpoint(outputs) ==> r == InitialApiName
    ensures forall i :: IsLastEndpoint(outputs, i) ==> r == ApiIdOf(outputs[i].outputValue)
  {
    ScanFindsLast(outputs, InitialApiName);
    ScanOutputs(outputs, InitialApiName)
  }
}
