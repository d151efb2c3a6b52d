/** The `exportApi` function of src/index.js lines 11-75, as the ordered
    trace of remote requests and log lines it issues. The three remote
    responses are inputs: each request is issued at most once, so one
    response value per request is fully general. The stack description and
    the export are None when they are falsy or their promise is rejected:
    either way the chain stops there without another request or log line. */
module ExportWorkflow {
  import opened Wrappers
  import opened JsValue
  import opened Endpoint
  import opened Destinations

  /** What the host supplies: `getServiceName()`, `getStage()`, `getRegion()`. */
  datatype Context = Context(serviceName: string, stage: string, region: string)

  datatype Stack = Stack(outputs: seq<Output>)

  /** A truthy `describeStacks` result. */
  datatype DescribeStacksResult = DescribeStacksResult(stacks: seq<Stack>)

  /** A truthy `getExport` result; only its `body` is used. */
  datatype ExportResult = ExportResult(body: Value)

  /** How the `putObject` promise settles. Its callback (lines 62-68) logs
      on fulfilment, truthy or not; there is no rejection handler, so a
      rejection logs nothing. */
  datatype Settlement = Fulfilled(truthy: bool) | Rejected

  /** The remote responses: the two results and the upload's settlement. */
  datatype Responses = Responses(
    describe: Option<DescribeStacksResult>,
    exported: Option<ExportResult>,
    upload: Settlement)

  /** The parameter object of each request. `restApiId` is None when the
      extracted api name is `undefined`. */
  datatype Params =
    | DescribeStacksParams(stackName: string)
    | GetExportParams(exportType: string, restApiId: Option<string>, stageName: string,
                      accepts: string, extensions: string)
    | PutObjectParams(body: Value, bucket: Value, key: Value)

  /** `provider.request(service, operation, params, stage, region)`. */
  datatype Call = Call(service: string, operation: string, params: Params, stage: string, region: string)

  datatype Event = Request(call: Call) | Log(message: string)

  /** The success message, spelled as in the source. */
  const UploadedMessage: string := "File uploded to S3"
  const UploadFailedMessage: string := "Failed to upload file to S3"

  /** `describeStacks` for the stack `{serviceName}-{stage}`. */
  function DescribeCall(ctx: Context): Call
  {
    Call("CloudFormation", "describeStacks",
         DescribeStacksParams(ctx.serviceName + "-" + ctx.stage), ctx.stage, ctx.region)
  }

  /** `getExport` of the swagger document, as JSON with integrations, of the
      api named `apiName` at the provider's stage. */
  function ExportCall(ctx: Context, apiName: Option<string>): Call
  {
    Call("APIGateway", "getExport",
         GetExportParams("swagger", apiName, ctx.stage, "application/json", "integrations"),
         ctx.stage, ctx.region)
  }

  /** `putObject` of `body` under `bucket`/`key`. */
  function PutCall(ctx: Context, body: Value, bucket: Value, key: Value): Call
  {
    Call("S3", "putObject", PutObjectParams(body, bucket, key), ctx.stage, ctx.region)
  }

  predicate IsPut(e: Event) {
    e.Request? && e.call.operation == "putObject"
  }

  /** The inputs on which `exportApi` does not throw: `result.Stacks[0]`
      exists when the stack description is truthy, and the upload guard's
      `in` operators apply to objects when the export is truthy. */
  predicate Runnable(custom: Value, resp: Responses) {
    && (resp.describe.Some? ==> |resp.describe.value.stacks| > 0)
    && (resp.describe.Some? && resp.exported.Some? ==> GuardDefined(custom))
  }

  /** The upload is requested: both earlier results are truthy and the
      destination settings are complete. */
  predicate Uploads(custom: Value, resp: Responses)
    requires Runnable(custom, resp)
  {
    resp.describe.Some? && resp.exported.Some? && DestinationOf(custom).Complete?
  }

  /** The api name that `getExport` receives when the description is truthy. */
  function ApiNameOf(resp: Responses): Option<string>
    requires resp.describe.Some? && |resp.describe.value.stacks| > 0
  {
    ResolveApiName(resp.describe.value.stacks[0].outputs)
  }

  /** The requests and log lines of one run of `exportApi`, in order. */
  function ExportApi(ctx: Context, custom: Value, resp: Responses): (trace: seq<Event>)
    requires Runnable(custom, resp)
    ensures 1 <= |trace| <= 4
    ensures trace[0] == Request(DescribeCall(ctx))
    ensures |trace| == 1 <==> resp.describe.None?
    ensures |trace| >= 3 <==> Uploads(custom, resp)
    ensures |trace| == 4 <==> Uploads(custom, resp) && resp.upload.Fulfilled?
    ensures |trace| >= 2 ==> trace[1] == Request(ExportCall(ctx, ApiNameOf(resp)))
    ensures forall i :: 0 <= i < |trace| && IsPut(trace[i]) ==> i == 2
    ensures forall i :: 0 <= i < |trace| && trace[i].Log? ==> i == 3
    ensures Uploads(custom, resp) ==>
      var d := DestinationOf(custom);
      trace[2] == Request(PutCall(ctx, resp.exported.value.body, d.bucket, d.key))
    ensures |trace| == 4 ==>
      trace[3] == Log(if resp.upload.truthy then UploadedMessage else UploadFailedMessage)
  {
    [Request(DescribeCall(ctx))] +
    match resp.describe
    case None => []
    case Some(result) =>
      var apiName := ResolveApiName(result.stacks[0].outputs);
      [Request(ExportCall(ctx, apiName))] +
      match resp.exported
      case None => []
      case Some(r) =>
        match DestinationOf(custom)
        case Incomplete => []
        case Complete(bucket, key) =>
          [Request(PutCall(ctx, r.body, bucket, key))] + UploadLog(resp.upload)
  }

  /** What the `putObject` callback logs for each settlement. */
  function UploadLog(upload: Settlement): seq<Event> {
    match upload
    case Fulfilled(truthy) => [Log(if truthy then UploadedMessage else UploadFailedMessage)]
    case Rejected => []
  }

  /** The stack described is `{serviceName}-{stage}`, in the host's stage
      and region. */
  lemma DescribesServiceStack(ctx: Context, custom: Value, resp: Responses)
    requires Runnable(custom, resp)
    ensures var c := ExportApi(ctx, custom, resp)[0].call;
      && c.service == "CloudFormation" && c.operation == "describeStacks"
      && c.params.stackName == ctx.serviceName + "-" + ctx.stage
      && c.stage == ctx.stage && c.region == ctx.region
  {
  }

  /** Every export request asks for swagger as JSON with integrations, for
      the provider's stage, and goes to the provider's stage and region. */
  lemma ExportRequestFixedFields(ctx: Context, custom: Value, resp: Responses)
    requires Runnable(custom, resp)
    ensures forall e | e in ExportApi(ctx, custom, resp) && e.Request? && e.call.operation == "getExport" ::
      && e.call.params.GetExportParams?
      && e.call.params.exportType == "swagger"
      && e.call.params.accepts == "application/json"
      && e.call.params.extensions == "integrations"
      && e.call.params.stageName == ctx.stage
      && e.call.stage == ctx.stage && e.call.region == ctx.region
  {
  }

  /** Without a `ServiceEndpoint` output the export is still requested,
      with `restApiId: ''`. */
  lemma NoEndpointExportsEmptyId(ctx: Context, custom: Value, resp: Responses)
    requires Runnable(custom, resp) && resp.describe.Some?
    requires NoEndpoint(resp.describe.value.stacks[0].outputs)
    ensures var trace := ExportApi(ctx, custom, resp);
      |trace| >= 2 && trace[1].Request? && trace[1].call.operation == "getExport"
      && trace[1].call.params.restApiId == Some("")
  {
  }

  /** The export names the api found in the last `ServiceEndpoint` output. */
  lemma LastEndpointNamesExport(ctx: Context, custom: Value, resp: Responses, i: int)
    requires Runnable(custom, resp) && resp.describe.Some?
    requires IsLastEndpoint(resp.describe.value.stacks[0].outputs, i)
    ensures var trace := ExportApi(ctx, custom, resp);
      |trace| >= 2
      && trace[1].call.params.restApiId == ApiIdOf(resp.describe.value.stacks[0].outputs[i].outputValue)
  {
  }

  /** A falsy stack description ends the run after its own request. Nothing
      else is read, so no settings and no later response make it throw. */
  lemma FalsyDescribeStops(ctx: Context, custom: Value, resp: Responses)
    requires resp.describe.None?
    ensures Runnable(custom, resp)
    ensures ExportApi(ctx, custom, resp) == [Request(DescribeCall(ctx))]
  {
  }

  /** A falsy export issues no upload and no log line, and never reads the
      settings, so no settings make it throw. */
  lemma FalsyExportStops(ctx: Context, custom1: Value, custom2: Value, resp: Responses)
    requires resp.exported.None?
    requires resp.describe.Some? ==> |resp.describe.value.stacks| > 0
    ensures Runnable(custom1, resp) && Runnable(custom2, resp)
    ensures ExportApi(ctx, custom1, resp) == ExportApi(ctx, custom2, resp)
    ensures forall e | e in ExportApi(ctx, custom1, resp) :: !IsPut(e) && !e.Log?
  {
  }

  /** `putObject` is requested exactly when both results are truthy and the
      destination keys are present, and then once, with the export body and
      the configured bucket and key, in the provider's stage and region. */
  lemma UploadIffComplete(ctx: Context, custom: Value, resp: Responses)
    requires Runnable(custom, resp)
    ensures var trace := ExportApi(ctx, custom, resp);
      (exists i :: 0 <= i < |trace| && IsPut(trace[i])) <==> Uploads(custom, resp)
    ensures var trace := ExportApi(ctx, custom, resp);
      forall i, j :: 0 <= i < |trace| && 0 <= j < |trace| && IsPut(trace[i]) && IsPut(trace[j]) ==> i == j
    ensures var trace := ExportApi(ctx, custom, resp);
      forall i :: 0 <= i < |trace| && IsPut(trace[i]) ==>
        var dest := Get(custom, SwaggerDestinationsKey);
        && trace[i].call.params == PutObjectParams(resp.exported.value.body,
          Get(dest, BucketNameKey), Get(dest, KeyNameKey))
        && trace[i].call.stage == ctx.stage && trace[i].call.region == ctx.region
  {
  }

  /** After a fulfilled upload exactly one log line follows, telling success
      from failure by the truthiness of the upload result. */
  lemma UploadOutcomeLogged(ctx: Context, custom: Value, resp: Responses)
    requires Runnable(custom, resp) && Uploads(custom, resp) && resp.upload.Fulfilled?
    ensures var trace := ExportApi(ctx, custom, resp);
      trace[|trace| - 1] == Log(if resp.upload.truthy then UploadedMessage else UploadFailedMessage)
  {
  }

  /** A rejected upload has no handler: the run ends with the `putObject`
      request and logs nothing. */
  lemma RejectedUploadNotLogged(ctx: Context, custom: Value, resp: Responses)
    requires Runnable(custom, resp) && Uploads(custom, resp) && resp.upload.Rejected?
    ensures var trace := ExportApi(ctx, custom, resp);
      |trace| == 3 && IsPut(trace[2]) && forall e | e in trace :: !e.Log?
  {
  }

  /** A `swaggerDestinations` object without `s3KeyName` never uploads. */
  lemma MissingKeyNameNeverUploads(ctx: Context, custom: Value, resp: Responses)
    requires Runnable(custom, resp) && GuardDefined(custom)
    requires SwaggerDestinationsKey in Keys(custom)
    requires KeyNameKey !in Keys(Get(custom, SwaggerDestinationsKey))
    ensures forall e | e in ExportApi(ctx, custom, resp) :: !IsPut(e)
  {
  }

  /** The upload of a concrete export body to `my-bucket`/`api.json`. */
  lemma ExampleUpload(ctx: Context, outputs: seq<Output>, upload: Settlement)
    ensures var body := Str("{\"swagger\":\"2.0\"}");
      var custom := Obj(map[SwaggerDestinationsKey :=
        Obj(map[BucketNameKey := Str("my-bucket"), KeyNameKey := Str("api.json")])]);
      var resp := Responses(Some(DescribeStacksResult([Stack(outputs)])),
                            Some(ExportResult(body)), upload);
      Runnable(custom, resp)
      && var trace := ExportApi(ctx, custom, resp);
      && |trace| >= 3
      && trace[2] == Request(PutCall(ctx, body, Str("my-bucket"), Str("api.json")))
      && forall i :: 0 <= i < |trace| && IsPut(trace[i]) ==> i == 2
  {
  }

  // ---------------------------------------------------------------------
  // The same run as a forward-only state machine: every transition issues
  // at most one request or log line and moves strictly forward.

  datatype Phase =
    | Start
    | StackDescribed(outputs: seq<Output>)
    | GatewayIdentified(apiName: Option<string>)
    | DescriptionExported(body: Value)
    | UploadRequested(upload: Settlement)
    | Done

  /** Steps left before `Done`. */
  function Rank(p: Phase): nat {
    match p
    case Start => 5
    case StackDescribed(_) => 4
    case GatewayIdentified(_) => 3
    case DescriptionExported(_) => 2
    case UploadRequested(_) => 1
    case Done => 0
  }

  /** The phases a run with these responses can be in. */
  predicate PhaseOk(p: Phase, resp: Responses) {
    match p
    case StackDescribed(_) => resp.describe.Some?
    case GatewayIdentified(_) => resp.describe.Some?
    case DescriptionExported(_) => resp.describe.Some? && resp.exported.Some?
    case _ => true
  }

  function Step(ctx: Context, custom: Value, resp: Responses, p: Phase): (s: (Phase, seq<Event>))
    requires Runnable(custom, resp) && PhaseOk(p, resp)
    ensures PhaseOk(s.0, resp)
    ensures p != Done ==> Rank(s.0) < Rank(p)
    ensures |s.1| <= 1
  {
    match p
    case Start =>
      var next := if resp.describe.None? then Done
        else StackDescribed(resp.describe.value.stacks[0].outputs);
      (next, [Request(DescribeCall(ctx))])
    case StackDescribed(outputs) =>
      (GatewayIdentified(ResolveApiName(outputs)), [])
    case GatewayIdentified(apiName) =>
      var next := if resp.exported.None? then Done
        else DescriptionExported(resp.exported.value.body);
      (next, [Request(ExportCall(ctx, apiName))])
    case DescriptionExported(body) =>
      (match DestinationOf(custom)
       case Incomplete => (Done, [])
       case Complete(bucket, key) =>
         (UploadRequested(resp.upload), [Request(PutCall(ctx, body, bucket, key))]))
    case UploadRequested(Fulfilled(truthy)) =>
      (Done, [Log(if truthy then UploadedMessage else UploadFailedMessage)])
    case UploadRequested(Rejected) => (Done, [])
    case Done => (Done, [])
  }

  /** Runs the machine from `p` until `Done`, collecting what it issues. */
  function Run(ctx: Context, custom: Value, resp: Responses, p: Phase): (trace: seq<Event>)
    requires Runnable(custom, resp) && PhaseOk(p, resp)
    ensures |trace| <= Rank(p)
    decreases Rank(p)
  {
    if p == Done then []
    else
      var (next, out) := Step(ctx, custom, resp, p);
      out + Run(ctx, custom, resp, next)
  }

  /** The nested callbacks of `exportApi` and the forward-only machine issue
      the same requests and log lines in the same order. */
  lemma MachineMatchesExportApi(ctx: Context, custom: Value, resp: Responses)
    requires Runnable(custom, resp)
    ensures Run(ctx, custom, resp, Start) == ExportApi(ctx, custom, resp)
  {
    var trace := ExportApi(ctx, custom, resp);
    match resp.describe
    case None =>
      assert Run(ctx, custom, resp, Start) == [Request(DescribeCall(ctx))];
    case Some(result) =>
      var outputs := result.stacks[0].outputs;
      var apiName := ResolveApiName(outputs);
      var g := GatewayIdentified(apiName);
      assert Run(ctx, custom, resp, Start)
        == [Request(DescribeCall(ctx))] + Run(ctx, custom, resp, StackDescribed(outputs));
      assert Run(ctx, custom, resp, StackDescribed(outputs)) == Run(ctx, custom, resp, g);
      match resp.exported
      case None =>
        assert Run(ctx, custom, resp, g) == [Request(ExportCall(ctx, apiName))];
      case Some(r) =>
        var x := DescriptionExported(r.body);
        assert Run(ctx, custom, resp, g) == [Request(ExportCall(ctx, apiName))] + Run(ctx, custom, resp, x);
        match DestinationOf(custom)
        case Incomplete =>
          assert Run(ctx, custom, resp, x) == [];
        case Complete(bucket, key) =>
          var u := UploadRequested(resp.upload);
          assert Run(ctx, custom, resp, x) == [Request(PutCall(ctx, r.body, bucket, key))] + Run(ctx, custom, resp, u);
          assert Run(ctx, custom, resp, u) == UploadLog(resp.upload);
  }
}
