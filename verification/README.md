# serverless-export-swagger, modelled in Dafny

The plugin hooks `after:deploy:deploy` and runs `exportApi` once per deploy.
`exportApi` makes three remote calls in a row, each only when the previous
result is truthy:

1. CloudFormation `describeStacks` for the stack `{serviceName}-{stage}`.
2. From the outputs of the first stack, the gateway id is extracted: every
   output whose key is exactly `ServiceEndpoint` overwrites the id with
   `value.split('.')[0].split('//')[1]`. The id starts as `''`.
3. API Gateway `getExport` for that id and the provider stage. The export
   type is `swagger`, the accept type `application/json`, and
   `extensions: 'integrations'` is set.
4. If `custom.swaggerDestinations` exists and has both keys `s3BucketName`
   and `s3KeyName`, S3 `putObject` is called with the export body. Then one
   log line reports success or failure, unless the `putObject` promise is
   rejected.

The model turns the remote responses into inputs. `ExportWorkflow.ExportApi`
returns the ordered trace of requests and log lines that the code issues.
The files are:

- `wrappers.dfy`: the `Option` type.
- `js_string.dfy`: JavaScript's `split` for a non-empty separator, with
  `join`, which gives the input back from its pieces
  (`Join(Split(s, sep), sep) == s`).
- `js_value.dfy`: the JavaScript values that appear in the settings and the
  export body.
- `endpoint.dfy`: the `ServiceEndpoint` scan and the gateway-id extraction.
- `destinations.dfy`: the upload guard.
- `export_workflow.dfy`: the trace function and its properties. It also
  defines the same run as a forward-only state machine and proves that the
  machine gives the same trace.

The upload stage runs when the export response `r` is truthy
(src/index.js:45) and sends `r.body` whatever it is, `undefined` included
(src/index.js:56).

None of the three promises has a rejection handler (src/index.js:21, 44,
62). After a rejected `describeStacks` or `getExport`, the code issues no
further request or log line, just as after a falsy result. After a
rejected `putObject` it logs nothing. In each case the rejection itself is
left unhandled and is reported by the runtime, which the trace does not
represent. The model gives each response as an input that covers these
outcomes.

## Model

| member | source | states |
|---|---|---|
| JsString.IndexOf | src/index.js:26-27 | the first position where the separator occurs, or none exactly when it does not occur |
| JsString.Split | src/index.js:26-27 | `split` with a string separator gives at least one piece, no piece contains the separator, and joining the pieces with the separator gives back the input |
| JsString.SplitIsLeftmost | src/index.js:26-27 | `split` cuts at the leftmost occurrences, scanning left to right without overlap: each piece runs from its start to the first occurrence at or after that start, and the last piece runs to the end |
| JsString.LeftmostPiecesUnique | src/index.js:26-27 | only one list of pieces cuts a string at the leftmost occurrences, so with `SplitIsLeftmost` this fixes the result of `split` |
| JsString.SplitPieces | src/index.js:26-27 | `Before` is `split(sep)[0]`. `After` is `split(sep)[1]`, and it is `undefined` exactly when there are fewer than two pieces |
| JsString.BeforeSpec | src/index.js:26 | `split(sep)[0]` is a prefix of the input with no separator in it. It is followed by the first occurrence of the separator, or it is the whole string when the separator does not occur |
| JsString.AfterSpec | src/index.js:27 | `split(sep)[1]` is `undefined` exactly when the separator does not occur. Otherwise it is the slice that starts right after the first occurrence. It ends at the next occurrence that starts at or after its start, or at the end of the input, and no occurrence starts inside it |
| Endpoint.ApiIdOfSpec | src/index.js:26-27 | the id is `undefined` exactly when the part before the first `.` has no `//`. A defined id contains neither `.` nor `//`. It is the slice of the endpoint that starts after the first `//` and ends at the next `//` of the host part, or at the host part's end |
| Endpoint.ApiIdOfRoundTrip | src/index.js:26-27 | an endpoint built as `scheme//id.rest` gives back `id`, when the scheme has no `/` or `.` and the id has no `.` or `//` |
| Endpoint.ApiIdOfExample | src/index.js:26-27 | `https://abc123.execute-api.us-east-1.amazonaws.com/prod` gives `abc123` |
| Endpoint.ApiIdOfWithoutScheme | src/index.js:27 | an endpoint with no `/` gives `undefined` |
| Endpoint.ScanYieldsEndpoint | src/index.js:24-29 | the `forEach` ends with the starting value, or with the id extracted from one of the `ServiceEndpoint` outputs; nothing else can be assigned |
| Endpoint.ScanOutputsAppend | src/index.js:24-29 | the `forEach` over the outputs is a left fold: scanning `xs + ys` scans `ys` starting from the result for `xs` |
| Endpoint.IgnoresOtherOutputs | src/index.js:25 | removing an output whose key is not `ServiceEndpoint` does not change the id |
| Endpoint.ScanFindsLast | src/index.js:24-28 | with no `ServiceEndpoint` output the starting value survives. Otherwise the id comes from the last `ServiceEndpoint` output |
| Endpoint.ResolveApiName | src/index.js:12-29 | the id sent to `getExport` is `''` when no output is `ServiceEndpoint`. Otherwise it is the id extracted from the last such output |
| Destinations.DestinationOf | src/index.js:46-58 | the destination is complete exactly when both `s3BucketName` and `s3KeyName` are keys of `swaggerDestinations`. Its bucket and key are those entries' values |
| Destinations.PresenceNotValue | src/index.js:47-51 | two settings with the same keys under `swaggerDestinations` are both complete or both incomplete, whatever their values are |
| Destinations.NamespaceAloneInsufficient | src/index.js:47-51 | a `swaggerDestinations` object that lacks either key gives no destination |
| Destinations.FalsyValuesPass | src/index.js:48-58 | `undefined` or empty values under both keys still pass the guard and are forwarded unchanged |
| ExportWorkflow.ExportApi | src/index.js:11-75 | the trace has 1 to 4 entries and always starts with `describeStacks`. It stops after 1 exactly when the description is falsy or rejected. It has at least 3 exactly when the upload is requested, and 4 exactly when that upload is fulfilled. The export request comes second, a `putObject` can only be third, a log line only fourth, and their contents are as stated |
| ExportWorkflow.DescribesServiceStack | src/index.js:13-20 | the first request is CloudFormation `describeStacks` for `{serviceName}-{stage}`, in the host's stage and region |
| ExportWorkflow.ExportRequestFixedFields | src/index.js:30-43 | every `getExport` request has `exportType 'swagger'`, `accepts 'application/json'`, `extensions 'integrations'` and the provider stage as `stageName`, and goes to the provider's stage and region |
| ExportWorkflow.NoEndpointExportsEmptyId | src/index.js:12-35 | with no `ServiceEndpoint` output, `getExport` is still requested, with `restApiId: ''` |
| ExportWorkflow.LastEndpointNamesExport | src/index.js:24-35 | `getExport` receives the id extracted from the last `ServiceEndpoint` output |
| ExportWorkflow.FalsyDescribeStops | src/index.js:21-22 | a falsy `describeStacks` result means no further request and no log line. Nothing else is read then, so no settings or later responses can make the run throw |
| ExportWorkflow.FalsyExportStops | src/index.js:44-45 | a falsy `getExport` result means no upload and no log line. The settings are never read then, so no settings can make the run throw |
| ExportWorkflow.UploadIffComplete | src/index.js:47-61 | `putObject` is requested if and only if both results are truthy and both destination keys are present. It is requested at most once, with the export body and the configured bucket and key, in the provider's stage and region |
| ExportWorkflow.UploadOutcomeLogged | src/index.js:62-67 | after a fulfilled upload, the last entry is the log line `File uploded to S3` when the result is truthy, and `Failed to upload file to S3` otherwise |
| ExportWorkflow.RejectedUploadNotLogged | src/index.js:62-68 | a rejected `putObject` leaves the `putObject` request as the last entry, with no log line |
| ExportWorkflow.MissingKeyNameNeverUploads | src/index.js:48-51 | a `swaggerDestinations` object without `s3KeyName` never leads to `putObject` |
| ExportWorkflow.ExampleUpload | src/index.js:52-59 | the body `{"swagger":"2.0"}` with destination `my-bucket`/`api.json` is uploaded exactly once, with exactly those values |
| ExportWorkflow.Step | src/index.js:13-74 | reference machine for `MachineMatchesExportApi`. Its contract is about the machine's shape, not a promise of the source: a transition keeps the phase consistent with the responses, never goes back, and issues at most one entry |
| ExportWorkflow.Run | src/index.js:13-74 | reference machine for `MachineMatchesExportApi`. Its contract bounds the length of a run by the steps left; this is about the machine's termination, not a promise of the source |
| ExportWorkflow.MachineMatchesExportApi | src/index.js:13-74 | the nested callbacks and the forward-only machine issue the same requests and log lines in the same order |

## Left out

- The `ExportSwagger` class and its `after:deploy:deploy` hook (src/index.js:80-90). This is host wiring with no logic.
- The remote calls themselves (CloudFormation, API Gateway, S3) are not modelled. Their results are inputs, one per call. For `describeStacks` and `getExport`, None stands for a falsy result or a rejected promise: in both cases the code issues no further request or log line. The two differ in that a rejection is left unhandled and reported by the runtime; the trace does not represent that report. For `putObject`, the input says whether the promise was fulfilled with a truthy result, fulfilled with a falsy one, or rejected.
- Promise chaining is not modelled. The trace records the order in which the callbacks issue their requests. Neither `exportApi` nor the hook returns the promise chain (src/index.js:13-75, 85-87), so the hook finishes as soon as `describeStacks` is sent and the host never waits for the rest. The trace assumes the process stays alive until the chain ends.
- JavaScript TypeErrors are not modelled. `ExportWorkflow.Runnable` is the precondition that rules out the ones the datatypes can express. It requires `result.Stacks[0]` to exist when the description is truthy. It requires `custom`, and any `swaggerDestinations` entry, to be an object when the export is truthy, because `in` throws on anything else.
- Other TypeErrors are ruled out by the datatypes themselves, among them these four. A truthy `describeStacks` result always has a list of stacks, so a result without `Stacks` (src/index.js:23) is not modelled. A `Stack` always has a list of outputs, so a stack without `Outputs`, on which `forEach` throws (src/index.js:24), is not modelled. Every element of the outputs is an `Output` record, so a `null` or `undefined` element, on which `output.OutputKey` throws (src/index.js:25), is not modelled. An `OutputValue` is always a string, so a non-string value, on which `.split` throws (src/index.js:26), is not modelled.
- Each of these TypeErrors is raised inside a `.then` callback. With no rejection handler it becomes an unhandled rejection, which the runtime reports (as a warning, or by ending the process, depending on the Node version and the host). That outcome is not modelled.
- The `in` operator also finds inherited properties. The model looks only at own keys. None of the three keys tested exists on `Object.prototype`.
- The source calls `getStage()` and `getRegion()` several times. The model reads each once per run, from `Context`.
- CLI logging is kept only as the message string that is logged.
- JavaScript numbers are modelled as integers. The workflow only forwards values, and never computes with them.
- `split` with an empty separator is not modelled. The source splits only on `"."` and `"//"`.
- Fields of the responses other than `Stacks[0].Outputs` and `body` are not modelled, because the code never reads them.
