# Admission webhook and log-level selection of the monitoring operator

This project models two pieces of the operator in Dafny.

The first is the Kubernetes admission webhook in `pkg/operator/admission.go`.
- `serveAdmission` reads a request body, decodes it into an `AdmissionReview`, and runs the bound admit function.
- Any failure at any of those three steps becomes a denial, through `toAdmissionResponse`.
- When the decoded envelope holds a request, its API version, kind and UID are echoed into the outgoing envelope.
- `admitPodMonitoring` checks, in this order and failing fast: the resource identity, that the payload unmarshals to a PodMonitoring, and the pod label mappings.
- `admitServiceMonitoring` does the same for a ServiceMonitoring and then also checks the service label mappings.

The second is the level decision of `setupLogger` in `cmd/operator/main.go`.
- It accepts exactly the four names of `validLogLevels`.
- It rejects anything else with an error that quotes the input and lists the accepted names.
- `unstableFlagHelp` appends a fixed warning to a flag's help text.

Modules:
- `Wrappers` (`wrappers.dfy`): `Option`, `Result`, `Outcome`.
- `Api` (`api.dfy`): the admission API values, and errors as a structured chain: `Base`, `Wrap(context, cause)` for `errors.Wrap`, and `ResourceMismatch(expected, received)`.
- `Admission` (`admission.dfy`): the pipeline and the validators.
- `AdmissionLemmas` (`admission_lemmas.dfy`): the ordering, mapping and echo properties.
- `Strings` (`strings.dfy`): `strings.Join`, and a `Contains` predicate used to state that the listing of accepted levels names every level.
- `Logging` (`logging.dfy`): the log levels and `unstableFlagHelp`.

Go panics are part of the model. A panic is the outcome `Exec.Panics`; it is not a precondition.
- A validator dereferences `ar.Request`, so it panics exactly when the envelope holds no request.
- `serveAdmission` writes the UID through `resp.Response`. It panics when an admit function returns neither a response nor an error and leaves an envelope that holds a request.
- An arbitrary admit function may also panic for reasons of its own; `Exec.Panics` covers those too.
- `ServeValidatorPanics` shows that, with either real validator bound, the handler panics only for a decoded envelope without a request.

Collaborators the handler cannot show are parameters:
- The result of reading the body is an input `Result<Bytes, Error>`.
- The universal deserializer is a `Decoder`. It returns what it wrote into the envelope together with the error it reported.
- An admit function receives a pointer to the request envelope, and the echo reads the envelope after admit returns. So an admit function returns the envelope as it left it along with its `(response, error)` pair. Both validators only read the envelope (`ReadOnlyAdmit`), and for them the echo uses the decoded envelope (`ServeReadOnlyAdmitEcho`).
- `json.Unmarshal`, `labelMappingRelabelConfigs` and the expected resource identities (`v1alpha1.PodMonitoringResource()`, `v1alpha1.ServiceMonitoringResource()`) are fields of an `Env`.

The echo rule follows the test the code performs, not its comment. The comment at `pkg/operator/admission.go:61-62` says the identity is echoed "as long as incoming request data was decoded properly". Line 63 only tests `req.Request != nil`, and the decoder writes into `req` in place. So after a decode error, the UID is still echoed whenever the decoder had already filled in a request. `ServeAdmission`'s contract states the rule as line 63 implements it.

## Model

| member | source | states |
|---|---|---|
| Admission.ToAdmissionResponse | pkg/operator/admission.go:118-126 | the result is a failure denial (not allowed, status `Failure`) whose message is exactly the given error, with no UID |
| Admission.Echo | pkg/operator/admission.go:61-67 | with a request present, the outgoing envelope carries the request's API version and kind, and the response with its UID replaced by the request UID; with no response it panics; with no request the response passes through and the identity stays empty |
| Admission.ServeAdmission | pkg/operator/admission.go:47-67 | whenever the handler returns and the request envelope, as the read, decode and admit steps left it, holds a request, the outgoing envelope echoes its API version and kind and has a response carrying its UID, for allow and deny alike; otherwise the identity is left empty; the outgoing envelope never carries a request |
| Admission.AdmitPodMonitoring | pkg/operator/admission.go:80-94 | panics iff there is no request; returns either a response or an error, never both; every error is the resource mismatch or is wrapped with the unmarshal or label-mapping context; allows iff the resource matches, the payload unmarshals and the pod mappings pass |
| Admission.AdmitServiceMonitoring | pkg/operator/admission.go:98-114 | panics iff there is no request; returns either a response or an error; every error is the mismatch or wrapped with one of the three contexts; allows iff the resource matches, the payload unmarshals, and both the pod and the service mappings pass |
| AdmissionLemmas.ServeReadFailure | pkg/operator/admission.go:49-51 | an unreadable body yields exactly the denial of the read error with no echoed identity, whatever the decoder and admit function are |
| AdmissionLemmas.ServeDecodeFailure | pkg/operator/admission.go:52-54 | a decode error yields a response denying with that error, and the admit function has no influence on the outcome |
| AdmissionLemmas.ServeAdmitFailure | pkg/operator/admission.go:55-57 | an error from admit yields a response denying with that error, even if admit also returned a response |
| AdmissionLemmas.ServeAdmitSuccess | pkg/operator/admission.go:58-67 | a successful admit's response is returned unchanged except for the echoed UID, together with the echoed API version and kind, all taken from the envelope as admit left it |
| AdmissionLemmas.ServePanics | pkg/operator/admission.go:55-67 | the handler panics iff body and decode succeed and admit panics, or admit returns neither response nor error and leaves an envelope that holds a request |
| AdmissionLemmas.ServeWellFormedAdmit | pkg/operator/admission.go:55-66 | with an admit function that always returns a response or an error, the handler panics only when admit does, and every answer carries a response |
| AdmissionLemmas.ServeReadOnlyAdmitEcho | pkg/operator/admission.go:61-67 | with an admit function that only reads the envelope, the echoed API version, kind and UID are those of the decoded envelope, for allow and deny alike, and are empty when it holds no request |
| AdmissionLemmas.PodMonitoringMismatch | pkg/operator/admission.go:83-84 | a request for another resource fails with the mismatch naming the expected and received identities, and replacing the unmarshaller or the mapping check changes nothing (they are never consulted) |
| AdmissionLemmas.PodMonitoringUnmarshalFailure | pkg/operator/admission.go:86-87 | an unmarshal failure is reported wrapped with "unmarshalling admission request to podmonitoring", and the mapping check is never consulted |
| AdmissionLemmas.PodMonitoringMappingFailure | pkg/operator/admission.go:89-90 | a failing pod mapping check is reported wrapped with "checking label mappings" |
| AdmissionLemmas.ServiceMonitoringMismatch | pkg/operator/admission.go:101-102 | a request for another resource fails with the mismatch naming both identities, before unmarshalling or checking anything |
| AdmissionLemmas.ServiceMonitoringUnmarshalFailure | pkg/operator/admission.go:104-105 | an unmarshal failure is reported wrapped with "unmarshalling admission request to servicemonitoring", and no mapping is checked |
| AdmissionLemmas.ServiceMonitoringPodMappingFailure | pkg/operator/admission.go:107-108 | a pod mapping failure is reported wrapped with "checking pod label mappings" and short-circuits the service check: any checker agreeing on the pod mappings gives the same verdict |
| AdmissionLemmas.ServiceMonitoringServiceMappingFailure | pkg/operator/admission.go:109-110 | a service mapping failure is reported wrapped with "checking service label mappings" even though the pod mappings pass |
| AdmissionLemmas.ServeValidatorPanics | pkg/operator/admission.go:80-101 | with either validator bound, the handler panics iff the body is read and decoded without error into an envelope with no request |
| AdmissionLemmas.ServePodMonitoringMismatch | pkg/operator/admission.go:55-84 | the PodMonitoring route answers a request for another resource with the mismatch denial, echoing the envelope identity and the request UID |
| AdmissionLemmas.ServePodMonitoringAllowed | pkg/operator/admission.go:55-93 | the PodMonitoring route answers an accepted request with `allowed`, no status, the request UID and the echoed identity |
| Strings.Join | cmd/operator/main.go:172 | joining no elements gives the empty text, and a join starts with its first element |
| Strings.JoinContainsEach | cmd/operator/main.go:172 | every element of a joined list occurs in the joined text |
| Logging.SetupLogger | cmd/operator/main.go:162-173 | a level string is accepted iff it is one of `validLogLevels`, selects the threshold of that name, and otherwise fails with an error carrying the input and the `", "`-joined listing of `validLogLevels` |
| Logging.SetupLoggerNames | cmd/operator/main.go:162-170 | each threshold is selected by its own name and by no other string |
| Logging.ValidLogLevelsInRankOrder | cmd/operator/main.go:32-46 | `validLogLevels` has four entries listing each threshold's name at the threshold's rank; distinct thresholds have distinct names and ranks |
| Logging.ThresholdsNarrow | cmd/operator/main.go:163-170 | the thresholds are ordered debug < info < warn < error, and a higher threshold lets through strictly fewer entry levels |
| Logging.DefaultLogLevelAccepted | cmd/operator/main.go:59 | the default `--log-level`, "info", is accepted and selects the info threshold |
| Logging.AcceptedListing | cmd/operator/main.go:40-47 | the accepted values joined with ", " read "debug, info, warn, error" |
| Logging.UnknownLevelListsAccepted | cmd/operator/main.go:171-172 | any other string is rejected with a listing that reads "debug, info, warn, error" and contains every accepted value |
| Logging.UnstableFlagHelp | cmd/operator/main.go:28-30 | the result is strictly longer than the help text, starts with it, and ends with exactly the fixed warning |
| Logging.UnstableFlagHelpRoundTrip | cmd/operator/main.go:28-30 | stripping the warning recovers the help text, and stripping succeeds only on texts that decorating produces |
| Logging.UnstableFlagHelpInjective | cmd/operator/main.go:28-30 | distinct help texts remain distinct after decoration |

## Left out

- The `run.Group` orchestration of the signal watcher, the admission server and the operator loop (`cmd/operator/main.go:104-156`): its point is concurrency, and its semantics live in a library that is not part of this model.
- Flag parsing, kubeconfig building, `operator.New` and process exit codes (`cmd/operator/main.go:49-102`): command-line and I/O wiring.
- The logger construction in `setupLogger` (go-kit logfmt writer, timestamp and caller decorators, klog `SetLogger` and `ClampLevel`): foreign library calls. A logger is represented by the threshold of its level filter.
- Logging.ThresholdsNarrow: the rank order of go-kit's `AllowDebug` … `AllowError` filters is taken from that library's documented behaviour, which is not part of this model.
- Logging.SetupLogger: the error's rendering with Go's `%q` quoting is not modelled; the error keeps the input and the listing as separate fields.
- The HTTP side of `serveAdmission`: the body read is an input value, and the debug and error log entries, `json.Marshal` and `w.Write` (`pkg/operator/admission.go:41-45, 69-74`) are left out as I/O. The model stops at the envelope the handler would serialize.
- The internals of the universal deserializer, `json.Unmarshal`, `labelMappingRelabelConfigs` and `v1alpha1.*Resource()`: they are not part of this model and appear as parameters.
- The relabel configurations that `labelMappingRelabelConfigs` produces: the validators discard them, so the checker's result is modelled as an `Outcome` (pass or error).
- The values of `podLabelPrefix` and `serviceLabelPrefix`: they are not part of this model, so the prefix is an enumeration `LabelPrefix`.
- The text of errors (`%v` of a resource identity, `errors.Wrap` concatenation, `err.Error()`): errors are a structured chain, and a denial's message holds the error value.
- The fields of `PodMonitoring`, `ServiceMonitoring`, `AdmissionRequest` and `AdmissionReview` that the handler never reads.
