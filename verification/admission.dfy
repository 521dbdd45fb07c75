/**
 * The admission webhook of the operator: the generic request pipeline
 * (`serveAdmission`), the error-to-denial mapping (`toAdmissionResponse`) and
 * the two resource validators (`admitPodMonitoring`, `admitServiceMonitoring`).
 *
 * Everything the handler cannot show is a parameter: the body read is an input
 * `Result`, the universal deserializer is a `Decoder`, and `json.Unmarshal`,
 * `labelMappingRelabelConfigs` and the expected resource identities are fields
 * of an `Env`.
 */
module Admission {
  import opened Wrappers
  import opened Api

  /**
   * A Go evaluation that either returns or panics. The panics of the handler
   * and of the validators are nil-pointer dereferences; an arbitrary admit
   * function may panic for any reason.
   */
  datatype Exec<+T> = Returns(value: T) | Panics

  /** The `(*AdmissionResponse, error)` pair an admit function returns. */
  datatype AdmitReturn = AdmitReturn(response: Option<Response>, err: Option<Error>)

  /**
   * What the decoder left in the request envelope it decoded into, with the
   * error it reported. The decoder fills the envelope in place, so `into` is
   * whatever it had written when it stopped.
   */
  datatype Decoded = Decoded(into: Review, err: Option<Error>)

  type Decoder = Bytes -> Decoded

  /**
   * What an admit function returns, together with the request envelope as it
   * left it: admit receives a pointer to the envelope, and the echo reads the
   * envelope after admit is done.
   */
  datatype Admitted = Admitted(review: Review, ret: AdmitReturn)

  /** `admitFn`. */
  type AdmitFn = Review -> Exec<Admitted>

  /** The admit function that decides by `verdict` and leaves the envelope as it was, as both validators do. */
  function ReadOnlyAdmit(verdict: Review -> Exec<AdmitReturn>): AdmitFn {
    ar => match verdict(ar)
          case Panics => Panics
          case Returns(ret) => Returns(Admitted(ar, ret))
  }

  /** A denial of an admit function: `(nil, err)`. */
  function Deny(err: Error): AdmitReturn {
    AdmitReturn(None, Some(err))
  }

  /** The success of a validator: `(&AdmissionResponse{Allowed: true}, nil)`. */
  const Allow: AdmitReturn := AdmitReturn(Some(Response("", true, None)), None)

  /** The pair is either a response or an error, never both and never neither. */
  predicate WellFormed(ret: AdmitReturn) {
    ret.response.Some? != ret.err.Some?
  }

  /** The error a response denies with, if it is a failure denial. */
  function DeniedWith(r: Response): Option<Error> {
    if !r.allowed && r.result.Some? && r.result.value.status == StatusFailure
    then Some(r.result.value.message)
    else None
  }

  // ---------------------------------------------------------------------------
  // toAdmissionResponse
  // ---------------------------------------------------------------------------

  /** The denial every failure of the pipeline is reported as. */
  function ToAdmissionResponse(err: Error): (r: Response)
    ensures DeniedWith(r) == Some(err)
    ensures r.uid == ""
  {
    Response("", false, Some(Status(StatusFailure, err)))
  }

  // ---------------------------------------------------------------------------
  // serveAdmission
  // ---------------------------------------------------------------------------

  /**
   * The request envelope `req` once reading and decoding are over: still the
   * zero value when the body could not be read, otherwise what the decoder
   * wrote into it (whether or not it reported an error). An admit function
   * that only reads the envelope leaves it so.
   */
  function DecodedReview(body: Result<Bytes, Error>, decode: Decoder): Review {
    match body
    case Failure(_) => ZeroReview
    case Success(data) => decode(data).into
  }

  /**
   * The request envelope `req` and `resp.Response` once the read, decode and
   * admit chain is over, before the echo. `req` is what reading and decoding
   * left when one of them failed, and what admit left otherwise.
   */
  function Handle(body: Result<Bytes, Error>, decode: Decoder, admit: AdmitFn): Exec<(Review, Option<Response>)> {
    match body
    case Failure(readErr) => Returns((ZeroReview, Some(ToAdmissionResponse(readErr))))
    case Success(data) =>
      var decoded := decode(data);
      if decoded.err.Some? then Returns((decoded.into, Some(ToAdmissionResponse(decoded.err.value))))
      else
        match admit(decoded.into)
        case Panics => Panics
        case Returns(Admitted(req, ret)) =>
          if ret.err.Some? then Returns((req, Some(ToAdmissionResponse(ret.err.value))))
          else Returns((req, ret.response))
  }

  /**
   * The echo of the request identity: when the envelope holds a request, its
   * API version, kind and UID are copied into the outgoing envelope. Writing
   * the UID dereferences the response, so a missing response panics there.
   */
  function Echo(req: Review, response: Option<Response>): (r: Exec<Review>)
    ensures r.Panics? <==> req.request.Some? && response.None?
    ensures r.Returns? ==> r.value.request.None?
    ensures r.Returns? && req.request.Some? ==>
      && r.value.apiVersion == req.apiVersion
      && r.value.kind == req.kind
      && r.value.response.Some?
      && r.value.response.value == response.value.(uid := req.request.value.uid)
    ensures r.Returns? && req.request.None? ==>
      r.value == Review("", "", None, response)
  {
    match req.request
    case None => Returns(Review("", "", None, response))
    case Some(request) =>
      match response
      case None => Panics
      case Some(resp) => Returns(Review(req.apiVersion, req.kind, None, Some(resp.(uid := request.uid))))
  }

  /**
   * The admission HTTP handler for one request, up to the envelope it would
   * serialize: read, decode and admit, any failure mapped to a denial, then
   * the identity echo.
   */
  function ServeAdmission(body: Result<Bytes, Error>, decode: Decoder, admit: AdmitFn): (r: Exec<Review>)
    ensures r.Returns? ==> Handle(body, decode, admit).Returns? && r.value.request.None?
    ensures r.Returns? && Handle(body, decode, admit).Returns? && Handle(body, decode, admit).value.0.request.Some? ==>
      var req := Handle(body, decode, admit).value.0;
      && r.value.apiVersion == req.apiVersion
      && r.value.kind == req.kind
      && r.value.response.Some?
      && r.value.response.value.uid == req.request.value.uid
    ensures r.Returns? && Handle(body, decode, admit).Returns? && Handle(body, decode, admit).value.0.request.None? ==>
      r.value.apiVersion == "" && r.value.kind == ""
  {
    match Handle(body, decode, admit)
    case Panics => Panics
    case Returns((req, response)) => Echo(req, response)
  }

  // ---------------------------------------------------------------------------
  // Validators
  // ---------------------------------------------------------------------------

  /** One entry of `TargetLabels.FromPod` / `FromService`: a source label and an optional new name. */
  datatype LabelMapping = LabelMapping(from: string, to: string)

  /** The part of a `PodMonitoring` the validator inspects. */
  datatype PodMonitoring = PodMonitoring(fromPod: seq<LabelMapping>)

  /** The part of a `ServiceMonitoring` the validator inspects. */
  datatype ServiceMonitoring = ServiceMonitoring(fromPod: seq<LabelMapping>, fromService: seq<LabelMapping>)

  /** Which source label namespace a mapping list draws from (`podLabelPrefix`, `serviceLabelPrefix`). */
  datatype LabelPrefix = PodLabelPrefix | ServiceLabelPrefix

  /** The collaborators of the validators that are not part of this model. */
  datatype Env = Env(
    podMonitoringResource: GroupVersionResource,
    serviceMonitoringResource: GroupVersionResource,
    unmarshalPodMonitoring: Bytes -> Result<PodMonitoring, Error>,
    unmarshalServiceMonitoring: Bytes -> Result<ServiceMonitoring, Error>,
    labelMappingRelabelConfigs: (seq<LabelMapping>, LabelPrefix) -> Outcome<Error>)

  const UnmarshalPodContext: string := "unmarshalling admission request to podmonitoring"
  const UnmarshalServiceContext: string := "unmarshalling admission request to servicemonitoring"
  const PodMappingsContext: string := "checking label mappings"
  const ServicePodMappingsContext: string := "checking pod label mappings"
  const ServiceMappingsContext: string := "checking service label mappings"

  /** Validates a PodMonitoring admission: resource identity, then payload, then pod label mappings. */
  function AdmitPodMonitoring(env: Env, ar: Review): (r: Exec<AdmitReturn>)
    ensures r.Panics? <==> ar.request.None?
    ensures r.Returns? ==> WellFormed(r.value)
    ensures r.Returns? && r.value.err.Some? ==>
      || r.value.err.value == ResourceMismatch(env.podMonitoringResource, ar.request.value.resource)
      || (r.value.err.value.Wrap? && r.value.err.value.context in {UnmarshalPodContext, PodMappingsContext})
    ensures r == Returns(Allow) <==>
      && ar.request.Some?
      && ar.request.value.resource == env.podMonitoringResource
      && env.unmarshalPodMonitoring(ar.request.value.raw).Success?
      && env.labelMappingRelabelConfigs(env.unmarshalPodMonitoring(ar.request.value.raw).value.fromPod, PodLabelPrefix).Pass?
  {
    match ar.request
    case None => Panics
    case Some(req) =>
      if req.resource != env.podMonitoringResource then
        Returns(Deny(ResourceMismatch(env.podMonitoringResource, req.resource)))
      else
        match env.unmarshalPodMonitoring(req.raw)
        case Failure(err) => Returns(Deny(Wrap(UnmarshalPodContext, err)))
        case Success(pm) =>
          match env.labelMappingRelabelConfigs(pm.fromPod, PodLabelPrefix)
          case Fail(err) => Returns(Deny(Wrap(PodMappingsContext, err)))
          case Pass => Returns(Allow)
  }

  /**
   * Validates a ServiceMonitoring admission: resource identity, then payload,
   * then pod label mappings, then service label mappings.
   */
  function AdmitServiceMonitoring(env: Env, ar: Review): (r: Exec<AdmitReturn>)
    ensures r.Panics? <==> ar.request.None?
    ensures r.Returns? ==> WellFormed(r.value)
    ensures r.Returns? && r.value.err.Some? ==>
      || r.value.err.value == ResourceMismatch(env.serviceMonitoringResource, ar.request.value.resource)
      || (r.value.err.value.Wrap? && r.value.err.value.context in {UnmarshalServiceContext, ServicePodMappingsContext, ServiceMappingsContext})
    ensures r == Returns(Allow) <==>
      && ar.request.Some?
      && ar.request.value.resource == env.serviceMonitoringResource
      && env.unmarshalServiceMonitoring(ar.request.value.raw).Success?
      && var sm := env.unmarshalServiceMonitoring(ar.request.value.raw).value;
      && env.labelMappingRelabelConfigs(sm.fromPod, PodLabelPrefix).Pass?
      && env.labelMappingRelabelConfigs(sm.fromService, ServiceLabelPrefix).Pass?
  {
    match ar.request
    case None => Panics
    case Some(req) =>
      if req.resource != env.serviceMonitoringResource then
        Returns(Deny(ResourceMismatch(env.serviceMonitoringResource, req.resource)))
      else
        match env.unmarshalServiceMonitoring(req.raw)
        case Failure(err) => Returns(Deny(Wrap(UnmarshalServiceContext, err)))
        case Success(sm) =>
          match env.labelMappingRelabelConfigs(sm.fromPod, PodLabelPrefix)
          case Fail(err) => Returns(Deny(Wrap(ServicePodMappingsContext, err)))
          case Pass =>
            match env.labelMappingRelabelConfigs(sm.fromService, ServiceLabelPrefix)
            case Fail(err) => Returns(Deny(Wrap(ServiceMappingsContext, err)))
            case Pass => Returns(Allow)
  }
}
