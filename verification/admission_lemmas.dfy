/**
 * Properties of the admission pipeline and validators: the short-circuit
 * order of each stage, the exact error-to-denial mapping, the identity echo,
 * and when the handler can panic.
 */
module AdmissionLemmas {
  import opened Wrappers
  import opened Api
  import opened Admission

  /** The pipeline bound to the PodMonitoring validator, as the webhook route registers it. */
  function PodMonitoringAdmit(env: Env): AdmitFn {
    ReadOnlyAdmit(ar => AdmitPodMonitoring(env, ar))
  }

  /** The pipeline bound to the ServiceMonitoring validator. */
  function ServiceMonitoringAdmit(env: Env): AdmitFn {
    ReadOnlyAdmit(ar => AdmitServiceMonitoring(env, ar))
  }

  // ---------------------------------------------------------------------------
  // serveAdmission
  // ---------------------------------------------------------------------------

  /**
   * An unreadable body is denied with the read error, nothing is echoed, and
   * neither the decoder nor the admit function has any influence.
   */
  lemma ServeReadFailure(body: Result<Bytes, Error>, decode: Decoder, admit: AdmitFn, decode': Decoder, admit': AdmitFn)
    requires body.Failure?
    ensures ServeAdmission(body, decode, admit) == Returns(Review("", "", None, Some(ToAdmissionResponse(body.error))))
    ensures ServeAdmission(body, decode, admit) == ServeAdmission(body, decode', admit')
  {
  }

  /**
   * A decode failure is denied with the decode error and the admit function
   * has no influence; the UID is echoed only if the decoder left a request in
   * the envelope.
   */
  lemma ServeDecodeFailure(data: Bytes, decode: Decoder, admit: AdmitFn, admit': AdmitFn)
    requires decode(data).err.Some?
    ensures var r := ServeAdmission(Success(data), decode, admit);
      && r.Returns?
      && r.value.response.Some?
      && DeniedWith(r.value.response.value) == decode(data).err
      && r == ServeAdmission(Success(data), decode, admit')
  {
  }

  /** An error from the admit function is denied with that error, whatever response came with it. */
  lemma ServeAdmitFailure(data: Bytes, decode: Decoder, admit: AdmitFn, err: Error)
    requires decode(data).err.None?
    requires admit(decode(data).into).Returns?
    requires admit(decode(data).into).value.ret.err == Some(err)
    ensures var r := ServeAdmission(Success(data), decode, admit);
      && r.Returns?
      && r.value.response.Some?
      && DeniedWith(r.value.response.value) == Some(err)
  {
  }

  /**
   * A successful admit is passed through unchanged, except that the request
   * UID replaces the response UID when the envelope, as admit left it,
   * holds a request.
   */
  lemma ServeAdmitSuccess(data: Bytes, decode: Decoder, admit: AdmitFn, req: Review, resp: Response)
    requires decode(data).err.None?
    requires admit(decode(data).into) == Returns(Admitted(req, AdmitReturn(Some(resp), None)))
    ensures
      ServeAdmission(Success(data), decode, admit) ==
        if req.request.Some?
        then Returns(Review(req.apiVersion, req.kind, None, Some(resp.(uid := req.request.value.uid))))
        else Returns(Review("", "", None, Some(resp)))
  {
  }

  /**
   * The handler panics exactly when the admit function panics, or when admit
   * returns neither a response nor an error and leaves an envelope holding a
   * request (the echo then writes the UID through a nil response).
   */
  lemma ServePanics(body: Result<Bytes, Error>, decode: Decoder, admit: AdmitFn)
    ensures ServeAdmission(body, decode, admit).Panics? <==>
      && body.Success?
      && decode(body.value).err.None?
      && var a := admit(decode(body.value).into);
      || a.Panics?
      || (a.value.ret.err.None? && a.value.ret.response.None? && a.value.review.request.Some?)
  {
  }

  /**
   * With an admit function whose returns are always well formed, the handler
   * panics only when admit itself does, and never answers without a response.
   */
  lemma ServeWellFormedAdmit(body: Result<Bytes, Error>, decode: Decoder, admit: AdmitFn)
    requires forall rv :: admit(rv).Returns? ==> WellFormed(admit(rv).value.ret)
    ensures ServeAdmission(body, decode, admit).Panics? <==>
      body.Success? && decode(body.value).err.None? && admit(decode(body.value).into).Panics?
    ensures ServeAdmission(body, decode, admit).Returns? ==>
      ServeAdmission(body, decode, admit).value.response.Some?
  {
    ServePanics(body, decode, admit);
  }

  /**
   * With an admit function that only reads the envelope, the echoed identity
   * is the one the decoder produced: API version, kind and request UID of the
   * decoded envelope, for allow and deny alike.
   */
  lemma ServeReadOnlyAdmitEcho(body: Result<Bytes, Error>, decode: Decoder, verdict: Review -> Exec<AdmitReturn>)
    ensures var r := ServeAdmission(body, decode, ReadOnlyAdmit(verdict));
      var req := DecodedReview(body, decode);
      r.Returns? ==>
        if req.request.Some? then
          && r.value.apiVersion == req.apiVersion
          && r.value.kind == req.kind
          && r.value.response.Some?
          && r.value.response.value.uid == req.request.value.uid
        else r.value.apiVersion == "" && r.value.kind == ""
  {
  }

  // ---------------------------------------------------------------------------
  // admitPodMonitoring
  // ---------------------------------------------------------------------------

  /**
   * A request for another resource is rejected naming both identities, before
   * the payload is unmarshalled or any mapping checked: replacing those
   * collaborators changes nothing.
   */
  lemma PodMonitoringMismatch(env: Env, ar: Review,
                              unmarshal: Bytes -> Result<PodMonitoring, Error>,
                              check: (seq<LabelMapping>, LabelPrefix) -> Outcome<Error>)
    requires ar.request.Some? && ar.request.value.resource != env.podMonitoringResource
    ensures AdmitPodMonitoring(env, ar) ==
      Returns(Deny(ResourceMismatch(env.podMonitoringResource, ar.request.value.resource)))
    ensures AdmitPodMonitoring(env.(unmarshalPodMonitoring := unmarshal, labelMappingRelabelConfigs := check), ar) ==
      AdmitPodMonitoring(env, ar)
  {
  }

  /** A payload that does not unmarshal is rejected with the unmarshal error, wrapped; no mapping is checked. */
  lemma PodMonitoringUnmarshalFailure(env: Env, ar: Review, check: (seq<LabelMapping>, LabelPrefix) -> Outcome<Error>)
    requires ar.request.Some? && ar.request.value.resource == env.podMonitoringResource
    requires env.unmarshalPodMonitoring(ar.request.value.raw).Failure?
    ensures AdmitPodMonitoring(env, ar) ==
      Returns(Deny(Wrap(UnmarshalPodContext, env.unmarshalPodMonitoring(ar.request.value.raw).error)))
    ensures AdmitPodMonitoring(env.(labelMappingRelabelConfigs := check), ar) == AdmitPodMonitoring(env, ar)
  {
  }

  /** Invalid pod label mappings are rejected with the mapping error, wrapped. */
  lemma PodMonitoringMappingFailure(env: Env, ar: Review, pm: PodMonitoring, err: Error)
    requires ar.request.Some? && ar.request.value.resource == env.podMonitoringResource
    requires env.unmarshalPodMonitoring(ar.request.value.raw) == Success(pm)
    requires env.labelMappingRelabelConfigs(pm.fromPod, PodLabelPrefix) == Fail(err)
    ensures AdmitPodMonitoring(env, ar) == Returns(Deny(Wrap(PodMappingsContext, err)))
  {
  }

  // ---------------------------------------------------------------------------
  // admitServiceMonitoring
  // ---------------------------------------------------------------------------

  /** A request for another resource is rejected naming both identities, before anything else runs. */
  lemma ServiceMonitoringMismatch(env: Env, ar: Review,
                                  unmarshal: Bytes -> Result<ServiceMonitoring, Error>,
                                  check: (seq<LabelMapping>, LabelPrefix) -> Outcome<Error>)
    requires ar.request.Some? && ar.request.value.resource != env.serviceMonitoringResource
    ensures AdmitServiceMonitoring(env, ar) ==
      Returns(Deny(ResourceMismatch(env.serviceMonitoringResource, ar.request.value.resource)))
    ensures AdmitServiceMonitoring(env.(unmarshalServiceMonitoring := unmarshal, labelMappingRelabelConfigs := check), ar) ==
      AdmitServiceMonitoring(env, ar)
  {
  }

  /** A payload that does not unmarshal is rejected with the unmarshal error, wrapped; no mapping is checked. */
  lemma ServiceMonitoringUnmarshalFailure(env: Env, ar: Review, check: (seq<LabelMapping>, LabelPrefix) -> Outcome<Error>)
    requires ar.request.Some? && ar.request.value.resource == env.serviceMonitoringResource
    requires env.unmarshalServiceMonitoring(ar.request.value.raw).Failure?
    ensures AdmitServiceMonitoring(env, ar) ==
      Returns(Deny(Wrap(UnmarshalServiceContext, env.unmarshalServiceMonitoring(ar.request.value.raw).error)))
    ensures AdmitServiceMonitoring(env.(labelMappingRelabelConfigs := check), ar) == AdmitServiceMonitoring(env, ar)
  {
  }

  /**
   * Invalid pod label mappings are rejected with the pod-mapping error and
   * the service mappings are never checked: a checker that agrees on the pod
   * mappings gives the same verdict whatever it says about the service ones.
   */
  lemma ServiceMonitoringPodMappingFailure(env: Env, ar: Review, sm: ServiceMonitoring, err: Error,
                                           check: (seq<LabelMapping>, LabelPrefix) -> Outcome<Error>)
    requires ar.request.Some? && ar.request.value.resource == env.serviceMonitoringResource
    requires env.unmarshalServiceMonitoring(ar.request.value.raw) == Success(sm)
    requires env.labelMappingRelabelConfigs(sm.fromPod, PodLabelPrefix) == Fail(err)
    requires check(sm.fromPod, PodLabelPrefix) == Fail(err)
    ensures AdmitServiceMonitoring(env, ar) == Returns(Deny(Wrap(ServicePodMappingsContext, err)))
    ensures AdmitServiceMonitoring(env.(labelMappingRelabelConfigs := check), ar) == AdmitServiceMonitoring(env, ar)
  {
  }

  /** Invalid service label mappings are rejected even though the pod mappings pass. */
  lemma ServiceMonitoringServiceMappingFailure(env: Env, ar: Review, sm: ServiceMonitoring, err: Error)
    requires ar.request.Some? && ar.request.value.resource == env.serviceMonitoringResource
    requires env.unmarshalServiceMonitoring(ar.request.value.raw) == Success(sm)
    requires env.labelMappingRelabelConfigs(sm.fromPod, PodLabelPrefix).Pass?
    requires env.labelMappingRelabelConfigs(sm.fromService, ServiceLabelPrefix) == Fail(err)
    ensures AdmitServiceMonitoring(env, ar) == Returns(Deny(Wrap(ServiceMappingsContext, err)))
  {
  }

  // ---------------------------------------------------------------------------
  // The webhook routes end to end
  // ---------------------------------------------------------------------------

  /**
   * Bound to either validator, the handler panics exactly when a decoded
   * envelope holds no request (the validator dereferences it).
   */
  lemma ServeValidatorPanics(body: Result<Bytes, Error>, decode: Decoder, env: Env)
    ensures ServeAdmission(body, decode, PodMonitoringAdmit(env)).Panics? <==>
      body.Success? && decode(body.value).err.None? && decode(body.value).into.request.None?
    ensures ServeAdmission(body, decode, ServiceMonitoringAdmit(env)).Panics? <==>
      body.Success? && decode(body.value).err.None? && decode(body.value).into.request.None?
  {
    ServeWellFormedAdmit(body, decode, PodMonitoringAdmit(env));
    ServeWellFormedAdmit(body, decode, ServiceMonitoringAdmit(env));
  }

  /**
   * A PodMonitoring route that receives a request for another resource
   * answers with the mismatch denial, echoing the envelope identity and UID.
   */
  lemma ServePodMonitoringMismatch(data: Bytes, decode: Decoder, env: Env)
    requires decode(data).err.None?
    requires decode(data).into.request.Some?
    requires decode(data).into.request.value.resource != env.podMonitoringResource
    ensures var req := decode(data).into;
      var request := req.request.value;
      ServeAdmission(Success(data), decode, PodMonitoringAdmit(env)) ==
        Returns(Review(req.apiVersion, req.kind, None,
          Some(ToAdmissionResponse(ResourceMismatch(env.podMonitoringResource, request.resource)).(uid := request.uid))))
  {
  }

  /** A PodMonitoring route that accepts a request answers `allowed` with the request UID and no status. */
  lemma ServePodMonitoringAllowed(data: Bytes, decode: Decoder, env: Env)
    requires decode(data).err.None?
    requires AdmitPodMonitoring(env, decode(data).into) == Returns(Allow)
    ensures var req := decode(data).into;
      ServeAdmission(Success(data), decode, PodMonitoringAdmit(env)) ==
        Returns(Review(req.apiVersion, req.kind, None, Some(Response(req.request.value.uid, true, None))))
  {
  }
}
