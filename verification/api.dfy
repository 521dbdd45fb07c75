/**
 * The Kubernetes admission API values the webhook reads and writes
 * (`admission/v1.AdmissionReview` and its parts, `metav1.Status`), reduced to
 * the fields the admission handler touches, and the structured errors it
 * reports.
 */
module Api {
  import opened Wrappers

  /** Raw serialized bytes (a request body, or a resource's `Object.Raw`). */
  type Bytes = seq<bv8>

  /** `schema.GroupVersionResource`: the identity of a resource type. */
  datatype GroupVersionResource = GroupVersionResource(group: string, version: string, resource: string)

  /**
   * An error as a causal chain instead of rendered text.
   * `Base` is an error produced by a collaborator the model does not look into,
   * `Wrap` is `errors.Wrap(cause, context)`, and `ResourceMismatch` is the
   * "expected resource to be X, but received Y" error of the validators.
   */
  datatype Error =
    | Base(msg: string)
    | Wrap(context: string, cause: Error)
    | ResourceMismatch(expected: GroupVersionResource, received: GroupVersionResource)

  /** The value of `metav1.StatusFailure`. */
  const StatusFailure: string := "Failure"

  /** `metav1.Status`: the status marker and the error the message describes. */
  datatype Status = Status(status: string, message: Error)

  /** `AdmissionResponse`. */
  datatype Response = Response(uid: string, allowed: bool, result: Option<Status>)

  /** `AdmissionRequest`: the correlation UID, the resource identity and the raw object. */
  datatype Request = Request(uid: string, resource: GroupVersionResource, raw: Bytes)

  /** `AdmissionReview`: the envelope, holding a request (incoming) or a response (outgoing). */
  datatype Review = Review(apiVersion: string, kind: string, request: Option<Request>, response: Option<Response>)

  /** The Go zero value `v1.AdmissionReview{}`. */
  const ZeroReview: Review := Review("", "", None, None)
}
