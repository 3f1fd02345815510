/**
 * The values the Emitter reconciler works with: the Emitter's spec, the identity of a
 * cluster object, the paired Deployment, the error a client call returns, and the
 * abstract result of loading the deployment manifest.
 */
module EmitterTypes {

  /** The namespace and name that identify an object in the cluster. */
  datatype NamespacedName = NamespacedName(namespace: string, name: string)

  /**
   * The desired state of an Emitter. `createPair` is declared by the API but never
   * read by the reconciler; an empty `pairName` means no pairing is requested.
   */
  datatype EmitterSpec = EmitterSpec(createPair: bool, pairName: string)

  /**
   * A Deployment object: its identity, its annotations, and everything else it holds
   * (replicas, pod template, ...), which the reconciler carries over from the
   * manifest unchanged and which is kept opaque here.
   */
  datatype Deployment = Deployment(
    namespace: string,
    name: string,
    annotations: map<string, string>,
    body: string)

  /** The identity under which the cluster stores a Deployment. */
  function KeyOf(d: Deployment): NamespacedName
  {
    NamespacedName(d.namespace, d.name)
  }

  /**
   * The error a client call returns: `Nil` for success, `NotFound` for an API status
   * error with code 404, and `Other` for every other API status error.
   */
  datatype Err = Nil | NotFound | Other(reason: string)

  /** An error that is an actual failure. */
  type Failure = e: Err | e != Nil witness NotFound

  /** The error the API server returns when creating an object whose key is taken. */
  const AlreadyExists: Failure := Other("AlreadyExists")

  /**
   * controller-runtime's `client.IgnoreNotFound`: a 404 becomes success, every
   * other error (and success) passes through.
   */
  function IgnoreNotFound(e: Err): (r: Err)
    ensures r != NotFound
    ensures e == NotFound ==> r == Nil
    ensures e != NotFound ==> r == e
  {
    if e == NotFound then Nil else e
  }

  /**
   * Reading `manifests/emitter-deployment.yaml` and decoding it: the read fails, the
   * decoder fails with an error, or the decoder yields a template Deployment.
   */
  datatype Manifest = ReadFailed | DecodeFailed(err: Failure) | Decoded(template: Deployment)

  /**
   * Errors injected into the four client calls one reconcile can make; `Nil` lets
   * the call act on the store normally.
   */
  datatype Faults = Faults(getEmitter: Err, getDeployment: Err, create: Err, delete: Err)

  const NoFaults := Faults(Nil, Nil, Nil, Nil)
}
