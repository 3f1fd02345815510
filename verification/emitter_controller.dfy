/**
 * The Emitter controller: a reconciler object that owns the deployment-tracking
 * table and talks to the cluster's two stores, which are held here as map-valued
 * fields. Reconcile follows the controller's steps one by one and ends in the state
 * and error that Reconciliation.Reconcile describes.
 */
module EmitterController {
  import opened EmitterTypes
  import opened ClusterStore
  import Reconciliation

  class EmitterReconciler {
    /** Emitter name to the name of the Deployment derived for it (CurrentEmitterDeployments). */
    var tracking: map<string, string>
    /** The cluster's Deployments. */
    var deployments: Store
    /** The cluster's Emitters. */
    var emitters: map<NamespacedName, EmitterSpec>

    function State(): Reconciliation.State
      reads this
    {
      Reconciliation.State(tracking, deployments, emitters)
    }

    ghost predicate Valid()
      reads this
    {
      Reconciliation.Valid(State())
    }

    /** SetupWithManager: the table starts empty; the stores are those of the cluster. */
    constructor (deployments: Store, emitters: map<NamespacedName, EmitterSpec>)
      requires Consistent(deployments)
      ensures Valid()
      ensures tracking == map[]
      ensures this.deployments == deployments && this.emitters == emitters
    {
      this.tracking := map[];
      this.deployments := deployments;
      this.emitters := emitters;
    }

    /**
     * Reconcile the Emitter `req`. `manifest` is what reading and decoding the
     * deployment manifest yields this time; `faults` are the errors the client
     * calls fail with, if any.
     */
    method Reconcile(req: NamespacedName, manifest: Manifest, faults: Faults) returns (err: Err)
      requires Valid()
      modifies this
      ensures Valid()
      ensures State() == Reconciliation.Reconcile(old(State()), req, manifest, faults).state
      ensures err == Reconciliation.Reconcile(old(State()), req, manifest, faults).err
      ensures err != NotFound
    {
      var got := Get(emitters, req, faults.getEmitter);
      if got.Found? {
        var emitter := got.obj;
        var deploymentName := Reconciliation.DeploymentName(emitter.pairName);
        tracking := tracking[req.name := deploymentName];
        if emitter.pairName == "" {
          return IgnoreNotFound(Nil);
        }

        var existing := Get(deployments, NamespacedName(req.namespace, deploymentName), faults.getDeployment);
        if existing.Failed? {
          var lastErr: Err := existing.err;
          if lastErr == NotFound {
            match manifest {
              case ReadFailed =>
                return IgnoreNotFound(lastErr);
              case DecodeFailed(decodeErr) =>
                lastErr := decodeErr;
                return IgnoreNotFound(lastErr);
              case Decoded(template) =>
                var deployment := Reconciliation.Paired(template, req.namespace, deploymentName);
                var written := Create(deployments, deployment, faults.create);
                deployments := written.store;
                lastErr := written.err;
                if lastErr != Nil {
                  return IgnoreNotFound(lastErr);
                }
            }
          }
          return IgnoreNotFound(lastErr);
        }
      } else {
        var tracked := Reconciliation.TrackedName(tracking, req.name);
        if tracked != "" {
          var found := Get(deployments, NamespacedName(req.namespace, tracked), faults.getDeployment);
          if found.Found? {
            var removed := Delete(deployments, KeyOf(found.obj), faults.delete);
            deployments := removed.store;
            if removed.err != Nil {
              return IgnoreNotFound(removed.err);
            }
          }
        }
        return IgnoreNotFound(got.err);
      }
      return Nil;
    }
  }

  /**
   * The reconciler driven through the scenario of an Emitter that is paired,
   * reconciled again, and deleted: one Deployment appears, the repeat changes
   * nothing, and the Deployment is gone after the Emitter is.
   */
  method PairLifecycleOnObject(template: Deployment) returns (created: bool, deleted: bool)
    ensures created && deleted
  {
    var e1 := NamespacedName("default", "e1");
    var foo := NamespacedName("default", "emitter-foo");
    Reconciliation.PairLifecycle(template);
    var r := new EmitterReconciler(map[], map[e1 := EmitterSpec(true, "foo")]);
    var err1 := r.Reconcile(e1, Decoded(template), NoFaults);
    created := r.deployments.Keys == {foo};
    var err2 := r.Reconcile(e1, Decoded(template), NoFaults);
    r.emitters := map[];
    var err3 := r.Reconcile(e1, Decoded(template), NoFaults);
    deleted := r.deployments == map[] && err1 == Nil && err2 == Nil && err3 == Nil;
  }
}
