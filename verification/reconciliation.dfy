/**
 * One reconcile of an Emitter, as a function of the reconciler's state: the
 * deployment-tracking table, the Deployment store and the Emitter store. The class
 * in EmitterController runs the same decision step by step and is proved to end in
 * the state and error this function gives; the lemmas below state what that
 * decision does for each combination of "Emitter present" and "Deployment present",
 * and what repeated reconciles do.
 */
module Reconciliation {
  import opened EmitterTypes
  import opened ClusterStore

  /** The prefix `fmt.Sprintf("emitter-%s", ...)` puts before the pair name. */
  const Prefix := "emitter-"

  /** The annotation that marks a Deployment as created by this controller. */
  const OwnershipAnnotations := map["generated" := "hello-operator"]

  /** The name of the Deployment paired with an Emitter whose pair name is `pairName`. */
  function DeploymentName(pairName: string): (name: string)
    ensures |name| == |Prefix| + |pairName|
    ensures name[..|Prefix|] == Prefix && name[|Prefix|..] == pairName
  {
    Prefix + pairName
  }

  /** A name of the form DeploymentName(p). */
  predicate IsDerivedName(name: string)
  {
    |Prefix| <= |name| && name[..|Prefix|] == Prefix
  }

  /** Distinct pair names give distinct Deployment names. */
  lemma DeploymentNameInjective(p: string, q: string)
    requires DeploymentName(p) == DeploymentName(q)
    ensures p == q
  {
  }

  /** Go's map index: the entry for `name`, or "" when there is none. */
  function TrackedName(tracking: map<string, string>, name: string): string
  {
    if name in tracking then tracking[name] else ""
  }

  /** The object the reconciler creates from the manifest's template. */
  function Paired(template: Deployment, namespace: string, name: string): (d: Deployment)
    ensures KeyOf(d) == NamespacedName(namespace, name)
    ensures d.annotations == OwnershipAnnotations
    ensures d.body == template.body
  {
    template.(namespace := namespace, name := name, annotations := OwnershipAnnotations)
  }

  /**
   * Everything one reconcile reads or changes: the reconciler's own tracking table
   * (Emitter name to Deployment name) and the two stores of the cluster.
   */
  datatype State = State(
    tracking: map<string, string>,
    deployments: Store,
    emitters: map<NamespacedName, EmitterSpec>)

  /** The state after a reconcile and the error it returned. */
  datatype Result = Result(state: State, err: Err)

  /**
   * The invariant of the reconciler and its cluster: Deployments are stored under
   * their own key, and every tracked name is a derived name (so never "").
   */
  ghost predicate Valid(s: State)
  {
    && Consistent(s.deployments)
    && forall n :: n in s.tracking ==> IsDerivedName(s.tracking[n])
  }

  /** The Get on the Emitter succeeded. */
  predicate EmitterFound(s: State, req: NamespacedName, faults: Faults)
  {
    faults.getEmitter == Nil && req in s.emitters
  }

  /** The key of the Deployment paired with Emitter `req` whose spec is `spec`. */
  function PairKey(req: NamespacedName, spec: EmitterSpec): NamespacedName
  {
    NamespacedName(req.namespace, DeploymentName(spec.pairName))
  }

  /**
   * One reconcile for the Emitter `req`, with the manifest as it reads and decodes
   * this time and the errors the client calls are given.
   */
  function Reconcile(s: State, req: NamespacedName, manifest: Manifest, faults: Faults): (r: Result)
    ensures r.err != NotFound
    ensures r.state.emitters == s.emitters
    ensures forall k :: k in s.deployments && k in r.state.deployments ==> r.state.deployments[k] == s.deployments[k]
  {
    match Get(s.emitters, req, faults.getEmitter)
    case Found(spec) =>
      var name := DeploymentName(spec.pairName);
      var recorded := s.(tracking := s.tracking[req.name := name]);
      if spec.pairName == "" then Result(recorded, Nil)
      else (
        match Get(s.deployments, NamespacedName(req.namespace, name), faults.getDeployment)
        case Found(_) => Result(recorded, Nil)
        case Failed(lookupErr) =>
          if lookupErr != NotFound then Result(recorded, IgnoreNotFound(lookupErr))
          else (
            match manifest
            case ReadFailed => Result(recorded, IgnoreNotFound(lookupErr))
            case DecodeFailed(decodeErr) => Result(recorded, IgnoreNotFound(decodeErr))
            case Decoded(template) =>
              var w := Create(s.deployments, Paired(template, req.namespace, name), faults.create);
              Result(recorded.(deployments := w.store), IgnoreNotFound(w.err))))
    case Failed(emitterErr) =>
      var tracked := TrackedName(s.tracking, req.name);
      if tracked == "" then Result(s, IgnoreNotFound(emitterErr))
      else (
        match Get(s.deployments, NamespacedName(req.namespace, tracked), faults.getDeployment)
        case Failed(_) => Result(s, IgnoreNotFound(emitterErr))
        case Found(d) =>
          var w := Delete(s.deployments, KeyOf(d), faults.delete);
          Result(s.(deployments := w.store), if w.err != Nil then IgnoreNotFound(w.err) else IgnoreNotFound(emitterErr)))
  }

  // ---------------------------------------------------------------------------
  // One reconcile, case by case

  /** The table gets `req.name` mapped to the derived name exactly when the Emitter is read; otherwise it is left alone. */
  lemma TrackingRecordsDerivedName(s: State, req: NamespacedName, manifest: Manifest, faults: Faults)
    ensures var r := Reconcile(s, req, manifest, faults);
      if EmitterFound(s, req, faults)
      then r.state.tracking == s.tracking[req.name := DeploymentName(s.emitters[req].pairName)]
      else r.state.tracking == s.tracking
  {
  }

  /** An Emitter with an empty pair name leads to no change of the store and no error. */
  lemma EmptyPairNameSkips(s: State, req: NamespacedName, manifest: Manifest, faults: Faults)
    requires EmitterFound(s, req, faults) && s.emitters[req].pairName == ""
    ensures var r := Reconcile(s, req, manifest, faults);
      r.state.deployments == s.deployments && r.err == Nil
  {
  }

  /** When the paired Deployment is already there, nothing is created or deleted and no error comes back. */
  lemma ExistingPairConverged(s: State, req: NamespacedName, manifest: Manifest, faults: Faults)
    requires EmitterFound(s, req, faults) && s.emitters[req].pairName != ""
    requires faults.getDeployment == Nil && PairKey(req, s.emitters[req]) in s.deployments
    ensures var r := Reconcile(s, req, manifest, faults);
      r.state.deployments == s.deployments && r.err == Nil
  {
  }

  /**
   * When the paired Deployment is missing (a 404) and the manifest decodes and the
   * create goes through, exactly one Deployment is added, under the derived key,
   * carrying the template's body and only the ownership annotation.
   */
  lemma CreatesPairedDeployment(s: State, req: NamespacedName, manifest: Manifest, faults: Faults)
    requires EmitterFound(s, req, faults) && s.emitters[req].pairName != ""
    requires faults.getDeployment == Nil && PairKey(req, s.emitters[req]) !in s.deployments
    requires manifest.Decoded? && faults.create == Nil
    ensures var r := Reconcile(s, req, manifest, faults);
      var key := PairKey(req, s.emitters[req]);
      && r.state.deployments.Keys == s.deployments.Keys + {key}
      && r.state.deployments[key].annotations == OwnershipAnnotations
      && KeyOf(r.state.deployments[key]) == key
      && r.state.deployments[key].body == manifest.template.body
      && (forall k :: k in s.deployments ==> r.state.deployments[k] == s.deployments[k])
      && r.err == Nil
  {
  }

  /**
   * When the manifest cannot be read or decoded, the store is unchanged; a read
   * failure reports the (suppressed) 404 of the lookup, a decode failure reports the
   * decoder's error with NotFound suppressed.
   */
  lemma ManifestFailureLeavesStore(s: State, req: NamespacedName, manifest: Manifest, faults: Faults)
    requires !manifest.Decoded?
    ensures var r := Reconcile(s, req, manifest, faults);
      && r.state.deployments.Keys <= s.deployments.Keys
      && (EmitterFound(s, req, faults) ==> r.state.deployments == s.deployments)
  {
  }

  /** The error reported on the two manifest failure paths. */
  lemma ManifestFailureError(s: State, req: NamespacedName, manifest: Manifest, faults: Faults)
    requires EmitterFound(s, req, faults) && s.emitters[req].pairName != ""
    requires faults.getDeployment == Nil && PairKey(req, s.emitters[req]) !in s.deployments
    ensures manifest.ReadFailed? ==> Reconcile(s, req, manifest, faults).err == Nil
    ensures manifest.DecodeFailed? ==> Reconcile(s, req, manifest, faults).err == IgnoreNotFound(manifest.err)
  {
  }

  /**
   * When the paired Deployment is missing and the manifest decodes but the create
   * fails, the store is unchanged and the create's error comes back, NotFound
   * suppressed, in place of the lookup's 404.
   */
  lemma CreateFailureError(s: State, req: NamespacedName, manifest: Manifest, faults: Faults)
    requires EmitterFound(s, req, faults) && s.emitters[req].pairName != ""
    requires faults.getDeployment == Nil && PairKey(req, s.emitters[req]) !in s.deployments
    requires manifest.Decoded? && faults.create != Nil
    ensures var r := Reconcile(s, req, manifest, faults);
      r.state.deployments == s.deployments && r.err == IgnoreNotFound(faults.create)
  {
  }

  /** A lookup failure other than a 404 skips creation and is returned as it is. */
  lemma OtherLookupErrorSkipsCreation(s: State, req: NamespacedName, manifest: Manifest, faults: Faults)
    requires EmitterFound(s, req, faults) && s.emitters[req].pairName != ""
    requires faults.getDeployment.Other?
    ensures var r := Reconcile(s, req, manifest, faults);
      r.state.deployments == s.deployments && r.err == faults.getDeployment
  {
  }

  /**
   * When the Emitter is gone, has a tracked name, and that Deployment is in the
   * request's namespace, exactly that Deployment is removed and the table is kept.
   */
  lemma DeletesTrackedDeployment(s: State, req: NamespacedName, manifest: Manifest, faults: Faults)
    requires Valid(s)
    requires !EmitterFound(s, req, faults)
    requires TrackedName(s.tracking, req.name) != ""
    requires faults.getDeployment == Nil && faults.delete == Nil
    requires NamespacedName(req.namespace, TrackedName(s.tracking, req.name)) in s.deployments
    ensures var r := Reconcile(s, req, manifest, faults);
      && r.state.deployments == s.deployments - {NamespacedName(req.namespace, TrackedName(s.tracking, req.name))}
      && r.state.tracking == s.tracking
      && r.err == IgnoreNotFound(faults.getEmitter)
  {
  }

  /**
   * When the Emitter is gone and its tracked Deployment is found but the delete
   * fails, the whole state is unchanged and the delete's error comes back with
   * NotFound suppressed.
   */
  lemma DeleteFailureError(s: State, req: NamespacedName, manifest: Manifest, faults: Faults)
    requires Valid(s)
    requires !EmitterFound(s, req, faults)
    requires TrackedName(s.tracking, req.name) != ""
    requires faults.getDeployment == Nil && faults.delete != Nil
    requires NamespacedName(req.namespace, TrackedName(s.tracking, req.name)) in s.deployments
    ensures var r := Reconcile(s, req, manifest, faults);
      r.state == s && r.err == IgnoreNotFound(faults.delete)
  {
  }

  /**
   * When the Emitter is gone and nothing is tracked for it, or the tracked Deployment
   * is already gone, the store is unchanged and the Emitter lookup's error is
   * reported with NotFound suppressed.
   */
  lemma NoCleanupWithoutTrackedDeployment(s: State, req: NamespacedName, manifest: Manifest, faults: Faults)
    requires !EmitterFound(s, req, faults)
    requires TrackedName(s.tracking, req.name) == ""
      || (faults.getDeployment == Nil && NamespacedName(req.namespace, TrackedName(s.tracking, req.name)) !in s.deployments)
    ensures var r := Reconcile(s, req, manifest, faults);
      && r.state == s
      && r.err == IgnoreNotFound(faults.getEmitter)
  {
  }

  /**
   * A reconcile changes the store at no more than one key: a Deployment it creates is
   * the one paired with a found Emitter, and one it deletes is the one tracked for an
   * Emitter that was not found.
   */
  lemma SingleCorrectiveAction(s: State, req: NamespacedName, manifest: Manifest, faults: Faults, k: NamespacedName)
    requires Valid(s)
    requires var r := Reconcile(s, req, manifest, faults);
      (k in r.state.deployments) != (k in s.deployments)
    ensures var r := Reconcile(s, req, manifest, faults);
      && (forall j :: j != k ==> (j in r.state.deployments <==> j in s.deployments))
      && (k in r.state.deployments ==>
            EmitterFound(s, req, faults) && k == PairKey(req, s.emitters[req]) && manifest.Decoded?
            && r.state.deployments[k].annotations == OwnershipAnnotations)
      && (k in s.deployments ==>
            !EmitterFound(s, req, faults) && k == NamespacedName(req.namespace, TrackedName(s.tracking, req.name)))
  {
  }

  /** Reconcile keeps the invariant. */
  lemma ReconcilePreservesValid(s: State, req: NamespacedName, manifest: Manifest, faults: Faults)
    requires Valid(s)
    ensures Valid(Reconcile(s, req, manifest, faults).state)
  {
  }

  // ---------------------------------------------------------------------------
  // Two reconciles

  /**
   * Reconciling the same key twice with no change in between and no injected
   * errors: the second call creates and deletes nothing and reports what the first did.
   */
  lemma ReconcileIdempotent(s: State, req: NamespacedName, manifest: Manifest)
    ensures var r1 := Reconcile(s, req, manifest, NoFaults);
      var r2 := Reconcile(r1.state, req, manifest, NoFaults);
      r2.state == r1.state && r2.err == r1.err
  {
  }

  /**
   * An Emitter that is paired and then deleted is cleaned up: the first reconcile
   * leaves its paired Deployment in the store, and once the Emitter is removed the
   * next reconcile deletes that Deployment without error.
   */
  lemma CleanupAfterPairing(s: State, req: NamespacedName, template: Deployment)
    requires Valid(s) && req in s.emitters && s.emitters[req].pairName != ""
    ensures var r1 := Reconcile(s, req, Decoded(template), NoFaults);
      var r2 := Reconcile(r1.state.(emitters := r1.state.emitters - {req}), req, Decoded(template), NoFaults);
      && PairKey(req, s.emitters[req]) in r1.state.deployments
      && PairKey(req, s.emitters[req]) !in r2.state.deployments
      && r1.err == Nil && r2.err == Nil
  {
    ReconcilePreservesValid(s, req, Decoded(template), NoFaults);
  }

  // ---------------------------------------------------------------------------
  // Runs: reconciles interleaved with changes made by users of the cluster

  /** What can happen between reconciles, and the reconciles themselves. */
  datatype Event =
    | Reconciled(req: NamespacedName, manifest: Manifest, faults: Faults)
    | EmitterApplied(key: NamespacedName, spec: EmitterSpec)
    | EmitterRemoved(key: NamespacedName)
    | DeploymentApplied(deployment: Deployment)
    | DeploymentRemoved(key: NamespacedName)

  function After(s: State, e: Event): State
  {
    match e
    case Reconciled(req, manifest, faults) => Reconcile(s, req, manifest, faults).state
    case EmitterApplied(key, spec) => s.(emitters := s.emitters[key := spec])
    case EmitterRemoved(key) => s.(emitters := s.emitters - {key})
    case DeploymentApplied(d) => s.(deployments := s.deployments[KeyOf(d) := d])
    case DeploymentRemoved(key) => s.(deployments := s.deployments - {key})
  }

  /** The keys of the Deployments that users create or overwrite during a run. */
  function UserWrites(events: seq<Event>): set<NamespacedName>
    decreases |events|
  {
    if events == [] then {}
    else (if events[0].DeploymentApplied? then {KeyOf(events[0].deployment)} else {}) + UserWrites(events[1..])
  }

  function Run(s: State, events: seq<Event>): State
    decreases |events|
  {
    if events == [] then s else Run(After(s, events[0]), events[1..])
  }

  /** The reconciler starts with an empty table (SetupWithManager). */
  function Initial(deployments: Store, emitters: map<NamespacedName, EmitterSpec>): (s: State)
    ensures s.tracking == map[] && s.deployments == deployments && s.emitters == emitters
    ensures Consistent(deployments) ==> Valid(s)
  {
    State(map[], deployments, emitters)
  }

  /** Every run, whatever users do, keeps the invariant. */
  lemma {:induction false} RunPreservesValid(s: State, events: seq<Event>)
    requires Valid(s)
    ensures Valid(Run(s, events))
    decreases |events|
  {
    if events != [] {
      if events[0].Reconciled? {
        ReconcilePreservesValid(s, events[0].req, events[0].manifest, events[0].faults);
      }
      RunPreservesValid(After(s, events[0]), events[1..]);
    }
  }

  /** Every entry of `now` is an unchanged entry of `before` or sits under a key in `written`. */
  ghost predicate KeptOrWritten(now: Store, before: Store, written: set<NamespacedName>)
  {
    forall k :: k in now ==> (k in before && now[k] == before[k]) || k in written
  }

  /**
   * With a manifest that never reads or decodes, no run creates a Deployment: apart
   * from the keys users write, the store only loses entries.
   */
  lemma {:induction false} MalformedManifestNeverCreates(s: State, events: seq<Event>)
    requires forall i :: 0 <= i < |events| && events[i].Reconciled? ==> !events[i].manifest.Decoded?
    ensures KeptOrWritten(Run(s, events).deployments, s.deployments, UserWrites(events))
    decreases |events|
  {
    if events != [] {
      var s' := After(s, events[0]);
      var first := if events[0].DeploymentApplied? then {KeyOf(events[0].deployment)} else {};
      if events[0].Reconciled? {
        ManifestFailureLeavesStore(s, events[0].req, events[0].manifest, events[0].faults);
      }
      assert KeptOrWritten(s'.deployments, s.deployments, first);
      MalformedManifestNeverCreates(s', events[1..]);
      assert UserWrites(events) == first + UserWrites(events[1..]);
    }
  }

  /**
   * Every Deployment is one that was there at the start, one a user wrote, or one
   * this controller created and annotated.
   */
  ghost predicate OwnedOrPreexisting(now: Store, start: Store, written: set<NamespacedName>)
  {
    forall k :: k in now ==>
      (k in start && now[k] == start[k])
      || k in written
      || (now[k].annotations == OwnershipAnnotations && IsDerivedName(k.name))
  }

  /**
   * Any run ends with every Deployment untouched from the start, under a key users
   * wrote, or owned by the controller.
   */
  lemma {:induction false} RunCreatesOnlyOwned(s: State, events: seq<Event>)
    requires Valid(s)
    ensures OwnedOrPreexisting(Run(s, events).deployments, s.deployments, UserWrites(events))
    decreases |events|
  {
    if events == [] {
    } else {
      var s' := After(s, events[0]);
      RunPreservesValid(s, events[..1]);
      assert Run(s, events[..1]) == s';
      RunCreatesOnlyOwned(s', events[1..]);
      var t := Run(s', events[1..]);
      assert Run(s, events) == t;
      var rest := UserWrites(events[1..]);
      assert UserWrites(events) == (if events[0].DeploymentApplied? then {KeyOf(events[0].deployment)} else {}) + rest;
      forall k | k in t.deployments
        ensures (k in s.deployments && t.deployments[k] == s.deployments[k])
             || k in UserWrites(events)
             || (t.deployments[k].annotations == OwnershipAnnotations && IsDerivedName(k.name))
      {
        if !(k in s'.deployments && t.deployments[k] == s'.deployments[k]) {
        } else if k !in s.deployments || s'.deployments[k] != s.deployments[k] {
          match events[0]
          case Reconciled(req, manifest, faults) =>
            SingleCorrectiveAction(s, req, manifest, faults, k);
          case _ =>
        }
      }
    }
  }

  // ---------------------------------------------------------------------------
  // Scenarios

  /**
   * Emitter default/e1 with pair name "foo": the first reconcile creates
   * default/emitter-foo with the ownership annotation, the second creates nothing,
   * and after e1 is deleted the next reconcile deletes default/emitter-foo.
   */
  lemma PairLifecycle(template: Deployment)
    ensures var e1 := NamespacedName("default", "e1");
      var foo := NamespacedName("default", "emitter-foo");
      var s0 := Initial(map[], map[e1 := EmitterSpec(true, "foo")]);
      var r1 := Reconcile(s0, e1, Decoded(template), NoFaults);
      var r2 := Reconcile(r1.state, e1, Decoded(template), NoFaults);
      var r3 := Reconcile(r2.state.(emitters := map[]), e1, Decoded(template), NoFaults);
      && r1.state.deployments.Keys == {foo}
      && r1.state.deployments[foo].annotations == OwnershipAnnotations
      && r2.state == r1.state
      && r3.state.deployments == map[]
      && r1.err == Nil && r2.err == Nil && r3.err == Nil
  {
    var e1 := NamespacedName("default", "e1");
    var foo := NamespacedName("default", "emitter-foo");
    assert DeploymentName("foo") == "emitter-foo";
    var s0 := Initial(map[], map[e1 := EmitterSpec(true, "foo")]);
    CreatesPairedDeployment(s0, e1, Decoded(template), NoFaults);
    var r1 := Reconcile(s0, e1, Decoded(template), NoFaults);
    ReconcileIdempotent(s0, e1, Decoded(template));
    assert TrackedName(r1.state.tracking, "e1") == "emitter-foo";
  }

  /**
   * Changing an Emitter's pair name leaves the Deployment made for the old name in
   * place: the next reconcile creates the new one and deletes nothing.
   */
  lemma PairRenameKeepsOldDeployment(s: State, req: NamespacedName, template: Deployment, p: string, q: string)
    requires Valid(s) && p != "" && q != "" && p != q
    requires req in s.emitters && s.emitters[req].pairName == q
    requires NamespacedName(req.namespace, DeploymentName(p)) in s.deployments
    ensures var r := Reconcile(s, req, Decoded(template), NoFaults);
      NamespacedName(req.namespace, DeploymentName(p)) in r.state.deployments
      && NamespacedName(req.namespace, DeploymentName(q)) in r.state.deployments
  {
  }

  /**
   * The table is keyed by the Emitter's name only: reconciling an Emitter of the same
   * name in another namespace overwrites the entry, so a later reconcile of the first
   * Emitter, once deleted, looks for the other Emitter's Deployment name and leaves
   * its own paired Deployment in place.
   */
  lemma TrackingSharedAcrossNamespaces(s: State, a: NamespacedName, b: NamespacedName, manifest: Manifest, p: string, q: string)
    requires Valid(s) && a.name == b.name && a.namespace != b.namespace && p != q
    requires b in s.emitters && a !in s.emitters
    requires s.emitters[b].pairName == q
    requires NamespacedName(a.namespace, DeploymentName(p)) in s.deployments
    ensures var r1 := Reconcile(s, b, manifest, NoFaults);
      var r2 := Reconcile(r1.state, a, manifest, NoFaults);
      && TrackedName(r1.state.tracking, a.name) == DeploymentName(q)
      && NamespacedName(a.namespace, DeploymentName(p)) in r2.state.deployments
  {
  }

  /**
   * Any failure of the Emitter lookup, not only its absence, sends the reconcile to
   * the clean-up branch: a transient error on Get deletes the tracked Deployment of
   * an Emitter that still exists.
   */
  lemma TransientEmitterErrorDeletesLivePair(s: State, req: NamespacedName, manifest: Manifest, faults: Faults)
    requires Valid(s) && req in s.emitters && s.emitters[req].pairName != ""
    requires TrackedName(s.tracking, req.name) == DeploymentName(s.emitters[req].pairName)
    requires PairKey(req, s.emitters[req]) in s.deployments
    requires faults.getEmitter != Nil && faults.getDeployment == Nil && faults.delete == Nil
    ensures var r := Reconcile(s, req, manifest, faults);
      && req in r.state.emitters
      && PairKey(req, s.emitters[req]) !in r.state.deployments
      && r.err == IgnoreNotFound(faults.getEmitter)
  {
  }
}
