/** The drift decision: what the annotations of a NodeClass and of a NodeClaim say, and what
    `IsDrifted` makes of it. */
module Drift {
  import opened Prelude
  import opened ClassLookup

  type Annotations = map<string, string>

  const HASH := "karpenter.vsphere.com/vspherenodeclass-hash"
  const HASH_VERSION := "karpenter.vsphere.com/vspherenodeclass-hash-version"
  const CURRENT_VERSION := "v1"
  const NODE_POOL_LABEL := "karpenter.sh/nodepool"

  lemma KeysDiffer()
    ensures HASH != HASH_VERSION
  {
  }

  predicate HasVersion(a: Annotations, version: string) {
    HASH_VERSION in a && a[HASH_VERSION] == version
  }

  /** The drift decision on the annotations of a class and of a claim. */
  predicate StaticFieldsDrifted(nodeClass: Annotations, nodeClaim: Annotations) {
    if HASH !in nodeClass || HASH !in nodeClaim || HASH_VERSION !in nodeClass || HASH_VERSION !in nodeClaim then
      false
    else if nodeClass[HASH_VERSION] != nodeClaim[HASH_VERSION] then
      false
    else
      nodeClass[HASH] != nodeClaim[HASH]
  }

  datatype Answer = NoReason | NodeClassDrift | Error

  /** A class that is not found is a reason, and a positive drift decision is turned into an error. */
  function IsDrifted(labels: map<string, string>, annotations: Annotations, api: Api<Annotations>): Answer {
    if NODE_POOL_LABEL !in labels then NoReason
    else match api.Pool(labels[NODE_POOL_LABEL])
      case Unreadable => Error
      case NotFound => NoReason
      case Found(None) => NoReason
      case Found(Some(name)) =>
        match api.LiveClass(name)
        case Unreadable => Error
        case NotFound => NodeClassDrift
        case Found(nodeClass) => if StaticFieldsDrifted(nodeClass, annotations) then Error else NoReason
  }

  /** The claim leads, by its label and its pool, to the class of this name. */
  ghost predicate LeadsTo(labels: map<string, string>, api: Api<Annotations>, name: string) {
    "karpenter.sh/nodepool" in labels && api.Pool(labels["karpenter.sh/nodepool"]) == Found(Some(name))
  }

  /** The reason reaches the caller only when the claim leads to a class that is missing or
      terminating; computed from the annotations of a live class, it is always lost to an error. */
  lemma ReasonOnlyForAbsentClass(labels: map<string, string>, annotations: Annotations, api: Api<Annotations>)
    ensures IsDrifted(labels, annotations, api) == NodeClassDrift <==>
              exists name :: LeadsTo(labels, api, name) && name !in api.unreadableClasses
                             && (name !in api.classes || api.classes[name].terminating)
    ensures forall name :: LeadsTo(labels, api, name) && api.LiveClass(name).Found?
                           && StaticFieldsDrifted(api.LiveClass(name).value, annotations) ==>
              IsDrifted(labels, annotations, api) == Error
  {
  }

  /** Both carry the two annotations, with the same version and different hashes. */
  predicate HashesDiffer(nodeClass: Annotations, nodeClaim: Annotations) {
    var hash, version := "karpenter.vsphere.com/vspherenodeclass-hash",
        "karpenter.vsphere.com/vspherenodeclass-hash-version";
    && hash in nodeClass && hash in nodeClaim && nodeClass[hash] != nodeClaim[hash]
    && version in nodeClass && version in nodeClaim && nodeClass[version] == nodeClaim[version]
  }

  /** When a check ends without a reason, and when with an error: an undrifted claim of a live class
      has no reason, nor does one whose pool is not known or not found or names no class. */
  lemma NoReasonAndErrorIff(labels: map<string, string>, annotations: Annotations, api: Api<Annotations>)
    ensures IsDrifted(labels, annotations, api) == NoReason <==>
              || "karpenter.sh/nodepool" !in labels
              || api.Pool(labels["karpenter.sh/nodepool"]) == NotFound
              || api.Pool(labels["karpenter.sh/nodepool"]) == Found(None)
              || exists name :: LeadsTo(labels, api, name) && api.LiveClass(name).Found?
                                && !HashesDiffer(api.LiveClass(name).value, annotations)
    ensures IsDrifted(labels, annotations, api) == Error <==>
              || ("karpenter.sh/nodepool" in labels && labels["karpenter.sh/nodepool"] in api.unreadablePools)
              || exists name :: LeadsTo(labels, api, name)
                                && (name in api.unreadableClasses
                                    || (api.LiveClass(name).Found?
                                        && HashesDiffer(api.LiveClass(name).value, annotations)))
  {
  }
}
