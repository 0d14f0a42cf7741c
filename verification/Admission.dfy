/** The admission webhook's decision, and that it agrees with the node plugin's. */
module Admission {
  import opened Wrappers
  import opened Text
  import opened Volume
  import opened Policies

  const DRIVER := "gitcontent.csi.example.io"

  /** The CSI part of a pod volume. */
  datatype CsiVolume = CsiVolume(driver: string, readOnly: bool, attributes: Raw)

  /** The policy request of parsed attributes: both binaries build it alike. */
  function RequestFor(ns: string, attrs: Attributes): Request {
    Request(ns, attrs.repo, attrs.revision, attrs.path, attrs.depth, attrs.submodules, attrs.lfs,
            attrs.credentialProfile)
  }

  /** What passing the parser and the policies gives: the attributes, the policy they rest on, and
      the credential profile to use. */
  datatype Grant = Grant(attrs: Attributes, policy: Policy, profile: string)

  function Gate(lib: Library, policies: seq<Policy>, ns: string, raw: Raw): Option<Grant> {
    var attrs := Parsed(lib, raw);
    if attrs.Err? then None
    else
      var (decision, p) := Evaluate(lib, policies, RequestFor(ns, attrs.value), attrs.value.policy);
      if decision.Allowed? && p.Some? then Some(Grant(attrs.value, p.value, decision.profile)) else None
  }

  /** When a request passes, in terms of what it asks for: it is parsed, and the first policy that governs
      its namespace and the policy it names permits its repository, host, options, depth, revision and
      profile. */
  lemma GateMeaning(lib: Library, policies: seq<Policy>, ns: string, raw: Raw, g: Grant)
    ensures Gate(lib, policies, ns, raw) == Some(g) <==>
            && Parsed(lib, raw) == Ok(g.attrs)
            && exists i: nat ::
                 && FirstGoverning(policies, ns, g.attrs.policy, i) && policies[i] == g.policy
                 && Permits(lib, g.policy, ns, g.attrs)
                 && g.profile == if g.attrs.credentialProfile != "" then g.attrs.credentialProfile
                                 else g.policy.credentials.defaultProfile
  {
    if Parsed(lib, raw).Ok? { DecisionMeaning(lib, policies, ns, Parsed(lib, raw).value, g); }
  }

  /** The same of attributes that have been parsed. */
  lemma DecisionMeaning(lib: Library, policies: seq<Policy>, ns: string, attrs: Attributes, g: Grant)
    ensures var (decision, p) := Evaluate(lib, policies, RequestFor(ns, attrs), attrs.policy);
            decision.Allowed? && p == Some(g.policy) && decision.profile == g.profile <==>
              exists i: nat ::
                && FirstGoverning(policies, ns, attrs.policy, i) && policies[i] == g.policy
                && Permits(lib, g.policy, ns, attrs)
                && g.profile == if attrs.credentialProfile != "" then attrs.credentialProfile
                                else g.policy.credentials.defaultProfile
  {
    SelectionMeaning(policies, ns, attrs.policy);
    var p := SelectPolicy(policies, ns, attrs.policy);
    if p.Some? {
      var k: nat :| FirstGoverning(policies, ns, attrs.policy, k) && policies[k] == p.value;
      forall i: nat | FirstGoverning(policies, ns, attrs.policy, i) ensures i == k {}
      JudgeMeaning(lib, p.value, RequestFor(ns, attrs));
    }
  }

  /** What a policy permits, of the attributes themselves. */
  predicate Permits(lib: Library, p: Policy, ns: string, attrs: Attributes) {
    var req := Request(ns, attrs.repo, attrs.revision, attrs.path, attrs.depth, attrs.submodules, attrs.lfs,
                       attrs.credentialProfile);
    && PermitsRepo(lib, p, req) && PermitsHost(lib, p, req)
    && (attrs.submodules ==> p.submodules.enabled) && (attrs.lfs ==> p.lfsEnabled)
    && PermitsDepth(p, req) && PermitsRevision(lib, p, req) && PermitsProfile(p, req)
  }

  /** Whether the webhook has nothing against a volume. */
  predicate Acceptable(lib: Library, policies: seq<Policy>, ns: string, v: Option<CsiVolume>) {
    v.None? || v.value.driver != DRIVER
    || (v.value.readOnly && Gate(lib, policies, ns, v.value.attributes).Some?)
  }

  /** `/validate`: the loop over the pod's volumes, stopping at the first refusal. */
  method Validate(lib: Library, policies: seq<Policy>, ns: string, volumes: seq<Option<CsiVolume>>)
    returns (allowed: bool)
    ensures allowed <==> forall i :: 0 <= i < |volumes| ==> Acceptable(lib, policies, ns, volumes[i])
    ensures allowed <==>
            forall i :: 0 <= i < |volumes| ==>
              match volumes[i]
              case None => true
              case Some(CsiVolume(driver, readOnly, attributes)) =>
                driver == "gitcontent.csi.example.io" ==> readOnly && Gate(lib, policies, ns, attributes).Some?
  {
    for i := 0 to |volumes|
      invariant forall j :: 0 <= j < i ==> Acceptable(lib, policies, ns, volumes[j])
    {
      var v := volumes[i];
      if v.None? { continue; }
      if v.value.driver != DRIVER { continue; }
      if !v.value.readOnly { return false; }
      var attrs := Parse(lib, v.value.attributes);
      if attrs.Err? { return false; }
      var (res, _) := Evaluate(lib, policies, RequestFor(ns, attrs.value), attrs.value.policy);
      if !res.Allowed? { return false; }
    }
    return true;
  }

  const NAMESPACE_KEY := "csi.storage.k8s.io/pod.namespace"

  /** The namespace the node plugin reads from a volume context. */
  function ContextNamespace(context: Raw): string {
    if Get(context, NAMESPACE_KEY) == "" then "default" else Get(context, NAMESPACE_KEY)
  }

  lemma NamespaceMeaning(context: Raw)
    ensures ContextNamespace(context) ==
            if "csi.storage.k8s.io/pod.namespace" in context && context["csi.storage.k8s.io/pod.namespace"] != ""
            then context["csi.storage.k8s.io/pod.namespace"] else "default"
  {}

  /** What the node plugin makes of a volume context. */
  function NodeGate(lib: Library, policies: seq<Policy>, context: Raw): Option<Grant> {
    Gate(lib, policies, ContextNamespace(context), context)
  }

  /** What Kubernetes adds to the attributes of a pod volume: `csi.` keys, the namespace among them. */
  predicate PodContext(added: Raw, ns: string) {
    && ns != "" && NAMESPACE_KEY in added && added[NAMESPACE_KEY] == ns
    && forall k :: k in added ==> HasPrefix(k, "csi.")
  }

  /** The two binaries decide alike: whatever `csi.` keys are added, the node plugin's gate gives
      exactly what the webhook's gave, attributes, policy and profile included. */
  lemma GatesAgree(lib: Library, policies: seq<Policy>, ns: string, raw: Raw, added: Raw)
    requires PodContext(added, ns)
    ensures NodeGate(lib, policies, raw + added) == Gate(lib, policies, ns, raw)
  {
    AddedContext(lib, raw, added);
  }

  /** Admission refines mounting, and the other way: a pod is admitted exactly when each of its
      volumes of this driver is read-only and would pass the node plugin's gate in its context. */
  lemma AdmissionRefinesMounting(lib: Library, policies: seq<Policy>, ns: string, volumes: seq<Option<CsiVolume>>,
                                 added: Raw)
    requires PodContext(added, ns)
    ensures (forall i :: 0 <= i < |volumes| ==> Acceptable(lib, policies, ns, volumes[i])) <==>
            forall i :: 0 <= i < |volumes| && volumes[i].Some? && volumes[i].value.driver == DRIVER ==>
              volumes[i].value.readOnly && NodeGate(lib, policies, volumes[i].value.attributes + added).Some?
  {
    forall v: CsiVolume ensures NodeGate(lib, policies, v.attributes + added) == Gate(lib, policies, ns, v.attributes) {
      GatesAgree(lib, policies, ns, v.attributes, added);
    }
  }
}
