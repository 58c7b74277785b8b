/** The diff step of the reconciler: from the desired record and the "before" snapshot, the
    ordered list of remote actions an update performs. */
module Plan {
  import opened Hostnames
  import opened Remote

  datatype Action = DropCertificate | ProvisionFreeCertificate | ApplyForceSsl(forceSsl: bool)

  /** The policy guard: a system hostname may not lose its certificate. */
  predicate StripsInternalCertificate(desired: Hostname, before: Hostname) {
    desired.isSystemHostname && before.hasCertificate && !desired.hasCertificate
  }

  /** The actions of an update, in the order they are issued: certificate removal or free
      certificate provisioning first (each only for a non-system hostname whose certificate
      state changes), then force-SSL, always, carrying the desired flag. */
  function Diff(desired: Hostname, before: Hostname): (plan: seq<Action>)
    ensures 1 <= |plan| <= 2
    ensures plan[|plan| - 1] == ApplyForceSsl(desired.forceSsl)
    ensures forall k :: 0 <= k < |plan| - 1 ==> !plan[k].ApplyForceSsl?
    ensures DropCertificate in plan <==>
      !desired.isSystemHostname && before.hasCertificate && !desired.hasCertificate
    ensures ProvisionFreeCertificate in plan <==>
      !desired.isSystemHostname && !before.hasCertificate && desired.hasCertificate
  {
    (if !desired.isSystemHostname && before.hasCertificate && !desired.hasCertificate
     then [DropCertificate] else [])
    + (if !desired.isSystemHostname && !before.hasCertificate && desired.hasCertificate
       then [ProvisionFreeCertificate] else [])
    + [ApplyForceSsl(desired.forceSsl)]
  }

  /** When the certificate state does not change, only force-SSL is (re)applied. */
  lemma CertificateUntouchedWhenUnchanged(desired: Hostname, before: Hostname)
    requires before.hasCertificate == desired.hasCertificate
    ensures Diff(desired, before) == [ApplyForceSsl(desired.forceSsl)]
  {
    var plan := Diff(desired, before);
    assert plan[0] == ApplyForceSsl(desired.forceSsl) by {
      assert DropCertificate !in plan && ProvisionFreeCertificate !in plan;
      assert plan[0] in plan;
    }
  }

  /** A system hostname's certificate is never touched by the plan. */
  lemma SystemHostnameCertificateUntouched(desired: Hostname, before: Hostname)
    requires desired.isSystemHostname
    ensures Diff(desired, before) == [ApplyForceSsl(desired.forceSsl)]
  {
    var plan := Diff(desired, before);
    assert plan[0] == ApplyForceSsl(desired.forceSsl) by {
      assert DropCertificate !in plan && ProvisionFreeCertificate !in plan;
      assert plan[0] in plan;
    }
  }

  /** The remote request that carries out one action for `desired`. */
  function ToRequest(desired: Hostname, a: Action): Request {
    match a
    case DropCertificate => RemoveCertificate(desired.pullzoneId, desired.name)
    case ProvisionFreeCertificate => LoadFreeCertificate(desired.name)
    case ApplyForceSsl(b) => SetForceSsl(desired.pullzoneId, desired.name, b)
  }

  function Requests(desired: Hostname, plan: seq<Action>): (reqs: seq<Request>)
    ensures |reqs| == |plan| && forall k :: 0 <= k < |plan| ==> reqs[k] == ToRequest(desired, plan[k])
  {
    seq(|plan|, k requires 0 <= k < |plan| => ToRequest(desired, plan[k]))
  }

  /** Every call a successful update issues, in order: the planned requests, then the
      re-read of the zone. */
  function PlannedCalls(desired: Hostname, before: Hostname): seq<Call> {
    Calls(Requests(desired, Diff(desired, before))) + [ReadPullzone(desired.pullzoneId)]
  }
}
