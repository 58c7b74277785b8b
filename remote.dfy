/** The remote management API as the reconciler sees it: the requests it can issue, the
    replies it inspects, the errors it reports, and a generic executor that issues a list of
    requests in order and stops at the first one that is not accepted. */
module Remote {
  import opened Hostnames

  const StatusOK: int := 200
  const StatusNoContent: int := 204

  /** The mutating HTTP calls, as abstract values (method, URL and JSON body are left out). */
  datatype Request =
    | AddHostname(pullzoneId: int64, hostname: string)
    | RemoveCertificate(pullzoneId: int64, hostname: string)
    | LoadFreeCertificate(hostname: string)
    | SetForceSsl(pullzoneId: int64, hostname: string, forceSsl: bool)
    | RemoveHostname(pullzoneId: int64, hostname: string)

  /** One round trip to the remote: an HTTP call, or a read of a whole pull zone. */
  datatype Call = Http(request: Request) | ReadPullzone(pullzoneId: int64)

  /** What the transport answers: a status code with its status line, or an error. */
  datatype HttpReply = Responded(statusCode: int, status: string) | TransportFailed(message: string)

  /** What the zone reader answers: the zone's hostname listing, or an error. */
  datatype ZoneReply = Listed(hostnames: seq<Hostname>) | ReadFailed(message: string)

  /** The remote, as two oracles. Each is told every call issued before this one, so any
      behaviour of the server over a session is some value of this type. */
  datatype Server = Server(
    doRequest: (seq<Call>, Request) -> HttpReply,
    getPullzone: (seq<Call>, int64) -> ZoneReply)

  datatype Error =
    | PullzoneRequired
    | InternalCertificateRemoval
    | HostnameNotFound
    | TransportError(message: string)
    | ReadError(message: string)
    | UnexpectedStatus(request: Request, status: string)

  datatype Result<T> = Success(value: T) | Failure(error: Error)

  datatype Outcome = Pass | Fail(error: Error)

  /** What an operation returned, and the calls it issued, in order. */
  datatype Run<T> = Run(result: T, issued: seq<Call>)

  /** The one status each request counts as success: 200 for the free certificate, else 204. */
  function ExpectedStatus(req: Request): (code: int)
    ensures code == StatusOK <==> req.LoadFreeCertificate?
    ensures code == StatusOK || code == StatusNoContent
  {
    if req.LoadFreeCertificate? then StatusOK else StatusNoContent
  }

  /** The operation name that prefixes a failed status in the error text. */
  function OperationName(req: Request): string {
    match req
    case AddHostname(_, _) => "addHostname"
    case RemoveCertificate(_, _) => "removeCertificate"
    case LoadFreeCertificate(_) => "loadFreeCertificate"
    case SetForceSsl(_, _, _) => "forceSSL"
    case RemoveHostname(_, _) => ""
  }

  /** The error text the caller receives. A failed remove-hostname reports the bare status
      line; every other failed request reports "<operation> failed with <status line>". */
  function Message(e: Error): (text: string)
    ensures e.UnexpectedStatus? ==> |e.status| <= |text| && text[|text| - |e.status|..] == e.status
    ensures e.UnexpectedStatus? && e.request.RemoveHostname? ==> text == e.status
    ensures e.TransportError? || e.ReadError? ==> text == e.message
  {
    match e
    case PullzoneRequired => "pullzone is required"
    case InternalCertificateRemoval => "removing a certificate from an internal hostname is not supported"
    case HostnameNotFound => "Hostname not found"
    case TransportError(m) => m
    case ReadError(m) => m
    case UnexpectedStatus(req, status) =>
      if req.RemoveHostname? then status else OperationName(req) + " failed with " + status
  }

  /** The verdict on `req` issued after `history`: it passes exactly when the remote
      answers with the request's expected status. */
  function Verdict(remote: Server, history: seq<Call>, req: Request): (o: Outcome)
    ensures var reply := remote.doRequest(history, req);
      o.Pass? <==> reply.Responded? && reply.statusCode == ExpectedStatus(req)
    ensures var reply := remote.doRequest(history, req);
      reply.TransportFailed? ==> o == Fail(TransportError(reply.message))
    ensures var reply := remote.doRequest(history, req);
      o.Fail? && reply.Responded? ==> o == Fail(UnexpectedStatus(req, reply.status))
  {
    match remote.doRequest(history, req)
    case TransportFailed(m) => Fail(TransportError(m))
    case Responded(code, status) =>
      if code == ExpectedStatus(req) then Pass else Fail(UnexpectedStatus(req, status))
  }

  function Calls(reqs: seq<Request>): (cs: seq<Call>)
    ensures |cs| == |reqs| && forall k :: 0 <= k < |reqs| ==> cs[k] == Http(reqs[k])
  {
    seq(|reqs|, k requires 0 <= k < |reqs| => Http(reqs[k]))
  }

  /** The first `n` requests were each accepted, each issued after the ones before it. */
  ghost predicate Accepted(remote: Server, history: seq<Call>, reqs: seq<Request>, n: nat)
    requires n <= |reqs|
  {
    forall k :: 0 <= k < n ==> Verdict(remote, history + Calls(reqs[..k]), reqs[k]).Pass?
  }

  lemma CallsSnoc(reqs: seq<Request>, n: nat)
    requires n < |reqs|
    ensures Calls(reqs[..n + 1]) == Calls(reqs[..n]) + [Http(reqs[n])]
  {
    assert reqs[..n + 1] == reqs[..n] + [reqs[n]];
  }

  /** One more accepted request extends an accepted prefix. */
  lemma AcceptedStep(remote: Server, history: seq<Call>, reqs: seq<Request>, n: nat)
    requires n < |reqs| && Accepted(remote, history, reqs, n)
    requires Verdict(remote, history + Calls(reqs[..n]), reqs[n]).Pass?
    ensures Accepted(remote, history, reqs, n + 1)
  {
  }

  /** Issue `reqs` in order after `history`; the first request not accepted ends the run
      with its error, and nothing after it is issued (see PerformAccepted). */
  function Perform(remote: Server, history: seq<Call>, reqs: seq<Request>): (run: Run<Outcome>)
    ensures |run.issued| <= |reqs| && run.issued == Calls(reqs[..|run.issued|])
    ensures run.result.Pass? ==> |run.issued| == |reqs|
    ensures run.result.Fail? ==> 1 <= |run.issued|
    ensures run.result.Fail? ==> run.result.error.TransportError? || run.result.error.UnexpectedStatus?
    decreases |reqs|
  {
    if reqs == [] then Run(Pass, [])
    else
      var first := Http(reqs[0]);
      var verdict := Verdict(remote, history, reqs[0]);
      if verdict.Fail? then
        assert reqs[..1] == [reqs[0]];
        Run(verdict, [first])
      else
        var rest := Perform(remote, history + [first], reqs[1..]);
        CallsCons(reqs, |rest.issued| + 1);
        Run(rest.result, [first] + rest.issued)
  }

  lemma CallsCons(reqs: seq<Request>, n: nat)
    requires 0 < n <= |reqs|
    ensures Calls(reqs[..n]) == [Http(reqs[0])] + Calls(reqs[1..][..n - 1])
  {
    assert reqs[..n] == [reqs[0]] + reqs[1..][..n - 1];
  }

  /** A prefix is accepted exactly when its first request is, and the rest is accepted as
      seen from the history that includes the first. */
  lemma AcceptedShift(remote: Server, history: seq<Call>, reqs: seq<Request>, n: nat)
    requires 0 < n <= |reqs|
    ensures Accepted(remote, history, reqs, n) <==>
      Verdict(remote, history, reqs[0]).Pass? && Accepted(remote, history + [Http(reqs[0])], reqs[1..], n - 1)
  {
    assert history + Calls(reqs[..0]) == history;
    forall k | 0 < k < n
      ensures history + Calls(reqs[..k]) == history + [Http(reqs[0])] + Calls(reqs[1..][..k - 1])
      ensures reqs[k] == reqs[1..][k - 1]
    {
      CallsCons(reqs, k);
    }
  }

  /** What a run says about the remote: a passing run had every request accepted; a failing
      run had every request but its last accepted, and fails with the last one's verdict. */
  lemma {:induction false} PerformAccepted(remote: Server, history: seq<Call>, reqs: seq<Request>)
    ensures var run := Perform(remote, history, reqs);
      run.result.Pass? ==> Accepted(remote, history, reqs, |reqs|)
    ensures var run := Perform(remote, history, reqs);
      run.result.Fail? ==>
        && Accepted(remote, history, reqs, |run.issued| - 1)
        && run.result == Verdict(remote, history + Calls(reqs[..|run.issued| - 1]), reqs[|run.issued| - 1])
    decreases |reqs|
  {
    if reqs != [] {
      var first := Http(reqs[0]);
      if Verdict(remote, history, reqs[0]).Fail? {
        assert history + Calls(reqs[..0]) == history;
      } else {
        var rest := Perform(remote, history + [first], reqs[1..]);
        PerformAccepted(remote, history + [first], reqs[1..]);
        if rest.result.Pass? {
          AcceptedShift(remote, history, reqs, |reqs|);
        } else {
          AcceptedAfterFirst(remote, history, reqs, |rest.issued|);
        }
      }
    }
  }

  /** The step of PerformAccepted for a run that fails after its first request passed. */
  lemma AcceptedAfterFirst(remote: Server, history: seq<Call>, reqs: seq<Request>, m: nat)
    requires 1 <= m < |reqs| && Verdict(remote, history, reqs[0]).Pass?
    requires Accepted(remote, history + [Http(reqs[0])], reqs[1..], m - 1)
    ensures Accepted(remote, history, reqs, m)
    ensures history + Calls(reqs[..m]) == history + [Http(reqs[0])] + Calls(reqs[1..][..m - 1])
    ensures reqs[m] == reqs[1..][m - 1]
  {
    AcceptedShift(remote, history, reqs, m);
    CallsCons(reqs, m);
  }

  /** When every request is accepted, the run passes having issued them all. */
  lemma {:induction false} PerformAllAccepted(remote: Server, history: seq<Call>, reqs: seq<Request>)
    requires Accepted(remote, history, reqs, |reqs|)
    ensures Perform(remote, history, reqs) == Run(Pass, Calls(reqs))
    decreases |reqs|
  {
    if reqs != [] {
      AcceptedShift(remote, history, reqs, |reqs|);
      PerformAllAccepted(remote, history + [Http(reqs[0])], reqs[1..]);
      CallsCons(reqs, |reqs|);
      assert reqs[..|reqs|] == reqs;
    }
  }

  /** When the first `n` requests are accepted and request `n` is not, the run issues exactly
      those `n + 1` requests and fails with request `n`'s verdict. */
  lemma {:induction false} PerformStopsAt(remote: Server, history: seq<Call>, reqs: seq<Request>, n: nat)
    requires n < |reqs| && Accepted(remote, history, reqs, n)
    requires Verdict(remote, history + Calls(reqs[..n]), reqs[n]).Fail?
    ensures Perform(remote, history, reqs) ==
      Run(Verdict(remote, history + Calls(reqs[..n]), reqs[n]), Calls(reqs[..n + 1]))
    decreases n
  {
    if n == 0 {
      assert history + Calls(reqs[..0]) == history;
      assert reqs[..1] == [reqs[0]];
    } else {
      var first := Http(reqs[0]);
      var verdict := Verdict(remote, history + Calls(reqs[..n]), reqs[n]);
      AcceptedShift(remote, history, reqs, n);
      assert Verdict(remote, history, reqs[0]).Pass?;
      AcceptedAfterFirst(remote, history, reqs, n);
      PerformStopsAt(remote, history + [first], reqs[1..], n - 1);
      var rest := Perform(remote, history + [first], reqs[1..]);
      assert rest == Run(verdict, Calls(reqs[1..][..n]));
      assert Perform(remote, history, reqs) == Run(rest.result, [first] + rest.issued);
      CallsCons(reqs, n + 1);
    }
  }

  /** A run passes exactly when every one of its requests is accepted. */
  lemma PerformPassesIffAccepted(remote: Server, history: seq<Call>, reqs: seq<Request>)
    ensures Perform(remote, history, reqs).result.Pass? <==> Accepted(remote, history, reqs, |reqs|)
  {
    PerformAccepted(remote, history, reqs);
    if Accepted(remote, history, reqs, |reqs|) {
      PerformAllAccepted(remote, history, reqs);
    }
  }
}
