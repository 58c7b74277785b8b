/** The hostname reconciler: Create, Update, Get and Delete of a pull zone's hostname.
    Each operation is a method that issues its calls to the remote in order and returns its
    result together with the calls it issued; `history` is what was issued before it in the
    same session (the remote may answer differently depending on it). Get, Update and Create
    are each proved equal to a reference function, about which the properties are proved;
    Delete's `ensures` state its behaviour directly. */
module Reconciler {
  import opened Hostnames
  import opened Remote
  import opened Plan

  /** The "before" snapshot Create hands to Update: a record whose only set field is the
      new entry's certificate flag. */
  function Snapshot(entry: Hostname): Hostname {
    Hostname(0, 0, "", false, entry.hasCertificate, false)
  }

  /** The desired record Create hands to Update: the zone's entry with the caller's
      certificate and force-SSL flags and the zone id laid over it. */
  function Overlay(entry: Hostname, desired: Hostname): Hostname {
    entry.(pullzoneId := desired.pullzoneId, hasCertificate := desired.hasCertificate, forceSsl := desired.forceSsl)
  }

  // ---------------------------------------------------------------------------------------
  // Reference definitions

  /** Get: read the zone, take the first entry with the id, stamp the zone id onto it. */
  function GetSpec(remote: Server, history: seq<Call>, pullzoneId: int64, id: int64): Run<Result<Hostname>> {
    var issued := [ReadPullzone(pullzoneId)];
    match remote.getPullzone(history, pullzoneId)
    case ReadFailed(m) => Run(Failure(ReadError(m)), issued)
    case Listed(hostnames) =>
      match FindFirst(hostnames, ById(id))
      case None => Run(Failure(HostnameNotFound), issued)
      case Some(i) => Run(Success(hostnames[i].(pullzoneId := pullzoneId)), issued)
  }

  /** Update, driven by the diff: the two guards, then the planned requests through the
      generic executor, then a Get by the desired id. */
  function UpdateSpec(remote: Server, history: seq<Call>, desired: Hostname, before: Hostname): Run<Result<Hostname>> {
    if desired.pullzoneId == 0 then Run(Failure(PullzoneRequired), [])
    else if StripsInternalCertificate(desired, before) then Run(Failure(InternalCertificateRemoval), [])
    else
      var steps := Perform(remote, history, Requests(desired, Diff(desired, before)));
      if steps.result.Fail? then Run(Failure(steps.result.error), steps.issued)
      else
        var read := GetSpec(remote, history + steps.issued, desired.pullzoneId, desired.id);
        Run(read.result, steps.issued + read.issued)
  }

  /** Create: add the name, re-read the zone, find the new entry by name, and update it from
      the snapshot to the overlaid record. */
  function CreateSpec(remote: Server, history: seq<Call>, desired: Hostname): Run<Result<Hostname>> {
    if desired.pullzoneId == 0 then Run(Failure(PullzoneRequired), [])
    else
      var add := AddHostname(desired.pullzoneId, desired.name);
      var verdict := Verdict(remote, history, add);
      if verdict.Fail? then Run(Failure(verdict.error), [Http(add)])
      else
        var issued := [Http(add), ReadPullzone(desired.pullzoneId)];
        match remote.getPullzone(history + [Http(add)], desired.pullzoneId)
        case ReadFailed(m) => Run(Failure(ReadError(m)), issued)
        case Listed(hostnames) =>
          match FindFirst(hostnames, ByName(desired.name))
          case None => Run(Failure(HostnameNotFound), issued)
          case Some(i) =>
            var update := UpdateSpec(remote, history + issued, Overlay(hostnames[i], desired), Snapshot(hostnames[i]));
            Run(update.result, issued + update.issued)
  }

  /** The planned requests, position by position: at most one certificate request, at the
      front, then force-SSL. */
  lemma PlannedRequests(desired: Hostname, before: Hostname)
    ensures var planned := Requests(desired, Diff(desired, before));
      var removes := !desired.isSystemHostname && before.hasCertificate && !desired.hasCertificate;
      var loads := !desired.isSystemHostname && !before.hasCertificate && desired.hasCertificate;
      && |planned| == (if removes || loads then 2 else 1)
      && (removes ==> planned[0] == RemoveCertificate(desired.pullzoneId, desired.name))
      && (loads ==> planned[0] == LoadFreeCertificate(desired.name))
      && planned[|planned| - 1] == SetForceSsl(desired.pullzoneId, desired.name, desired.forceSsl)
  {
  }

  /** An update that passes both guards and whose planned request `n` is the first one the
      remote does not accept issues exactly the requests up to `n` and fails with its error. */
  lemma UpdateStopsAt(remote: Server, history: seq<Call>, desired: Hostname, before: Hostname, n: nat)
    requires desired.pullzoneId != 0 && !StripsInternalCertificate(desired, before)
    requires var planned := Requests(desired, Diff(desired, before));
      n < |planned| && Accepted(remote, history, planned, n)
      && Verdict(remote, history + Calls(planned[..n]), planned[n]).Fail?
    ensures var planned := Requests(desired, Diff(desired, before));
      UpdateSpec(remote, history, desired, before) ==
        Run(Failure(Verdict(remote, history + Calls(planned[..n]), planned[n]).error), Calls(planned[..n + 1]))
  {
    PerformStopsAt(remote, history, Requests(desired, Diff(desired, before)), n);
  }

  /** An update that passes both guards and whose planned requests are all accepted issues
      them all and then returns what the Get by the desired id returns. */
  lemma UpdateAllAccepted(remote: Server, history: seq<Call>, desired: Hostname, before: Hostname)
    requires desired.pullzoneId != 0 && !StripsInternalCertificate(desired, before)
    requires var planned := Requests(desired, Diff(desired, before));
      Accepted(remote, history, planned, |planned|)
    ensures var planned := Requests(desired, Diff(desired, before));
      var read := GetSpec(remote, history + Calls(planned), desired.pullzoneId, desired.id);
      UpdateSpec(remote, history, desired, before) == Run(read.result, Calls(planned) + read.issued)
  {
    PerformAllAccepted(remote, history, Requests(desired, Diff(desired, before)));
  }

  // ---------------------------------------------------------------------------------------
  // The operations

  /** Get by id: one zone read, then the first entry with the id (see GetFindsFirstById). */
  method Get(remote: Server, history: seq<Call>, pullzoneId: int64, id: int64)
    returns (r: Result<Hostname>, issued: seq<Call>)
    ensures Run(r, issued) == GetSpec(remote, history, pullzoneId, id)
  {
    issued := [ReadPullzone(pullzoneId)];
    var pullzone := remote.getPullzone(history, pullzoneId);
    if pullzone.ReadFailed? {
      return Failure(ReadError(pullzone.message)), issued;
    }
    var hostnames := pullzone.hostnames;
    var i := 0;
    while i < |hostnames|
      invariant 0 <= i <= |hostnames|
      invariant forall j :: 0 <= j < i ==> hostnames[j].id != id
    {
      var hostname := hostnames[i];
      if hostname.id == id {
        hostname := hostname.(pullzoneId := pullzoneId);
        return Success(hostname), issued;
      }
      i := i + 1;
    }
    return Failure(HostnameNotFound), issued;
  }

  /** Update, written as the source's three inline steps; proved equal to the plan-driven
      UpdateSpec. The ghost `planned` and `n` track how far along the plan it is. */
  method Update(remote: Server, history: seq<Call>, data: Hostname, previousData: Hostname)
    returns (r: Result<Hostname>, issued: seq<Call>)
    ensures Run(r, issued) == UpdateSpec(remote, history, data, previousData)
  {
    issued := [];
    var pullzoneId := data.pullzoneId;
    if pullzoneId == 0 {
      return Failure(PullzoneRequired), issued;
    }
    if data.isSystemHostname && previousData.hasCertificate && !data.hasCertificate {
      return Failure(InternalCertificateRemoval), issued;
    }
    // the planned requests, of which the first `n` have been issued and accepted
    ghost var planned := Requests(data, Diff(data, previousData));
    ghost var n := 0;
    PlannedRequests(data, previousData);
    assert issued == Calls(planned[..n]);

    // remove the existing certificate
    if !data.isSystemHostname && previousData.hasCertificate && !data.hasCertificate {
      var req := RemoveCertificate(pullzoneId, data.name);
      var resp := remote.doRequest(history + issued, req);
      assert req == planned[n];
      CallsSnoc(planned, n);
      if resp.TransportFailed? || resp.statusCode != StatusNoContent {
        UpdateStopsAt(remote, history, data, previousData, n);
      }
      issued := issued + [Http(req)];
      if resp.TransportFailed? {
        return Failure(TransportError(resp.message)), issued;
      }
      if resp.statusCode != StatusNoContent {
        return Failure(UnexpectedStatus(req, resp.status)), issued;
      }
      AcceptedStep(remote, history, planned, n);
      n := n + 1;
    }

    // load a free certificate
    if !data.isSystemHostname && !previousData.hasCertificate && data.hasCertificate {
      var req := LoadFreeCertificate(data.name);
      var resp := remote.doRequest(history + issued, req);
      assert req == planned[n];
      CallsSnoc(planned, n);
      if resp.TransportFailed? || resp.statusCode != StatusOK {
        UpdateStopsAt(remote, history, data, previousData, n);
      }
      issued := issued + [Http(req)];
      if resp.TransportFailed? {
        return Failure(TransportError(resp.message)), issued;
      }
      if resp.statusCode != StatusOK {
        return Failure(UnexpectedStatus(req, resp.status)), issued;
      }
      AcceptedStep(remote, history, planned, n);
      n := n + 1;
    }

    // force SSL
    {
      var req := SetForceSsl(pullzoneId, data.name, data.forceSsl);
      var resp := remote.doRequest(history + issued, req);
      assert req == planned[n];
      CallsSnoc(planned, n);
      if resp.TransportFailed? || resp.statusCode != StatusNoContent {
        UpdateStopsAt(remote, history, data, previousData, n);
      }
      issued := issued + [Http(req)];
      if resp.TransportFailed? {
        return Failure(TransportError(resp.message)), issued;
      }
      if resp.statusCode != StatusNoContent {
        return Failure(UnexpectedStatus(req, resp.status)), issued;
      }
      AcceptedStep(remote, history, planned, n);
      n := n + 1;
    }

    assert planned[..n] == planned;
    UpdateAllAccepted(remote, history, data, previousData);
    var read, more := Get(remote, history + issued, pullzoneId, data.id);
    return read, issued + more;
  }

  /** Create: add, re-read, scan the listing for the name, delegate to Update. */
  method Create(remote: Server, history: seq<Call>, data: Hostname)
    returns (r: Result<Hostname>, issued: seq<Call>)
    ensures Run(r, issued) == CreateSpec(remote, history, data)
  {
    issued := [];
    var pullzoneId := data.pullzoneId;
    if pullzoneId == 0 {
      return Failure(PullzoneRequired), issued;
    }
    var req := AddHostname(pullzoneId, data.name);
    var resp := remote.doRequest(history, req);
    issued := [Http(req)];
    if resp.TransportFailed? {
      return Failure(TransportError(resp.message)), issued;
    }
    if resp.statusCode != StatusNoContent {
      return Failure(UnexpectedStatus(req, resp.status)), issued;
    }

    var pullzone := remote.getPullzone(history + issued, pullzoneId);
    issued := issued + [ReadPullzone(pullzoneId)];
    if pullzone.ReadFailed? {
      return Failure(ReadError(pullzone.message)), issued;
    }
    var hostnames := pullzone.hostnames;
    var i := 0;
    while i < |hostnames|
      invariant 0 <= i <= |hostnames|
      invariant forall j :: 0 <= j < i ==> hostnames[j].name != data.name
    {
      var hostname := hostnames[i];
      if hostname.name == data.name {
        assert Matches(hostnames[i], ByName(data.name));
        assert FindFirst(hostnames, ByName(data.name)) == Some(i);
        var previousData := Snapshot(hostname);
        hostname := Overlay(hostname, data);
        var updated, more := Update(remote, history + issued, hostname, previousData);
        assert Verdict(remote, history, req).Pass?;
        assert remote.getPullzone(history + [Http(req)], pullzoneId) == Listed(hostnames);
        assert issued == [Http(req), ReadPullzone(pullzoneId)];
        return updated, issued + more;
      }
      i := i + 1;
    }
    return Failure(HostnameNotFound), issued;
  }

  /** Delete: one remove-hostname call; success exactly on 204, otherwise the bare status
      line (or the transport error) is the failure. No zone-id check is made. */
  method Delete(remote: Server, history: seq<Call>, pullzoneId: int64, hostname: string)
    returns (o: Outcome, issued: seq<Call>)
    ensures issued == [Http(RemoveHostname(pullzoneId, hostname))]
    ensures var reply := remote.doRequest(history, RemoveHostname(pullzoneId, hostname));
      o.Pass? <==> reply.Responded? && reply.statusCode == StatusNoContent
    ensures var reply := remote.doRequest(history, RemoveHostname(pullzoneId, hostname));
      reply.TransportFailed? ==> o == Fail(TransportError(reply.message))
    ensures var reply := remote.doRequest(history, RemoveHostname(pullzoneId, hostname));
      o.Fail? && reply.Responded? ==> Message(o.error) == reply.status
  {
    var req := RemoveHostname(pullzoneId, hostname);
    var resp := remote.doRequest(history, req);
    issued := [Http(req)];
    if resp.TransportFailed? {
      return Fail(TransportError(resp.message)), issued;
    }
    if resp.statusCode != StatusNoContent {
      return Fail(UnexpectedStatus(req, resp.status)), issued;
    }
    return Pass, issued;
  }
}
