/** What the reconciler's operations promise, proved about their reference definitions
    (each operation's method is proved equal to its reference definition). */
module Properties {
  import opened Hostnames
  import opened Remote
  import opened Plan
  import opened Reconciler

  // ---------------------------------------------------------------------------------------
  // Helpers about call lists

  lemma CallsPrefix(reqs: seq<Request>, m: nat)
    requires m <= |reqs|
    ensures Calls(reqs[..m]) <= Calls(reqs)
  {
  }

  lemma CallsIn(reqs: seq<Request>, req: Request)
    ensures Http(req) in Calls(reqs) <==> req in reqs
  {
    if req in reqs {
      var k :| 0 <= k < |reqs| && reqs[k] == req;
      assert Calls(reqs)[k] == Http(req);
    }
  }

  /** Which action puts which request into the planned requests of `desired`. */
  lemma RequestsIn(desired: Hostname, plan: seq<Action>)
    ensures RemoveCertificate(desired.pullzoneId, desired.name) in Requests(desired, plan) <==> DropCertificate in plan
    ensures LoadFreeCertificate(desired.name) in Requests(desired, plan) <==> ProvisionFreeCertificate in plan
    ensures SetForceSsl(desired.pullzoneId, desired.name, desired.forceSsl) in Requests(desired, plan) <==>
      ApplyForceSsl(desired.forceSsl) in plan
  {
    var reqs := Requests(desired, plan);
    if DropCertificate in plan {
      var k :| 0 <= k < |plan| && plan[k] == DropCertificate;
      assert reqs[k] == RemoveCertificate(desired.pullzoneId, desired.name);
    }
    if ProvisionFreeCertificate in plan {
      var k :| 0 <= k < |plan| && plan[k] == ProvisionFreeCertificate;
      assert reqs[k] == LoadFreeCertificate(desired.name);
    }
    if ApplyForceSsl(desired.forceSsl) in plan {
      var k :| 0 <= k < |plan| && plan[k] == ApplyForceSsl(desired.forceSsl);
      assert reqs[k] == SetForceSsl(desired.pullzoneId, desired.name, desired.forceSsl);
    }
  }

  // ---------------------------------------------------------------------------------------
  // Update

  /** The two checks made before any remote call: a missing zone id, then the policy guard
      against stripping a system hostname's certificate. */
  lemma UpdateGuards(remote: Server, history: seq<Call>, desired: Hostname, before: Hostname)
    ensures desired.pullzoneId == 0 ==>
      UpdateSpec(remote, history, desired, before) == Run(Failure(PullzoneRequired), [])
    ensures desired.pullzoneId != 0 && desired.isSystemHostname && before.hasCertificate && !desired.hasCertificate ==>
      UpdateSpec(remote, history, desired, before) == Run(Failure(InternalCertificateRemoval), [])
    ensures UpdateSpec(remote, history, desired, before).issued == [] ==>
      desired.pullzoneId == 0 || StripsInternalCertificate(desired, before)
  {
  }

  /** Past the guards, an update issues a non-empty prefix of its planned calls (optional
      certificate request, force-SSL, zone re-read), and all of them when it succeeds. */
  lemma {:induction false} UpdateIssuesPlannedPrefix(remote: Server, history: seq<Call>, desired: Hostname, before: Hostname)
    requires desired.pullzoneId != 0 && !StripsInternalCertificate(desired, before)
    ensures var run := UpdateSpec(remote, history, desired, before);
      1 <= |run.issued| && run.issued <= PlannedCalls(desired, before)
    ensures var run := UpdateSpec(remote, history, desired, before);
      run.result.Success? ==> run.issued == PlannedCalls(desired, before)
  {
    var reqs := Requests(desired, Diff(desired, before));
    var steps := Perform(remote, history, reqs);
    CallsPrefix(reqs, |steps.issued|);
    if steps.result.Pass? {
      assert reqs[..|reqs|] == reqs;
    }
  }

  /** removeCertificate is issued only when a non-system hostname had a certificate and is
      to have none, loadFreeCertificate only when it had none and is to have one; so never
      both. Once the zone id is present, each is issued exactly when its condition holds, as
      the first call, even when the remote then rejects it. A successful update also issued
      force-SSL with the desired flag. */
  lemma UpdateCertificateCalls(remote: Server, history: seq<Call>, desired: Hostname, before: Hostname)
    ensures var run := UpdateSpec(remote, history, desired, before);
      Http(RemoveCertificate(desired.pullzoneId, desired.name)) in run.issued ==>
        !desired.isSystemHostname && before.hasCertificate && !desired.hasCertificate
    ensures var run := UpdateSpec(remote, history, desired, before);
      Http(LoadFreeCertificate(desired.name)) in run.issued ==>
        !desired.isSystemHostname && !before.hasCertificate && desired.hasCertificate
    ensures var run := UpdateSpec(remote, history, desired, before);
      !(Http(RemoveCertificate(desired.pullzoneId, desired.name)) in run.issued &&
        Http(LoadFreeCertificate(desired.name)) in run.issued)
    ensures var run := UpdateSpec(remote, history, desired, before);
      run.result.Success? ==>
        && (Http(RemoveCertificate(desired.pullzoneId, desired.name)) in run.issued <==>
              !desired.isSystemHostname && before.hasCertificate && !desired.hasCertificate)
        && (Http(LoadFreeCertificate(desired.name)) in run.issued <==>
              !desired.isSystemHostname && !before.hasCertificate && desired.hasCertificate)
        && Http(SetForceSsl(desired.pullzoneId, desired.name, desired.forceSsl)) in run.issued
    ensures var run := UpdateSpec(remote, history, desired, before);
      desired.pullzoneId != 0 ==>
        (Http(RemoveCertificate(desired.pullzoneId, desired.name)) in run.issued <==>
           !desired.isSystemHostname && before.hasCertificate && !desired.hasCertificate)
    ensures var run := UpdateSpec(remote, history, desired, before);
      desired.pullzoneId != 0 ==>
        (Http(LoadFreeCertificate(desired.name)) in run.issued <==>
           !desired.isSystemHostname && !before.hasCertificate && desired.hasCertificate)
  {
    var run := UpdateSpec(remote, history, desired, before);
    if desired.pullzoneId != 0 && !StripsInternalCertificate(desired, before) {
      var plan := Diff(desired, before);
      var reqs := Requests(desired, plan);
      var planned := PlannedCalls(desired, before);
      UpdateIssuesPlannedPrefix(remote, history, desired, before);
      RequestsIn(desired, plan);
      CallsIn(reqs, RemoveCertificate(desired.pullzoneId, desired.name));
      CallsIn(reqs, LoadFreeCertificate(desired.name));
      CallsIn(reqs, SetForceSsl(desired.pullzoneId, desired.name, desired.forceSsl));
      assert plan[|plan| - 1] in plan;
      forall c | c in run.issued ensures c in planned {
        var k :| 0 <= k < |run.issued| && run.issued[k] == c;
        assert planned[k] == c;
      }
      assert planned == Calls(reqs) + [ReadPullzone(desired.pullzoneId)];
      // The certificate request, when planned, is the first call, so even a run that then
      // fails has issued it.
      PlannedRequests(desired, before);
      assert run.issued[0] == planned[0];
      assert run.issued[0] in run.issued;
    }
  }

  /** Past the guards, an update succeeds exactly when the remote accepts every planned
      request in turn and the final Get by the desired id succeeds; its result is then that
      Get's result. */
  lemma UpdateSucceedsIffAllAccepted(remote: Server, history: seq<Call>, desired: Hostname, before: Hostname)
    requires desired.pullzoneId != 0 && !StripsInternalCertificate(desired, before)
    ensures var reqs := Requests(desired, Diff(desired, before));
      var read := GetSpec(remote, history + Calls(reqs), desired.pullzoneId, desired.id);
      UpdateSpec(remote, history, desired, before).result.Success? <==>
        Accepted(remote, history, reqs, |reqs|) && read.result.Success?
    ensures var reqs := Requests(desired, Diff(desired, before));
      var read := GetSpec(remote, history + Calls(reqs), desired.pullzoneId, desired.id);
      UpdateSpec(remote, history, desired, before).result.Success? ==>
        UpdateSpec(remote, history, desired, before).result == read.result
  {
    var reqs := Requests(desired, Diff(desired, before));
    PerformPassesIffAccepted(remote, history, reqs);
    if Accepted(remote, history, reqs, |reqs|) {
      UpdateAllAccepted(remote, history, desired, before);
    }
  }

  /** An update that fails before its re-read fails with the error of its last call, every
      earlier call having been accepted; nothing after the failing call is issued. */
  lemma UpdateFailsAtLastCall(remote: Server, history: seq<Call>, desired: Hostname, before: Hostname)
    requires desired.pullzoneId != 0 && !StripsInternalCertificate(desired, before)
    requires var reqs := Requests(desired, Diff(desired, before));
      |UpdateSpec(remote, history, desired, before).issued| <= |reqs|
    ensures var reqs := Requests(desired, Diff(desired, before));
      var run := UpdateSpec(remote, history, desired, before);
      var n := |run.issued| - 1;
      && 0 <= n
      && Accepted(remote, history, reqs, n)
      && Verdict(remote, history + Calls(reqs[..n]), reqs[n]).Fail?
      && run.result == Failure(Verdict(remote, history + Calls(reqs[..n]), reqs[n]).error)
  {
    var reqs := Requests(desired, Diff(desired, before));
    PerformAccepted(remote, history, reqs);
  }

  // ---------------------------------------------------------------------------------------
  // Get

  /** Get reads the zone once and returns its first entry with the id, stamped with the zone
      id and otherwise unchanged; with no such entry it reports "Hostname not found". */
  lemma GetFindsFirstById(remote: Server, history: seq<Call>, pullzoneId: int64, id: int64)
    ensures GetSpec(remote, history, pullzoneId, id).issued == [ReadPullzone(pullzoneId)]
    ensures remote.getPullzone(history, pullzoneId).ReadFailed? ==>
      GetSpec(remote, history, pullzoneId, id).result ==
        Failure(ReadError(remote.getPullzone(history, pullzoneId).message))
    ensures remote.getPullzone(history, pullzoneId).Listed? ==>
      var hostnames := remote.getPullzone(history, pullzoneId).hostnames;
      var r := GetSpec(remote, history, pullzoneId, id).result;
      && (r.Success? <==> exists j :: 0 <= j < |hostnames| && hostnames[j].id == id)
      && (r.Failure? ==> r.error == HostnameNotFound)
      && (r.Success? ==>
            exists i :: && 0 <= i < |hostnames| && hostnames[i].id == id
                        && (forall j :: 0 <= j < i ==> hostnames[j].id != id)
                        && r.value == hostnames[i].(pullzoneId := pullzoneId))
  {
    var reply := remote.getPullzone(history, pullzoneId);
    if reply.Listed? {
      var hostnames := reply.hostnames;
      var r := GetSpec(remote, history, pullzoneId, id).result;
      match FindFirst(hostnames, ById(id))
      case None =>
        assert forall j :: 0 <= j < |hostnames| ==> !Matches(hostnames[j], ById(id));
      case Some(i) =>
        assert Matches(hostnames[i], ById(id));
        assert forall j :: 0 <= j < i ==> !Matches(hostnames[j], ById(id));
    }
  }

  // ---------------------------------------------------------------------------------------
  // Create

  /** The entry a create delegates to: the first one of the re-read listing with the name. */
  ghost predicate CreateReachesEntry(remote: Server, history: seq<Call>, desired: Hostname, entry: Hostname)
  {
    var add := AddHostname(desired.pullzoneId, desired.name);
    var listing := remote.getPullzone(history + [Http(add)], desired.pullzoneId);
    && desired.pullzoneId != 0
    && Verdict(remote, history, add).Pass?
    && listing.Listed?
    && FindFirst(listing.hostnames, ByName(desired.name)).Some?
    && entry == listing.hostnames[FindFirst(listing.hostnames, ByName(desired.name)).value]
  }

  /** Create fails on a missing zone id before any call; otherwise its first call is
      addHostname, and an unaccepted answer ends it with that call's error. */
  lemma CreateAddsFirst(remote: Server, history: seq<Call>, desired: Hostname)
    ensures desired.pullzoneId == 0 ==> CreateSpec(remote, history, desired) == Run(Failure(PullzoneRequired), [])
    ensures var add := AddHostname(desired.pullzoneId, desired.name);
      var run := CreateSpec(remote, history, desired);
      desired.pullzoneId != 0 ==>
        && 1 <= |run.issued| && run.issued[0] == Http(add)
        && (Verdict(remote, history, add).Fail? ==>
              run == Run(Failure(Verdict(remote, history, add).error), [Http(add)]))
  {
  }

  /** After an accepted add, create re-reads the zone; when no entry carries the name it
      reports "Hostname not found", and the zone-id check inside the update it delegates to
      can never fail. */
  lemma CreateAfterAdd(remote: Server, history: seq<Call>, desired: Hostname)
    requires desired.pullzoneId != 0
    requires Verdict(remote, history, AddHostname(desired.pullzoneId, desired.name)).Pass?
    ensures var add := AddHostname(desired.pullzoneId, desired.name);
      var issued := [Http(add), ReadPullzone(desired.pullzoneId)];
      var listing := remote.getPullzone(history + [Http(add)], desired.pullzoneId);
      var run := CreateSpec(remote, history, desired);
      && 2 <= |run.issued| && run.issued[..2] == issued
      && (listing.Listed? && (forall j :: 0 <= j < |listing.hostnames| ==> listing.hostnames[j].name != desired.name) ==>
            run == Run(Failure(HostnameNotFound), issued))
    ensures CreateSpec(remote, history, desired).result != Failure(PullzoneRequired)
  {
    var add := AddHostname(desired.pullzoneId, desired.name);
    var listing := remote.getPullzone(history + [Http(add)], desired.pullzoneId);
    if listing.Listed? {
      var hostnames := listing.hostnames;
      match FindFirst(hostnames, ByName(desired.name))
      case None =>
      case Some(i) =>
        assert Matches(hostnames[i], ByName(desired.name));
    }
  }

  /** Create updates the first entry with the name, from a snapshot holding only that
      entry's certificate flag, to the entry with the caller's certificate and force-SSL
      flags and zone id, keeping the entry's id and system flag. */
  lemma CreateUpdatesEntry(remote: Server, history: seq<Call>, desired: Hostname, entry: Hostname)
    requires CreateReachesEntry(remote, history, desired, entry)
    ensures var issued := [Http(AddHostname(desired.pullzoneId, desired.name)), ReadPullzone(desired.pullzoneId)];
      var update := UpdateSpec(remote, history + issued, Overlay(entry, desired), Snapshot(entry));
      && CreateSpec(remote, history, desired) == Run(update.result, issued + update.issued)
      && Overlay(entry, desired) ==
           Hostname(entry.id, desired.pullzoneId, desired.name, entry.isSystemHostname,
                    desired.hasCertificate, desired.forceSsl)
  {
    assert Matches(entry, ByName(desired.name));
  }

  /** A successful create issued addHostname, the re-read, and then exactly the planned
      calls of the update from the entry's snapshot: a free certificate is loaded exactly
      when the entry is a non-system hostname without one and the caller asks for one. */
  lemma CreateTrace(remote: Server, history: seq<Call>, desired: Hostname, entry: Hostname)
    requires CreateReachesEntry(remote, history, desired, entry)
    requires CreateSpec(remote, history, desired).result.Success?
    ensures var issued := CreateSpec(remote, history, desired).issued;
      && issued == [Http(AddHostname(desired.pullzoneId, desired.name)), ReadPullzone(desired.pullzoneId)]
                   + PlannedCalls(Overlay(entry, desired), Snapshot(entry))
      && (Http(LoadFreeCertificate(desired.name)) in issued <==>
            !entry.isSystemHostname && !entry.hasCertificate && desired.hasCertificate)
      && (Http(RemoveCertificate(desired.pullzoneId, desired.name)) in issued <==>
            !entry.isSystemHostname && entry.hasCertificate && !desired.hasCertificate)
  {
    var add := AddHostname(desired.pullzoneId, desired.name);
    var prefix := [Http(add), ReadPullzone(desired.pullzoneId)];
    var overlay := Overlay(entry, desired);
    CreateUpdatesEntry(remote, history, desired, entry);
    UpdateIssuesPlannedPrefix(remote, history + prefix, overlay, Snapshot(entry));
    UpdateCertificateCalls(remote, history + prefix, overlay, Snapshot(entry));
  }

  // ---------------------------------------------------------------------------------------
  // An end-to-end run

  /** A remote that answers every request with its expected status and lists one hostname,
      a.example.com, without a certificate or forced SSL until four calls (add, read, load,
      force-SSL) have been made, and with both afterwards. */
  function ExampleRemote(): Server {
    Server(
      (h: seq<Call>, req: Request) =>
        if req.LoadFreeCertificate? then Responded(200, "200 OK") else Responded(204, "204 No Content"),
      (h: seq<Call>, z: int64) =>
        Listed([Hostname(7, 0, "a.example.com", false, |h| >= 4, |h| >= 4)]))
  }

  /** The update Create delegates to in the example: from the new entry's snapshot to the
      entry with a certificate and forced SSL in zone 5. */
  lemma ExampleUpdate(prefix: seq<Call>)
    requires |prefix| == 2
    ensures var entry := Hostname(7, 0, "a.example.com", false, false, false);
      var desired := Hostname(7, 5, "a.example.com", false, true, true);
      UpdateSpec(ExampleRemote(), prefix, desired, Snapshot(entry)) ==
        Run(Success(desired),
            [Http(LoadFreeCertificate("a.example.com")), Http(SetForceSsl(5, "a.example.com", true)),
             ReadPullzone(5)])
  {
    var remote := ExampleRemote();
    var entry := Hostname(7, 0, "a.example.com", false, false, false);
    var desired := Hostname(7, 5, "a.example.com", false, true, true);
    var load := LoadFreeCertificate("a.example.com");
    var force := SetForceSsl(5, "a.example.com", true);
    var reqs := Requests(desired, Diff(desired, Snapshot(entry)));
    PlannedRequests(desired, Snapshot(entry));
    assert reqs == [load, force];
    assert Verdict(remote, prefix + Calls(reqs[..0]), reqs[0]).Pass?;
    assert Verdict(remote, prefix + Calls(reqs[..1]), reqs[1]).Pass?;
    UpdateAllAccepted(remote, prefix, desired, Snapshot(entry));
    var final := prefix + [Http(load), Http(force)];
    assert prefix + Calls(reqs) == final;
    assert remote.getPullzone(final, 5) == Listed([desired.(pullzoneId := 0)]);
    assert FindFirst([desired.(pullzoneId := 0)], ById(7)) == Some(0);
  }

  /** Creating a.example.com in zone 5 with a certificate and forced SSL, against that
      remote: addHostname, re-read, loadFreeCertificate, setForceSSL(true), final read; the
      result has the certificate and forced SSL. */
  lemma CreateExample()
    ensures CreateSpec(ExampleRemote(), [], Hostname(0, 5, "a.example.com", false, true, true)) ==
      Run(Success(Hostname(7, 5, "a.example.com", false, true, true)),
          [Http(AddHostname(5, "a.example.com")), ReadPullzone(5),
           Http(LoadFreeCertificate("a.example.com")), Http(SetForceSsl(5, "a.example.com", true)),
           ReadPullzone(5)])
  {
    var remote := ExampleRemote();
    var desired := Hostname(0, 5, "a.example.com", false, true, true);
    var entry := Hostname(7, 0, "a.example.com", false, false, false);
    var add := [Http(AddHostname(5, "a.example.com"))];
    assert remote.getPullzone(add, 5) == Listed([entry]);
    assert FindFirst([entry], ByName("a.example.com")) == Some(0);
    assert CreateReachesEntry(remote, [], desired, entry);
    CreateUpdatesEntry(remote, [], desired, entry);
    ExampleUpdate([Http(AddHostname(5, "a.example.com")), ReadPullzone(5)]);
  }
}
