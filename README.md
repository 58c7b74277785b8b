# Pull zone hostname reconciler

A Dafny model of the hostname operations of the bunny.net Terraform provider's API client
(`internal/api/pullzone_hostname.go`): creating a hostname on a CDN pull zone, reconciling its
certificate and force-SSL state (Update), looking it up by id (Get) and removing it (Delete).

The remote management API is abstracted as a value `Remote.Server` holding two oracles:
`doRequest`, which answers an HTTP request with a status code and status line or a transport
error, and `getPullzone`, which answers a zone read with the zone's hostname listing or an
error. Each oracle is given every call issued before it in the session, so any behaviour of the
server (including one that changes its answers as the hostname is modified) is some value of
that type. Requests are abstract tagged values (operation, zone id, hostname, force-SSL flag);
URLs, HTTP methods and JSON bodies are not modelled.

Each operation is a method that issues its calls in order, early-returning on the first error,
and returns its result together with the list of calls it issued. Get, Update and Create are
each proved equal to a reference function; Delete's `ensures` state its behaviour directly:

- `Reconciler.GetSpec`: one zone read, then `Hostnames.FindFirst` by id.
- `Reconciler.UpdateSpec`: the two guards, then the diff step `Plan.Diff`, which turns the
  system flag, the "before" certificate flag and the desired record into an ordered action
  list, its requests run through the generic executor `Remote.Perform` (which stops at the
  first request not answered with its expected status), and finally a Get by the desired id.
  `Reconciler.Update` itself is written as the source's inline steps (the two conditional
  certificate steps and the unconditional force-SSL step), so its `ensures` is the proof that
  the inline code and the plan-driven definition agree.
- `Reconciler.CreateSpec`: addHostname, a zone read, `FindFirst` by name, and an update of
  the found entry from its snapshot (`Reconciler.Snapshot`, only the certificate flag) to the
  overlaid record (`Reconciler.Overlay`: the caller's certificate and force-SSL flags and
  zone id over the entry, whose id, name and system flag are kept).

The properties are proved about these functions in `properties.dfy`, `remote.dfy`,
`plan.dfy` and `hostnames.dfy`.

The error texts are the code's own ("pullzone is required", "Hostname not found", and
"forceSSL failed with ..." for the force-SSL step); Get and Delete make no zone-id check. A
failed zone read is reported as `ReadError`, a failed HTTP transport as `TransportError`; both
pass the underlying message through unchanged.

Files: `hostnames.dfy` (record, searches), `remote.dfy` (requests, oracles, errors, executor),
`plan.dfy` (diff step), `reconciler.dfy` (reference definitions and the four operations),
`properties.dfy` (properties and an end-to-end example).

## Model

| member | source | states |
|---|---|---|
| `Hostnames.FindFirst` | internal/api/pullzone_hostname.go:137-144 | the index returned holds a matching entry and no earlier entry matches; no index exactly when no entry matches (used by id for Get and by name for Create) |
| `Hostnames.FindByNameUnique` | internal/api/pullzone_hostname.go:51-53 | when names in the listing are unique, the search by name finds the one entry that carries it |
| `Remote.ExpectedStatus` | internal/api/pullzone_hostname.go:102 | loading a free certificate expects 200; every other request expects 204 |
| `Remote.Message` | internal/api/pullzone_hostname.go:161-163 | a failed status's error text ends with the raw status line, and for remove-hostname is exactly it; a transport or zone-read error's text is passed through |
| `Remote.Verdict` | internal/api/pullzone_hostname.go:85-92 | a call passes exactly when the remote answers with the expected status; a transport error or another status becomes the matching error |
| `Remote.Perform` | internal/api/pullzone_hostname.go:85-126 | the requests issued are the first ones of the list, in order; a passing run issued all of them; a failing run issued at least one |
| `Remote.PerformAccepted` | internal/api/pullzone_hostname.go:85-126 | a passing run had every request accepted; a failing run had all but its last accepted and fails with the last one's verdict |
| `Remote.PerformAllAccepted` | internal/api/pullzone_hostname.go:85-126 | when every request is accepted, the run passes having issued them all |
| `Remote.PerformStopsAt` | internal/api/pullzone_hostname.go:85-126 | when the first n requests are accepted and request n is not, exactly n+1 requests are issued and the run fails with request n's verdict |
| `Remote.PerformPassesIffAccepted` | internal/api/pullzone_hostname.go:85-126 | a run passes if and only if every request is accepted |
| `Plan.Diff` | internal/api/pullzone_hostname.go:75-126 | the plan ends in exactly one force-SSL action carrying the desired flag; it holds the removal iff non-system, before with certificate and desired without, and the free certificate iff non-system, before without and desired with; at most two actions |
| `Plan.CertificateUntouchedWhenUnchanged` | internal/api/pullzone_hostname.go:76-96 | when the certificate flag does not change, the plan is force-SSL alone |
| `Plan.SystemHostnameCertificateUntouched` | internal/api/pullzone_hostname.go:71-96 | for a system hostname the plan is force-SSL alone |
| `Reconciler.PlannedRequests` | internal/api/pullzone_hostname.go:75-126 | the planned requests position by position: the certificate request (if any) first, force-SSL last |
| `Reconciler.UpdateStopsAt` | internal/api/pullzone_hostname.go:85-126 | past the guards, the first planned request the remote does not accept ends the update: exactly the requests up to it are issued and its error is returned |
| `Reconciler.UpdateAllAccepted` | internal/api/pullzone_hostname.go:107-128 | past the guards, when all planned requests are accepted, they are all issued and the update returns the Get by the desired id |
| `Reconciler.Get` | internal/api/pullzone_hostname.go:131-145 | its result and issued calls equal GetSpec |
| `Reconciler.Update` | internal/api/pullzone_hostname.go:65-129 | its result and issued calls equal the plan-driven UpdateSpec |
| `Reconciler.Create` | internal/api/pullzone_hostname.go:23-63 | its result and issued calls equal CreateSpec |
| `Reconciler.Delete` | internal/api/pullzone_hostname.go:147-166 | issues one remove-hostname call; succeeds exactly on status 204; a transport error is passed through; any other status fails with the raw status line as the message |
| `Properties.UpdateGuards` | internal/api/pullzone_hostname.go:66-73 | a zero zone id fails with "pullzone is required", and otherwise stripping a system hostname's certificate fails with the policy error, both with no call issued; no call is issued only in those cases |
| `Properties.UpdateIssuesPlannedPrefix` | internal/api/pullzone_hostname.go:75-128 | past the guards, the calls issued are a non-empty prefix of: optional certificate request, force-SSL, zone re-read; all of them on success |
| `Properties.UpdateCertificateCalls` | internal/api/pullzone_hostname.go:76-105 | removeCertificate is issued only when non-system, before with and desired without a certificate; loadFreeCertificate only when non-system, before without and desired with; never both; with a non-zero zone id each is issued iff its condition holds, even on a failing run (it is the first call); on success force-SSL with the desired flag was issued |
| `Properties.UpdateSucceedsIffAllAccepted` | internal/api/pullzone_hostname.go:85-128 | past the guards, an update succeeds iff every planned request is accepted in turn and the final Get succeeds, and then returns that Get's result |
| `Properties.UpdateFailsAtLastCall` | internal/api/pullzone_hostname.go:85-126 | an update that stops before the re-read fails with the error of its last call, all earlier calls accepted |
| `Properties.GetFindsFirstById` | internal/api/pullzone_hostname.go:131-145 | Get reads the zone once; a read error is passed through; it succeeds iff some entry has the id, returning the first such entry with the zone id stamped and all other fields unchanged; otherwise "Hostname not found" |
| `Properties.CreateAddsFirst` | internal/api/pullzone_hostname.go:24-44 | a zero zone id fails with "pullzone is required" before any call; otherwise addHostname is the first call and a non-204 answer or transport error ends the create with that error |
| `Properties.CreateAfterAdd` | internal/api/pullzone_hostname.go:46-62 | after an accepted add the zone is re-read; no entry with the name gives "Hostname not found"; the create never reports a missing zone id after the add |
| `Properties.CreateUpdatesEntry` | internal/api/pullzone_hostname.go:51-58 | the first entry with the name is updated from a snapshot of its certificate flag to the entry with the caller's certificate flag, force-SSL flag and zone id, keeping its id, name and system flag |
| `Properties.CreateTrace` | internal/api/pullzone_hostname.go:42-58 | a successful create issued addHostname, the re-read and then exactly the planned calls of the delegated update; a free certificate was loaded iff the entry is non-system without a certificate and the caller wants one |
| `Properties.ExampleUpdate` | internal/api/pullzone_hostname.go:65-128 | in the example, the delegated update loads the free certificate, sets force-SSL and returns the entry with both flags |
| `Properties.CreateExample` | internal/api/pullzone_hostname.go:23-63 | creating a.example.com in zone 5 with certificate and forced SSL issues addHostname, read, loadFreeCertificate, setForceSSL(true), read, and returns the hostname with both flags set |

## Left out

- JSON marshalling: `json.Marshal` of the fixed small request maps cannot fail, so its error branches (lines 29-35, 77-83, 109-116, 148-154) are not modelled; nor are JSON field tags.
- URL construction, the API base URL, HTTP methods and request bodies: a request is an abstract tagged value. The hostname in the loadFreeCertificate query string is not escaped by the source; the model does not reason about URL text.
- The implementations of `doRequest` and `GetPullzone` are not part of this model: they are the oracles of `Remote.Server`. Response bodies are not inspected by the source and are not modelled.
- The zero-valued record returned beside every error in the source: the model returns `Failure(error)` without a record.
- Error wrapping is modelled as an `Error` datatype; `Remote.Message` gives the texts the source builds.
- Concurrency, retries, timeouts and races between the add and the re-read: none exist in this code.
- Identifiers are Go `int64` values (a newtype); the source does no arithmetic on them.
