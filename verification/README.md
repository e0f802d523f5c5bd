# Deployments, previews and routing, verified

Plorigo deploys services onto servers it does not own. A control plane keeps rows of deployments and
hands them out; on each server an agent turns a row into a Docker container and tells one Caddy process
which host forwards to which port. A preview is a second, short-lived deployment of a service, built from
a branch or a pull request, with a routing key, a host and a network of its own.

This project models that protocol in Dafny and proves what it keeps: over every run, for every way Docker,
git, the app, the file system and Caddy may answer, and for every string a name can be built from.

## How the model is laid out

- `Text`, `Hostnames`, `PreviewNames`: strings as Go treats them (folding, trimming, splitting, decimal
  printing, byte order), the host names that are accepted, and the names a preview is known by.
- `Routes`, `Caddyfile`, `CaddyManager`: one route per label, its rendering and a reader for it, and the
  `apply` that validates, renames, reloads, starts or restores.
- `Docker`, `RouteSync`: labels, listing and removal; the control plane's answer to a route sync and what
  the agent makes of it.
- `Serving`, `Attempts`, `Agent`: what Caddy serves and what runs behind it; what one attempt does, as a
  relation; and the agent's loops, whose every intermediate state is recorded.
- `Deploying`, `Rebuild`, `Syncing`, `TearingDown`: what one attempt keeps and leaves.
- `Sites`, `Addresses`, `Forwarding`, `Isolation`, `WholeRuns`: which sites and addresses a configuration serves, where
  a generated one leads, and that no site leads nowhere, after one attempt and over every run of deploys, teardowns and syncs.
- `Counterexamples`: servers and attempts after which something one would like to hold does not.
- `Images`, `Tables`, `ControlPlane`, `Records`, `Histories`: image references, the SQL statements, the service's
  requests, what they write and hand out field by field, and every run of them.
- `LineEmitter`, `LogTail`: output cut into lines, and the log tail's cursors.
- `ShellQuote`, `SetupSteps`, `Setup`: quoting for a remote shell, and the six steps that prepare a server.
- `Membership`, `ConfigEnv`: roles read outside the transaction that writes them, and the environment of a
  container.

Code that works step by step is a class or a method with the source's own loops; its contract ties the new
state to a specification function, or to a relation where the order in which Docker or a Go map lists
things is left open. Pure code is functions. What is proved about runs is proved about those functions and
relations.

## Where a plain reading fails

Several things one would like to hold do not. Each has an exact condition, and most a concrete input.

- A `running` report without a port does not supersede. Private services report no port, so redeploying one
  leaves two running rows (`Histories.ReportKeepsOneRunningExactly`, `Histories.PrivateRedeployDoubles`).
- `torndown` is called terminal in `internal/deployments/teardown.go:24-26`, but an accepted report on the
  row revives it (`Histories.TornDownExactly`, `Histories.TornDownRevives`).
- A redelivered pull-request close is called a no-op in `internal/deployments/webhook.go:45-48`. It is one
  only if no row of the key had failed or been superseded: those count as active
  (`Histories.RedeliveredCloseExactly`, `Histories.FailedRowOutlivesTheClose`).
- Rolling back a preview always inserts a production row (`Histories.RollbackIsProduction`).
- An image that was deployed can be refused as the target of a rollback, because the default tag was added after
  its length was checked (`Histories.RollbackRefusedExactly`, `Images.LongNameRefused`).
- A claimed production row whose secrets cannot be opened is handed to nobody, now or later
  (`Histories.StuckForGood`, `Histories.SealedSecretSticks`).
- Distinct refs are said to stay distinct in `internal/deployments/service.go:730-733`. Their keys are distinct
  unless suffixes, or cut parts and hash tails, agree (`PreviewNames.KeysMeetExactly`); a branch whose slug is
  `pr-5` shares the key of pull request 5 (`PreviewNames.BranchMeetsPullRequest`,
  `PreviewNames.BranchNamedLikeAPullRequest`).
- Preview hosts are called collision-safe in `internal/deployments/service.go:783-787`. They tell pull requests apart
  only up to 42 characters of slug, nothing apart from 55 on, and services only by six digits of a hash
  (`PreviewNames.HostsInjectiveExact`, `PreviewNames.LongHostsMeet`, `PreviewNames.OneHostForAllExactly`,
  `PreviewNames.HostsMeetExactly`). Two running previews with one host give Caddy one address twice
  (`Addresses.AddressesDistinctExactly`, `Isolation.LongSlugPreviewsMeet`, `Counterexamples.TwoPreviewsOneAddress`).
- A restore that fails after truncating the Caddyfile may leave a file without the marker, which the agent
  then refuses for good (`CaddyManager.LosesFileExactly`, `CaddyManager.TruncatedRestoreLocksOut`).
- A container that a production deploy could not remove may win the tie-break and take production's address
  at the next apply (`Isolation.OwnDeployForwards`, `Isolation.OthersForwardToWinner`,
  `Counterexamples.LeftOverWinsBack`).
- A deploy or teardown serves generated hosts only; custom domains return with the next sync
  (`Isolation.OnlyGeneratedHosts`, `Syncing.SyncServesExactly`, `Counterexamples.RedeployDropsTheDomain`).
- A private deploy that replaces a public one leaves a route without a container
  (`Deploying.PrivateDeployLiveExactly`, `Counterexamples.PrivateRedeployLeavesADeadSite`).
- So does a teardown that removed a container and then could not list the rest or have Caddy load it
  (`TearingDown.HalfTeardownLiveExactly`, `Counterexamples.HalfTeardownLeavesADeadSite`).
- A teardown is called idempotent in `internal/agentcore/teardown.go:73-77`. The file a duplicate writes is the
  one there was, but if Caddy then neither reloads nor starts, and writing the file back is cut short, only its
  beginning is left (`TearingDown.SettledStays`, `TearingDown.DuplicatesKeepTheFileExactly`,
  `TearingDown.DuplicateMayCutTheFile`).
- While several containers of a service run, a sync routes its domains, and its generated address, to the one
  listed last, which need not be the winner (`RouteSync.DomainsReachTheWinnerExactly`,
  `RouteSync.ListingOrderMovesDomains`, `WholeRuns.SyncForwards`).
- A route that gets domains from a sync loses the password its container is labelled with. Only previews are ordered
  with one, and no sync gives them domains (`RouteSync.DesiredExactly`, `Records.ProductionExactly`,
  `Syncing.PreviewKeepsItsRoute`).
- A later owner can be demoted by a change that was checked before the promotion
  (`Membership.OwnerStaysExactly`, `Membership.LaterOwnerMayBeDemoted`).

## Assumptions

- One attempt of the agent is not interleaved with another; requests to the control plane are transactions.
- Ids are 36 characters of lower-case UUID text; SHA-256 in hex is any function to 64 hexadecimal digits;
  bcrypt's output is one token.
- What is said of a generated address over syncs (`WholeRuns`) supposes that no verified domain is that address, the
  service id or the preview's host before the base domain: `internal/domains/service.go` does not enforce it. Verified
  domains are in the form `NormalizeHostname` returns, in which that file stores them.
- Strings are sequences of Unicode scalar values. A length that is checked before the characters are, of a
  hostname or an image reference, is counted in bytes of UTF-8; other lengths are of ASCII text.
  Lower-casing maps the two non-ASCII letters whose lower case is ASCII (U+0130, U+212A) as Go does, and leaves
  other non-ASCII letters alone, which no check lets through.
- The daemon gives a new container an id that is not in use and not empty, and returns log lines from the
  cursor on and not from the future. Ticks of the log tail come at increasing times.
- Creation times never decrease from one insertion to the next.

## Model

| member | source | states |
|---|---|---|
| `Hostnames.NormalizeHostnameExact` | internal/domains/service.go:297-350 | exactly which hostnames the control plane accepts, and for every refusal exactly which error |
| `Hostnames.NormalizeHostnameFixed` | internal/domains/service.go:297-350 | an accepted hostname is a fixed point of the control plane's and of the agent's normalisation, and a valid domain for the agent |
| `Hostnames.SpellingIgnored` | internal/domains/service.go:297-350 | letter case, white space around a name and one dot at its end make no difference: what is accepted is the name in lower case |
| `Hostnames.DomainExactly` | internal/agentcore/caddy.go:366-402 | labels joined by dots are a valid domain exactly when each is a valid label and the whole has at most 253 characters |
| `Hostnames.LabelLimits` | internal/agentcore/caddy.go:385-402 | a label has 1 to 63 characters and neither starts nor ends with a dash |
| `Hostnames.NormalizeCustomHosts` | internal/agentcore/caddy.go:310-329 | the loops accept a list exactly when the specification does, and return its sorted distinct names |
| `Hostnames.CustomHostsExact` | internal/agentcore/caddy.go:310-329 | a custom-host list is accepted exactly when each normalised entry is; the result is the one ascending list of the distinct names |
| `Hostnames.AcceptedDomainsRoute` | internal/agentcore/caddy.go:310-329 | domains the control plane accepted never make the agent refuse, and come out as their own distinct entries in order |
| `Hostnames.CustomHostsValid` | internal/agentcore/caddy.go:366-402 | every host in an accepted list is a valid domain |
| `PreviewNames.SlugifySound` | internal/deployments/service.go:809-815 | every ref gives a non-empty slug of lower-case letters, digits and single inner dashes |
| `PreviewNames.SlugExactly` | internal/deployments/service.go:807-815 | a ref's slug is its words of letters and digits in lower case, joined by single dashes; "branch" if it has none |
| `PreviewNames.KeyShape` | internal/deployments/service.go:734-755 | every preview key is the service id, a dash, and the suffix, or for a suffix of more than 26 characters its first sixteen or seventeen and a hash tail of the whole; one valid DNS label |
| `PreviewNames.KeysMeetExactly` | internal/deployments/service.go:730-755 | two previews of a service share a key exactly when their suffixes agree; of over-long ones when both the cut parts and the hash tails do |
| `PreviewNames.KeyValid` | internal/deployments/service.go:734-755 | every preview key passes the agent's label check |
| `PreviewNames.KeysApart` | internal/deployments/service.go:730-755 | a preview key is never a service id, and keys of different services never meet |
| `PreviewNames.PullRequestKeys` | internal/deployments/webhook.go:56-58 | pull-request keys ignore the ref, so open and close agree, and are injective in the number |
| `PreviewNames.BranchMeetsPullRequest` | internal/deployments/service.go:734-738 | a branch takes a pull request's key exactly when its slug spells that request |
| `PreviewNames.BranchNamedLikeAPullRequest` | internal/deployments/service.go:734-738 | a concrete branch that shares the key of pull request 5 |
| `PreviewNames.HostValid` | internal/deployments/service.go:788-805 | every preview host is one valid DNS label, for any slug and ref, and never a service id |
| `PreviewNames.HostShape` | internal/deployments/service.go:783-805 | every preview host: the service's slug and the suffix, cut to 56 characters, and six digits of the hash of the service id |
| `PreviewNames.HostsInjectiveExact` | internal/deployments/service.go:788-805 | preview hosts are injective in the pull-request number exactly when the slug has at most 42 characters |
| `PreviewNames.LongHostsMeet` | internal/deployments/service.go:799-804 | two pull requests that share a host when the slug is longer |
| `PreviewNames.OneHostForAllExactly` | internal/deployments/service.go:788-805 | all previews of a service, whatever their refs and numbers, have one host exactly when its slug has at least 55 characters |
| `PreviewNames.HostsMeetExactly` | internal/deployments/service.go:783-805 | any two previews, also of two services, have one host exactly when the cut heads and six digits of the service ids' hashes agree |
| `PreviewNames.NetworksApart` | internal/deployments/service.go:710-722 | a preview network is never an environment network, and two keys never share one |
| `Routes.TieBreakTotal` | internal/agentcore/caddy.go:331-345 | the tie-break is antisymmetric and ties only on equal deployment and container |
| `Routes.TieBreakTransitive` | internal/agentcore/caddy.go:331-345 | the tie-break is transitive |
| `Routes.WinnersSound` | internal/agentcore/caddy.go:272-308 | the winners ascend strictly by label; every label has one, a maximum of the tie-break |
| `Routes.WinnersExact` | internal/agentcore/caddy.go:272-308 | without ties the winners are exactly the maxima |
| `Routes.NormalizeExact` | internal/agentcore/caddy.go:272-308 | normalisation fails exactly when a route is malformed or two winners of different labels share a custom host, and otherwise returns exactly the winners |
| `Routes.NormalizeOrderFree` | internal/agentcore/caddy.go:272-308 | success and result depend on the set of routes only |
| `Routes.CollectWinners` | internal/agentcore/caddy.go:272-294 | the first loop keeps exactly the winner of every label, or reports the first malformed route |
| `Routes.ClaimHosts` | internal/agentcore/caddy.go:295-304 | claiming a route's hosts clashes exactly when a route of another label holds one |
| `Routes.WalkWinners` | internal/agentcore/caddy.go:295-306 | walking the map in any order finds a clash exactly when winners share a host, and sorts to the winners |
| `Routes.NormalizeRoutes` | internal/agentcore/caddy.go:272-308 | the loops compute the specification whatever order the map is walked in |
| `Caddyfile.NormalizedPorts` | internal/agentcore/caddy.go:279-282 | every normalised port is between 1 and 65535 |
| `Caddyfile.RenderText` | internal/agentcore/caddy.go:231-270 | the builder loops write exactly the specified text, which `Sites.SitesExactly` and `Sites.HeadExactly` say in terms of the routes |
| `Caddyfile.WriteRoutes` | internal/agentcore/caddy.go:231-270 | the loop over routes, which stops at the first host that cannot be derived |
| `Caddyfile.WriteSites` | internal/agentcore/caddy.go:252-267 | the loop over a route's hosts appends one block each, with the route's auth pair |
| `Caddyfile.ReadBack` | internal/agentcore/caddy.go:231-270 | reading the generated file recovers the sequence of address, auth pair and port |
| `Caddyfile.RenderReadBack` | internal/agentcore/caddy.go:231-270 | for any routes whose auth fields are tokens, reading the rendering gives every normalised route's sites in order; what they are is `Sites.SitesExactly` |
| `Caddyfile.RenderIsManaged` | internal/agentcore/caddy.go:231-240 | every rendered file carries the marker |
| `Sites.SitesExactly` | internal/agentcore/caddy.go:231-364 | a rendered file serves exactly the hosts of the latest route of every label, its name under the base domain and its custom hosts, each at its plain HTTP address, behind the password the route has if its pair is whole, and at its port |
| `Sites.HeadExactly` | internal/agentcore/caddy.go:231-242 | every rendered file opens with the marker and a global block with the admin address and automatic HTTPS off |
| `CaddyManager.Manager.RestoreConfig` | internal/agentcore/caddy.go:218-229 | what the file is after each way restoring it can end |
| `CaddyManager.Manager.Install` | internal/agentcore/caddy.go:148-202 | validate, rename, then reload or start, and restore: the whole new state |
| `CaddyManager.Manager.Apply` | internal/agentcore/caddy.go:148-202 | one apply of a route list: the whole new state and outcome |
| `CaddyManager.StepOutcome` | internal/agentcore/caddy.go:148-202 | success leaves file and loaded configuration equal to the text; failure never changes what is loaded, and the file only when restoring failed |
| `CaddyManager.RunKeepsLastApplied` | internal/agentcore/caddy.go:148-202 | over any run whose restores worked, file and loaded configuration are the text of the last successful call |
| `CaddyManager.RunLoaded` | internal/agentcore/caddy.go:148-202 | over any run, restores or not, what is loaded is the text of the last successful call |
| `CaddyManager.ForeignFileKept` | internal/agentcore/caddy.go:204-216 | a file that is not the agent's is never touched and every call fails |
| `CaddyManager.LosesFileExactly` | internal/agentcore/caddy.go:204-229 | one call makes an acceptable file refusable exactly when it rendered, reached the reload, neither reloaded nor started, and its restore was cut before the end of the first marker in the file |
| `CaddyManager.RenderedFileLostExactly` | internal/agentcore/caddy.go:204-240 | a file the agent rendered is lost exactly when such a restore wrote back less than the marker |
| `CaddyManager.WrittenFileAccepted` | internal/agentcore/caddy.go:204-216 | over any run whose restores worked a file the agent wrote is never refused |
| `CaddyManager.AgentCallsRenderManaged` | internal/agentcore/caddy.go:231-240 | every call the agent makes renders a marked file |
| `CaddyManager.TruncatedRestoreLocksOut` | internal/agentcore/caddy.go:218-229 | a restore that fails after truncating the file makes every later call fail |
| `Docker.ContainerLabels` | internal/agentcore/docker.go:204-218 | the labels stamped on a container, value by value; an auth pair only when both parts are set |
| `Docker.FirstPublishedTCPPort` | internal/agentcore/docker.go:512-523 | the loop computes the specified port |
| `Docker.FirstPublishedExact` | internal/agentcore/docker.go:512-523 | the port of a published TCP binding with the lowest private port; 0 exactly when there is none |
| `Docker.ListManagedRoutes` | internal/agentcore/docker.go:376-405 | exactly the running, labelled, published containers are listed, each once, in any order |
| `Docker.ListedExactly` | internal/agentcore/docker.go:376-405 | a route is listed for exactly the containers that run, carry the labels and publish a TCP port, with the values of the labels |
| `Docker.LabelsRoundTrip` | internal/agentcore/docker.go:204-218 | reading the labels back gives the deployed route, up to a half-set auth pair |
| `Docker.PrivateUnlisted` | internal/agentcore/docker.go:376-405 | a private container is never listed |
| `Docker.ShrunkAll` | internal/agentcore/docker.go:130-149 | a removal that got through leaves exactly the containers of other labels and the one kept |
| `RouteSync.RoutesForExact` | internal/agentcore/deploy.go:366-375 | exactly the current route and the others of other labels and containers |
| `RouteSync.RoutesForDeployment` | internal/agentcore/deploy.go:366-375 | the loop computes the specification |
| `RouteSync.SyncRoutes` | internal/deployments/service.go:921-957 | the loops answer with one override for each service with a believed route and verified domains, and no other, in any order |
| `RouteSync.ApplyOverrides` | internal/agentcore/deploy.go:303-342 | the desired routes and the overrides placed |
| `RouteSync.DesiredEach` | internal/agentcore/deploy.go:303-342 | for every listing and every answer that names each service once, the desired routes are: of an overridden service the one listed last, with the domains; of every other service all that are listed |
| `RouteSync.DesiredExactly` | internal/agentcore/deploy.go:303-342 | the same field by field: with domains a route keeps its label, deployment, container and port, and has neither a password nor a host of its own |
| `RouteSync.DomainsReachTheWinnerExactly` | internal/agentcore/deploy.go:310-334 | with any number of containers of a service its domains go to the tie-break winner exactly when the winner is listed last |
| `RouteSync.ListingOrderMovesDomains` | internal/agentcore/deploy.go:310-334 | two orders of one listing whose domains go to different containers |
| `RouteSync.DesiredExact` | internal/agentcore/deploy.go:289-364 | with one container per label the desired routes are each listed route with the hostnames it is due |
| `RouteSync.DueDistinct` | internal/agentcore/deploy.go:289-364 | the due routes keep one container each |
| `Serving.RenderedFrom` | internal/agentcore/caddy.go:231-270 | every loaded site belongs to a route that wins its label |
| `Serving.RenderedInto` | internal/agentcore/caddy.go:231-270 | every site of a winner is loaded |
| `Serving.RenderedLive` | internal/agentcore/caddy.go:231-270 | if every applied route has its own container running with its label and publishing its port, every loaded site is a site of an applied route that has |
| `Serving.LiveAnswers` | internal/agentcore/caddy.go:252-267 | on a live server a running container publishes the port of every loaded site, and the site asks for the password that container is labelled with; a production service's may ask for none |
| `Agent.Server.StopAndRemove` | internal/agentcore/docker.go:151-161 | stop and remove one container as far as the daemon does |
| `Agent.Server.RemoveLabelled` | internal/agentcore/docker.go:126-184 | the removal loop: which containers stay, when it succeeds, how many it removed, and every state in between |
| `Agent.Server.Prepare` | internal/agentcore/deploy.go:175-201 | the image is fetched exactly when each call succeeds; the reports of the phases entered |
| `Agent.Server.BuildFromSource` | internal/agentcore/deploy.go:386-423 | cloning, then building, each reported as it is entered |
| `Agent.Server.Run` | internal/agentcore/docker.go:226-281 | network, creation and start, as far as the daemon lets it |
| `Agent.Server.Expose` | internal/agentcore/deploy.go:234-276 | health check, route name, listing, routing, stopping at the first that fails; the reports |
| `Agent.Server.RouteTo` | internal/agentcore/deploy.go:253-275 | Caddy is given the listing with the new route in it |
| `Agent.Server.Abandon` | internal/agentcore/deploy.go:425-432 | a failed attempt is reported and its container removed |
| `Agent.Server.Retire` | internal/agentcore/deploy.go:278-284 | the label's other containers go, then running is reported |
| `Agent.Server.Launch` | internal/agentcore/deploy.go:203-284 | the attempt once the image is there: outcome, new state, reports, states passed through |
| `Agent.Server.RollOut` | internal/agentcore/deploy.go:121-284 | a whole deploy attempt for any answers: outcome, new state, all reports, states passed through; what is started is `Deploying.StartedAsAsked` |
| `Agent.Server.ExecuteDeployment` | internal/agentcore/deploy.go:121-287 | a deployment that came up is followed by a sync, a failed one is not; every state passed through, of the roll-out and of the sync |
| `Agent.Server.SyncCustomRoutes` | internal/agentcore/deploy.go:289-364 | a whole route sync: nothing without a listing, a route or an answer, else apply and report every override placed |
| `Agent.Server.ExecuteTeardown` | internal/agentcore/teardown.go:73-138 | a whole teardown for any answers: containers, Caddy, network and outcome |
| `Deploying.RunningIsRouted` | internal/agentcore/deploy.go:253-275 | a public attempt that came up has Caddy running a configuration with its route in it |
| `Deploying.RunningRetires` | internal/agentcore/docker.go:126-149 | an attempt that came up leaves the new container and every other label's containers |
| `Deploying.StartedAsAsked` | internal/agentcore/deploy.go:169-228 | what came up has the job's labels, each as given, and for a public service one binding, of the job's port or, if the job names none, of the one the built image exposes, to the port reported; it is on the job's network |
| `Deploying.LeftAsAsked` | internal/agentcore/deploy.go:425-432 | a container that a failed attempt leaves has the job's labels, was not removed by the daemon, and does not run if it was stopped |
| `Deploying.OldAsLabelled` | internal/agentcore/docker.go:126-149 | containers with the job's service label are gone after an attempt that retired them; containers without it stay as they were |
| `Deploying.FailureKeeps` | internal/agentcore/deploy.go:217-275 | a failed attempt changes nothing Caddy runs and no container that was there |
| `Deploying.FailureRestores` | internal/agentcore/deploy.go:217-275 | a failed attempt leaves containers and Caddy as they were when removal and restore worked |
| `Deploying.RunningReport` | internal/agentcore/deploy.go:121-286 | running is reported once, last, with a port exactly when the service is public |
| `Deploying.PhasesInOrder` | internal/agentcore/deploy.go:121-286 | an attempt that came up reports each phase once and in order; a private service is neither checked nor routed |
| `Deploying.PhasesUpToFailure` | internal/agentcore/deploy.go:121-286 | a failed attempt reports the phases it entered, then the failure, with container and port as far as they are known |
| `Deploying.RunsExactly` | internal/agentcore/deploy.go:121-287 | exactly when an attempt comes up, whichever listing the daemon gave |
| `Deploying.OldGoLast` | internal/agentcore/docker.go:126-149 | an old container is gone or stopped only in states where the new one is there and routed |
| `Deploying.DeployStaysLive` | internal/agentcore/deploy.go:203-284 | in every state of a public attempt up to its own sync every loaded site belongs to a route whose own container runs and publishes its port |
| `Deploying.PrivateDeployLiveExactly` | internal/agentcore/deploy.go:230-234 | after a private deploy that came up the server is live exactly when every loaded site has a route whose own container came through; removed containers do not |
| `Rebuild.RenderOrderFree` | internal/agentcore/caddy.go:231-308 | the text depends on the set of routes only, up to half-set auth pairs |
| `Rebuild.ListingsStoredAlike` | internal/agentcore/docker.go:376-405 | any two listings of the same containers render alike |
| `Rebuild.RebuildGivesTheSameText` | internal/agentcore/deploy.go:253-275 | after a public deploy that removed the old containers any listing renders to the file the deploy left |
| `Syncing.SyncCanonical` | internal/agentcore/deploy.go:289-364 | a sync succeeds exactly when the due routes render and Caddy accepts; what it loads is a function of containers and verified domains |
| `Syncing.SyncReportsExactly` | internal/agentcore/deploy.go:324-353 | every override the control plane sent is reported, as active exactly when Caddy loaded it |
| `Syncing.SyncServesExactly` | internal/agentcore/deploy.go:289-364 | after a successful sync the sites are exactly those of the listed routes with the hostnames they are due |
| `Syncing.SyncLive` | internal/agentcore/deploy.go:289-364 | after any sync that Caddy loaded, whatever was listed and answered, every loaded site belongs to a desired route whose own container runs |
| `Syncing.SyncStaysLive` | internal/agentcore/deploy.go:289-364 | however a sync ends, a live server stays live |
| `Syncing.DeploymentStaysLive` | internal/agentcore/deploy.go:121-287 | in every state of a whole public deployment, with the sync that closes it and whatever fails, every loaded site belongs to a route whose own container runs |
| `Syncing.PreviewKeepsItsRoute` | internal/deployments/service.go:921-938 | the control plane never vouches for a preview: it keeps its host and auth and no override names it |
| `Syncing.ProductionGainsItsDomains` | internal/deployments/service.go:939-957 | a believed production route gains exactly its verified domains, in order |
| `TearingDown.TeardownKeepsOthers` | internal/agentcore/teardown.go:98-131 | a teardown leaves every container of another label, and what Caddy runs unless it succeeds |
| `TearingDown.GoneAsLabelled` | internal/agentcore/docker.go:163-184 | a container with the key as its service label is gone after a teardown that got through; one without it stays as it was |
| `TearingDown.TeardownExactly` | internal/agentcore/teardown.go:98-138 | exactly when a teardown succeeds, and that Caddy then runs the rendering of what is left |
| `TearingDown.TeardownLive` | internal/agentcore/teardown.go:104-121 | after a successful teardown every loaded site belongs to a listed route whose own container runs, no route has the key, and no container has its label |
| `TearingDown.TeardownSettles` | internal/agentcore/teardown.go:73-138 | a successful teardown settles its key |
| `TearingDown.HalfTeardownLiveExactly` | internal/agentcore/teardown.go:98-121 | after a teardown that did not get through the server is live exactly when every loaded site has a route whose container came through |
| `TearingDown.SettledStays` | internal/agentcore/teardown.go:73-138 | one more teardown of a settled key keeps containers and loaded configuration; the file changes exactly when reloading fails and the restore is cut short, to what was written of it |
| `TearingDown.DuplicatesChangeNothing` | internal/agentcore/teardown.go:73-77 | any number of duplicate teardowns, whatever fails in them, leave containers and loaded configuration as the first successful one, and remove nothing |
| `TearingDown.DuplicatesKeepTheFileExactly` | internal/agentcore/teardown.go:104-121 | they keep the file as well exactly when no restore in them was cut short |
| `TearingDown.DuplicatesChangeNothingAtAll` | internal/agentcore/teardown.go:123-129 | once the network is gone the server is the very same after every duplicate, exactly when no restore was cut short |
| `TearingDown.DuplicateMayCutTheFile` | internal/agentcore/caddy.go:218-229 | for every settled server a duplicate after which the file is empty |
| `Images.StoredAcceptedExactly` | internal/deployments/service.go:1024-1046 | an accepted reference is accepted again, unchanged, exactly when its default tag has not made it longer than 512 bytes |
| `Images.LongNameRefused` | internal/deployments/service.go:1026-1046 | a name that is deployed and refused when rolled back to |
| `Images.ValidateExactly` | internal/deployments/service.go:1024-1046 | what is accepted, and that "latest" is added exactly when there is neither a digest nor a tag after the last slash |
| `ControlPlane.Deployments.CreateForService` | internal/deployments/service.go:111-174 | the outcome of every request, error by error; a production row is inserted only for a server of the service's workspace |
| `ControlPlane.Deployments.EnqueuePreview` | internal/deployments/service.go:222-303 | a preview row with its own key is inserted exactly when the service can be previewed |
| `ControlPlane.Deployments.CreatePreview` | internal/deployments/service.go:176-220 | exactly one of a branch and a pull request, a server of the service's workspace, then the shared core; error by error |
| `ControlPlane.Deployments.CreatePreviewForPR` | internal/deployments/webhook.go:15-43 | the webhook's preview, on the server of the service's latest row, and so in its workspace |
| `ControlPlane.Deployments.RollbackToDeployment` | internal/deployments/service.go:305-388 | a row that ran before is reproduced as a production row, if its image reference is accepted again; error by error |
| `ControlPlane.Deployments.PollDeployment` | internal/deployments/service.go:569-686 | the oldest queued row of the agent's server is assigned and handed out with its environment, failed when its token cannot be had, or left assigned when its configuration cannot be opened |
| `ControlPlane.Deployments.SyncRoutes` | internal/deployments/service.go:913-958 | an unknown credential is refused; otherwise one override, with its verified domains, for every service of which a reported route is that of one of its rows on the agent's own server |
| `ControlPlane.Deployments.ReportDeployment` | internal/deployments/service.go:830-911 | an accepted report replaces each of message, port, container, commit, image and address that it gives and keeps the others, sets the status, production's cached address if it gives one, and the superseded rows; everything else stays; a refused one changes nothing |
| `ControlPlane.Deployments.TeardownPreview` | internal/deployments/teardown.go:65-120 | a job for a preview row, and for no other; error by error |
| `ControlPlane.Deployments.TeardownPreviewForPR` | internal/deployments/webhook.go:45-88 | a job exactly when the request's key has a row that is not torn down |
| `ControlPlane.Deployments.ListExpiredPreviews` | db/query/deployments.sql:188-195 | exactly the running previews older than the cutoff, oldest first |
| `ControlPlane.Deployments.ExpirePreviews` | internal/deployments/expiry.go:14-62 | nothing for a ttl that is not positive; otherwise one job for each expired preview whose insertion does not fail, and their count |
| `ControlPlane.Deployments.PollTeardownJob` | internal/deployments/teardown.go:141-179 | the oldest queued job is assigned, with its key and the key's own network |
| `ControlPlane.Deployments.ReportTeardownJob` | internal/deployments/teardown.go:181-229 | a reported status, and on success the key's rows retired |
| `Records.AgentExactly` | internal/deployments/service.go:1008-1024 | which agent a request is from: that of its credential, whose id may be left out |
| `Records.RefusedExactly` | internal/deployments/service.go:117-150 | a request is refused for its form, its service, its caller, its server, in that order; the server has to be of the service's workspace |
| `Records.ProductionExactly` | internal/deployments/service.go:421-468 | every field of a production row: ref and port as overridden or the service's own, no password; and when there is none |
| `Records.PreviewRefusedExactly` | internal/deployments/service.go:229-303 | when a preview is refused, error by error |
| `Records.PreviewExactly` | internal/deployments/service.go:229-303 | every field of a preview row: built from the branch or the pull request's head, on the port asked for or the service's; with a password it has the user asked for, or "preview", and the given hash, without one neither |
| `Records.RequestExactly` | internal/deployments/webhook.go:15-43 | a webhook's preview is of the head, on the service's port, without a password |
| `Records.RollbackExactly` | internal/deployments/service.go:351-388 | every field of the row a rollback inserts: the commit that ran, or the ref; or the image |
| `Records.WorkExactly` | internal/deployments/service.go:636-655 | every field of what an agent is handed: the row's key, id, port and password, public as the service is, the environment's network or the preview's own, and the preview's host |
| `Records.PasswordReachesTheAgent` | internal/deployments/service.go:636-655 | the password a preview is ordered with is the one the agent is asked to put on it |
| `Records.HandoverExactly` | internal/deployments/service.go:601-686 | a claimed row is handed out, failed for want of a token or withheld: exactly when |
| `Records.HandoverWrites` | internal/deployments/service.go:601-708 | what is written of it, and that nothing else is |
| `Records.AcceptedExactly` | internal/deployments/service.go:833-868 | which reports are accepted, and why the others are not |
| `Records.JobReportExactly` | internal/deployments/teardown.go:181-229 | which reports on a job are accepted, and everything they write |
| `Records.HoldsTheLast` | db/query/deployments.sql:82-98 | after any run a row holds, of every value, the last one its own server reported, and its order is as it was inserted |
| `Records.TailsKeep` | internal/agentcore/deploy.go:522-529 | any run in which only the log tail reports on a row leaves everything that was reported on it |
| `Records.RollbackAfterTails` | internal/deployments/service.go:354-371 | after any such run a rollback deploys the commit that was reported |
| `Histories.ProductionRowOk` | internal/deployments/postgres.go:140-177 | a production row is keyed by its service id |
| `Histories.PreviewRowOk` | internal/deployments/service.go:222-303 | a preview row is keyed by a preview key of its service |
| `Histories.RollbackIsProduction` | internal/deployments/service.go:351-388 | rolling back a preview inserts a production row |
| `Histories.RollbackRefusedExactly` | internal/deployments/service.go:372-376 | a deployed production row cannot be rolled back to exactly when the default tag made its image reference longer than 512 bytes |
| `Histories.PollIsARun` | internal/deployments/service.go:572-708 | a poll is a claim, followed by giving the row up when its token fails |
| `Histories.SweepIsARun` | internal/deployments/expiry.go:21-62 | a sweep is a run of enqueued teardowns |
| `Histories.RunKeepsKeys` | internal/deployments/service.go:601-635 | over every run production rows keep service-id keys and previews preview keys |
| `Histories.TouchesOneKey` | db/query/deployments.sql:98-107 | every event writes rows of one routing key only |
| `Histories.PreviewsLeaveProduction` | internal/deployments/service.go:877-904 | over any run of preview events no production row and no service's address changes |
| `Histories.OtherKeysLeft` | internal/deployments/service.go:891-904 | over any run that never touches a key its rows stay |
| `Histories.ReportKeepsOneRunningExactly` | internal/deployments/service.go:891-904 | a report keeps at most one running row per key and server exactly when it is not a portless running for a row that is not running while another is |
| `Histories.PrivateRedeployDoubles` | internal/deployments/service.go:891-904 | a run of two deploys of a private service after which both rows run |
| `Histories.RunKeepsOneRunning` | internal/deployments/service.go:891-904 | over every run without such reports at most one row per key and server runs |
| `Histories.HandedDistinct` | db/query/deployments.sql:65-79 | in every run each row is handed out at most once |
| `Histories.HandedOnce` | internal/deployments/service.go:1048-1054 | a row that left the queue never returns to it and is not handed out |
| `Histories.StuckForGood` | internal/deployments/service.go:601-620 | a claimed row of an existing service is withheld with an error exactly when it is production's and one of the service's secrets cannot be opened, and it is never handed out again |
| `Histories.SealedSecretSticks` | internal/deployments/service.go:601-607 | a first deployment that is withheld |
| `Histories.WorkStaysInItsWorkspace` | internal/deployments/service.go:141-150 | over every run whose inserts are for servers of the service's workspace, an agent is handed rows of its server's workspace only |
| `Histories.HandedOldestFirst` | internal/deployments/store.go:59-61 | in every run each server is handed its rows oldest first |
| `Histories.TornDownExactly` | internal/deployments/teardown.go:24-26 | a torn-down row stays torn down exactly until its own server reports a status on it |
| `Histories.TornDownStays` | internal/deployments/service.go:833-911 | over any run without such a report it stays torn down |
| `Histories.TornDownRevives` | internal/deployments/service.go:877-904 | a run in which a torn-down preview is running again |
| `Histories.TeardownMarks` | db/query/deployments.sql:160-168 | a successful teardown retires the key's rows and no sweep finds them |
| `Histories.DuplicateTeardownsKeepRows` | internal/deployments/teardown.go:208-224 | any number of duplicate teardown jobs leave every row as the first success did |
| `Histories.RedeliveredCloseExactly` | internal/deployments/webhook.go:49-66 | a redelivered close is a no-op exactly when no row of the key had failed, been superseded, or lives elsewhere |
| `Histories.FailedRowOutlivesTheClose` | internal/deployments/webhook.go:45-66 | a run with a failed and a running row of a pull request after whose teardown the failed row is still found |
| `Histories.CloseFindsOpen` | internal/deployments/webhook.go:56-58 | closing a pull request finds the row opening it inserted |
| `Forwarding.HostsServedExactly` | internal/agentcore/caddy.go:231-345 | the hosts served are exactly the winners' generated names and custom hosts |
| `Forwarding.ForwardsExactly` | internal/agentcore/caddy.go:231-345 | the generated address of any host label, a service's or a preview's, goes to a port exactly when some winner claims it, by its label or a verified domain, and every winner that does has that port |
| `Addresses.AddressesDistinctExactly` | internal/agentcore/caddy.go:243-308 | no two sites of a rendered configuration have one address exactly when the winners' own hosts differ and none is a custom host |
| `Isolation.PreviewWork` | internal/deployments/service.go:601-651 | what the agent is handed for a preview row is a preview: own key, network, host, token auth fields |
| `Isolation.ProductionWork` | internal/deployments/service.go:601-651 | what it is handed for a production row carries the service id and the environment's network |
| `Isolation.LongSlugPreviewsMeet` | internal/deployments/service.go:783-805 | for a slug of 55 characters or more it is handed two labels and one host for two pull requests |
| `Isolation.OthersKeepContainers` | internal/agentcore/docker.go:163-184 | an attempt leaves every container of every other label as it was |
| `Isolation.ActStamped` | internal/agentcore/docker.go:204-218 | after any attempt every listed container is still a production or a preview container |
| `Isolation.HostApart` | internal/deployments/service.go:783-805 | no attempt of another label has the host of a production service |
| `Isolation.OnlyGeneratedHosts` | internal/agentcore/deploy.go:253-275 | after an attempt that reloaded Caddy the hosts served are exactly the generated names of the winners it gave: custom domains wait for the next sync |
| `Isolation.ReloadForwardsExactly` | internal/agentcore/deploy.go:253-275 | after such an attempt an address goes to a port exactly when some winner has the host and every winner that does has that port |
| `Isolation.OthersForwardToWinner` | internal/agentcore/deploy.go:253-275 | after an attempt of another label and host that reloaded Caddy the address of a label that alone has its host goes to the winner of its running containers, so it keeps its port exactly when it went there before |
| `Isolation.OthersKeepAddress` | internal/agentcore/deploy.go:121-287 | one attempt of another label and host, whatever fails, keeps the address on the label's winner |
| `Isolation.EnvironmentNetworksStay` | internal/agentcore/docker.go:186-199 | previews join and remove their own networks only |
| `Isolation.OwnDeployForwards` | internal/agentcore/deploy.go:253-284 | after a public deploy that came up, of a service or a preview that alone has its host, the address goes to the new container; that one is also the winner exactly when it wins over every container that could not be removed |
| `Isolation.OwnDeployGuarded` | internal/agentcore/caddy.go:252-267 | after a public deploy that came up, of a service or a preview that alone has its host, a site is loaded at its address, and every one there asks for the pair the job was given, or for none, and leads to the new port |
| `Counterexamples.LeftOverWinsBack` | internal/agentcore/deploy.go:278-284 | a redeploy whose old container stays and is the winner while Caddy forwards to the new one |
| `Counterexamples.RedeployDropsTheDomain` | internal/agentcore/deploy.go:253-275 | a redeploy after which a verified domain that was served is not |
| `Counterexamples.PrivateRedeployLeavesADeadSite` | internal/agentcore/deploy.go:230-234 | a public service redeployed as private whose loaded site leads nowhere |
| `Counterexamples.HalfTeardownLeavesADeadSite` | internal/agentcore/teardown.go:98-112 | a teardown that removed its container and could not list the rest, after which the site leads nowhere |
| `Counterexamples.TwoPreviewsOneAddress` | internal/agentcore/caddy.go:243-267 | two previews with one host render to one address twice, which leads to neither alone |
| `WholeRuns.SyncForwards` | internal/agentcore/deploy.go:289-364 | after a sync the address of a label that alone has its host goes to the winner of its containers, or, if it has domains, to the container listed last, unless a verified domain spells the address |
| `WholeRuns.SyncKeepsAddress` | internal/agentcore/deploy.go:289-364 | a sync, whatever fails, keeps that address if the label has one container or no domains |
| `WholeRuns.OthersNeverTakeTheAddress` | internal/agentcore/deploy.go:115-287 | over any run of deploys and teardowns of other labels and hosts, and of syncs, the address of a service or a preview stays on its container, with the same provisos |
| `WholeRuns.PreviewRunsKeepProduction` | internal/agentcore/deploy.go:115-287 | over any run of preview deploys, teardowns and syncs production's address stays on its container, with the same provisos |
| `WholeRuns.OtherLabelsStay` | internal/agentcore/docker.go:126-184 | over any run containers of labels not acted on stay exactly |
| `WholeRuns.AddressLeadsHome` | internal/agentcore/deploy.go:115-287 | over any run that also has the label's own public deploys its address leads to its one running container, while the daemon removes what those deploys tell it to |
| `WholeRuns.TellingLeavesLive` | internal/agentcore/caddy.go:148-202 | whatever a move that has Caddy load new routes does, every site loaded afterwards belongs to a route whose own container runs |
| `WholeRuns.SilentMoveLiveExactly` | internal/agentcore/deploy.go:115-287 | any other move leaves a live server live exactly when every loaded site has a route whose container came through |
| `WholeRuns.NoSiteLeadsNowhere` | internal/agentcore/deploy.go:115-287 | over any run of public deploys and syncs with any failures, and of private deploys and teardowns that stop no container or get through, no loaded site ever leads nowhere, or asks for another password than its container is labelled with |
| `LineEmitter.Emitter.Write` | internal/agentcore/build.go:160-173 | whatever was written so far, complete lines are out and the rest is buffered |
| `LineEmitter.Emitter.Flush` | internal/agentcore/build.go:175-182 | after a flush the emitted lines are those of everything written, however it was cut |
| `LineEmitter.Emitter.Emit` | internal/agentcore/build.go:184-188 | one line, without trailing returns, unless it is blank |
| `LineEmitter.Feed` | internal/agentcore/build.go:160-182 | any cutting of a stream into writes gives the lines of the whole |
| `LineEmitter.TailLines` | internal/agentcore/docker.go:632-646 | the tail is exactly the last lines of the whole |
| `LineEmitter.UnixLines` | internal/agentcore/docker.go:633-634 | replacing two-character line breaks changes no line |
| `LineEmitter.LinesExactly` | internal/agentcore/docker.go:632-646 | what the lines of a text are: of each line the content before its trailing returns, unless that is white space |
| `LogTail.SplitTimestampedLines` | internal/agentcore/docker.go:552-590 | of the last lines, as many as the limit allows, the message of each: what follows a first word that parses as a stamp and a space, or the whole line; and the next cursor, one past the newest stamp of all the lines, or unmoved if none has one |
| `LogTail.LineSays` | internal/agentcore/docker.go:566-579 | every line is cut as it says, in the only way it can be |
| `LogTail.NewestExact` | internal/agentcore/docker.go:580-588 | the newest stamp is the maximum, if any line has one |
| `LogTail.LastMessages` | internal/agentcore/docker.go:582-584 | capping the messages is capping the lines |
| `LogTail.FetchBounds` | internal/agentcore/docker.go:525-550 | what a fetch delivers lies between the cursor and the next one |
| `LogTail.CursorNeverDecreases` | internal/agentcore/deploy.go:500-521 | a tracked container's cursor never moves back |
| `LogTail.Tail.Follow` | internal/agentcore/deploy.go:500-540 | first sight seeds the cursor, later fetches deliver and move it, a failed one leaves it |
| `LogTail.Tail.Tick` | internal/agentcore/deploy.go:487-543 | after every tick the cursors are exactly those of the running containers, moved as `LogTail.MovedExactly` says, and the deliveries are those `LogTail.DeliveredExactly` says, each later than the ones before |
| `LogTail.DeliveredExactly` | internal/agentcore/deploy.go:497-529 | a tick delivers the last lines fetched of every running container it knew, in order, and nothing else |
| `LogTail.MovedExactly` | internal/agentcore/deploy.go:500-521 | a cursor goes one past the newest stamp fetched; it starts at the time of the tick that first sees the container |
| `LogTail.NoLineTwice` | internal/agentcore/deploy.go:497-540 | of one container no line that starts with a stamp is ever delivered twice |
| `ShellQuote.ShellQuote` | internal/serversetup/bootstrap.go:342-344 | the quoted string |
| `ShellQuote.QuotedIsOneWord` | internal/serversetup/bootstrap.go:341-344 | by POSIX quoting rules the shell reads the quoted string as the one word and stops at its end |
| `ShellQuote.ArgumentsArrive` | internal/serversetup/bootstrap.go:341-344 | any arguments, quoted and joined by spaces, arrive as they were |
| `Setup.Runner.DetectOSStep` | internal/serversetup/bootstrap.go:134-153 | the reason, the log lines and the command count of the first step for any answer; it passes as `SetupSteps.OSPasses` says |
| `Setup.Runner.CheckPrivilegeStep` | internal/serversetup/bootstrap.go:155-173 | the same of the second step (`SetupSteps.PrivilegePasses`) |
| `Setup.Runner.PreflightStep` | internal/serversetup/bootstrap.go:175-208 | the same of the third step, with its lines on Docker and the firewall (`SetupSteps.PreflightPasses`) |
| `Setup.Runner.InstallStep` | internal/serversetup/bootstrap.go:210-232 | the same of the fourth step, with what the installer printed (`SetupSteps.InstallPasses`) |
| `Setup.Runner.ProvisionStep` | internal/serversetup/bootstrap.go:234-263 | the same of the fifth step (`SetupSteps.ProvisionPasses`) |
| `Setup.Runner.AwaitStep` | internal/serversetup/bootstrap.go:265-280 | the same of the last step (`SetupSteps.AwaitPasses`) |
| `Setup.Runner.EmitOutput` | internal/serversetup/bootstrap.go:304-318 | the last eighty lines that are not blank |
| `Setup.Runner.Run` | internal/serversetup/bootstrap.go:107-132 | the run succeeds exactly when the six steps' conditions hold, in their order, each at the command the ones before lead up to, and the context is not canceled before any; its events are brackets in step order, each saying what its step came to, all passed but possibly the last |
| `Setup.PassedExactly` | internal/serversetup/bootstrap.go:107-132 | a bracket is passed exactly when its step's own condition holds where it began, and canceled exactly when the context was |
| `SetupSteps.OSPasses` | internal/serversetup/bootstrap.go:134-153 | the first step passes exactly for the two supported releases |
| `SetupSteps.PrivilegePasses` | internal/serversetup/bootstrap.go:155-173 | the second passes exactly for root or passwordless sudo |
| `SetupSteps.PreflightPasses` | internal/serversetup/bootstrap.go:175-208 | the third passes exactly when no lock is held and the ports are free |
| `SetupSteps.InstallPasses` | internal/serversetup/bootstrap.go:210-232 | the fourth passes exactly when a token was minted and the installer succeeds on its quoted arguments |
| `SetupSteps.ProvisionPasses` | internal/serversetup/bootstrap.go:234-263 | the fifth passes exactly when all four commands succeed |
| `SetupSteps.AwaitPasses` | internal/serversetup/bootstrap.go:265-280 | the last passes exactly when the agent is seen online in time and before cancellation |
| `SetupSteps.CompletesExactly` | internal/serversetup/bootstrap.go:107-132 | the six steps named in their order are the whole run |
| `SetupSteps.FieldExactly` | internal/serversetup/bootstrap.go:320-329 | a field of the release file is what the first line that gives it says, without quotes |
| `SetupSteps.DockerLineExactly` | internal/serversetup/bootstrap.go:190-197 | a version below 20 is called old |
| `Setup.RunStatuses` | internal/serversetup/bootstrap.go:107-132 | the status events of a run are started and ok pairs, then at most one failure |
| `Setup.FailureComesLast` | internal/serversetup/bootstrap.go:107-132 | a failure comes last and carries the reason, which is empty exactly when all steps passed |
| `Setup.LogsInsideBrackets` | internal/serversetup/bootstrap.go:107-132 | each log event lies inside its own step's bracket |
| `SetupSteps.InstallerReadsItsArguments` | internal/serversetup/bootstrap.go:218-219 | the remote shell reads the address and the token back as single words |
| `Membership.Workspace.InviteMember` | internal/projects/service.go:149-174 | the new members, and exactly when it succeeds |
| `Membership.Workspace.ChangeMemberRole` | internal/projects/service.go:183-212 | the new members and the error |
| `Membership.Workspace.RemoveMember` | internal/projects/service.go:214-235 | the new members and the error |
| `Membership.AtomicOwners` | internal/projects/service.go:149-235 | one operation at a time, no owner is lost and one is gained only by an owner promoting a member |
| `Membership.AtomicRunKeepsOwners` | internal/projects/service.go:149-235 | over any run of such operations no owner is lost |
| `Membership.OwnerStaysExactly` | internal/projects/service.go:183-235 | an owner stays under every interleaving exactly when no request against them is checked and still to be written |
| `Membership.FounderStays` | internal/projects/service.go:127-143 | the founder stays an owner under every interleaving |
| `Membership.LaterOwnerMayBeDemoted` | internal/projects/service.go:196-209 | an interleaving that demotes a later owner |
| `Membership.AtomicIsItsSteps` | internal/projects/service.go:183-212 | an operation is its steps with nothing in between, and leaves no request under way |
| `ConfigEnv.ConfigEnvForService` | internal/deployments/service.go:70-109 | the two passes compute the specified environment |
| `ConfigEnv.OwnOverridesShared` | internal/deployments/service.go:75-92 | the service's own value of a key wins over the shared one |
| `ConfigEnv.ValueArrives` | internal/deployments/service.go:70-109 | the value that prevails, the service's own before the shared one and of each the last, arrives as stored or opened; a variable stored without a value arrives empty |
| `ConfigEnv.KeysFrom` | internal/deployments/service.go:70-95 | no key is set that no wanted entry has |
| `ConfigEnv.EnvFailsExactly` | internal/deployments/service.go:70-109 | the environment cannot be had exactly when secrets are wanted and one cannot be opened |
| `ConfigEnv.PreviewsSeeNoSecret` | internal/deployments/service.go:65-69 | a preview's environment does not depend on secrets and never fails to open one |

## Left out

- Interleavings of `apply` between the deploy, teardown and sync loops: the code does not serialise them, and here each attempt is whole.
- The agent and the control plane as one system with messages in flight: runs of each side are proved, and `Isolation.PreviewWork`, `Deploying.RunningReport` and `Histories.Doubles` say how they meet.
- A missing Docker client or Caddy manager, which the agent reports as a failure before it does anything.
- Syncing.ProductionGainsItsDomains: speaks of the domains handed over, not of how a domain is verified by DNS.
- Marking domains after a sync (`internal/deployments/service.go:960-1006`): one status per reported override.
- Deployment events and log lines stored with a report, audit rows, and message wording.
- The statuses a teardown reports on its way: they follow its outcome one to one.
- Listing and reading requests, and the role matrix: finite tables. Authorization answers as part of the input.
- The tag under which an image built from a git source is kept, and clone addresses.
- Failing database calls, except a sweep's insertions and the check against repeated members.
- LogTail.Tail.Tick: one clock value stands for a whole tick, and a tick that is cancelled half-way is not modelled, nor is the report that carries a delivery; a report that fails loses its lines, as in the source.
- LineEmitter.Emitter.Write: bytes are characters here, and the lock around the buffer is left out.
- Setup.Runner.DetectOSStep: reasons and log lines of setup steps are named values; their wording is left out.
- Setup.Runner.InstallStep: commands are known by what they are for; of their texts only the quoted arguments are modelled.
- ShellQuote.ReadWords: reads words, single quotes and backslashes; double quotes and expansions have no reading.
- Membership.FounderStays: one workspace; workspaces share no member rows.
- Framework detection, backups, domain verification, the readiness checklist, heartbeats, transport, cookies, the CLI and the dashboard.
