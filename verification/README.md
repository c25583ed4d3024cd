# Pangolin gateway controller: a verified model

The controller publishes Gateway API HTTPRoutes, and its own PrivateResources and
ResourcePolicies, to a Pangolin organisation. One pass reads the whole cluster,
renders one blueprint and a verdict per object, applies the blueprint in a single
all-or-nothing request, confirms trusted CAs, prunes what it owns and no longer
wants, and writes statuses. This project models that pass as a step against a
Pangolin server, the server as the repository's own fake spells it out, and whole
runs of passes, other clients' requests and cluster edits.

Main results, each for all inputs, states or runs:

- **Allocation.** Keys and hostnames go to their oldest claimant, age written out on the
  objects (`Seniority`); that is the unique greedy solution, stable and maximal
  (`CollisionLaws`), and no order of listing the cluster's objects changes anything
  rendered (`RenderOrder`).
- **Rendering.** Verdicts and entries correspond one to one although keys are not
  injective, policy references hold, and an object is published with exactly the
  protection it asks for (`RenderLaws`, `Faithful`). Which objects are valid, what the
  others are told, and which routes are served at all is read off the objects
  (`Verdicts`, `Serving`).
- **Acceptance.** A rendered blueprint is accepted if and only if three conditions
  hold that translation cannot establish by itself (`Acceptance`); what the server takes
  is spelled out entry by entry (`ServerChecks`).
- **Safety.** Over every run, with any failures and any interleaving of other clients,
  the controller touches no entry without its prefix and never deletes what it just
  applied (`Safety`, `Runs`).
- **Convergence.** From any server state one pass without failed calls reaches the
  blueprint, policies included, or is refused and changes nothing (`Convergence`). A
  pass whose listings of names fail does what it would with listings that hold every
  name in use (`Listings`), and success is answered exactly when all was done
  (`Answers`).
- **Truthful status.** Accepted=True and Programmed=True mean the rendered entry is
  live, and for mTLS that the stored CAs cover those sent (`Truth`, `Confirmation`);
  each parent is told its own verdict, listener by listener (`Conditions`).
- **Settling.** A pass that landed, accepted or refused, run again writes nothing
  anywhere (`SecondPass`).
- **Credentials.** Published credentials and trusted CAs are those of the route's own
  Secret and of its one named source (`Provenance`). A generated password appears in
  the blueprints of the pass that drew it and of every later one until its Secret is
  touched (`Passwords`).

Three stronger claims are false of the code; `Witnesses` and `HeldAliases` give the
inputs, and the exact conditions are proved: a policy name can exceed the server's 255
bytes, a duplicate parent entry of ours stays stale, and a PrivateResource renamed with
its alias is refused on every pass, because the prune that would free the alias runs
only after an accepted apply.

Imperative code is modelled as methods and classes over the same fields (`Fake.Fake`,
`Status.RouteStatus`, `ClusterObjects.Cluster`, `Pass.Publisher`), each proved against a
specification function; the theorems are lemmas about those functions. Code outside
the repository (IP parsing, YAML, PEM, X.509, SHA-256, DNS names) and the PIN and
healthcheck annotations are the function-valued fields of `Types.World`; `ValidWorld`
states what is assumed of them. Failing calls, other clients' requests, drawn passwords
and the clock are parameters of a pass (`Pass.Faults`).

`dafny verify dfyconfig.toml` checks the whole project.

## Model

| member | source | states |
|---|---|---|
| `Paging.ListPages` | internal/pangolin/client.go:406-444 | The paging loop ends against every server whose total is constant, and returns what walking the pages returns; with `strict` off it is the three hand-written loops |
| `Paging.TruthfulListingIsComplete` | internal/pangolin/client.go:406-444 | Against a server with a fixed row list and a truthful total, any page size of at least one gives exactly that list, in order |
| `Paging.WalkReturnsReportedPages` | internal/pangolin/client.go:406-444 | Whatever total is reported, the walk returns exactly the pages up to that total, or fails for rows without a total |
| `Paging.LenientListingCompleteIff` | internal/pangolin/client.go:280-309 | The hand-written loops miss nothing exactly when the rows fit the pages the reported total covers |
| `Paging.StalledServerFails` | internal/pangolin/client.go:406-444 | An instance that ignores the page parameter makes the listing fail instead of repeating rows |
| `PathGlob.ValidPathGlob` | internal/gateway/rules.go:129-159 | The byte walk with its one-or-three step index accepts exactly what the segment definition accepts |
| `PathGlob.GlobMatchesGrammar` | internal/gateway/rules.go:129-159 | That is the language "/" or an optionally slash-led list of non-empty segments of allowed characters and %HH escapes with at most one trailing slash |
| `Validators.CheckPortRanges` | internal/gateway/privateresource.go:310-335 | The loop over port entries decides the controller's port-range definition |
| `Validators.PortValidatorsAgree` | test/pangolinfake/fake.go:1270-1290 | The controller accepts exactly the port lists the server accepts, before and after trimming |
| `Validators.PortEntriesAgree` | internal/gateway/privateresource.go:318-343 | The same for one entry: signs, bounds, order and missing halves |
| `Validators.GrantList` | internal/gateway/visibility.go:50-71 | The loop returns the trimmed entries, or the error that rejects the route |
| `Validators.GrantsRoundTrip` | internal/gateway/visibility.go:50-71 | Parsing undoes joining with commas, however the pieces are padded |
| `Validators.EmailWhitelistFor` | internal/gateway/emailwhitelist.go:35-59 | The loop with its `seen` map accepts exactly the lists all of whose entries are addresses and returns first occurrences in order |
| `Validators.PolicyWhitelist` | internal/gateway/emailwhitelist.go:63-78 | The same loop over a policy's entries, wildcards allowed |
| `Validators.WhitelistRoundTrip` | internal/gateway/emailwhitelist.go:35-59 | A parsed whitelist has no duplicates and parses back to itself when joined with commas |
| `Validators.WhitelistEntries` | internal/gateway/emailwhitelist.go:35-59 | Every entry that comes out is a lower-case address free of separators |
| `Patterns.HostnameIsThePattern` | internal/gateway/privateresource.go:41-42 | The label list of the hostname validator decides exactly the language of the regular expression, read as runs, sequences, repetitions and options |
| `Patterns.AliasIsThePattern` | internal/gateway/privateresource.go:43-44 | The same for aliases with their wildcards |
| `Patterns.EmailIsThePattern` | internal/gateway/emailwhitelist.go:19-30 | An address is what the regular expression matches, without a leading dot or two dots in a row |
| `Patterns.WildcardIsThePattern` | internal/gateway/emailwhitelist.go:25-25 | A wildcard address is what its regular expression matches |
| `Policies.CollectRules` | internal/gateway/rules.go:66-77 | Rules are returned in order exactly when all are valid |
| `Policies.RenderPolicies` | internal/gateway/policy.go:88-134 | The loop over sorted policies fills verdicts and entries as the fold says |
| `Policies.PublishedPolicyIsItsOwn` | internal/gateway/policy.go:98-131 | A policy is published iff its verdict is True, and then its key holds its own translation although keys clash |
| `Policies.PolicyEntryHasOwner` | internal/gateway/policy.go:98-131 | Every policy entry is the translation of exactly the policy published under its key |
| `Policies.UnlicensedRendersNoPolicy` | internal/gateway/policy.go:146-156 | Without a licence nothing is rendered and nothing published |
| `Policies.PolicyOrderIndependent` | internal/gateway/policy.go:88-104 | The rendered policies do not depend on the order they are listed in |
| `Policies.PolicyKeyNotInjective` | internal/gateway/policy.go:32-34 | Two namespaces can claim one key |
| `Seniority.OldestPolicyWins` | internal/gateway/policy.go:95-131 | Whatever order they are listed in, a policy key goes to the valid policy created first, ties broken by namespace and name; every other claimant is told whose key it is, and an invalid one why |
| `Verdicts.PolicyFitsIff` | internal/gateway/policy.go:146-215 | A ResourcePolicy is valid iff licensed, named, with sign-in wherever it grants, without blank or Admin grants, with a six-digit PIN or none, and with addresses and rules that all fit; unlicensed is the only other reason |
| `Verdicts.RuleFitsIff` | internal/gateway/rules.go:80-122 | A rule is valid for the controller iff one of three actions meets an address, a block, a path of the glob grammar, or a country, ASN or region, with a value; the server asks the same but the value |
| `Translate.UnknownNames` | internal/gateway/privateresource.go:278-306 | The loop collects exactly the names no listing holds |
| `Translate.SomeNameIsKnown` | internal/gateway/privateresource.go:278-306 | A grant list passes exactly when one of its names is listed |
| `Faithful.PublicRouteAsAsked` | internal/gateway/render.go:371-582 | A published public route has its own name, only hostname, site, one same-namespace Service backend and port, and exactly the protection its annotations ask for: sign-in unless switched off, the listed roles and users, the e-mail whitelist and PIN, the resolved credentials iff basic auth is asked for, its valid rules, the resolved CA set iff a CA is named, and nothing inline beside a shared policy |
| `Faithful.PrivateRouteAsAsked` | internal/gateway/render.go:584-634 | A private route has its own name, hostname, site and backend, no alias, exactly the roles and users it lists, and none of the protection, policy or healthcheck annotations a private resource cannot honour |
| `Faithful.PrivateObjectAsAsked` | internal/gateway/privateresource.go:92-232 | A PrivateResource keeps name, mode, destination, alias, sites and grants; http has its domain, port, scheme and TLS switch, the other modes their trimmed port lists and ICMP switch, and neither the other's fields; it claims exactly the names it makes resolvable |
| `Faithful.PolicyObjectAsAsked` | internal/gateway/policy.go:146-215 | A ResourcePolicy keeps its name and lists; sign-in is off only without grants; the whitelist is the lower-cased, trimmed set of its entries; the switches follow the lists |
| `Faithful.MTLSAsAsked` | internal/gateway/mtls.go:47-62 | The CA block is enabled iff asked for, and then holds exactly the certificates resolved for this route, at least one; otherwise none |
| `Verdicts.PublishableIff` | internal/gateway/render.go:371-634 | A route translates iff it has one plain hostname, one core Service of its namespace with a port, a name, a listed site, a visibility, and settings that can all be honoured; it goes private iff it says so |
| `Verdicts.RouteRefusalIs` | internal/gateway/render.go:371-473 | Why it is refused: each of the reasons for a foreign kind, a foreign namespace and an unknown site iff that fault comes first |
| `Verdicts.RefusalIsTold` | internal/gateway/render.go:228-252 | A refused route that is served ends with the fault of its backend in ResolvedRefs and any other in Accepted |
| `Verdicts.RoutePublishedSays` | internal/gateway/render.go:228-293 | A published route is told Accepted and ResolvedRefs, with exactly the notes of its translation |
| `Verdicts.ResourceFitsIff` | internal/gateway/privateresource.go:92-232 | A PrivateResource translates iff its name, sites, mode fields and grants fit, mode by mode |
| `Verdicts.ResourceRefusalIs` | internal/gateway/privateresource.go:92-306 | Why it is refused: unknown site, users or machines iff nothing before was wrong |
| `Verdicts.ResourcePublishedSays` | internal/gateway/privateresource.go:62-78 | The same for a PrivateResource |
| `Verdicts.GrantsNoted` | internal/gateway/privateresource.go:259-306 | The notes name exactly the users and machines no listing holds, in order |
| `Listings.PreparedFrom` | internal/controller/publisher.go:115-145 | A prepared pass renders the cluster's own objects and settings; a failed listing stays unknown, an answered one is the server's names |
| `Listings.FailedListingsChangeNothing` | internal/controller/publisher.go:115-131 | A pass whose site, machine or user listing fails is, blueprint, deletes, statuses and answer included, the pass with answered listings that hold all names in use |
| `Listings.BlindAcceptsRoute` | internal/gateway/render.go:433-447 | A route that translates under any listings translates without them, to the same entry |
| `Listings.BlindAcceptsResource` | internal/gateway/privateresource.go:259-306 | The same for a PrivateResource |
| `Collisions.ResolveCollisions` | internal/gateway/render.go:302-356 | The loop filling owner, host, outcome and blueprint maps computes the fold over the sorted candidates |
| `Collisions.FirstClaimedIn` | internal/gateway/render.go:360-367 | Finds the first hostname with an owner, compared case-insensitively |
| `CollisionLaws.ResolveIsGreedy` | internal/gateway/render.go:325-354 | In every map the allocation is the greedy one, and every outcome names who stands in the way: the key's holder, or the holder of the first taken hostname |
| `CollisionLaws.GreedyRule` | internal/gateway/render.go:325-354 | A candidate is published iff no earlier published candidate shares its key, or a folded hostname in its section |
| `CollisionLaws.GreedySolutionUnique` | internal/gateway/render.go:302-356 | Any set of candidates obeying that rule is the published set |
| `CollisionLaws.OutcomeUnique` | internal/gateway/render.go:329-352 | The rule fixes one outcome per candidate, named owner included |
| `CollisionLaws.OrderIndependent` | internal/gateway/render.go:303-323 | Blueprint, outcomes and named owners are the same for every permutation of the input |
| `CollisionLaws.LaterCandidateChangesNothing` | internal/gateway/render.go:325-354 | Adding a candidate changes the outcome of nobody who precedes it |
| `CollisionLaws.RejectedCandidateIsIrrelevant` | internal/gateway/render.go:325-354 | Removing a rejected candidate changes nothing for anybody else |
| `CollisionLaws.RejectedConflicts` | internal/gateway/render.go:329-345 | Every rejected candidate conflicts with a published one before it: none could be added |
| `CollisionLaws.PublishedDoNotConflict` | internal/gateway/render.go:329-345 | No two published candidates share a key or a folded hostname of one section |
| `CollisionLaws.PublicEntryHasOwner` | internal/gateway/render.go:346-353 | Every public entry is that of the candidate published under its key |
| `CollisionLaws.PrivateEntryHasOwner` | internal/gateway/render.go:346-353 | The same for private entries |
| `Seniority.OldestWins` | internal/gateway/render.go:302-354 | A candidate is published iff no published one that was created earlier, or at the same time and comes first by namespace, name and kind, claims its key or, up to case, a hostname of its section |
| `Lexical.CompareMeans` | internal/gateway/render.go:303-315 | The string order used for ties: at the first difference the smaller character or the end comes first |
| `Seniority.OldestWinsUniquely` | internal/gateway/render.go:302-354 | Any set of candidates obeying that rule is the published set |
| `Seniority.LoserNamesElder` | internal/gateway/render.go:329-345 | The outcome of a loser names an older published candidate: the holder of its key, or else of its first contested hostname |
| `Seniority.RouteLosesToElder` | internal/gateway/render.go:329-345 | And the rendered verdict of the route says so, both candidates having the age of their objects |
| `Seniority.ResourceLosesToElder` | internal/gateway/render.go:329-345 | The same for a PrivateResource |
| `Render.RenderAll` | internal/gateway/render.go:196-297 | Policies, routes, resources and collision outcomes, settled in any map order, give the rendered result |
| `Render.RenderRoutes` | internal/gateway/render.go:214-252 | The loop over routes collects the verdict of every route this controller has an opinion about and the candidates of the translated ones, in order |
| `Serving.ParentsOfAre` | internal/gateway/render.go:691-768 | The parents a route is served for are, in order, its refs to a Gateway of the list whose class names this controller |
| `Serving.RenderedOpinion` | internal/gateway/render.go:214-252 | A route has a verdict iff it has such a ref, and then names just those; or iff it asks for a Gateway and none exists, and then says that |
| `Serving.StrangersAreLeftAlone` | internal/gateway/render.go:214-252 | Any other route claims nothing and is not published |
| `Serving.StrangersGetNoSecret` | internal/gateway/render.go:769-782 | No pass creates a Secret for it |
| `Serving.StrangersKeepTheirStatus` | internal/controller/publisher.go:362-374 | And its status ends with what others wrote, as they wrote it |
| `RenderLaws.KeysSpelled` | internal/gateway/render.go:645-650 | The keys and the prefix, character by character |
| `RenderLaws.RouteVerdictIsItsEntry` | internal/gateway/render.go:228-293 | A route is Accepted straight after the render iff it has a key, and under that key the blueprint holds the translation of that very route |
| `RenderLaws.ResourceVerdictIsItsEntry` | internal/gateway/render.go:254-293 | The same for a PrivateResource |
| `RenderLaws.PublicEntryIsARoutes` | internal/gateway/render.go:228-293 | Conversely every public entry is the translation of the route published under it |
| `RenderLaws.PrivateEntryIsAnObjects` | internal/gateway/render.go:228-293 | And every private entry that of one published object |
| `RenderLaws.PublishedKeysAreDistinct` | internal/gateway/render.go:325-336 | No two published objects share a key, across both sections, although keys are not injective |
| `RenderLaws.SectionsDisjoint` | internal/gateway/render.go:325-336 | A key sits in one section only |
| `RenderLaws.BlueprintKeysAreOurs` | internal/gateway/render.go:645-650 | Everything a blueprint names carries the `gw-` prefix |
| `RenderLaws.PolicyReferenceIntegrity` | internal/gateway/policy.go:45-73 | A policy named by a rendered resource is in the blueprint as the translation of the ResourcePolicy of the annotated name in the route's own namespace |
| `RenderLaws.UnlicensedNamesNoPolicy` | internal/gateway/policy.go:52-57 | Unlicensed, the blueprint holds no policy and names none |
| `RenderOrder.RenderOrderIndependent` | internal/gateway/render.go:196-297 | Blueprint and all verdicts, named owners included, are the same for every order in which routes, Gateways, GatewayClasses, PrivateResources and ResourcePolicies are listed |
| `Server.CheckRules` | test/pangolinfake/fake.go:1139-1178 | The rule check with its priority map accepts exactly lists of valid rules: assigned priorities never collide |
| `Server.ParseMtlsCertificates` | test/pangolinfake/fake.go:1057-1094 | Bundles are split, keys and unparseable certificates refused, repeated fingerprints dropped and the set capped |
| `Server.ListingIsExact` | test/pangolinfake/fake.go:534-577 | A listing names every row once, with its id |
| `Server.PolicyDeleteMeans` | test/pangolinfake/fake.go:714-754 | A policy goes exactly when it exists, the organisation is licensed and no resource names it |
| `Server.RunOpsKeep` | test/pangolinfake/fake.go:270-279 | Over any puts and deletes of other clients the table invariants hold and an id never comes to mean another key |
| `Server.RemoveIdValid` | test/pangolinfake/fake.go:879-908 | A delete keeps ids unique, below the counter and apart from deleted ones |
| `Server.LeastExists` | test/pangolinfake/fake.go:1294-1301 | Every non-empty key set has a least key in string order, so a sorted listing exists |
| `ServerChecks.AcceptedIffTaken` | test/pangolinfake/fake.go:323-520 | The apply accepts a document iff every entry passes, spelled out field by field: rules, addresses, policy references, sites, certificates and names, among the others of the document and those stored |
| `ServerChecks.PrivateTakenIff` | test/pangolinfake/fake.go:1234-1267 | The schema of a private entry, mode by mode |
| `ServerChecks.PolicyTakenIff` | test/pangolinfake/fake.go:1318-1336 | The schema of a policy |
| `ServerChecks.ModesAgree` | test/pangolinfake/fake.go:1234-1267 | For hosts and blocks the controller's mode checks and the server's schema accept the same specs |
| `ServerChecks.StoredIff` | test/pangolinfake/fake.go:1057-1094 | Certificates are stored iff no block is a private key, each parses and at most twenty differ, and then each fingerprint once |
| `ServerChecks.FingerprintSpelled` | test/pangolinfake/fake.go:1098-1106 | A fingerprint is the digest in capitals with a colon after every two digits |
| `Fake.Fake.constructor` | test/pangolinfake/fake.go:72-90 | A new fake: empty tables, counters at one, the default sites, machine and user |
| `Fake.Fake.Put` | test/pangolinfake/fake.go:270-279 | Replaces a row keeping its id, or gives a new row the next id |
| `Fake.Fake.PutPrivateRow` | test/pangolinfake/fake.go:523-532 | The same for private rows |
| `Fake.Fake.PutPolicyRow` | test/pangolinfake/fake.go:156-165 | The same for policies |
| `Fake.CheckDomains` | test/pangolinfake/fake.go:396-430 | The map of domains seen so far finds a repeated domain exactly when there is one, in any map order |
| `Fake.Fake.CheckPolicies` | test/pangolinfake/fake.go:626-661 | The loops with their early returns accept iff every policy of the document is licensed and within the schema, every inline whitelist holds addresses, and every reference finds a policy in the document or the store |
| `Fake.Fake.CheckGrants` | test/pangolinfake/fake.go:461-484 | Through the alias and name searches below: an alias is refused when another entry of the document, or a stored resource outside it, holds it; a grant list needs one known name |
| `Fake.Fake.AliasTaken` | test/pangolinfake/fake.go:829-844 | The two searches find another owner of the alias iff one exists, in the document or in the store outside it |
| `Fake.Fake.AnyUser` | test/pangolinfake/fake.go:858-868 | The nested search finds a user iff a listed name is some user's name or address |
| `Fake.Fake.CheckPublic` | test/pangolinfake/fake.go:362-411 | Every entry's rules are checked, then that no domain repeats |
| `Fake.Fake.CheckSites` | test/pangolinfake/fake.go:440-460 | Every target and every private site is empty or known |
| `Fake.Fake.HandleApply` | test/pangolinfake/fake.go:323-520 | Accepted iff the request is not failed and every check passes; then additive over all three tables and the certificate sets, else nothing changes |
| `Fake.Fake.Listing` | test/pangolinfake/fake.go:534-710 | Each listing answers every page with its rows and a truthful total, whatever page and size are asked for; policies only with a licence |
| `Fake.KeysInOrder` | test/pangolinfake/fake.go:1294-1301 | Sorting the keys of a map gives the one sorted list of them |
| `Fake.Fake.HandleDelete` | test/pangolinfake/fake.go:879-908 | Removes the row with that id and logs the id, or answers not found and changes nothing |
| `Fake.Fake.HandlePrivateDelete` | test/pangolinfake/fake.go:910-939 | The same for private rows |
| `Fake.Fake.HandlePolicyDelete` | test/pangolinfake/fake.go:714-754 | Refused while a resource names the policy |
| `Acceptance.AcceptedExactlyWhenClear` | test/pangolinfake/fake.go:323-520 | A blueprint rendered with the server's own names passes every check of the apply iff the server has the licence its policies need, no policy name exceeds 255 bytes and no stored private resource outside the document holds one of its aliases |
| `Acceptance.PublicDomainsDiffer` | test/pangolinfake/fake.go:396-411 | Full domains never repeat in the public section of a rendered blueprint |
| `Acceptance.PrivateNamesDiffer` | test/pangolinfake/fake.go:829-844 | Neither domains nor aliases repeat among its private entries |
| `Acceptance.PublicSide` | test/pangolinfake/fake.go:360-367 | A rendered public entry has valid rules and addresses, known sites and parseable CAs |
| `Acceptance.PrivateSide` | test/pangolinfake/fake.go:1234-1267 | A rendered private entry passes the schema, site and grant checks |
| `Acceptance.PolicyGood` | test/pangolinfake/fake.go:1318-1336 | A translated policy passes the policy schema iff its name fits 255 bytes |
| `Acceptance.ModeGood` | test/pangolinfake/fake.go:1234-1267 | The mode checks of the controller are at least as strict as the server's |
| `Witnesses.LongPolicyNameIsRefused` | test/pangolinfake/fake.go:1318-1322 | Counterexample: an accepted policy with the longest Kubernetes name and no display name makes every apply fail |
| `Status.SetStatusCondition` | internal/gateway/status.go:67-85 | Upsert by type; reports a change iff content differs; the time moves only with the status |
| `Status.RouteStatus.SetRouteStatus` | internal/gateway/status.go:20-103 | Filter, upsert, stable sort and assign; returns true iff the parents list is different afterwards |
| `Status.RouteStatus.UpsertLoop` | internal/gateway/status.go:47-86 | The inner loop updates our first entry for a parent or appends one, and reports exactly |
| `Status.ChangeIsExact` | internal/gateway/status.go:20-103 | The three partial change flags together are true exactly when the list differs |
| `Status.ForeignEntriesSurvive` | internal/gateway/status.go:33-45 | Entries of other controllers survive as the same multiset, unchanged |
| `Status.OursCoverTheWanted` | internal/gateway/status.go:47-86 | Ours cover exactly the parents the verdict names, compared without the port, and the entry in force carries the verdict |
| `Status.EveryEntryCarriesIff` | internal/gateway/status.go:47-86 | All our entries for a parent carry the verdict iff every surplus one carried it before |
| `Status.SecondWriteIsSilent` | internal/gateway/status.go:15-19 | A second write of the same verdict at any later time changes nothing |
| `Conditions.KeysAgreeIff` | internal/gateway/status.go:107-143 | Two refs share a key iff group, kind, namespace, name and section agree once defaulted |
| `Conditions.ParentByParent` | internal/gateway/status.go:20-103 | Parent by parent, listener included, ours are one entry or as many as there were, iff the verdict names it; the first reports the verdict's Accepted and ResolvedRefs, with status, reason, message and generation |
| `Conditions.OursAreWanted` | internal/gateway/status.go:33-45 | No entry of ours is left for a parent the verdict does not name |
| `Conditions.SettledInOrder` | internal/gateway/status.go:88-103 | The written list is in order of controller and parent |
| `Conditions.TimeMovesWithStatus` | internal/gateway/status.go:67-85 | A condition keeps its time while its status stays and takes the new one otherwise |
| `Witnesses.DuplicateStaysStale` | internal/gateway/status.go:47-65 | Counterexample: of two prior entries of ours for one parent only the first is updated |
| `Secrets.ValidatedCA` | internal/controller/mtls.go:136-165 | Individual certificates, or a refusal for keys, unparseable certificates, none or too many |
| `Secrets.SecretNamesDiffer` | internal/gateway/basicauth.go:31-33 | Two routes never share a derived Secret |
| `Secrets.ResolvedCAsAreClean` | internal/controller/mtls.go:35-165 | Whatever the sources hold, a CA set that reaches the render is one the server parses |
| `Secrets.SecretsSurvive` | internal/controller/basicauth.go:39-60 | Resolving never changes or removes a Secret, even when it aborts |
| `Secrets.DryRunCreatesNothing` | internal/controller/basicauth.go:76-80 | In a dry run no Secret is created |
| `Secrets.SecondResolutionReadsBack` | internal/controller/basicauth.go:39-130 | A second resolution, whatever passwords it would draw, returns the first one's credentials and creates nothing |
| `Secrets.StoredCredentialsAreUsed` | internal/controller/basicauth.go:132-155 | While a route's Secret stands every pass hands over exactly its credentials |
| `Provenance.PublishedIsVouched` | internal/controller/basicauth.go:132-164 | A published route that asks for basic auth carries the username and password of the Secret of its derived name, which the route owns |
| `Provenance.StrangersSecretIsRefused` | internal/controller/basicauth.go:132-164 | A Secret of that name with another owner is left alone and the route is not published |
| `Provenance.PassCredentialsAreVouched` | internal/controller/basicauth.go:39-155 | Whatever credentials a pass hands to its render, the owned Secret it leaves says them |
| `Provenance.TrustedIff` | internal/controller/mtls.go:57-165 | A CA set is trusted iff one annotation names a source, the source holds a text (ca.crt before the fallback key), and the set is all its CERTIFICATE blocks in order, none broken, no private key, one to twenty |
| `Provenance.AbortsIff` | internal/controller/mtls.go:57-134 | Reading aborts the pass iff the one source is a Secret or ConfigMap that cannot be read |
| `Provenance.PassTrustsItsSource` | internal/controller/mtls.go:35-165 | For every served route that asks, the pass trusts exactly what its source holds |
| `Provenance.PublishedTrustsItsSource` | internal/gateway/mtls.go:47-62 | And a published one sends exactly those certificates |
| `Prune.ListSection` | internal/pangolin/client.go:280-402 | A prune's listing is the whole table, or failure |
| `Prune.PruneSection` | internal/controller/publisher.go:305-347 | The loop over the listing, with other clients acting before each delete, computes the specified state, removals and failure |
| `Prune.PruneIsSafe` | internal/controller/publisher.go:305-347 | Under any interleaving each delete removes nothing or a prefixed entry absent from the desired section |
| `Prune.QuietPruneIsExact` | internal/controller/publisher.go:305-347 | Left alone, a section loses exactly its orphans save those whose delete fails or that are still named, and fails iff an orphan stays |
| `Verify.VerifyMTLS` | internal/controller/mtls.go:176-217 | The two loops over maps give each route the verdict the specification gives it |
| `Verify.NormalizeUndoesFormat` | internal/controller/mtls.go:273-275 | The server's colon-separated upper-case fingerprints normalize back to the digest |
| `Verify.StoredSetCovers` | internal/controller/mtls.go:251-262 | What the server stores for a resolved CA set covers every fingerprint sent |
| `Confirmation.NormalizeMeans` | internal/controller/mtls.go:273-275 | Normalizing works character by character: separators go, letters are lowered |
| `Confirmation.CoversMeans` | internal/controller/mtls.go:251-275 | The stored set covers the sent one iff each certificate's digest is among the stored fingerprints |
| `Confirmation.PublishedAreConfirmed` | internal/controller/mtls.go:176-217 | Once applied to a server that keeps CA sets, the check confirms every published route |
| `Confirmation.StrippedAreNotConfirmed` | internal/controller/mtls.go:170-175 | On a server that drops them no route that sends certificates is reported accepted |
| `ClusterObjects.EachWrittenOnce` | internal/controller/publisher.go:362-374 | Each object is written exactly when its status must change, and a write that lands leaves the target |
| `ClusterObjects.SettledWritesNothing` | internal/controller/publisher.go:349-351 | When every status is as it must be nothing is written |
| `Pass.Publisher.KnownGrantees` | internal/controller/publisher.go:228-272 | Machines and users are listed only while something names one; a failed listing switches its check off |
| `Pass.Publisher.ResolveBasicAuth` | internal/controller/basicauth.go:39-60 | The loop creates Secrets in place and aborts on the first failure, as the specification says |
| `Pass.Publisher.ResolveMTLS` | internal/controller/mtls.go:35-55 | The loop over routes that ask, aborting on the first failure |
| `Pass.Publisher.Mark` | internal/controller/publisher.go:573-601 | Overwrites exactly the published verdicts, in any map order |
| `Pass.Publisher.Prune` | internal/controller/publisher.go:288-303 | Public, private, then policies with a licence; a refused policy delete does not fail the pass |
| `Pass.Publisher.WriteStatus` | internal/controller/publisher.go:352-424 | Routes, then the GatewayClasses served, then their Gateways: each loop attempts exactly the needed writes and goes on after a failure, and the answer joins the failures |
| `Pass.Publisher.WriteRoutes` | internal/controller/publisher.go:362-374 | The route loop attempts a write exactly where the parents change |
| `Pass.Publisher.WriteClasses` | internal/controller/publisher.go:376-393 | The loop over served GatewayClasses, each Accepted |
| `Pass.Publisher.WriteGateways` | internal/controller/publisher.go:395-421 | The loop over Gateways of served classes, each Accepted and Programmed |
| `Serving.PassServesClasses` | internal/controller/publisher.go:376-393 | A GatewayClass is Accepted at its generation iff it names this controller, and untouched otherwise |
| `Serving.PassServesGateways` | internal/controller/publisher.go:395-421 | A Gateway is Accepted and Programmed iff a class of ours is its class, and untouched otherwise |
| `Pass.Publisher.SetKeyStatus` | internal/controller/publisher.go:441-463 | Conditions and key of one status, and exactly whether they changed |
| `Pass.Publisher.WriteResourceStatus` | internal/controller/publisher.go:429-474 | The PrivateResource loop, against the same specification of attempted and landed writes |
| `Pass.Publisher.WritePolicyStatus` | internal/controller/publisher.go:503-546 | The ResourcePolicy loop |
| `Pass.Publisher.Publish` | internal/controller/publisher.go:167-223 | Apply, verify, prune, status: the order and what each stage sees |
| `Pass.Publisher.Reconcile` | internal/controller/publisher.go:91-223 | One pass with any failures ends in the specified cluster, server, answer and attempted writes |
| `Answers.AnswerMeans` | internal/controller/publisher.go:167-223 | Left alone, a pass answers success iff the document was accepted, the listings of the prune were answered, no public or private orphan is left and every attempted status write landed |
| `Safety.PassKeepsForeign` | internal/controller/publisher.go:175-211 | Whatever fails and whatever others do to other entries meanwhile, an entry without the prefix is not created, changed or deleted |
| `Safety.PassKeepsItsOwn` | internal/controller/publisher.go:198-211 | No pass takes away an entry it just applied |
| `Safety.PruneRemovesOrphans` | internal/controller/publisher.go:288-303 | All deletes of all three prunes remove only prefixed keys outside the blueprint |
| `Safety.PruneSpares` | internal/controller/publisher.go:288-347 | An unprefixed or desired entry comes through the three prunes with its content and id |
| `Truth.AcceptedRouteIsLive` | internal/controller/publisher.go:175-217 | A route left at Accepted=True has exactly its translation live, and the stored CA set covers every certificate sent, whichever later calls failed |
| `Truth.ProgrammedResourceIsLive` | internal/controller/publisher.go:429-500 | A PrivateResource left at Programmed=True has exactly its translation live under the key in its status |
| `Truth.ProgrammedPolicyIsLive` | internal/controller/publisher.go:478-546 | The same for a ResourcePolicy |
| `Truth.JudgedTrueIff` | internal/controller/publisher.go:175-197 | A verdict ends True iff the route was published, the apply accepted and its CA set, if any, confirmed |
| `Truth.JudgedSays` | internal/controller/publisher.go:175-197 | What a published verdict is told: a failed apply, a dry run, an unconfirmed CA set, or its own; unpublished ones keep theirs |
| `Truth.KeyStatusSays` | internal/controller/publisher.go:441-500 | A written status reports the verdict and whether and why it is Programmed, and keeps, takes or clears the key |
| `Truth.ProgrammedIff` | internal/controller/publisher.go:478-500 | Programmed=True iff published, applied and no dry run; then the status names the verdict's key |
| `Truth.SettledSays` | internal/gateway/status.go:20-103 | A written parent says Accepted=True iff the verdict is True and names that parent |
| `Convergence.CalmPassConvergesOrChangesNothing` | internal/controller/publisher.go:162-223 | From any server state a pass whose calls succeed either is refused, exactly in the two cases of acceptance, and changes nothing, or makes the prefixed public and private rows equal to the blueprint, keeps old ids and all other rows, and leaves of the prefixed policies outside it exactly those a foreign resource names |
| `Convergence.CalmPassSucceedsIff` | internal/controller/publisher.go:188-223 | Such a pass, its status writes landing, succeeds iff the document is acceptable: a stale policy a foreign resource still names does not fail it |
| `Convergence.CalmPruneOrdersPolicies` | internal/controller/publisher.go:288-303 | Because the apply rewrites references and resources are pruned first, only foreign references keep a stale policy |
| `Convergence.ListedPassIsInformed` | internal/controller/publisher.go:127-160 | Successful listings give the render the server's own names and clean CAs |
| `SecondPass.SecondPassIsSilent` | internal/controller/publisher.go:349-474 | After a successful pass the same pass again renders the same inputs, leaves tables and ids as they are, writes no status of any kind and succeeds |
| `SecondPass.RefusedPassRepeatsSilently` | internal/controller/publisher.go:175-223 | A refused pass whose status writes landed, run again, is refused again and writes nothing: the loop that recurs under a held alias is quiet |
| `SecondPass.LandedPassRepeatsSilently` | internal/controller/publisher.go:349-474 | Both in one: whatever the answer of a pass that did all it set out to do, the same pass again gives that answer, changes no server state and writes no status |
| `SecondPass.PreparesTheSame` | internal/controller/basicauth.go:39-130 | Including the credentials of Secrets the first pass had just created |
| `SecondPass.StaysAcceptable` | test/pangolinfake/fake.go:323-520 | A document accepted once is accepted again after its own pass |
| `SecondPass.PruneAgain` | internal/controller/publisher.go:288-347 | A prune that did not fail leaves a state the same prune leaves alone, refused policies included |
| `SecondPass.ReapplyChangesNothing` | test/pangolinfake/fake.go:270-279 | Reapplying a live document changes no row, id or certificate set |
| `Runs.RunKeepsState` | test/pangolinfake/fake.go:37-70 | The server's invariants hold at every place of every run |
| `Runs.RunKeepsForeign` | internal/controller/publisher.go:282-286 | Over every run of passes, edits and other clients, an unprefixed entry nobody else touches keeps content and id, and none appears |
| `Runs.RunKeepsReserved` | test/pangolinfake/fake.go:270-279 | Over every run, applies and prunes included, an id handed out for a key never comes to mean another key |
| `Runs.PassOfRunIsSafe` | internal/controller/publisher.go:175-211 | In any run an aborted, refused or rehearsed pass leaves the server as it was; the others delete only prefixed keys outside their blueprint |
| `Passwords.PassKeepsSecrets` | internal/controller/basicauth.go:88-91 | A pass keeps every Secret it finds and a dry run creates none |
| `Passwords.PassCreatesSecret` | internal/controller/basicauth.go:91-130 | The pass that first meets a route asking for basic auth creates its Secret with the drawn password and renders with that very password |
| `Passwords.DrawnPasswordIsPublished` | internal/controller/basicauth.go:91-155 | The pass that draws a password publishes the route, if it does, with that very password |
| `Passwords.GeneratedPasswordStands` | internal/controller/basicauth.go:88-155 | From that pass on, over every run, each later blueprint that publishes the route carries the drawn password, until the Secret is edited or deleted |
| `Passwords.PasswordStands` | internal/controller/basicauth.go:88-155 | Over every run a password in a standing Secret appears unchanged in each blueprint that publishes the route, until the Secret is edited or deleted |
| `Passwords.PublishedWithCredentials` | internal/gateway/basicauth.go:43-61 | A published route that asks for basic auth carries exactly the resolved credentials |
| `Passwords.PassResolvesProtections` | internal/gateway/basicauth.go:43-61 | In every pass the two "not resolved" errors of the renderer are unreachable |
| `HeldAliases.HeldAliasBlocksForever` | test/pangolinfake/fake.go:829-844 | While the cluster goes on claiming, under another key, an alias stored at the start, the stored row is never removed, every pass fails and none changes the server, whatever is edited and whatever others do to other rows |
| `HeldAliases.RenameKeepingAliasIsRefused` | test/pangolinfake/fake.go:829-844 | Counterexample to unconditional convergence: renaming a PrivateResource but keeping its alias |

## Left out

- HTTP, JSON, base64, authentication headers and error texts of the client: a call succeeds with the modelled effect or fails without one, so a request that took effect but whose reply was lost is not modelled.
- Kubernetes API, watches, caches and workqueue: a pass reads one consistent cluster, and nothing edits the cluster or changes the server during a pass except other clients during its prunes.
- Object names are taken as unique per kind, as the API server guarantees.
- Metrics, logging, command line, leader election, charts and generated code.
- Healthcheck and PIN annotations: one abstract step each that may reject the route; the access-rule YAML decoder likewise.
- Message wording: reduced to a tag and the quoted values; the owner named in a collision is kept.
- Lower-casing covers the ASCII letters and the two other characters that lower into ASCII; letters that lower outside ASCII are left as they are.
- Path patterns and other strings are sequences of characters; Go walks bytes, and both refuse every pattern with a non-ASCII character.
- `sort.SliceStable` is a function (insertion), not an in-place algorithm.
- The fake's control endpoints, seeding helpers, request log and received-blueprint record: failures are parameters and seeding is a put by another client.
- Private resources of modes ssh and inference exist only on the server's side; the controller refuses them.
- CA reads of a Secret and of a ConfigMap of the same name in one pass fail or succeed alike.
- Truth.AcceptedRouteIsLive: assumes the status write landed and that no other client touched that very entry during the prune; a failed write leaves an older status standing.
- Convergence.CalmPassConvergesOrChangesNothing: assumes no other client acts during the prune, since what others put would be part of the final state.
- SecondPass.LandedPassRepeatsSilently: assumes the same calls succeed again and no other client in between; route names and drawn passwords are not empty.
- Status.OursCoverTheWanted: speaks of parents up to the port, which the code leaves out of its comparison.
