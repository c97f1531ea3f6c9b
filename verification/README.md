# KubeVoIP: a verified model of the dial plan and its calls

KubeVoIP is a Kubernetes operator for SIP platforms. It writes a dial plan into PostgreSQL tables; a
generated Kamailio script reads those tables for every call. This project models both sides in Dafny
and proves that they agree, from the requests an administrator makes to the place a call ends up.

Check everything with `dafny verify dfyconfig.toml`.

## How it is organised

| file | what it is about |
|---|---|
| `Common.dfy` | names, options, the database's text collation |
| `DialPlan.dfy` | the tables, the effect of one transaction, and the plan (last accepted spec of each resource) |
| `Store.dfy` | the database as a class whose methods are the operator's transactions, with loops and rollbacks; `Serve` runs a history of them |
| `Refinement.dfy` | every run of requests keeps the tables a picture of the plan; the invariants that follow |
| `Resync.dfy`, `MailboxResync.dfy`, `UserResync.dfy` | what the 30-second timer may rely on: order independence, idempotence, for mailboxes exactly when the order shows, and for users exactly when passes commit and converge |
| `Undo.dfy` | what deleting a resource undoes |
| `Like.dfy`, `RouteQuery.dfy` | `LIKE`, and the five-way route query against the documented search |
| `CallFlow.dfy` | one initial INVITE as a state machine: attempts, handlers, media, destinations |
| `Traffic.dfy` | how much it sends: answers, offers, errors, and when it is over |
| `GatewayScript.dfy` | the script's routes as they are written, over mutable variables, proved against that machine; `Serve` runs a whole transaction |
| `EndToEnd.dfy` | tables, queries and machine together: calls are decided as the plan says |
| `Dialling.dfy` | whom a call is sent to, in order: the plan's list, and that every call follows it |
| `Platform.dfy` | the same for the two classes: a call over the database as it stands |
| `Voicemail.dfy` | the voicemail migration, row numbers, PINs |
| `MediaRange.dfy`, `MediaRelay.dfy` | splitting the port range; one MediaRelay reconcile as the calls it makes |
| `StatusHistory.dfy` | `lastTransitionTime` over a whole history |
| `Mwi.dfy` | message-waiting counts |
| `Quoting.dfy` | string and SQL literals in the rendered script |
| `Controllers.dfy` | how validated resources become database arguments |

The main results, in the order a request travels:

1. `Refinement.ReachableStands`: after any sequence of reconciles, deletes and PIN changes, rolled-back
   ones included, the tables picture the plan of the accepted requests, down to old logins and to the
   name, e-mail and PIN of every voicemail user. `Refinement.PlanDeterminesTables`: nothing but the row
   numbers of voicemail users is left open, and those stay unique
   (`Voicemail.NumbersStayUniqueAfterMigration`). `Store.Database.Serve` carries this over the class.
2. `Resync.PassIsOrderIndependent`, `Resync.PassIsIdempotent` for scopes, policies, trunks and routes.
   For users, the same of passes that `UserResync.CommitsInEveryOrderIffCompatible` lets commit, and
   `UserResync.ConvergesIffNothingStuck`: repeated passes serve every user exactly when the rows asked
   for may stand together and no group of users waits for itself or for somebody left alone.
3. `RouteQuery.QueryRefinesSearch`: whatever row the database may return is the route the documented
   search finds.
4. `EndToEnd.EveryHistoryIsRoutedAsDocumented`: from the empty store, every INVITE is challenged,
   refused or relayed as documented for the caller's own policy.
5. `CallFlow.CallsTerminate`, `CallFlow.MediaIsAlwaysRight`, `Traffic.EveryBodyIsAnswered` and
   `Traffic.EveryRunsTrafficIsExact`, over every run of replies.
6. `Dialling.EveryHistoryDialsAsPlanned`: whatever is answered, a call is sent to exactly whom the last
   accepted specs say, once each and in order: the phone and then voicemail, the trunk and then its
   digest retry, or the pool. `Dialling.FallbackFollowsTheLastSpec` is the case of voicemail, and
   `Dialling.EveryMailboxMayTakeTheCall` that of a user with several fallback mailboxes.
7. `Platform.Operate`: all of these at once, for the mutable database and the mutable transaction.

Conventions and assumptions:

- One namespace per database, so the namespace column is dropped: the operator watches one namespace
  (README.md:41) and the subscriber key has no namespace (database/versions/0001_runtime_schema.py:36).
- MD5 is an arbitrary function; HA1 is the hash of A1 as in section 3.2.2.2 of RFC 2617. Text collation
  is an arbitrary ranking of names that separates different names.
- A query with `limit 1` may return any row that no other row precedes; results hold for all of them.
- Kamailio disarms a failure route when it fires, keeps the reply route, and shows the same request body
  in the failure route. Authentication, registration, relay success, digest answers, replies and
  cancellation are inputs; credentials are looked up by username and gateway, the realm of the check.
- `uniqueid` is drawn on every mailbox upsert, conflict or not, because PostgreSQL evaluates the column
  default before it meets the conflict.

Four expected properties fail. Each is stated with the exact condition under which it holds, and with
reachable tables where it does not:

- Re-syncing users need not converge. `UserResync.ConvergesIffNothingStuck` says when it does;
  `UserResync.ExchangedUsernamesNeverConverge` is the case of two users that exchange usernames.
- Deleting one of two mailboxes with the same number removes the voicemail user of both
  (`Voicemail.ServedUnlessSharedNumberDeleted`, `Voicemail.SharedNumberIsReachable`), and the order in
  which a pass reconciles such mailboxes shows (`MailboxResync.OrderShowsIffNumbersDisagree`).
- Waiting messages are counted once per mailbox of the number (`Mwi.CountsAgreeIffOneBox`,
  `Mwi.ReportsAgreeIffNumbersDiffer`, `Mwi.SharedBoxIsReachable`).
- Deleting a new user or mailbox does not always bring the tables back (`Undo.DeletingUndoesCreating`,
  `Undo.TakenLoginIsReachable`, `Undo.TakenNumberIsReachable`).

## Model

| member | source | states |
|---|---|---|
| Store.Database.Serve | kubevoip/main.py:61-110 | over any history of requests the database stays the picture of the plan with soundly numbered voicemail users, its tables are those of the specification, and the requests it commits are those the plan accepts |
| Store.Database.Perform | kubevoip/database.py:336-660 | one request, whichever it is, commits exactly when the plan accepts it and keeps the picture |
| Store.Database.ReconcileDialPolicy | kubevoip/database.py:365-377 | upserting the policy, clearing its scope rows and inserting the enumerated scopes one by one, with rollback on a repeated key, is the one-step transaction of the specification: all rows replaced, or nothing |
| Store.Database.InsertScopes | kubevoip/database.py:377 | inserting succeeds exactly when no scope repeats, and then adds each scope with its position |
| Store.Database.ReconcileSipUser | kubevoip/database.py:388-435 | the credential written first is taken back when the user row meets a unique constraint; otherwise both rows are written |
| Store.Database.DeleteSipUser | kubevoip/database.py:438-443 | afterwards the user owns no credential under any name, and every other user's row and every credential of another owner is as it was |
| Store.Database.ReconcileSipTrunk | kubevoip/database.py:446-491 | the trunk row and exactly its source networks, or nothing when a network repeats |
| Store.Database.InsertSources | kubevoip/database.py:491 | inserting succeeds exactly when no network repeats, and then adds each one |
| Store.Database.ReconcileVoicemailMailbox | kubevoip/database.py:557-645 | the number's voicemail user is named after the caller ID, or else the auth username, and has the e-mail address exactly when e-mail is enabled; it keeps its row number and PIN if it had one and starts with the number as PIN if not; all others are untouched, and no mailbox loses its voicemail user |
| Store.Database.DeleteVoicemailMailbox | kubevoip/database.py:648-660 | where every mailbox had its voicemail user, all the remaining ones still do exactly when none shares the deleted one's number |
| DialPlan.PositionsAt | kubevoip/database.py:377 | the enumerated scope rows have exactly the listed scopes, each at its index |
| Refinement.ApplyStands | kubevoip/database.py:336-660 | one transaction commits exactly when the plan accepts the request, and all tables remain the picture of the plan, voicemail users and old logins included, row numbers aside |
| Refinement.ReachableStands | kubevoip/database.py:336-660 | so do all runs from the empty schema |
| Refinement.PlanDeterminesTables | kubevoip/database.py:336-660 | a plan has only one picture: every row of every table, but for the row numbers of voicemail users and the sequence |
| Refinement.UsersOwnTheirCredentials | kubevoip/database.py:388-443 | in every reachable store each user has its own credential row with both hashes of its last accepted password; no two users of a gateway share an extension or a username; no credential lacks a live owner or holds a raw password |
| Refinement.ColumnsAreTheSpecs | kubevoip/database.py:416-645 | in every reachable store each column of a user's or mailbox's row is the field of its last accepted spec, flags as 0 and 1, and no e-mail provider unless e-mail is enabled |
| Refinement.ScopePositionsAreABijection | kubevoip/database.py:365-385 | in every reachable store a policy's scope rows are numbered 0..k-1 in spec order, and every scope row has its policy |
| Refinement.TrustedNetworksHavePolicies | kubevoip/database.py:446-499 | after validated requests each source network has its trunk, which names an inbound policy |
| Resync.PassSettles | kubevoip/database.py:345-377 | from any tables, after a pass each resource's rows are exactly those of its spec and all other rows are untouched |
| Resync.PassIsOrderIndependent | kubevoip/database.py:345-547 | any order of a pass gives the same tables |
| Resync.PassIsIdempotent | kubevoip/main.py:68 | the timer's second pass changes nothing |
| Resync.TimerChangesNothing | kubevoip/main.py:68 | repeating the last accepted spec of a live scope, policy, user, trunk or route commits and leaves every table as it is |
| MailboxResync.TimerOnMailbox | kubevoip/database.py:584-598 | repeating a live mailbox's spec draws a row number, touches no other voicemail user, and leaves its own alone exactly when the number was last set up under the same name and e-mail |
| MailboxResync.PassSettles | kubevoip/database.py:557-645 | from any tables, after a run over mailboxes each row is as asked, and each number's voicemail user has the name and e-mail of the last one with that number, keeps row number and PIN if it had them, and has the number as PIN if not |
| MailboxResync.OrderShowsIffNumbersDisagree | kubevoip/database.py:584-598 | a pass over any mailboxes ends the same in every order, row numbers aside, exactly when those that share a number agree on its name and e-mail |
| MailboxResync.MailboxPassIsIdempotent | kubevoip/main.py:68 | a second such pass, in any order, advances the sequence and changes nothing else |
| Undo.DeletingUndoesCreating | kubevoip/database.py:345-660 | deleting a new resource brings back the tables as they were before it: always for scopes, policies, trunks and routes, for a user exactly when its username was no live user's login, and for a mailbox, the drawn row number aside, exactly when its number was nobody's |
| Undo.TakenLoginIsReachable | kubevoip/database.py:388-443 | a username that its owner gave up may go to a new user, whose deletion takes the old credential along |
| Undo.TakenNumberIsReachable | kubevoip/database.py:557-660 | another mailbox's number may go to a new mailbox, whose deletion takes the voicemail user along |
| UserResync.CommitsInEveryOrderIffCompatible | database/versions/0001_runtime_schema.py:99-100 | a pass over users commits whatever its order exactly when no request has the identity of another stored user or request |
| UserResync.UserPassIsOrderIndependent | kubevoip/database.py:388-435 | such a pass ends in the same tables in every order, credentials included |
| UserResync.UserPassIsIdempotent | kubevoip/database.py:388-435 | and a second one, in any order, changes nothing |
| UserResync.ConvergesIffNothingStuck | kubevoip/database.py:388-435 | as many passes as there are users, each in any order, give every user its row and credential exactly when no two rows asked for clash and no group of users is stuck on itself or on users left alone; otherwise no number of passes does |
| UserResync.StoredRowsAreApart | database/versions/0001_runtime_schema.py:99-100 | the rows of every store that pictures a plan satisfy the unique constraints, as that result needs |
| UserResync.MutualBlock | kubevoip/database.py:388-435 | two users whose requests clash with each other's stored rows keep those rows, whatever is reconciled how often |
| UserResync.ExchangedUsernamesNeverConverge | kubevoip/database.py:388-435 | any two users of a gateway can be created, and once their specs exchange usernames neither row ever changes |
| Like.PrefixPattern | kubevoip/platform_render.py:147-148 | a literal followed by `%` matches exactly the texts it is a prefix of |
| Like.SuffixPattern | kubevoip/database.py:671-673 | `%` followed by a literal matches exactly the texts that end with it |
| RouteQuery.MatchIsPrefixTest | kubevoip/platform_render.py:138-148 | over the permitted alphabet a route matches exactly when it is the number, or a "..." pattern whose stem the number starts with |
| RouteQuery.InOrderIsSorted | docs/networking.md:36-40 | the documented order lists exactly the routes of a scope, each once, sorted by priority and name |
| RouteQuery.FirstRowIsFoundRoute | kubevoip/platform_render.py:123-150 | any row the join, sort and limit may put first is the route of the nested search; ties are only between mailboxes of one route |
| RouteQuery.EmptyJoinMeansNoRoute | kubevoip/platform_render.py:123-150 | the join is empty exactly when the search finds nothing |
| RouteQuery.QueryRefinesSearch | kubevoip/platform_render.py:123-150 | every possible answer carries the found route's columns from the plan, under a scope of the policy |
| RouteQuery.EveryMailboxMayAnswer | kubevoip/platform_render.py:134-135 | conversely each fallback mailbox of the found route is a possible answer |
| RouteQuery.AnAnswerExists | kubevoip/platform_render.py:123-150 | the query always has an answer |
| CallFlow.ExactlyOneOutcome | kubevoip/templates/kamailio.cfg.j2:102-123 | an initial INVITE is challenged, refused or relayed, exactly once |
| CallFlow.ReactAttempts | kubevoip/templates/kamailio.cfg.j2:336-399 | a final answer spends the one spare attempt of an armed handler and never re-arms one |
| CallFlow.CallsTerminate | kubevoip/templates/kamailio.cfg.j2:336-399 | in every run at most two attempts are made, and two final answers end the call |
| CallFlow.MediaIsAlwaysRight | kubevoip/templates/kamailio.cfg.j2:248-262 | in every run each RTPengine answer reverses the latest offer, and each relay follows an offer whose directions suit its destination |
| CallFlow.DestinationsAreExact | kubevoip/templates/kamailio.cfg.j2:373-399 | the destinations of a run, in order, are those so far and then at most the one its first final answer asks for |
| Traffic.EveryBodyIsAnswered | kubevoip/templates/kamailio.cfg.j2:420-432 | over every run, each reply with a body is answered to RTPengine, once, if the call was relayed at all, and nothing else is |
| Traffic.EveryRunsTrafficIsExact | kubevoip/templates/kamailio.cfg.j2:248-371 | besides that, media is offered once for each destination but a digest retry if the request has a body, and an error is sent exactly for a first relay or a relay to voicemail that fails |
| Traffic.EveryCallEndsOnTime | kubevoip/templates/kamailio.cfg.j2:327-399 | an attempt is outstanding exactly until the first one is settled, or the second one if there is one and it was relayed |
| GatewayScript.Transaction.Serve | kubevoip/templates/kamailio.cfg.j2:59-432 | a whole transaction over the script's variables ends as the machine does, with at most two attempts and fitting media, every reply with a body answered, offers and errors as due, and an attempt outstanding exactly as long as it should be |
| GatewayScript.Transaction.RequestRoute | kubevoip/templates/kamailio.cfg.j2:59-124 | the route's tests, early exits and sub-routes end in the start state of the machine's decision |
| GatewayScript.Transaction.DetectTrustedTrunk | kubevoip/templates/kamailio.cfg.j2:227-236 | a matching trunk sets the flag and the caller policy, and nothing else changes them |
| GatewayScript.Transaction.RouteInvite | kubevoip/templates/kamailio.cfg.j2:264-325 | loading the row's columns and dispatching on the target kind realises the decision for that row |
| GatewayScript.Transaction.RelayUser | kubevoip/templates/kamailio.cfg.j2:336-348 | arms voicemail fallback and sets the timer only when a mailbox is loaded, sets the reply route, relays to the phone, and answers with an error if that fails |
| GatewayScript.Transaction.SendToVoicemail | kubevoip/templates/kamailio.cfg.j2:360-371 | re-offers media for Asterisk, sets the reply route and relays to the loaded host, extension and mailbox without arming a handler |
| GatewayScript.Transaction.FinalFailure | kubevoip/templates/kamailio.cfg.j2:373-399 | disarming and running a failure route is the machine's reaction |
| GatewayScript.Transaction.ManageReply | kubevoip/templates/kamailio.cfg.j2:420-432 | a reply with a body gets one answer, which reverses the directions of the latest offer sent, whatever leg that was for; any other reply gets none |
| EndToEnd.TrustedQueryFollowsPlan | kubevoip/platform_render.py:86-96 | the query finds the first trunk by name that trusts the source, with a policy that is never null |
| EndToEnd.CallerQueryFollowsPlan | kubevoip/platform_render.py:97-102 | the query finds the policy of the user with that name, and none exactly when there is no such user |
| EndToEnd.PolicyBelongsToCredential | kubevoip/templates/kamailio.cfg.j2:102-110 | when a username yields a policy, the credential stored for it at the gateway is of the user whose policy it is, with the hash of that user's last accepted password |
| EndToEnd.FaithfulDatabaseExists | kubevoip/platform_render.py:86-150 | every store that pictures a plan has a database answering the three queries as SQL allows, so results about all of them are about some |
| EndToEnd.PolicyIsUnique | docs/networking.md:36-40 | the plan gives a caller at most one policy |
| EndToEnd.InvitesFollowThePlan | kubevoip/templates/kamailio.cfg.j2:59-325 | whatever the database answers, the decision is the documented one for the caller's policy |
| EndToEnd.EveryHistoryIsRoutedAsDocumented | docs/networking.md:32-40 | the same after every history of validated requests; an unsupported target never occurs |
| Dialling.DialsAsPlanned | kubevoip/templates/kamailio.cfg.j2:264-399 | for every kind of target, whatever is answered, a call is sent to exactly the plan's list of destinations, once each and in order; a relay that fails is followed by none |
| Dialling.VoicemailIsExact | kubevoip/templates/kamailio.cfg.j2:275-297 | a call to a user is sent to a mailbox exactly when it is the fallback mailbox that takes the call and the flag for the observed cause is set |
| Dialling.EveryHistoryDialsAsPlanned | docs/networking.md:32-40 | after every history of validated requests a call with a permitted route is sent to exactly whom the last accepted specs say, one of the user's fallback mailboxes taking it if there is any |
| Dialling.FallbackFollowsTheLastSpec | kubevoip/templates/kamailio.cfg.j2:381-399 | so it reaches voicemail exactly when the last accepted spec of the mailbox that takes it covers the cause observed |
| Dialling.EveryMailboxMayTakeTheCall | kubevoip/platform_render.py:134-135 | with several fallback mailboxes, each takes the call for some database that answers as SQL allows |
| Dialling.RingingTimeIsThePlans | kubevoip/templates/kamailio.cfg.j2:338-342 | the phone rings for the timeout of the mailbox that takes the call, in milliseconds, between 1 and 120 seconds, and untimed without fallback |
| Dialling.DigestRetryIsExact | kubevoip/templates/kamailio.cfg.j2:373-379 | a trunk call is retried exactly when it was relayed and meets an uncanceled 401 or 407, and the trunk's spec has digest credentials; it carries those |
| Platform.PlaceCall | kubevoip/templates/kamailio.cfg.j2:59-432 | a call over the database as it stands is decided as documented for its plan, a challenge or refusal being all that is sent, and otherwise dials exactly the plan's list of destinations in order, with every reply's body answered |
| Platform.Operate | kubevoip/main.py:61-110 | the same after any history of validated requests from an empty database, accepted or rolled back |
| Voicemail.VoicemailTable.Upgrade | database/versions/0003_voicemail_realtime_uniqueid.py:13-36 | the rows are numbered 1..n in the order seen, the sequence continues at n+1, and neither the not-null change nor the new primary key can fail |
| Voicemail.RowNumbersAreOneToN | database/versions/0003_voicemail_realtime_uniqueid.py:18-29 | row numbers are the positions from one, distinct and at most n |
| Voicemail.MaxId | database/versions/0003_voicemail_realtime_uniqueid.py:31 | the largest number given is n, and 0 when there are no rows |
| Voicemail.NumbersStayUniqueAfterMigration | database/versions/0003_voicemail_realtime_uniqueid.py:16-36 | whatever rows the migration numbered, no later run of requests gives two voicemail users the same number or one beyond the sequence |
| Voicemail.OneRequestAndThePin | kubevoip/database.py:584-660 | a voicemail user disappears exactly when a mailbox with its number is deleted; otherwise number and PIN stay |
| Voicemail.PinSurvivesReconciles | kubevoip/database.py:584-598 | over any run that spares it, the PIN is the one its caller chose last |
| Voicemail.PinsOfEveryHistory | kubevoip/database.py:584-660 | in every history a voicemail user's PIN is its number, changed as its caller chose since the request that created it, and its row number is where the sequence then stood |
| Voicemail.ServedUnlessSharedNumberDeleted | kubevoip/database.py:648-660 | a live mailbox loses its voicemail user exactly when a mailbox sharing its number is deleted |
| Voicemail.SharedNumberIsReachable | kubevoip/database.py:584-660 | any two mailboxes may share a number; after one is deleted the other has no voicemail user, and its next reconcile starts one with a fresh PIN |
| MediaRange.PartitionRange | kubevoip/platform_resources.py:64-72 | the loop yields piece i from start + i*size + min(i, remainder) up to the next piece |
| MediaRange.PiecesAreFair | kubevoip/platform_resources.py:64-72 | pieces are non-empty, inside the range, adjacent, in order, and differ by at most one port with larger ones first |
| MediaRange.EveryPortHasOneOwner | kubevoip/platform_resources.py:64-72 | a port has an owner exactly when it is in the range, and then only one |
| MediaRelay.Cluster.ReconcileMediaRelay | kubevoip/platform_controller.py:149-185 | the calls made are those of the specified script, or a proper prefix of it ending at a failed call; the outcome names the first replica without an address |
| MediaRelay.RtpPorts | kubevoip/platform_resources.py:97-100 | a Service lists each port of its piece, once and in order |
| MediaRelay.RunsAreOrdered | kubevoip/platform_controller.py:149-185 | every call of every run is determined by its place: a Service per replica, then an address read per replica, then a Service and a Deployment per replica, the latter only when every replica resolved, with its address and ports |
| MediaRelay.RunsStopAtTheFirstWithout | kubevoip/platform_controller.py:157-185 | a run that no call cuts short goes to the first replica without an address, or through one Service and one Deployment for each |
| MediaRelay.OneDeploymentPerReplica | kubevoip/platform_controller.py:149-185 | an uninterrupted run deploys each replica exactly once if all resolve, and never otherwise |
| MediaRelay.PortOwnersAgree | kubevoip/platform_resources.py:82-136 | each port has one owner: over the calls of any run it is in exactly the owner's Services and exactly the owner's Deployment bounds, and in the owner's reported range alone |
| MediaRelay.AddressOrder | kubevoip/platform_controller.py:68-82 | the first non-empty of the replica's own override, the component's, the profile's and the Service's address wins, with its source; the cluster name only for ClusterIP in Service mode |
| MediaRelay.AddressesReachTheCalls | kubevoip/platform_controller.py:155-185 | in every run each Deployment is given its own replica's address; a finished run reports each replica with that address and its source, or names the first replica without one |
| StatusHistory.MakeCondition | kubevoip/status.py:7-27 | the loop takes the time of the first previous condition that says the same, else the clock |
| StatusHistory.ResourceStatus.Live | kubevoip/main.py:30-58 | a new resource's status after any history of reconciles shows the last outcome, and each condition is timed from the start of its stretch |
| StatusHistory.ResourceStatus.Update | kubevoip/main.py:30-58 | Ready comes first and agrees with the ready field; a success has its components after it in order, a load-balancer wait the unresolved address, an error nothing, each with its own reason and text, phase and generation |
| StatusHistory.EveryTimeIsAStart | kubevoip/status.py:7-63 | in every history each stored condition has an unbroken stretch of equal claims up to now, and its time is the clock read at the start of it |
| StatusHistory.ReadyKeepsItsTime | kubevoip/status.py:30-41 | Ready is in every status, and its time changes exactly when its own claim changes |
| StatusHistory.ErrorsRestartComponents | kubevoip/status.py:30-41 | a component condition restarts after an error, whatever it said before |
| Mwi.GatewayCountsPerBox | kubevoip/platform_render.py:108-117 | the grouped left join counts each message once per mailbox of the group |
| Mwi.CountsAgreeIffOneBox | kubevoip/database.py:663-680 | for a given number, the gateway's counts equal the operator's for all messages exactly when the user has one mailbox of that number |
| Mwi.OneMailboxOneReport | kubevoip/platform_render.py:108-118 | a user with one mailbox on a gateway is reported exactly that mailbox's number with its messages in INBOX, Old and Urgent in this order, whatever boxes there are on other gateways |
| Mwi.NoMailboxNoReport | kubevoip/platform_render.py:108-118 | nothing is reported exactly for a user without a mailbox on the gateway |
| Mwi.ReportsAgreeIffNumbersDiffer | kubevoip/platform_render.py:108-118 | every row the query may report has the operator's counts for its number, for all messages, exactly when no two of the user's mailboxes share a number |
| Mwi.SharedBoxIsReachable | kubevoip/platform_render.py:108-117 | a user may have two mailboxes of one number, and then the counts differ for some messages |
| Mwi.CountsAreOfDifferentMessages | kubevoip/database.py:671-673 | the three classes are disjoint and sum to at most the mailbox's messages |
| Quoting.TwoReplacesAreOneEscape | kubevoip/platform_render.py:56-57 | the two replaces in turn escape each character once |
| Quoting.DoubleQuotedRoundTrip | kubevoip/platform_render.py:56-57 | a double-quoted literal reads back as its value and stops at its own quote, whatever follows |
| Quoting.SingleQuotedRoundTrip | kubevoip/platform_render.py:84-85 | an SQL literal reads back as its value exactly when no further quote follows it |
| Controllers.RouteArguments | kubevoip/platform_controller.py:412-444 | a validated route yields the one kind its target names, with that reference, and extension and the pool's cluster host for pools only |
| Controllers.TrunkArguments | kubevoip/platform_controller.py:354-386 | a validated trunk yields a valid request with its own gateway, address, networks, policy and caller ID; user name, realm and hash are those of the login if there is one, and absent otherwise |
| Controllers.MailboxArguments | kubevoip/platform_controller.py:511-551 | accepted exactly for a voicemail pool on the gateway's database; the number is the resource's own, or else the user's extension, never empty; the call goes to the pool's cluster host and deposit extension; all other arguments are the user's or the resource's |

## Left out

- GatewayScript.Transaction.RequestRoute: for a refused call only what was sent is stated, since variables loaded before the refusal are not used again.
- StatusHistory.ResourceStatus.Update: an exception the handler does not catch writes no status, and detail keys outside conditions, phase and readiness are not modelled.
- MediaRelay.Cluster.ReconcileMediaRelay: starts after the NetworkProfile has been read, and stops before ready replicas are counted.
- Rows are modelled without column length limits and without PostgreSQL's rejection of networks with host bits set, which the resource model accepts.
- A source network stands for its canonical text: two spellings of one network in a trunk's list, which the resource model accepts and the primary key refuses, are the same string here and so a repeat.
- CANCEL, BYE, re-INVITE, REGISTER, SUBSCRIBE, PUBLISH and other requests than an initial INVITE; sending NOTIFY for waiting messages.
- The gateway and Asterisk pool reconciles, whose address choice is that of the media relay with fewer cases.
- Cleanup of a deleted resource's database when its gateway is already gone, and waiting on missing Kubernetes dependencies.
- Running the migrations, and all of them but the voicemail numbering: guarded table creation.
- Concurrent transactions: each runs alone, as the operator runs one active pod.
- What Kamailio, RTPengine, Asterisk, PostgreSQL and Kubernetes do beyond the assumptions above; MD5, SHA-256, address and host name syntax.
- Rendering of Kubernetes objects and of the static parts of configuration files.
